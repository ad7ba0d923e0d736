/** Numbers as octal text: how the archive writes them and how it reads them back. */
module Octal {
  import opened Foundations

  predicate IsDigit(c: char) {
    '0' <= c <= '7'
  }

  function Digit(d: nat): char
    requires d < 8
  {
    '0' + d as char
  }

  function DigitValue(c: char): (r: nat)
    requires IsDigit(c)
    ensures r < 8 && Digit(r) == c
  {
    (c - '0') as nat
  }

  /** `toString(8)`. */
  function Digits(v: nat): (r: string)
    ensures r != []
  {
    if v < 8 then [Digit(v)] else Digits(v / 8) + [Digit(v % 8)]
  }

  function Zeros(n: nat): (r: string)
    ensures |r| == n && forall i :: 0 <= i < n ==> r[i] == '0'
  {
    seq(n, _ => '0')
  }

  /** `padStart`. */
  function Padded(s: string, width: nat): (r: string)
    ensures |r| == Max(|s|, width)
  {
    Zeros(Max(0, width - |s|)) + s
  }

  function Value(s: string): nat
    requires forall c :: c in s ==> IsDigit(c)
  {
    if s == [] then 0 else Value(s[..|s| - 1]) * 8 + DigitValue(s[|s| - 1])
  }

  function Power(n: nat): (r: nat)
    ensures r >= 1
  {
    if n == 0 then 1 else 8 * Power(n - 1)
  }

  predicate AllDigits(s: string) {
    forall i :: 0 <= i < |s| ==> IsDigit(s[i])
  }

  // ── Reading ──

  function DigitsPrefix(s: string): (r: string)
    ensures forall c :: c in r ==> IsDigit(c)
  {
    if s == [] || !IsDigit(s[0]) then [] else [s[0]] + DigitsPrefix(s[1..])
  }

  predicate IsSpace(c: char) {
    c == ' ' || '\t' <= c <= '\r'
  }

  function TrimStart(s: string): string {
    if s != [] && IsSpace(s[0]) then TrimStart(s[1..]) else s
  }

  function TrimEnd(s: string): string {
    if s != [] && IsSpace(s[|s| - 1]) then TrimEnd(s[..|s| - 1]) else s
  }

  function Trim(s: string): string {
    TrimEnd(TrimStart(s))
  }

  /** `Number.parseInt(s, 8)` on trimmed text; None is NaN. */
  function ParseInt(s: string): Option<int> {
    var negative := s != [] && s[0] == '-';
    var digits := DigitsPrefix(if s != [] && (s[0] == '-' || s[0] == '+') then s[1..] else s);
    if digits == [] then None
    else
      var v: int := Value(digits);
      Some(if negative then -v else v)
  }

  // ── Reading back what was written ──

  lemma {:induction false} DigitsAreDigits(v: nat)
    ensures AllDigits(Digits(v))
  {
    if v >= 8 {
      DigitsAreDigits(v / 8);
    }
  }

  lemma {:induction false} ValueOfDigits(v: nat)
    ensures AllDigits(Digits(v)) && Value(Digits(v)) == v
  {
    DigitsAreDigits(v);
    if v >= 8 {
      ValueOfDigits(v / 8);
      assert Digits(v)[..|Digits(v)| - 1] == Digits(v / 8);
    } else {
      assert Digits(v)[..0] == [];
    }
  }

  lemma {:induction false} ValueOfZeros(n: nat, s: string)
    requires AllDigits(s)
    ensures AllDigits(Zeros(n) + s) && Value(Zeros(n) + s) == Value(s)
    decreases |s|, n
  {
    var t := Zeros(n) + s;
    if s == [] {
      if n > 0 {
        ValueOfZeros(n - 1, []);
        assert t[..n - 1] == Zeros(n - 1) + [];
      } else {
        assert t == s;
      }
    } else {
      var m := |s| - 1;
      ValueOfZeros(n, s[..m]);
      assert t[..|t| - 1] == Zeros(n) + s[..m];
    }
  }

  lemma {:induction false} ValueOfPadded(v: nat, width: nat)
    ensures AllDigits(Padded(Digits(v), width)) && Value(Padded(Digits(v), width)) == v
  {
    ValueOfDigits(v);
    ValueOfZeros(Max(0, width - |Digits(v)|), Digits(v));
  }

  /** A number has at most `n` digits exactly when it is below `Power(n)`. */
  lemma {:induction false} LengthOfDigits(v: nat, n: nat)
    requires n > 0
    ensures |Digits(v)| <= n <==> v < Power(n)
    decreases n
  {
    if v >= 8 {
      if n == 1 {
        assert Power(1) == 8 by { assert Power(0) == 1; }
      } else {
        LengthOfDigits(v / 8, n - 1);
      }
    } else {
      PowerGrows(n);
    }
  }

  lemma {:induction false} PowerGrows(n: nat)
    requires n > 0
    ensures Power(n) >= 8
  {
    if n > 1 {
      PowerGrows(n - 1);
    } else {
      assert Power(0) == 1;
    }
  }

  lemma {:induction false} PrefixOfDigits(s: string)
    requires AllDigits(s)
    ensures DigitsPrefix(s) == s
  {
    if s != [] {
      PrefixOfDigits(s[1..]);
    }
  }

  /** Digits are read back whole: nothing to trim, no sign. */
  lemma {:induction false} ParsesDigits(s: string)
    requires AllDigits(s) && s != []
    ensures Trim(s) == s && ParseInt(s) == Some(Value(s))
  {
    assert IsDigit(s[0]) && IsDigit(s[|s| - 1]);
    PrefixOfDigits(s);
  }

  /** The first digits of a number that has more of them are a smaller number. */
  lemma {:induction false} FewerDigitsAreLess(s: string, n: nat)
    requires AllDigits(s) && n < |s| && Value(s) > 0
    ensures Value(s[..n]) < Value(s)
    decreases |s|
  {
    var m := |s| - 1;
    if n < m {
      if Value(s[..m]) > 0 {
        FewerDigitsAreLess(s[..m], n);
        assert s[..m][..n] == s[..n];
      } else {
        NoDigitsAreMore(s[..m], n);
        assert s[..m][..n] == s[..n];
      }
    }
  }

  lemma {:induction false} NoDigitsAreMore(s: string, n: nat)
    requires AllDigits(s) && n <= |s|
    ensures Value(s[..n]) <= Value(s)
    decreases |s|
  {
    if n < |s| {
      var m := |s| - 1;
      NoDigitsAreMore(s[..m], n);
      assert s[..m][..n] == s[..n];
    } else {
      assert s[..n] == s;
    }
  }

  lemma {:induction false} DigitsThenMore(s: string, more: string)
    requires AllDigits(s) && (more != [] ==> !IsDigit(more[0]))
    ensures DigitsPrefix(s + more) == s
    decreases |s|
  {
    if s == [] {
      assert s + more == more;
    } else {
      assert (s + more)[1..] == s[1..] + more;
      DigitsThenMore(s[1..], more);
    }
  }

  /** A sign counts, and reading stops at the first character that is no octal digit; without a digit there is no
      number. */
  lemma {:induction false} ReadsUpToANonDigit(s: string, more: string)
    requires AllDigits(s) && (more != [] ==> !IsDigit(more[0]))
    ensures s != [] ==> ParseInt(s + more) == Some(Value(s) as int)
    ensures s != [] ==> ParseInt("+" + s + more) == Some(Value(s) as int)
    ensures s != [] ==> ParseInt("-" + s + more).Some? && ParseInt("-" + s + more).value + Value(s) == 0
    ensures s == [] && (more == [] || (more[0] != '-' && more[0] != '+')) ==> ParseInt(more) == None
  {
    DigitsThenMore(s, more);
    assert ("-" + s + more)[1..] == s + more && ("+" + s + more)[1..] == s + more;
    assert s != [] ==> IsDigit((s + more)[0]);
    assert s == [] ==> s + more == more;
  }

  predicate AllBlank(s: string) {
    forall i | 0 <= i < |s| :: s[i] in {' ', '\t', '\n', '\U{B}', '\U{C}', '\r'}
  }

  /** White space around digits is trimmed away. */
  lemma {:induction false} BlanksAreTrimmed(left: string, s: string, right: string)
    requires AllBlank(left) && AllBlank(right) && AllDigits(s) && s != []
    ensures Trim(left + s + right) == s
    decreases |left| + |right|
  {
    if left != [] {
      assert (left + s + right)[1..] == left[1..] + s + right;
      BlanksAreTrimmed(left[1..], s, right);
      assert TrimStart(left + s + right) == TrimStart(left[1..] + s + right);
    } else {
      assert left + s + right == s + right && IsDigit(s[0]);
      BlanksBehind(s, right);
    }
  }

  lemma {:induction false} BlanksBehind(s: string, right: string)
    requires AllBlank(right) && AllDigits(s) && s != []
    ensures TrimEnd(s + right) == s
    decreases |right|
  {
    if right == [] {
      assert s + right == s && IsDigit(s[|s| - 1]);
    } else {
      assert (s + right)[..|s + right| - 1] == s + right[..|right| - 1];
      BlanksBehind(s, right[..|right| - 1]);
    }
  }
}
