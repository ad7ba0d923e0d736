/** The uncompressed archive of a few flat files: ustar headers, written and read a block at a time. */
module Tar {
  import opened Foundations
  import opened Octal

  type Byte = b: int | 0 <= b < 256

  datatype File = File(name: string, bytes: seq<Byte>)

  const BLOCK := 512

  /** The length of a buffer is a safe integer. */
  const MAX_SAFE_INTEGER := 0x1F_FFFF_FFFF_FFFF

  predicate NameStart(c: char) {
    'A' <= c <= 'Z' || 'a' <= c <= 'z' || '0' <= c <= '9' || c == '_' || c == '-'
  }

  /** `FLAT_NAME`: no folder, no leading dot, at most 100 characters. */
  predicate FlatName(name: string) {
    && 1 <= |name| <= 100 && NameStart(name[0])
    && forall i :: 1 <= i < |name| ==> NameStart(name[i]) || name[i] == '.'
  }

  predicate Ascii(s: string) {
    forall i :: 0 <= i < |s| ==> s[i] as int < 128
  }

  function Encode(s: string): (r: seq<Byte>)
    requires Ascii(s)
    ensures |r| == |s| && forall i :: 0 <= i < |s| ==> r[i] == s[i] as int
  {
    seq(|s|, i requires 0 <= i < |s| => s[i] as int)
  }

  /** `toString("ascii")` drops the high bit. */
  function Decode(b: seq<Byte>): (r: string)
    ensures |r| == |b| && forall i :: 0 <= i < |b| ==> r[i] == (b[i] % 128) as char
  {
    seq(|b|, i requires 0 <= i < |b| => (b[i] % 128) as char)
  }

  function Nulls(n: nat): (r: seq<Byte>)
    ensures |r| == n && forall i :: 0 <= i < n ==> r[i] == 0
  {
    seq(n, _ => 0)
  }

  // ── The header ──

  /** `octal`: padded to one less than the width, with a null behind. */
  function OctalField(v: nat, width: nat): seq<Byte>
    requires width > 0
  {
    DigitsAreAscii(v, width - 1);
    Encode(Padded(Digits(v), width - 1)) + [0]
  }

  lemma DigitsAreAscii(v: nat, width: nat)
    ensures Ascii(Padded(Digits(v), width))
  {
    ValueOfPadded(v, width);
  }

  const MODE: seq<Byte> := [48, 48, 48, 48, 54, 52, 52, 0]
  const ZERO_8: seq<Byte> := [48, 48, 48, 48, 48, 48, 48, 0]
  const ZERO_12: seq<Byte> := [48, 48, 48, 48, 48, 48, 48, 48, 48, 48, 48, 0]
  const MAGIC: seq<Byte> := [117, 115, 116, 97, 114, 0]

  /** Byte `i` of the header, with spaces where the checksum goes. A size field too long for its place is cut
      off by the modification time after it. */
  function BlankAt(name: string, size: nat, i: nat): Byte
    requires FlatName(name)
  {
    if i < 100 then if i < |name| then name[i] as int else 0
    else if i < 108 then MODE[i - 100]
    else if i < 116 then ZERO_8[i - 108]
    else if i < 124 then ZERO_8[i - 116]
    else if i < 136 then SizeAt(size, i - 124)
    else if i < 148 then ZERO_12[i - 136]
    else if i < 156 then 0x20
    else if i == 156 then 48
    else if 257 <= i < 263 then MAGIC[i - 257]
    else if 263 <= i < 265 then 48
    else 0
  }

  function SizeAt(size: nat, k: nat): Byte
    requires k < 12
  {
    OctalField(size, 12)[k]
  }

  function Blank(name: string, size: nat): (h: seq<Byte>)
    requires FlatName(name)
    ensures |h| == BLOCK && forall i :: 0 <= i < BLOCK ==> h[i] == BlankAt(name, size, i)
  {
    seq(BLOCK, i requires 0 <= i < BLOCK => BlankAt(name, size, i))
  }

  /** The sum of the first `n` bytes of a header, its checksum read as spaces. */
  function CheckSum(h: seq<Byte>, n: nat): (r: nat)
    requires n <= |h|
    ensures r <= 255 * n
  {
    if n == 0 then 0 else CheckSum(h, n - 1) + if 148 <= n - 1 < 156 then 0x20 else h[n - 1]
  }

  function SumField(sum: nat): seq<Byte> {
    DigitsAreAscii(sum, 6);
    Encode(Padded(Digits(sum), 6)) + [0, 0x20]
  }

  function Header(name: string, size: nat): (h: seq<Byte>)
    requires FlatName(name)
    ensures |h| == BLOCK
    ensures forall i :: 0 <= i < 148 || 156 <= i < BLOCK ==> h[i] == BlankAt(name, size, i)
    ensures h[148..156] == SumField(CheckSum(Blank(name, size), BLOCK))
  {
    SumFits(Blank(name, size));
    var b := Blank(name, size);
    b[..148] + SumField(CheckSum(b, BLOCK)) + b[156..]
  }

  predicate Says(h: seq<Byte>, at: nat, text: string) {
    at + |text| <= |h| && forall i | 0 <= i < |text| :: h[at + i] == text[i] as int
  }

  /** The header is a ustar header of a regular file anyone may read: its fields, written out. */
  lemma HeaderIsUstar(name: string, size: nat)
    requires FlatName(name)
    ensures
      var h := Header(name, size);
      && Says(h, 0, name) && (forall i | |name| <= i < 100 :: h[i] == 0)
      && Says(h, 100, "0000644") && h[107] == 0
      && Says(h, 108, "0000000") && h[115] == 0 && Says(h, 116, "0000000") && h[123] == 0
      && Says(h, 136, "00000000000") && h[147] == 0
      && Says(h, 156, "0") && (forall i | 157 <= i < 257 :: h[i] == 0)
      && Says(h, 257, "ustar") && h[262] == 0 && Says(h, 263, "00") && (forall i | 265 <= i < 512 :: h[i] == 0)
  {
    hide Header, SizeAt;
    var h := Header(name, size);
    assert Says(h, 0, name);
    forall i | 0 <= i < BLOCK && !(148 <= i < 156) ensures h[i] == BlankAt(name, size, i) {}
    assert Says(h, 100, "0000644") by {
      forall i | 0 <= i < 7 ensures h[100 + i] == "0000644"[i] as int { assert h[100 + i] == MODE[i]; }
    }
    assert Says(h, 257, "ustar") by {
      forall i | 0 <= i < 5 ensures h[257 + i] == "ustar"[i] as int { assert h[257 + i] == MAGIC[i]; }
    }
  }

  /** A flat name has at most a hundred characters, no separator and no leading dot; a hundred letters are one, and so
      is a name with a dot, a dash and an underscore inside. */
  lemma FlatNamesAre(name: string)
    ensures FlatName(name) ==>
      1 <= |name| <= 100 && name[0] != '.' && forall i | 0 <= i < |name| :: name[i] !in {'/', '\\', ':', ' ', '\0'}
    ensures |name| == 100 && (forall i | 0 <= i < 100 :: 'a' <= name[i] <= 'z') ==> FlatName(name)
    ensures FlatName("Engine-1_2.tgz")
  {}

  /** The checksum always fits six octal digits. */
  lemma SumFits(h: seq<Byte>)
    requires |h| == BLOCK
    ensures |Digits(CheckSum(h, BLOCK))| <= 6 && |SumField(CheckSum(h, BLOCK))| == 8
  {
    LengthOfDigits(CheckSum(h, BLOCK), 6);
    assert Power(6) == 262144;
  }

  lemma {:induction false} CheckSumSkipsItself(a: seq<Byte>, b: seq<Byte>, n: nat)
    requires n <= |a| && n <= |b|
    requires forall i :: 0 <= i < n && !(148 <= i < 156) ==> a[i] == b[i]
    ensures CheckSum(a, n) == CheckSum(b, n)
  {
    if n > 0 {
      CheckSumSkipsItself(a, b, n - 1);
    }
  }

  // ── Writing the header in place ──

  /** `Buffer.copy`: as much of `source` as fits from `at` on. */
  method Copy(h: array<Byte>, at: nat, source: seq<Byte>)
    requires at <= h.Length
    modifies h
    ensures forall i :: 0 <= i < h.Length ==> h[i] == if at <= i < at + |source| then source[i - at] else old(h[i])
  {
    var k := 0;
    while k < |source| && at + k < h.Length
      invariant 0 <= k <= |source| && at + k <= h.Length
      invariant forall i :: 0 <= i < h.Length ==> h[i] == if at <= i < at + k then source[i - at] else old(h[i])
    {
      h[at + k] := source[k];
      k := k + 1;
    }
  }

  method Fill(h: array<Byte>, value: Byte, start: nat, end: nat)
    requires start <= end <= h.Length
    modifies h
    ensures forall i :: 0 <= i < h.Length ==> h[i] == if start <= i < end then value else old(h[i])
  {
    for k := start to end
      invariant forall i :: 0 <= i < h.Length ==> h[i] == if start <= i < k then value else old(h[i])
    {
      h[k] := value;
    }
  }

  /** The fields before the checksum; a long size runs into the modification time, which is written over it. */
  method WriteFields(h: array<Byte>, name: string, size: nat)
    requires h.Length == BLOCK && FlatName(name) && size <= MAX_SAFE_INTEGER
    requires forall i :: 0 <= i < BLOCK ==> h[i] == 0
    modifies h
    ensures forall i :: 0 <= i < 148 ==> h[i] == BlankAt(name, size, i)
    ensures forall i :: 148 <= i < BLOCK ==> h[i] == 0
  {
    SizeFieldFits(size);
    Copy(h, 0, Encode(name));
    Copy(h, 100, MODE);
    Copy(h, 108, ZERO_8);
    Copy(h, 116, ZERO_8);
    Copy(h, 124, OctalField(size, 12));
    Copy(h, 136, ZERO_12);
  }

  lemma SizeFieldFits(size: nat)
    requires size <= MAX_SAFE_INTEGER
    ensures 12 <= |OctalField(size, 12)| <= 19
  {
    LengthOfDigits(size, 18);
    assert Power(9) == 134217728;
    PowerOfSum(9, 9);
  }

  lemma {:induction false} PowerOfSum(a: nat, b: nat)
    ensures Power(a + b) == Power(a) * Power(b)
  {
    if a > 0 {
      PowerOfSum(a - 1, b);
    }
  }

  method WriteHeader(name: string, size: nat) returns (h: array<Byte>)
    requires FlatName(name) && size <= MAX_SAFE_INTEGER
    ensures fresh(h) && h[..] == Header(name, size)
  {
    h := new Byte[BLOCK](_ => 0);
    WriteFields(h, name, size);
    Fill(h, 0x20, 148, 156);
    Copy(h, 156, [48]);
    Copy(h, 257, MAGIC);
    Copy(h, 263, [48, 48]);
    assert h[..] == Blank(name, size);
    var sum: nat := 0;
    for i := 0 to BLOCK
      invariant h[..] == Blank(name, size)
      invariant sum == CheckSum(Blank(name, size), i)
    {
      sum := sum + h[i];
    }
    SumFits(Blank(name, size));
    ghost var blank := h[..];
    Copy(h, 148, SumField(sum));
    assert h[148..156] == SumField(sum);
    assert h[..] == Header(name, size);
  }
}
