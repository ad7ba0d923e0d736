/** The paths written into autostart entries and launchers, and the readers that get them back: XML entities in
    a property list, systemd's quoting in a unit, and the shell's in a launcher. */
module Launchers {
  import opened Foundations

  // ── Replacing ──

  /** A global replacement of the characters `f` maps to something else. */
  function MapChars(s: string, f: char -> string): string {
    if s == [] then [] else f(s[0]) + MapChars(s[1..], f)
  }

  /** `replace` with a global pattern that is literal text: matches from the left, never overlapping. */
  function ReplaceAll(s: string, pattern: string, with: string): string
    requires pattern != []
    decreases |s|
  {
    if s == [] then []
    else if pattern <= s then with + ReplaceAll(s[|pattern|..], pattern, with)
    else [s[0]] + ReplaceAll(s[1..], pattern, with)
  }

  lemma {:induction false} ReplaceHere(pattern: string, with: string, rest: string)
    requires pattern != []
    ensures ReplaceAll(pattern + rest, pattern, with) == with + ReplaceAll(rest, pattern, with)
  {
    assert (pattern + rest)[|pattern|..] == rest;
  }

  /** Text in which the pattern starts nowhere stays as it is. */
  lemma {:induction false} PassOver(p: string, rest: string, pattern: string, with: string)
    requires pattern != [] && forall k :: 0 <= k < |p| ==> !(pattern <= (p + rest)[k..])
    ensures ReplaceAll(p + rest, pattern, with) == p + ReplaceAll(rest, pattern, with)
    decreases |p|
  {
    if p == [] {
      assert p + rest == rest;
    } else {
      assert (p + rest)[0..] == p + rest;
      assert (p + rest)[1..] == p[1..] + rest;
      forall k | 0 <= k < |p[1..]| ensures !(pattern <= (p[1..] + rest)[k..]) {
        assert (p[1..] + rest)[k..] == (p + rest)[k + 1..];
      }
      PassOver(p[1..], rest, pattern, with);
    }
  }

  lemma {:induction false} MapConcat(a: string, b: string, f: char -> string)
    ensures MapChars(a + b, f) == MapChars(a, f) + MapChars(b, f)
    decreases |a|
  {
    if a == [] {
      assert a + b == b;
    } else {
      assert (a + b)[1..] == a[1..] + b;
      MapConcat(a[1..], b, f);
    }
  }

  /** One replacement after another is one that does both to each character. */
  lemma {:induction false} MapTwice(s: string, f: char -> string, g: char -> string, both: char -> string)
    requires forall c :: both(c) == MapChars(f(c), g)
    ensures MapChars(MapChars(s, f), g) == MapChars(s, both)
    decreases |s|
  {
    if s != [] {
      MapConcat(f(s[0]), MapChars(s[1..], f), g);
      MapTwice(s[1..], f, g, both);
    }
  }

  function Only(c: char, with: string): char -> string {
    x => if x == c then with else [x]
  }

  // ── The property list ──

  /** `xml`: three replacements in turn, the ampersand first. */
  function Xml(s: string): string {
    MapChars(MapChars(MapChars(s, Only('&', "&amp;")), Only('<', "&lt;")), Only('>', "&gt;"))
  }

  /** How a launch agent is read back. */
  function XmlRead(s: string): string {
    ReplaceAll(ReplaceAll(ReplaceAll(s, "&lt;", "<"), "&gt;", ">"), "&amp;", "&")
  }

  /** The text of one character with the first `stage` of ampersand, greater-than and less-than escaped. */
  function XmlPiece(stage: nat): char -> string {
    c =>
      if c == '&' && stage >= 1 then "&amp;"
      else if c == '>' && stage >= 2 then "&gt;"
      else if c == '<' && stage >= 3 then "&lt;"
      else [c]
  }

  lemma {:induction false} XmlIsPiecewise(s: string)
    ensures Xml(s) == MapChars(s, XmlPiece(3))
  {
    hide MapChars;
    var amp, lt, gt := Only('&', "&amp;"), Only('<', "&lt;"), Only('>', "&gt;");
    var first := (c: char) => MapChars(amp(c), lt);
    MapTwice(s, amp, lt, first);
    forall c ensures XmlPiece(3)(c) == MapChars(first(c), gt) {
      XmlOfOne(c);
    }
    MapTwice(s, first, gt, XmlPiece(3));
  }

  lemma {:induction false} XmlOfOne(c: char)
    ensures MapChars(MapChars(Only('&', "&amp;")(c), Only('<', "&lt;")), Only('>', "&gt;")) == XmlPiece(3)(c)
  {
    hide MapChars;
    OnlyOn("&amp;", '<', "&lt;");
    OnlyOn("&amp;", '>', "&gt;");
    OnlyOn("&lt;", '>', "&gt;");
    OnlyOn([c], '<', "&lt;");
    OnlyOn([c], '>', "&gt;");
  }

  /** A replacement leaves text without its character alone, and replaces a lone character. */
  lemma {:induction false} OnlyOn(s: string, c: char, with: string)
    ensures c !in s ==> MapChars(s, Only(c, with)) == s
    ensures s == [c] ==> MapChars(s, Only(c, with)) == with
    decreases |s|
  {
    if s != [] {
      OnlyOn(s[1..], c, with);
      assert s == [s[0]] + s[1..];
      assert s == [c] ==> s[1..] == [] && MapChars([], Only(c, with)) == [];
    }
  }

  lemma PieceOfTheEscaped(stage: nat, c: char)
    requires 1 <= stage <= 3 && c == if stage == 3 then '<' else if stage == 2 then '>' else '&'
    ensures XmlPiece(stage - 1)(c) == [c] && |XmlPiece(stage)(c)| > 1
  {}

  /** No place in another character's text looks like the escape: it begins otherwise, or goes on otherwise. */
  lemma OtherPieces(d: char, stage: nat, pattern: string, c: char)
    requires 1 <= stage <= 3 && pattern == XmlPiece(stage)(c) && d != c
    requires c == if stage == 3 then '<' else if stage == 2 then '>' else '&'
    ensures
      var p := XmlPiece(stage)(d);
      && p == XmlPiece(stage - 1)(d) && |p| > 0 && |pattern| > 1
      && forall k | 0 <= k < |p| :: p[k] != pattern[0] || (k + 1 < |p| && p[k + 1] != pattern[1])
  {}

  /** Undoing the last escape of a stage leaves the stage before. */
  lemma {:induction false} OneStageBack(s: string, stage: nat, pattern: string, c: char)
    requires 1 <= stage <= 3 && pattern == XmlPiece(stage)(c)
    requires c == if stage == 3 then '<' else if stage == 2 then '>' else '&'
    ensures ReplaceAll(MapChars(s, XmlPiece(stage)), pattern, [c]) == MapChars(s, XmlPiece(stage - 1))
    decreases |s|
  {
    hide XmlPiece;
    if s != [] {
      var rest := MapChars(s[1..], XmlPiece(stage));
      var p := XmlPiece(stage)(s[0]);
      PieceOfTheEscaped(stage, c);
      OneStageBack(s[1..], stage, pattern, c);
      if s[0] == c {
        ReplaceHere(pattern, [c], rest);
      } else {
        OtherPieces(s[0], stage, pattern, c);
        forall k | 0 <= k < |p| ensures !(pattern <= (p + rest)[k..]) {
          assert (p + rest)[k..][0] == p[k];
          assert k + 1 < |p| ==> (p + rest)[k..][1] == p[k + 1];
        }
        PassOver(p, rest, pattern, [c]);
      }
    }
  }

  lemma {:induction false} NothingEscaped(s: string)
    ensures MapChars(s, XmlPiece(0)) == s
    decreases |s|
  {
    if s != [] {
      NothingEscaped(s[1..]);
    }
  }

  /** Every path comes back from a property list as it was written. */
  lemma {:induction false} XmlReadsBack(s: string)
    ensures XmlRead(Xml(s)) == s && '<' !in Xml(s)
  {
    XmlIsPiecewise(s);
    OneStageBack(s, 3, "&lt;", '<');
    OneStageBack(s, 2, "&gt;", '>');
    OneStageBack(s, 1, "&amp;", '&');
    NothingEscaped(s);
    NoTagInside(s);
  }

  lemma {:induction false} NoTagInside(s: string)
    ensures '<' !in MapChars(s, XmlPiece(3))
    decreases |s|
  {
    if s != [] {
      NoTagInside(s[1..]);
    }
  }

  /** White space as a pattern's `\s` reads it. */
  predicate IsSpace(c: char) {
    || c == ' ' || '\t' <= c <= '\r' || c == '\U{A0}' || c == '\U{1680}' || '\U{2000}' <= c <= '\U{200A}'
    || c == '\U{2028}' || c == '\U{2029}' || c == '\U{202F}' || c == '\U{205F}' || c == '\U{3000}' || c == '\U{FEFF}'
  }

  function SkipSpace(s: string): string {
    if s != [] && IsSpace(s[0]) then SkipSpace(s[1..]) else s
  }

  /** How far it is to the next tag. */
  function TagAt(s: string): (n: nat)
    ensures n <= |s|
  {
    if s == [] || s[0] == '<' then 0 else 1 + TagAt(s[1..])
  }

  /** What is left of a text that begins with the given one. */
  function Behind(s: string, start: string): Option<string> {
    if start <= s then Some(s[|start|..]) else None
  }

  /** The text of the `<string>` that begins `s`, and what is behind it. */
  function StringElement(s: string): Option<(string, string)> {
    var inside := Behind(s, "<string>");
    if inside.None? then None
    else
      var n := TagAt(inside.value);
      var rest := Behind(inside.value[n..], "</string>");
      if rest.None? then None else Some((inside.value[..n], rest.value))
  }

  const ARGUMENTS_KEY := "<key>ProgramArguments</key>"

  /** The second program argument, escaped, of a text that begins with the arguments' key. */
  function SecondArgument(s: string): Option<string> {
    var key := Behind(s, ARGUMENTS_KEY);
    if key.None? then None
    else
      var list := Behind(SkipSpace(key.value), "<array>");
      if list.None? then None
      else
        var first := StringElement(SkipSpace(list.value));
        if first.None? then None
        else
          var second := StringElement(SkipSpace(first.value.1));
          if second.None? then None else Some(second.value.0)
  }

  /** The first place in a text where `read` gives something. */
  function FirstPlace(s: string, read: string -> Option<string>): Option<string>
    decreases |s|
  {
    if read(s).Some? then read(s) else if s == [] then None else FirstPlace(s[1..], read)
  }

  /** The launcher a property list starts. */
  function PlistTarget(text: string): Option<string> {
    var found := FirstPlace(text, SecondArgument);
    if found.None? then None else Some(XmlRead(found.value))
  }

  function Element(s: string, rest: string): string {
    "<string>" + (s + ("</string>" + rest))
  }

  /** The key with its array, and what is behind the launcher's element. */
  function Arguments(body: string, rest: string): string {
    ARGUMENTS_KEY + ("\n  " + ("<array>" + Element("/bin/sh", Element(body, rest))))
  }

  /** The property list: fixed text, the two program arguments, and more text. */
  function Plist(above: string, launcher: string, below: string): string {
    above + Arguments(Xml(launcher), "</array>" + below)
  }

  lemma {:induction false} TagAtIs(s: string, rest: string)
    requires '<' !in s
    ensures TagAt(s + ("<" + rest)) == |s|
    decreases |s|
  {
    if s == [] {
      assert s + ("<" + rest) == "<" + rest;
    } else {
      assert (s + ("<" + rest))[1..] == s[1..] + ("<" + rest);
      TagAtIs(s[1..], rest);
    }
  }

  lemma BehindIs(start: string, rest: string)
    ensures Behind(start + rest, start) == Some(rest)
  {}

  lemma {:induction false} StringElementIs(s: string, rest: string)
    requires '<' !in s
    ensures StringElement(Element(s, rest)) == Some((s, rest))
  {
    hide TagAt, Behind;
    var inside := s + ("</string>" + rest);
    BehindIs("<string>", inside);
    BehindIs("</string>", rest);
    assert "</string>" + rest == "<" + ("/string>" + rest);
    TagAtIs(s, "/string>" + rest);
    assert inside[..|s|] == s && inside[|s|..] == "</string>" + rest;
  }

  lemma {:induction false} SkipsOne(c: char, rest: string)
    ensures SkipSpace([c] + rest) == if IsSpace(c) then SkipSpace(rest) else [c] + rest
  {
    assert ([c] + rest)[1..] == rest;
  }

  /** The line feed and the indentation before the array, and nothing before an element. */
  lemma {:induction false} SpacesSkipped(rest: string)
    requires rest != [] && rest[0] == '<'
    ensures SkipSpace(rest) == rest && SkipSpace("\n  " + rest) == rest
  {
    hide SkipSpace;
    SkipsOne('<', rest[1..]);
    assert rest == ['<'] + rest[1..];
    SkipsOne(' ', rest);
    SkipsOne(' ', [' '] + rest);
    SkipsOne('\n', [' '] + ([' '] + rest));
    assert "\n  " + rest == ['\n'] + ([' '] + ([' '] + rest));
  }

  /** White space of any kind before an element is passed over, and nothing else is. */
  lemma {:induction false} AnySpaceSkipped(space: string, rest: string)
    requires forall i | 0 <= i < |space| ::
      || space[i] in {' ', '\t', '\n', '\U{B}', '\U{C}', '\r', '\U{A0}', '\U{1680}', '\U{2028}', '\U{2029}', '\U{202F}', '\U{205F}', '\U{3000}', '\U{FEFF}'}
      || '\U{2000}' <= space[i] <= '\U{200A}'
    requires rest != [] && '!' <= rest[0] <= '~'
    ensures SkipSpace(space + rest) == rest
    decreases |space|
  {
    if space == [] {
      assert space + rest == rest;
    } else {
      assert (space + rest)[1..] == space[1..] + rest;
      AnySpaceSkipped(space[1..], rest);
    }
  }

  lemma {:induction false} SecondArgumentIs(body: string, rest: string)
    requires '<' !in body
    ensures SecondArgument(Arguments(body, rest)) == Some(body)
  {
    hide StringElement, Behind, SkipSpace;
    var second := Element(body, rest);
    var first := Element("/bin/sh", second);
    BehindIs(ARGUMENTS_KEY, "\n  " + ("<array>" + first));
    SpacesSkipped("<array>" + first);
    BehindIs("<array>", first);
    SpacesSkipped(first);
    SpacesSkipped(second);
    StringElementIs("/bin/sh", second);
    StringElementIs(body, rest);
  }

  lemma {:induction false} PastText(above: string, rest: string, read: string -> Option<string>, start: string)
    requires forall s :: read(s).Some? ==> start <= s
    requires forall k :: 0 <= k < |above| ==> !(start <= (above + rest)[k..])
    ensures FirstPlace(above + rest, read) == FirstPlace(rest, read)
    decreases |above|
  {
    if above == [] {
      assert above + rest == rest;
    } else {
      assert (above + rest)[0..] == above + rest && (above + rest)[1..] == above[1..] + rest;
      forall k | 0 <= k < |above[1..]| ensures !(start <= (above[1..] + rest)[k..]) {
        assert (above[1..] + rest)[k..] == (above + rest)[k + 1..];
      }
      PastText(above[1..], rest, read, start);
    }
  }

  /** Every launcher path is read back from a whole property list, whatever stands around it, when its key begins
      nowhere before. */
  lemma {:induction false} PlistReadsBack(above: string, launcher: string, below: string)
    requires forall k :: 0 <= k < |above| ==> !(ARGUMENTS_KEY <= (above + ARGUMENTS_KEY)[k..])
    ensures PlistTarget(Plist(above, launcher, below)) == Some(launcher)
  {
    hide Xml, XmlRead, SecondArgument, Element;
    var text := Arguments(Xml(launcher), "</array>" + below);
    forall k | 0 <= k < |above| ensures !(ARGUMENTS_KEY <= (above + text)[k..]) {
      var n := |ARGUMENTS_KEY|;
      assert (above + text)[k..][..n] == (above + ARGUMENTS_KEY)[k..][..n];
    }
    OnlyBehindTheKey();
    PastText(above, text, SecondArgument, ARGUMENTS_KEY);
    XmlReadsBack(launcher);
    SecondArgumentIs(Xml(launcher), "</array>" + below);
  }

  lemma OnlyBehindTheKey()
    ensures forall s :: SecondArgument(s).Some? ==> ARGUMENTS_KEY <= s
  {}

  // ── The systemd unit ──

  function Escaped(): char -> string {
    c => if c == '"' || c == '\\' then ['\\', c] else [c]
  }

  /** `systemdQuoted` without its quotes: quotes and backslashes escaped, then percents and dollars doubled. */
  function SystemdBody(s: string): string {
    MapChars(MapChars(MapChars(s, Escaped()), Only('%', "%%")), Only('$', "$$"))
  }

  function SystemdPiece(): char -> string {
    c => if c == '"' || c == '\\' then ['\\', c] else if c == '%' || c == '$' then [c, c] else [c]
  }

  lemma {:induction false} SystemdIsPiecewise(s: string)
    ensures SystemdBody(s) == MapChars(s, SystemdPiece())
  {
    hide MapChars;
    var percent, dollar := Only('%', "%%"), Only('$', "$$");
    var first := (c: char) => MapChars(Escaped()(c), percent);
    MapTwice(s, Escaped(), percent, first);
    forall c ensures SystemdPiece()(c) == MapChars(first(c), dollar) {
      SystemdOfOne(c);
    }
    MapTwice(s, first, dollar, SystemdPiece());
  }

  lemma {:induction false} SystemdOfOne(c: char)
    ensures MapChars(MapChars(Escaped()(c), Only('%', "%%")), Only('$', "$$")) == SystemdPiece()(c)
  {
    hide MapChars;
    OnlyOn(Escaped()(c), '%', "%%");
    OnlyOn(Escaped()(c), '$', "$$");
    OnlyOn("%%", '$', "$$");
  }

  predicate IsLineBreak(c: char) {
    c == '\n' || c == '\r' || c == '\U{2028}' || c == '\U{2029}'
  }

  /** Where the quoted body that begins `s` ends: before the first quote that no backslash escapes. None when
      there is no such quote, or a backslash before the end of a line. */
  function BodyEnd(s: string): Option<nat> {
    if s == [] then None
    else if s[0] == '"' then Some(0)
    else if s[0] != '\\' then var n := BodyEnd(s[1..]); if n.None? then None else Some(n.value + 1)
    else if |s| < 2 || IsLineBreak(s[1]) then None
    else var n := BodyEnd(s[2..]); if n.None? then None else Some(n.value + 2)
  }

  /** `systemdUnquoted`'s replacement: one pass over escapes, doubled percents and doubled dollars. */
  function Unescaped(s: string): string {
    if s == [] then []
    else if s[0] == '\\' && |s| >= 2 && !IsLineBreak(s[1]) then [s[1]] + Unescaped(s[2..])
    else if |s| >= 2 && s[0] == s[1] && (s[0] == '%' || s[0] == '$') then [s[0]] + Unescaped(s[2..])
    else [s[0]] + Unescaped(s[1..])
  }

  /** Only spaces and tabs up to the end of the line. */
  predicate BlankToLineEnd(s: string) {
    s == [] || IsLineBreak(s[0]) || ((s[0] == ' ' || s[0] == '\t') && BlankToLineEnd(s[1..]))
  }

  const EXEC_START := "ExecStart=/bin/sh \""

  /** The path of an `ExecStart` line that begins `s`. */
  function ExecPath(s: string): Option<string> {
    if !(EXEC_START <= s) then None
    else
      var body := s[|EXEC_START|..];
      var end := BodyEnd(body);
      if end.None? || end.value >= |body| || !BlankToLineEnd(body[end.value + 1..]) then None
      else Some(Unescaped(body[..end.value]))
  }

  /** The first line of a text for which `read` gives something. */
  function FirstLine(s: string, read: string -> Option<string>, lineStart: bool): Option<string>
    decreases |s|
  {
    if lineStart && read(s).Some? then read(s)
    else if s == [] then None
    else FirstLine(s[1..], read, IsLineBreak(s[0]))
  }

  lemma {:induction false} BodyEndsAtTheQuote(s: string, rest: string)
    ensures BodyEnd(MapChars(s, SystemdPiece()) + "\"" + rest) == Some(|MapChars(s, SystemdPiece())|)
    decreases |s|
  {
    if s == [] {
      assert MapChars(s, SystemdPiece()) + "\"" + rest == "\"" + rest;
    } else {
      var p, tail := SystemdPiece()(s[0]), MapChars(s[1..], SystemdPiece()) + "\"" + rest;
      BodyEndsAtTheQuote(s[1..], rest);
      assert MapChars(s, SystemdPiece()) + "\"" + rest == p + tail;
      if |p| == 1 {
        assert (p + tail)[1..] == tail;
      } else {
        assert (p + tail)[1..][1..] == tail && (p + tail)[2..] == tail;
      }
    }
  }

  lemma {:induction false} UnescapedIsBack(s: string)
    ensures Unescaped(MapChars(s, SystemdPiece())) == s
    decreases |s|
  {
    if s != [] {
      var p, tail := SystemdPiece()(s[0]), MapChars(s[1..], SystemdPiece());
      UnescapedIsBack(s[1..]);
      if |p| == 1 {
        assert (p + tail)[1..] == tail;
      } else {
        assert (p + tail)[2..] == tail;
      }
    }
  }

  predicate EndsTheLine(s: string) {
    s == [] || s[0] in {'\n', '\r', '\U{2028}', '\U{2029}'}
  }

  lemma {:induction false} BlanksEndTheLine(blanks: string, rest: string)
    requires (forall i | 0 <= i < |blanks| :: blanks[i] in {' ', '\t'}) && EndsTheLine(rest)
    ensures BlankToLineEnd(blanks + rest)
    decreases |blanks|
  {
    if blanks == [] {
      assert blanks + rest == rest;
    } else {
      assert (blanks + rest)[1..] == blanks[1..] + rest;
      BlanksEndTheLine(blanks[1..], rest);
    }
  }

  /** Every path comes back from its `ExecStart` line, whatever line follows it and whatever blanks stand behind it. */
  lemma {:induction false} ExecStartReadsBack(s: string, blanks: string, rest: string)
    requires (forall i | 0 <= i < |blanks| :: blanks[i] in {' ', '\t'}) && EndsTheLine(rest)
    ensures ExecPath(EXEC_START + SystemdBody(s) + "\"" + (blanks + rest)) == Some(s)
  {
    hide BodyEnd, Unescaped, MapChars, BlankToLineEnd;
    var body := MapChars(s, SystemdPiece());
    SystemdIsPiecewise(s);
    BodyEndsAtTheQuote(s, blanks + rest);
    BlanksEndTheLine(blanks, rest);
    UnescapedIsBack(s);
    var text := EXEC_START + SystemdBody(s) + "\"" + (blanks + rest);
    assert text[|EXEC_START|..] == body + "\"" + (blanks + rest);
    assert (body + "\"" + (blanks + rest))[..|body|] == body && (body + "\"" + (blanks + rest))[|body| + 1..] == blanks + rest;
  }

  // ── Whole files ──

  /** Lines, each with its line feed. */
  function Lines(lines: seq<string>): string {
    if lines == [] then [] else lines[0] + "\n" + Lines(lines[1..])
  }

  predicate OneLine(s: string) {
    forall i :: 0 <= i < |s| ==> !IsLineBreak(s[i])
  }

  /** A reader that looks for lines beginning with `start`. */
  ghost predicate Wants(read: string -> Option<string>, start: string) {
    start != [] && forall s :: read(s).Some? ==> start <= s
  }

  lemma {:induction false} InsideALine(line: string, rest: string, read: string -> Option<string>)
    requires OneLine(line)
    ensures FirstLine(line + "\n" + rest, read, false) == FirstLine(rest, read, true)
    decreases |line|
  {
    if line == [] {
      assert (line + "\n" + rest)[1..] == rest;
    } else {
      assert (line + "\n" + rest)[1..] == line[1..] + "\n" + rest;
      InsideALine(line[1..], rest, read);
    }
  }

  lemma NotAStart(line: string, rest: string, start: string)
    requires OneLine(start) && !(start <= line)
    ensures !(start <= line + "\n" + rest)
  {
    var text := line + "\n" + rest;
    if |start| <= |line| {
      assert text[..|start|] == line[..|start|];
    } else {
      assert text[|line|] == '\n' && !IsLineBreak(start[|line|]);
    }
  }

  lemma {:induction false} PastALine(line: string, rest: string, read: string -> Option<string>, start: string)
    requires OneLine(line) && Wants(read, start) && OneLine(start) && !(start <= line)
    ensures FirstLine(line + "\n" + rest, read, true) == FirstLine(rest, read, true)
  {
    var text := line + "\n" + rest;
    NotAStart(line, rest, start);
    assert read(text).None?;
    if line == [] {
      assert text[1..] == rest;
    } else {
      assert text[1..] == line[1..] + "\n" + rest;
      InsideALine(line[1..], rest, read);
    }
  }

  /** Lines that do not begin as the reader wants are passed over. */
  lemma {:induction false} PastLines(lines: seq<string>, rest: string, read: string -> Option<string>, start: string)
    requires Wants(read, start) && OneLine(start)
    requires forall i :: 0 <= i < |lines| ==> OneLine(lines[i]) && !(start <= lines[i])
    ensures FirstLine(Lines(lines) + rest, read, true) == FirstLine(rest, read, true)
    decreases |lines|
  {
    if lines == [] {
      assert Lines(lines) + rest == rest;
    } else {
      assert Lines(lines) + rest == lines[0] + "\n" + (Lines(lines[1..]) + rest);
      PastALine(lines[0], Lines(lines[1..]) + rest, read, start);
      PastLines(lines[1..], rest, read, start);
    }
  }

  /** The unit: fixed lines, the `ExecStart` line, and more fixed text. */
  function Unit(above: seq<string>, launcher: string, below: seq<string>): string {
    Lines(above) + (EXEC_START + SystemdBody(launcher) + "\"" + ("\n" + Lines(below)))
  }

  /** Every launcher path is read back from a unit, whatever fixed lines stand around it. */
  lemma {:induction false} UnitReadsBack(above: seq<string>, launcher: string, below: seq<string>)
    requires forall i :: 0 <= i < |above| ==> OneLine(above[i]) && !(EXEC_START <= above[i])
    ensures FirstLine(Unit(above, launcher, below), ExecPath, true) == Some(launcher)
  {
    hide Unescaped, BodyEnd, SystemdBody;
    PastLines(above, EXEC_START + SystemdBody(launcher) + "\"" + ("\n" + Lines(below)), ExecPath, EXEC_START);
    ExecStartReadsBack(launcher, "", "\n" + Lines(below));
    assert "" + ("\n" + Lines(below)) == "\n" + Lines(below);
  }

  // ── The shell launcher ──

  const QUOTE_IN_QUOTES := "'\\''"

  function ShellBody(s: string): string {
    MapChars(s, Only('\'', QUOTE_IN_QUOTES))
  }

  /** Where the single-quoted body that begins `s` ends. */
  function ShellEnd(s: string): Option<nat> {
    if s == [] then None
    else if s[0] != '\'' then var n := ShellEnd(s[1..]); if n.None? then None else Some(n.value + 1)
    else if QUOTE_IN_QUOTES <= s then var n := ShellEnd(s[4..]); if n.None? then None else Some(n.value + 4)
    else Some(0)
  }

  const CLI_LINE := "CLI='"

  /** The path of a `CLI='…'` line that begins `s`. */
  function CliPath(s: string): Option<string> {
    if !(CLI_LINE <= s) then None
    else
      var body := s[|CLI_LINE|..];
      var end := ShellEnd(body);
      if end.None? || end.value >= |body| then None
      else if end.value + 1 < |body| && !IsLineBreak(body[end.value + 1]) then None
      else Some(ReplaceAll(body[..end.value], QUOTE_IN_QUOTES, "'"))
  }

  lemma {:induction false} ShellEndsAtTheQuote(s: string, rest: string)
    requires rest != [] && IsLineBreak(rest[0])
    ensures ShellEnd(ShellBody(s) + "'" + rest) == Some(|ShellBody(s)|)
    decreases |s|
  {
    if s == [] {
      assert ShellBody(s) + "'" + rest == "'" + rest;
      assert ("'" + rest)[1] == rest[0];
    } else {
      var p, tail := Only('\'', QUOTE_IN_QUOTES)(s[0]), ShellBody(s[1..]) + "'" + rest;
      ShellEndsAtTheQuote(s[1..], rest);
      assert ShellBody(s) + "'" + rest == p + tail;
      assert (p + tail)[|p|..] == tail;
    }
  }

  lemma {:induction false} ShellIsBack(s: string)
    ensures ReplaceAll(ShellBody(s), QUOTE_IN_QUOTES, "'") == s
    decreases |s|
  {
    if s != [] {
      var p, rest := Only('\'', QUOTE_IN_QUOTES)(s[0]), ShellBody(s[1..]);
      ShellIsBack(s[1..]);
      if s[0] == '\'' {
        ReplaceHere(QUOTE_IN_QUOTES, "'", rest);
      } else {
        assert (p + rest)[0..][0] == s[0];
        PassOver(p, rest, QUOTE_IN_QUOTES, "'");
      }
    }
  }

  /** The launcher: fixed lines, the Node path in single quotes, more fixed lines, and the agent's own path. */
  function PosixLauncher(above: seq<string>, node: string, between: seq<string>, cli: string, below: seq<string>): string {
    Lines(above + ["NODE='" + ShellBody(node) + "'"] + between)
    + (CLI_LINE + ShellBody(cli) + "'" + ("\n" + Lines(below)))
  }

  lemma {:induction false} ShellBodyIsOneLine(s: string)
    requires OneLine(s)
    ensures OneLine(ShellBody(s))
    decreases |s|
  {
    if s != [] {
      ShellBodyIsOneLine(s[1..]);
    }
  }

  /** Every agent path is read back from the launcher, when the Node path before it is on one line. */
  lemma {:induction false} CliReadsBack(above: seq<string>, node: string, between: seq<string>, cli: string, below: seq<string>)
    requires OneLine(node)
    requires forall i :: 0 <= i < |above| ==> OneLine(above[i]) && !(CLI_LINE <= above[i])
    requires forall i :: 0 <= i < |between| ==> OneLine(between[i]) && !(CLI_LINE <= between[i])
    ensures FirstLine(PosixLauncher(above, node, between, cli, below), CliPath, true) == Some(cli)
  {
    hide ShellEnd, ReplaceAll, ShellBody, MapChars;
    var rest := "\n" + Lines(below);
    var line := "NODE='" + ShellBody(node) + "'";
    ShellBodyIsOneLine(node);
    assert line[0] == 'N' && OneLine(line);
    PastLines(above + [line] + between, CLI_LINE + ShellBody(cli) + "'" + rest, CliPath, CLI_LINE);
    ShellEndsAtTheQuote(cli, rest);
    ShellIsBack(cli);
    var text := CLI_LINE + ShellBody(cli) + "'" + rest;
    assert text[|CLI_LINE|..] == ShellBody(cli) + "'" + rest;
    assert (ShellBody(cli) + "'" + rest)[..|ShellBody(cli)|] == ShellBody(cli);
    assert (ShellBody(cli) + "'" + rest)[|ShellBody(cli)| + 1..] == rest;
  }
}
