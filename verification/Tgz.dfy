/** Packing flat files into an archive and unpacking any bytes given as one. gzip itself is a pair of
    functions, assumed inverse where a round trip is claimed. */
module Tgz {
  import opened Foundations
  import opened Octal
  import opened Tar

  // ── Packing ──

  function Padding(n: nat): nat {
    (BLOCK - n % BLOCK) % BLOCK
  }

  function Entry(f: File): seq<Byte>
    requires FlatName(f.name)
  {
    Header(f.name, |f.bytes|) + f.bytes + Nulls(Padding(|f.bytes|))
  }

  predicate AllFlat(files: seq<File>) {
    forall i :: 0 <= i < |files| ==> FlatName(files[i].name)
  }

  predicate NamesDiffer(files: seq<File>) {
    forall i, j :: 0 <= i < j < |files| ==> files[i].name != files[j].name
  }

  function TarOf(files: seq<File>): seq<Byte>
    requires AllFlat(files)
  {
    if files == [] then Nulls(2 * BLOCK) else Entry(files[0]) + TarOf(files[1..])
  }

  /** The bytes `packTgz` compresses; None where it throws. */
  method PackTar(files: seq<File>) returns (r: Option<seq<Byte>>)
    requires forall i :: 0 <= i < |files| ==> |files[i].bytes| <= MAX_SAFE_INTEGER
    ensures r == if AllFlat(files) && NamesDiffer(files) then Some(TarOf(files)) else None
  {
    var parts: seq<Byte>, seen: set<string> := [], {};
    for i := 0 to |files|
      invariant AllFlat(files[..i]) && NamesDiffer(files[..i])
      invariant forall n :: n in seen <==> exists k :: 0 <= k < i && files[k].name == n
      invariant AllFlat(files) ==> parts + TarOf(files[i..]) == TarOf(files)
    {
      var f := files[i];
      if !FlatName(f.name) || f.name in seen {
        return None;
      }
      seen := seen + {f.name};
      ghost var before := parts;
      parts := AppendFile(parts, f);
      assert files[i..][0] == f && files[i..][1..] == files[i + 1..];
      if AllFlat(files) {
        Regroup(before, Entry(f), TarOf(files[i + 1..]));
      }
      assert files[..i + 1] == files[..i] + [f];
    }
    assert files[..|files|] == files;
    return Some(parts + Nulls(2 * BLOCK));
  }

  method AppendFile(parts: seq<Byte>, f: File) returns (r: seq<Byte>)
    requires FlatName(f.name) && |f.bytes| <= MAX_SAFE_INTEGER
    ensures r == parts + Entry(f)
  {
    var h := WriteHeader(f.name, |f.bytes|);
    r := parts + h[..] + f.bytes;
    var pad := (BLOCK - |f.bytes| % BLOCK) % BLOCK;
    if pad > 0 {
      r := r + Nulls(pad);
    }
  }

  lemma Regroup(a: seq<Byte>, b: seq<Byte>, c: seq<Byte>)
    ensures (a + b) + c == a + (b + c)
  {}

  // ── Unpacking ──

  datatype Why =
    | NotGzip | BadChecksum | UnusualName | NotRegular | Twice | UnreadableSize | TooMuch | EndsInside | NoEndMarker

  datatype Unpacked = Files(files: seq<File>) | Refused(why: Why)

  datatype Limits = Limits(maxFiles: nat, maxBytes: nat)

  function UpToNull(raw: seq<Byte>): seq<Byte> {
    if raw == [] || raw[0] == 0 then [] else [raw[0]] + UpToNull(raw[1..])
  }

  function Field(h: seq<Byte>, start: nat, length: nat): string
    requires start + length <= |h|
  {
    Decode(UpToNull(h[start..start + length]))
  }

  predicate AllNull(h: seq<Byte>) {
    forall i :: 0 <= i < |h| ==> h[i] == 0
  }

  predicate ChecksumMatches(h: seq<Byte>)
    requires |h| == BLOCK
  {
    ParseInt(Trim(Field(h, 148, 8))) == Some(CheckSum(h, BLOCK))
  }

  /** The size a header gives, None when it is no number or negative. */
  function SizeIn(h: seq<Byte>): Option<nat>
    requires |h| == BLOCK
  {
    var text := Trim(Field(h, 124, 12));
    var size := ParseInt(if text == "" then "0" else text);
    if size.None? || size.value < 0 then None else Some(size.value)
  }

  function Blocks(size: nat): nat {
    (size + BLOCK - 1) / BLOCK * BLOCK
  }

  function Names(files: seq<File>): set<string> {
    set f | f in files :: f.name
  }

  /** What is made of the header at `offset` after `files` with `total` bytes: the file there, or why not. */
  datatype Next = Another(file: File) | Stop(why: Why)

  function NextFile(tar: seq<Byte>, offset: nat, files: seq<File>, total: nat, limits: Limits): Next
    requires offset + BLOCK <= |tar|
  {
    var h := tar[offset..offset + BLOCK];
    var name, kind := Field(h, 0, 100), Field(h, 156, 1);
    if !ChecksumMatches(h) then Stop(BadChecksum)
    else if Field(h, 345, 155) != "" || !FlatName(name) then Stop(UnusualName)
    else if kind != "0" && kind != "" then Stop(NotRegular)
    else if name in Names(files) then Stop(Twice)
    else if SizeIn(h).None? then Stop(UnreadableSize)
    else
      var size := SizeIn(h).value;
      var start := offset + BLOCK;
      if |files| >= limits.maxFiles || total + size > limits.maxBytes then Stop(TooMuch)
      else if start + size > |tar| then Stop(EndsInside)
      else Another(File(name, tar[start..start + size]))
  }

  function UnpackAt(tar: seq<Byte>, offset: nat, files: seq<File>, total: nat, limits: Limits): Unpacked
    decreases |tar| - offset
  {
    if offset + BLOCK > |tar| then Refused(NoEndMarker)
    else if AllNull(tar[offset..offset + BLOCK]) then Files(files)
    else
      var next := NextFile(tar, offset, files, total, limits);
      if next.Stop? then Refused(next.why)
      else
        var size := |next.file.bytes|;
        UnpackAt(tar, offset + BLOCK + Blocks(size), files + [next.file], total + size, limits)
  }

  method HeaderSum(h: seq<Byte>) returns (sum: nat)
    requires |h| == BLOCK
    ensures sum == CheckSum(h, BLOCK)
  {
    sum := 0;
    for i := 0 to BLOCK
      invariant sum == CheckSum(h, i)
    {
      sum := sum + if i >= 148 && i < 156 then 0x20 else h[i];
    }
  }

  /** What unpacking comes to after one header. */
  function After(tar: seq<Byte>, offset: nat, files: seq<File>, total: nat, limits: Limits, next: Next): Unpacked {
    match next
    case Stop(why) => Refused(why)
    case Another(f) => UnpackAt(tar, offset + BLOCK + Blocks(|f.bytes|), files + [f], total + |f.bytes|, limits)
  }

  lemma {:induction false} OneHeader(tar: seq<Byte>, offset: nat, files: seq<File>, total: nat, limits: Limits)
    requires offset + BLOCK <= |tar| && !AllNull(tar[offset..offset + BLOCK])
    ensures UnpackAt(tar, offset, files, total, limits)
         == After(tar, offset, files, total, limits, NextFile(tar, offset, files, total, limits))
  {
    hide NextFile;
  }

  method ReadNext(tar: seq<Byte>, offset: nat, files: seq<File>, seen: set<string>, total: nat, limits: Limits) returns (r: Next)
    requires offset + BLOCK <= |tar| && seen == Names(files) && !AllNull(tar[offset..offset + BLOCK])
    ensures UnpackAt(tar, offset, files, total, limits) == After(tar, offset, files, total, limits, r)
  {
    hide UnpackAt, CheckSum, Trim, ParseInt, Field, FlatName, Names;
    OneHeader(tar, offset, files, total, limits);
    var h := tar[offset..offset + BLOCK];
    var sum := HeaderSum(h);
    if ParseInt(Trim(Field(h, 148, 8))) != Some(sum) {
      return Stop(BadChecksum);
    }
    var name, kind, prefix := Field(h, 0, 100), Field(h, 156, 1), Field(h, 345, 155);
    if prefix != "" || !FlatName(name) {
      return Stop(UnusualName);
    }
    if kind != "0" && kind != "" {
      return Stop(NotRegular);
    }
    if name in seen {
      return Stop(Twice);
    }
    var text := Trim(Field(h, 124, 12));
    var size := ParseInt(if text == "" then "0" else text);
    if size.None? || size.value < 0 {
      return Stop(UnreadableSize);
    }
    if |files| >= limits.maxFiles || total + size.value > limits.maxBytes {
      return Stop(TooMuch);
    }
    var start := offset + BLOCK;
    if start + size.value > |tar| {
      return Stop(EndsInside);
    }
    return Another(File(name, tar[start..start + size.value]));
  }

  method UnpackTar(tar: seq<Byte>, limits: Limits) returns (r: Unpacked)
    ensures r == UnpackAt(tar, 0, [], 0, limits)
  {
    hide NextFile;
    var files: seq<File>, seen: set<string> := [], {};
    var offset: nat, total: nat := 0, 0;
    while offset + BLOCK <= |tar|
      invariant seen == Names(files)
      invariant UnpackAt(tar, offset, files, total, limits) == UnpackAt(tar, 0, [], 0, limits)
      decreases |tar| - offset
    {
      var h := tar[offset..offset + BLOCK];
      if forall i :: 0 <= i < |h| ==> h[i] == 0 {
        return Files(files);
      }
      var next := ReadNext(tar, offset, files, seen, total, limits);
      if next.Stop? {
        return Refused(next.why);
      }
      NamesWithOneMore(files, next.file);
      var size := |next.file.bytes|;
      seen, files, total := seen + {next.file.name}, files + [next.file], total + size;
      offset := offset + BLOCK + Blocks(size);
    }
    return Refused(NoEndMarker);
  }

  lemma NamesWithOneMore(files: seq<File>, f: File)
    ensures Names(files + [f]) == Names(files) + {f.name}
  {
    assert (files + [f])[|files|] == f;
    forall g | g in files ensures g in files + [f] {
      var i :| 0 <= i < |files| && files[i] == g;
      assert (files + [f])[i] == g;
    }
  }

  // ── Any bytes ──

  function TotalBytes(files: seq<File>): nat {
    if files == [] then 0 else TotalBytes(files[..|files| - 1]) + |files[|files| - 1].bytes|
  }

  /** Where the content of a file ends, in whole blocks, and the next header begins. */
  function EndOf(starts: seq<nat>, files: seq<File>, i: nat): nat
    requires i <= |files| && |starts| == |files|
  {
    if i == 0 then 0 else starts[i - 1] + Blocks(|files[i - 1].bytes|)
  }

  /** The header is of a regular file, with its whole name in the name field; the top bit of the kind does not
      count. */
  predicate Regular(h: seq<Byte>)
    requires |h| == BLOCK
  {
    (h[156] == 0 || h[156] % 128 == 48) && h[345] == 0
  }

  lemma RegularIs(h: seq<Byte>)
    requires |h| == BLOCK
    ensures Field(h, 345, 155) == "" <==> h[345] == 0
    ensures Field(h, 156, 1) == "0" <==> h[156] != 0 && h[156] % 128 == 48
    ensures Field(h, 156, 1) == "" <==> h[156] == 0
  {
    var kind, b := h[156..157], h[156];
    assert kind[0] == b && kind[1..] == [];
    assert UpToNull(kind) == if b == 0 then [] else [b] + UpToNull([]);
    assert [b] + UpToNull([]) == [b];
    assert h[345..500][0] == h[345];
    OneChar(b);
  }

  lemma OneChar(b: Byte)
    ensures Decode([b]) == "0" <==> b % 128 == 48
    ensures Decode([]) == ""
  {
    var text := Decode([b]);
    assert |text| == 1 && text[0] == (b % 128) as char;
    assert text == [text[0]] && "0" == ['0'];
    assert (b % 128) as char == '0' <==> b % 128 == 48;
  }

  /** A file's content at `start`, behind a header of its own that names it and checks out. */
  predicate StandsAt(tar: seq<Byte>, start: nat, f: File) {
    && BLOCK <= start && start + |f.bytes| <= |tar| && f.bytes == tar[start..start + |f.bytes|]
    && var h := tar[start - BLOCK..start];
       ChecksumMatches(h) && Regular(h) && Field(h, 0, 100) == f.name && SizeIn(h) == Some(|f.bytes|)
  }

  /** File `i` stands right after those before it. */
  predicate Slice(tar: seq<Byte>, files: seq<File>, starts: seq<nat>, i: nat)
    requires |starts| == |files| && i < |files|
  {
    EndOf(starts, files, i) + BLOCK == starts[i] && StandsAt(tar, starts[i], files[i])
  }

  ghost predicate Sound(tar: seq<Byte>, files: seq<File>, starts: seq<nat>, limits: Limits) {
    && |starts| == |files| <= limits.maxFiles && TotalBytes(files) <= limits.maxBytes
    && AllFlat(files) && NamesDiffer(files)
    && forall i :: 0 <= i < |files| ==> Slice(tar, files, starts, i)
  }

  /** A file that may follow the ones there are. */
  predicate MayFollow(files: seq<File>, total: nat, limits: Limits, f: File) {
    FlatName(f.name) && f.name !in Names(files) && |files| < limits.maxFiles && total + |f.bytes| <= limits.maxBytes
  }

  lemma {:induction false} NextFileStands(tar: seq<Byte>, offset: nat, files: seq<File>, total: nat, limits: Limits) returns (f: File)
    requires offset + BLOCK <= |tar| && !AllNull(tar[offset..offset + BLOCK])
    requires UnpackAt(tar, offset, files, total, limits).Files?
    ensures StandsAt(tar, offset + BLOCK, f) && MayFollow(files, total, limits, f)
    ensures UnpackAt(tar, offset, files, total, limits) == After(tar, offset, files, total, limits, Another(f))
  {
    hide ChecksumMatches, SizeIn, Field, FlatName;
    OneHeader(tar, offset, files, total, limits);
    RegularIs(tar[offset..offset + BLOCK]);
    f := NextFile(tar, offset, files, total, limits).file;
  }

  lemma {:induction false} OneMoreIsSound(
    tar: seq<Byte>, offset: nat, files: seq<File>, starts: seq<nat>, total: nat, limits: Limits, f: File)
    requires StandsAt(tar, offset + BLOCK, f) && MayFollow(files, total, limits, f)
    requires Sound(tar, files, starts, limits) && total == TotalBytes(files) && EndOf(starts, files, |files|) == offset
    ensures
      var more, at := files + [f], starts + [offset + BLOCK];
      && Sound(tar, more, at, limits) && total + |f.bytes| == TotalBytes(more)
      && EndOf(at, more, |more|) == offset + BLOCK + Blocks(|f.bytes|)
  {
    var more, at := files + [f], starts + [offset + BLOCK];
    assert more[..|files|] == files;
    forall i | 0 <= i < |more| ensures Slice(tar, more, at, i) {
      if i < |files| {
        assert Slice(tar, files, starts, i);
      }
    }
    forall i | 0 <= i < |files| ensures more[i].name != f.name {
      assert files[i] in files;
    }
  }

  lemma {:induction false} SoundSoFar(
    tar: seq<Byte>, offset: nat, files: seq<File>, starts: seq<nat>, total: nat, limits: Limits) returns (at: seq<nat>)
    requires Sound(tar, files, starts, limits) && total == TotalBytes(files) && EndOf(starts, files, |files|) == offset
    requires UnpackAt(tar, offset, files, total, limits).Files?
    ensures Sound(tar, UnpackAt(tar, offset, files, total, limits).files, at, limits)
    ensures |at| == |UnpackAt(tar, offset, files, total, limits).files| && Closed(tar, EndOf(at, UnpackAt(tar, offset, files, total, limits).files, |at|))
    decreases |tar| - offset
  {
    hide NextFile, StandsAt, Sound, Blocks, EndOf;
    if AllNull(tar[offset..offset + BLOCK]) {
      SameLength(tar, files, starts, limits);
      at := starts;
    } else {
      var f := NextFileStands(tar, offset, files, total, limits);
      OneMoreIsSound(tar, offset, files, starts, total, limits, f);
      at := SoundSoFar(
        tar, offset + BLOCK + Blocks(|f.bytes|), files + [f], starts + [offset + BLOCK], total + |f.bytes|, limits);
    }
  }

  lemma SameLength(tar: seq<Byte>, files: seq<File>, starts: seq<nat>, limits: Limits)
    requires Sound(tar, files, starts, limits)
    ensures |starts| == |files|
  {}

  /** A block of nulls is there. */
  predicate Closed(tar: seq<Byte>, end: nat) {
    end + BLOCK <= |tar| && forall i | end <= i < end + BLOCK :: tar[i] == 0
  }

  lemma BlocksCover(size: nat)
    ensures size <= Blocks(size) == size + Padding(size) && Blocks(size) < size + BLOCK && Blocks(size) % BLOCK == 0
  {}

  /** Whatever the bytes: a list that comes back has distinct flat names, keeps both limits, and is made of
      slices of the archive, one right after another from the start, each behind its own checked header of a regular
      file; and a block of nulls follows the last. */
  lemma {:induction false} UnpackedIsSound(tar: seq<Byte>, limits: Limits) returns (starts: seq<nat>)
    requires UnpackAt(tar, 0, [], 0, limits).Files?
    ensures
      var files := UnpackAt(tar, 0, [], 0, limits).files;
      Sound(tar, files, starts, limits) && |starts| == |files| && Closed(tar, EndOf(starts, files, |files|))
  {
    starts := SoundSoFar(tar, 0, [], [], 0, limits);
  }

  /** What a refusal says of the header at `offset` behind `files`, or of the end of the archive. */
  predicate SaysOf(why: Why, tar: seq<Byte>, offset: nat, files: seq<File>, limits: Limits) {
    if why == NotGzip then false
    else if why == NoEndMarker then offset + 512 > |tar|
    else
      && offset + BLOCK <= |tar|
      && var h := tar[offset..offset + BLOCK];
         match why
         case BadChecksum => !ChecksumMatches(h)
         case UnusualName => h[345] != 0 || !FlatName(Field(h, 0, 100))
         case NotRegular => h[156] != 0 && h[156] % 128 != 48
         case Twice => exists i | 0 <= i < |files| :: files[i].name == Field(h, 0, 100)
         case UnreadableSize => SizeIn(h).None?
         case TooMuch => SizeIn(h).Some? && (|files| == limits.maxFiles || TotalBytes(files) + SizeIn(h).value > limits.maxBytes)
         case EndsInside => SizeIn(h).Some? && offset + BLOCK + SizeIn(h).value > |tar|
         case _ => false
  }

  lemma StopTells(tar: seq<Byte>, offset: nat, files: seq<File>, total: nat, limits: Limits)
    requires offset + BLOCK <= |tar| && total == TotalBytes(files) && |files| <= limits.maxFiles
    requires NextFile(tar, offset, files, total, limits).Stop?
    ensures SaysOf(NextFile(tar, offset, files, total, limits).why, tar, offset, files, limits)
  {
    hide ChecksumMatches, SizeIn, Field, FlatName, Names, TotalBytes, UpToNull, Decode;
    var h := tar[offset..offset + BLOCK];
    RegularIs(h);
    NamedAmong(files, Field(h, 0, 100));
  }

  lemma NamedAmong(files: seq<File>, name: string)
    ensures name in Names(files) <==> exists i | 0 <= i < |files| :: files[i].name == name
  {
    forall i | 0 <= i < |files| ensures files[i] in files {}
  }

  lemma {:induction false} RefusedSoFar(
    tar: seq<Byte>, offset: nat, files: seq<File>, starts: seq<nat>, total: nat, limits: Limits) returns (at: seq<nat>, before: seq<File>)
    requires Sound(tar, files, starts, limits) && total == TotalBytes(files) && EndOf(starts, files, |files|) == offset
    requires UnpackAt(tar, offset, files, total, limits).Refused?
    ensures Sound(tar, before, at, limits) && |at| == |before|
    ensures SaysOf(UnpackAt(tar, offset, files, total, limits).why, tar, EndOf(at, before, |at|), before, limits)
    decreases |tar| - offset
  {
    hide NextFile, StandsAt, Sound, Blocks, SaysOf, EndOf;
    SameLength(tar, files, starts, limits);
    SoundKeepsLimits(tar, files, starts, limits);
    at, before := starts, files;
    if offset + BLOCK > |tar| {
      NoEndTells(tar, offset, files, limits);
    } else {
      var next := NextFile(tar, offset, files, total, limits);
      if next.Stop? {
        StopTells(tar, offset, files, total, limits);
      } else {
        NextStands(tar, offset, files, total, limits);
        OneMoreIsSound(tar, offset, files, starts, total, limits, next.file);
        at, before := RefusedSoFar(
          tar, offset + BLOCK + Blocks(|next.file.bytes|), files + [next.file], starts + [offset + BLOCK], total + |next.file.bytes|, limits);
      }
    }
  }

  lemma SoundKeepsLimits(tar: seq<Byte>, files: seq<File>, starts: seq<nat>, limits: Limits)
    requires Sound(tar, files, starts, limits)
    ensures |files| <= limits.maxFiles
  {}

  lemma NoEndTells(tar: seq<Byte>, offset: nat, files: seq<File>, limits: Limits)
    requires offset + BLOCK > |tar|
    ensures SaysOf(NoEndMarker, tar, offset, files, limits)
  {}

  lemma NextStands(tar: seq<Byte>, offset: nat, files: seq<File>, total: nat, limits: Limits)
    requires offset + BLOCK <= |tar| && NextFile(tar, offset, files, total, limits).Another?
    ensures
      var f := NextFile(tar, offset, files, total, limits).file;
      StandsAt(tar, offset + BLOCK, f) && MayFollow(files, total, limits, f)
  {
    hide ChecksumMatches, SizeIn, Field, FlatName;
    RegularIs(tar[offset..offset + BLOCK]);
  }

  /** Whatever the bytes: a refusal is of the header, or of the end, right behind files that are sound, and what it
      says is so. */
  lemma {:induction false} RefusalTells(tar: seq<Byte>, limits: Limits) returns (starts: seq<nat>, before: seq<File>)
    requires UnpackAt(tar, 0, [], 0, limits).Refused?
    ensures Sound(tar, before, starts, limits) && |starts| == |before|
    ensures SaysOf(UnpackAt(tar, 0, [], 0, limits).why, tar, EndOf(starts, before, |starts|), before, limits)
  {
    starts, before := RefusedSoFar(tar, 0, [], [], 0, limits);
  }

  // ── What was packed ──

  lemma {:induction false} UpToNullIs(raw: seq<Byte>, n: nat)
    requires n <= |raw| && (n < |raw| ==> raw[n] == 0) && forall i :: 0 <= i < n ==> raw[i] != 0
    ensures UpToNull(raw) == raw[..n]
    decreases |raw|
  {
    if n > 0 {
      UpToNullIs(raw[1..], n - 1);
      assert raw[..n] == [raw[0]] + raw[1..][..n - 1];
    }
  }

  lemma FieldIs(h: seq<Byte>, start: nat, length: nat, text: string)
    requires start + length <= |h| && |text| <= length && Ascii(text)
    requires forall i :: 0 <= i < |text| ==> 0 < text[i] as int == h[start + i]
    requires |text| < length ==> h[start + |text|] == 0
    ensures Field(h, start, length) == text
  {
    var raw := h[start..start + length];
    assert forall i :: 0 <= i < |text| ==> raw[i] == text[i] as int;
    UpToNullIs(raw, |text|);
    assert forall i :: 0 <= i < |text| ==> raw[..|text|][i] == text[i] as int;
  }

  lemma FlatNamesAreAscii(name: string)
    requires FlatName(name)
    ensures 1 <= |name| <= 100 && Ascii(name) && forall i :: 0 <= i < |name| ==> 0 < name[i] as int
  {}

  lemma HeaderName(name: string, size: nat)
    requires FlatName(name)
    ensures Field(Header(name, size), 0, 100) == name && Field(Header(name, size), 345, 155) == ""
    ensures Field(Header(name, size), 156, 1) == "0" && !AllNull(Header(name, size))
  {
    hide Header, Blank, CheckSum, SumField, SizeAt, Field, FlatName;
    FlatNamesAreAscii(name);
    var h := Header(name, size);
    assert forall i :: 0 <= i < |name| ==> h[i] == BlankAt(name, size, i) == name[i] as int;
    FieldIs(h, 0, 100, name);
    assert h[345] == BlankAt(name, size, 345);
    FieldIs(h, 345, 155, "");
    assert h[156] == BlankAt(name, size, 156);
    FieldIs(h, 156, 1, "0");
  }

  lemma HeaderChecksum(name: string, size: nat)
    requires FlatName(name)
    ensures ChecksumMatches(Header(name, size))
  {
    hide Header, BlankAt, CheckSum, Field, FlatName, Padded, Digits, ParseInt, Trim, Encode;
    var h, blank := Header(name, size), Blank(name, size);
    CheckSumSkipsItself(h, blank, BLOCK);
    var sum := CheckSum(blank, BLOCK);
    var text := Padded(Digits(sum), 6);
    SumFits(blank);
    ValueOfPadded(sum, 6);
    ParsesDigits(text);
    DigitsAreAscii(sum, 6);
    assert |text| == 6;
    SumFieldHolds(h, text);
  }

  lemma SumFieldHolds(h: seq<Byte>, text: string)
    requires |h| == BLOCK && |text| == 6 && AllDigits(text) && Ascii(text) && h[148..156] == Encode(text) + [0, 0x20]
    ensures Field(h, 148, 8) == text
  {
    hide Field;
    assert forall i :: 0 <= i < 8 ==> h[148 + i] == h[148..156][i];
    FieldIs(h, 148, 8, text);
  }

  /** The digits of a size that find room in its field. */
  function SizeText(size: nat): string {
    var text := Padded(Digits(size), 11);
    if |text| > 12 then text[..12] else text
  }

  lemma HeaderSize(name: string, size: nat)
    requires FlatName(name)
    ensures AllDigits(SizeText(size)) && SizeIn(Header(name, size)) == Some(Value(SizeText(size)))
  {
    hide Header, Blank, CheckSum, SumField, Field, FlatName;
    var h, text := Header(name, size), SizeText(size);
    ValueOfPadded(size, 11);
    ParsesDigits(text);
    assert forall i :: 0 <= i < 12 ==> h[124 + i] == BlankAt(name, size, 124 + i) == OctalField(size, 12)[i];
    FieldIs(h, 124, 12, text);
  }

  /** A header with nothing in its size field is of an empty file. */
  lemma NoSizeIsZero(h: seq<Byte>)
    requires |h| == BLOCK && h[124] == 0
    ensures SizeIn(h) == Some(0)
  {
    assert h[124..136][0] == 0;
    assert UpToNull(h[124..136]) == [] && Decode([]) == "" && Trim("") == "";
    assert AllDigits("0") && "0"[1..] == [] && DigitsPrefix("0") == "0";
    assert "0"[..0] == [] && Value("0") == Value([]) * 8 + DigitValue('0');
  }

  const EIGHT_TO_THE_TWELFTH := 68719476736

  lemma PowerTwelve()
    ensures Power(12) == EIGHT_TO_THE_TWELFTH
  {
    assert Power(6) == 262144;
    PowerOfSum(6, 6);
  }

  /** The size reads back exactly when it has at most twelve octal digits; otherwise as something smaller. */
  lemma SizeReadsBack(size: nat)
    ensures AllDigits(SizeText(size))
    ensures if size < EIGHT_TO_THE_TWELFTH then Value(SizeText(size)) == size else Value(SizeText(size)) < size
  {
    PowerTwelve();
    LengthOfDigits(size, 12);
    ValueOfPadded(size, 11);
    if |Digits(size)| > 12 {
      FewerDigitsAreLess(Padded(Digits(size), 11), 12);
    }
  }

  predicate Small(files: seq<File>) {
    forall i :: 0 <= i < |files| ==> |files[i].bytes| < EIGHT_TO_THE_TWELFTH
  }

  /** `files` are what comes after `done` in what is being unpacked, and `done` took `total` bytes. */
  ghost predicate Ahead(done: seq<File>, total: nat, files: seq<File>, limits: Limits) {
    && AllFlat(files) && NamesDiffer(files) && (forall i :: 0 <= i < |files| ==> files[i].name !in Names(done))
    && |done| + |files| <= limits.maxFiles && total + Sizes(files) <= limits.maxBytes
  }

  function Sizes(files: seq<File>): nat {
    if files == [] then 0 else |files[0].bytes| + Sizes(files[1..])
  }

  lemma AheadAfterOne(done: seq<File>, total: nat, files: seq<File>, limits: Limits)
    requires Ahead(done, total, files, limits) && files != []
    ensures Ahead(done + [files[0]], total + |files[0].bytes|, files[1..], limits)
  {
    NamesWithOneMore(done, files[0]);
    var rest := files[1..];
    forall i | 0 <= i < |rest| ensures rest[i].name !in Names(done) + {files[0].name} {
      assert rest[i] == files[i + 1];
    }
  }

  /** The first entry of what was packed, seen from its header on. */
  lemma EntryAt(a: seq<Byte>, f: File, tail: seq<Byte>, tar: seq<Byte>)
    requires FlatName(f.name) && tar == a + (Entry(f) + tail)
    ensures |a| + BLOCK + |f.bytes| <= |a| + BLOCK + Blocks(|f.bytes|) <= |tar| && |Entry(f)| == BLOCK + Blocks(|f.bytes|)
    ensures tar[|a|..|a| + BLOCK] == Header(f.name, |f.bytes|)
    ensures tar[|a| + BLOCK..|a| + BLOCK + |f.bytes|] == f.bytes
  {
    hide Header, Blocks, Padding;
    BlocksCover(|f.bytes|);
  }

  /** A packed file is read next: whole when its size fits the field, else cut short or refused. */
  lemma {:induction false} PackedFileIsNext(
    a: seq<Byte>, f: File, tail: seq<Byte>, tar: seq<Byte>, done: seq<File>, total: nat, limits: Limits)
    requires FlatName(f.name) && tar == a + (Entry(f) + tail)
    requires MayFollow(done, total, limits, f)
    ensures |a| + BLOCK <= |tar| && !AllNull(tar[|a|..|a| + BLOCK])
    ensures
      var next := NextFile(tar, |a|, done, total, limits);
      if |f.bytes| < EIGHT_TO_THE_TWELFTH then next == Another(f)
      else next.Another? ==> |next.file.bytes| < |f.bytes|
  {
    hide ChecksumMatches, Header, Entry, Blocks, SizeIn, Field, SizeText;
    EntryAt(a, f, tail, tar);
    HeaderName(f.name, |f.bytes|);
    HeaderChecksum(f.name, |f.bytes|);
    HeaderSize(f.name, |f.bytes|);
    SizeReadsBack(|f.bytes|);
  }

  /** What has been unpacked stays at the front. */
  lemma {:induction false} UnpackedSoFarStays(tar: seq<Byte>, offset: nat, files: seq<File>, total: nat, limits: Limits)
    requires UnpackAt(tar, offset, files, total, limits).Files?
    ensures files <= UnpackAt(tar, offset, files, total, limits).files
    decreases |tar| - offset
  {
    hide NextFile;
    if !AllNull(tar[offset..offset + BLOCK]) {
      OneHeader(tar, offset, files, total, limits);
      var f := NextFile(tar, offset, files, total, limits).file;
      UnpackedSoFarStays(tar, offset + BLOCK + Blocks(|f.bytes|), files + [f], total + |f.bytes|, limits);
    }
  }

  lemma {:induction false} UnpackPacked(a: seq<Byte>, files: seq<File>, tar: seq<Byte>, done: seq<File>, total: nat, limits: Limits)
    requires Ahead(done, total, files, limits) && tar == a + TarOf(files)
    ensures UnpackAt(tar, |a|, done, total, limits) == Files(done + files) <==> Small(files)
    decreases |files|
  {
    hide NextFile, Ahead, Small, Entry, Blocks, MayFollow, AllNull;
    if files == [] {
      EndOfTar(a, tar, done, total, limits);
    } else {
      var f, rest := files[0], files[1..];
      FirstMayFollow(done, total, files, limits);
      PackedFileIsNext(a, f, TarOf(rest), tar, done, total, limits);
      OneHeader(tar, |a|, done, total, limits);
      SmallSplits(files);
      if |f.bytes| < EIGHT_TO_THE_TWELFTH {
        AheadAfterOne(done, total, files, limits);
        Regroup(a, Entry(f), TarOf(rest));
        EntryAt(a, f, TarOf(rest), tar);
        UnpackPacked(a + Entry(f), rest, tar, done + [f], total + |f.bytes|, limits);
        assert done + files == done + [f] + rest;
      } else {
        CutShort(tar, |a|, done, total, limits, files);
      }
    }
  }

  lemma {:induction false} EndOfTar(a: seq<Byte>, tar: seq<Byte>, done: seq<File>, total: nat, limits: Limits)
    requires tar == a + TarOf([])
    ensures UnpackAt(tar, |a|, done, total, limits) == Files(done) == Files(done + []) && Small([])
  {
    hide NextFile;
    assert tar[|a|..|a| + BLOCK] == Nulls(BLOCK);
    assert done + [] == done;
  }

  lemma FirstMayFollow(done: seq<File>, total: nat, files: seq<File>, limits: Limits)
    requires Ahead(done, total, files, limits) && files != []
    ensures MayFollow(done, total, limits, files[0]) && AllFlat(files) && AllFlat(files[1..])
  {}

  lemma SmallSplits(files: seq<File>)
    requires files != []
    ensures Small(files) <==> |files[0].bytes| < EIGHT_TO_THE_TWELFTH && Small(files[1..])
  {
    if Small(files[1..]) {
      assert forall i :: 1 <= i < |files| ==> files[i] == files[1..][i - 1];
    }
  }

  lemma {:induction false} CutShort(tar: seq<Byte>, offset: nat, done: seq<File>, total: nat, limits: Limits, files: seq<File>)
    requires offset + BLOCK <= |tar| && !AllNull(tar[offset..offset + BLOCK]) && files != []
    requires
      var next := NextFile(tar, offset, done, total, limits);
      next.Another? ==> |next.file.bytes| < |files[0].bytes|
    ensures UnpackAt(tar, offset, done, total, limits) != Files(done + files)
  {
    hide NextFile;
    OneHeader(tar, offset, done, total, limits);
    var next := NextFile(tar, offset, done, total, limits);
    if next.Another? && UnpackAt(tar, offset, done, total, limits).Files? {
      var f := next.file;
      UnpackedSoFarStays(tar, offset + BLOCK + Blocks(|f.bytes|), done + [f], total + |f.bytes|, limits);
      assert (done + [f])[|done|] == f && (done + files)[|done|] == files[0];
    }
  }

  // ── The compressed archive ──

  datatype Codec = Codec(gzip: seq<Byte> -> seq<Byte>, gunzip: (seq<Byte>, nat) -> Option<seq<Byte>>)

  /** gunzip gives back what gzip was given, unless that is longer than the limit it is called with. */
  ghost predicate Inverse(c: Codec) {
    forall t, max :: c.gunzip(c.gzip(t), max) == if |t| <= max then Some(t) else None
  }

  method PackTgz(c: Codec, files: seq<File>) returns (r: Option<seq<Byte>>)
    requires forall i :: 0 <= i < |files| ==> |files[i].bytes| <= MAX_SAFE_INTEGER
    ensures r == if AllFlat(files) && NamesDiffer(files) then Some(c.gzip(TarOf(files))) else None
  {
    var tar := PackTar(files);
    r := if tar.Some? then Some(c.gzip(tar.value)) else None;
  }

  const DEFAULT_LIMITS := Limits(16, 128 * 1024 * 1024)

  function MaxOutput(limits: Limits): nat {
    limits.maxBytes + BLOCK * (2 * limits.maxFiles + 4)
  }

  function UnpackedTgz(c: Codec, tgz: seq<Byte>, limits: Limits): Unpacked {
    var tar := c.gunzip(tgz, MaxOutput(limits));
    if tar.None? then Refused(NotGzip) else UnpackAt(tar.value, 0, [], 0, limits)
  }

  method UnpackTgz(c: Codec, tgz: seq<Byte>, limits: Limits) returns (r: Unpacked)
    ensures r == UnpackedTgz(c, tgz, limits)
  {
    var tar := c.gunzip(tgz, limits.maxBytes + BLOCK * (2 * limits.maxFiles + 4));
    if tar.None? {
      return Refused(NotGzip);
    }
    r := UnpackTar(tar.value, limits);
  }

  /** The bound on the output never stands in the way of an archive within the limits; and an archive is whole blocks,
      the last two of them null. */
  lemma {:induction false} TarLength(files: seq<File>)
    requires AllFlat(files)
    ensures 2 * BLOCK <= |TarOf(files)| <= Sizes(files) + BLOCK * (2 * |files| + 2) && |TarOf(files)| % BLOCK == 0
    ensures forall i | |TarOf(files)| - 1024 <= i < |TarOf(files)| :: TarOf(files)[i] == 0
    decreases |files|
  {
    hide Header, BlankAt, Blocks, Padding;
    if files != [] {
      TarLength(files[1..]);
      BlocksCover(|files[0].bytes|);
      var rest, size := TarOf(files[1..]), |Entry(files[0])|;
      assert size == BLOCK + Blocks(|files[0].bytes|);
      forall i | |TarOf(files)| - 1024 <= i < |TarOf(files)| ensures TarOf(files)[i] == 0 {
        assert TarOf(files)[i] == rest[i - size];
      }
    }
  }

  /** Unpacking what was packed gives exactly the files, in order, when and only when every size is below
      8 to the twelfth: for any files that can be packed and keep the limits. */
  lemma {:induction false} UnpackingWhatWasPacked(c: Codec, files: seq<File>, limits: Limits)
    requires Inverse(c) && AllFlat(files) && NamesDiffer(files)
    requires |files| <= limits.maxFiles && Sizes(files) <= limits.maxBytes
    ensures UnpackedTgz(c, c.gzip(TarOf(files)), limits) == Files(files) <==> Small(files)
  {
    hide NextFile, Small;
    TarLength(files);
    var tar := TarOf(files);
    assert |tar| <= MaxOutput(limits);
    assert c.gunzip(c.gzip(tar), MaxOutput(limits)) == Some(tar);
    assert [] + tar == tar && [] + files == files;
    UnpackPacked([], files, tar, [], 0, limits);
  }

  /** A file of exactly 8 to the twelfth bytes does not come back. */
  lemma {:induction false} OneByteTooMany(c: Codec, f: File)
    requires Inverse(c) && FlatName(f.name) && |f.bytes| == EIGHT_TO_THE_TWELFTH
    ensures UnpackedTgz(c, c.gzip(TarOf([f])), Limits(1, EIGHT_TO_THE_TWELFTH)) != Files([f])
  {
    var files := [f];
    assert files[1..] == [] && Sizes(files) == |f.bytes| + Sizes(files[1..]);
    assert !Small(files) by {
      assert files[0] == f;
    }
    UnpackingWhatWasPacked(c, files, Limits(1, EIGHT_TO_THE_TWELFTH));
  }
}
