/** Any sequence of sections over a tool's settings file: what was there comes back when the tool is no longer
    named, and with outside edits in between only what the agent placed is taken out. */
module ToolSettingsRuns {
  import opened Foundations
  import opened ToolSettings

  function KeysOf(entries: seq<Entry>): (r: seq<Key>)
    ensures |r| == |entries| && forall i :: 0 <= i < |r| ==> r[i] == entries[i].key
  {
    seq(|entries|, i requires 0 <= i < |entries| => entries[i].key)
  }

  // ── One list ──

  lemma {:induction false} WithoutConcat(a: seq<Entry>, b: seq<Entry>, stale: set<Key>)
    ensures Without(a + b, stale) == Without(a, stale) + Without(b, stale)
    decreases |a|
  {
    if a == [] {
      assert a + b == b;
    } else {
      assert (a + b)[1..] == a[1..] + b;
      WithoutConcat(a[1..], b, stale);
    }
  }

  lemma {:induction false} WithoutNothing(a: seq<Entry>, stale: set<Key>)
    requires forall i :: 0 <= i < |a| ==> a[i].key !in stale
    ensures Without(a, stale) == a
    decreases |a|
  {
    if a != [] {
      WithoutNothing(a[1..], stale);
    }
  }

  lemma {:induction false} WithoutAll(a: seq<Entry>, stale: set<Key>)
    requires forall i :: 0 <= i < |a| ==> a[i].key in stale
    ensures Without(a, stale) == []
    decreases |a|
  {
    if a != [] {
      WithoutAll(a[1..], stale);
    }
  }

  lemma {:induction false} WithoutTwice(a: seq<Entry>, stale: set<Key>, more: set<Key>)
    requires stale <= more
    ensures Without(Without(a, stale), more) == Without(a, more)
    decreases |a|
  {
    if a != [] {
      WithoutTwice(a[1..], stale, more);
      if a[0].key !in stale {
        assert ([a[0]] + Without(a[1..], stale))[1..] == Without(a[1..], stale);
      }
    }
  }

  /** The keys of `p` differ from each other and from those of `b`. */
  predicate Separate(b: seq<Entry>, p: seq<Entry>)
    decreases |p|
  {
    p == [] || (!HasKey(b, p[0].key) && !HasKey(p[1..], p[0].key) && Separate(b, p[1..]))
  }

  lemma {:induction false} WithoutHasFewer(p: seq<Entry>, stale: set<Key>, k: Key)
    requires HasKey(Without(p, stale), k)
    ensures HasKey(p, k)
  {
    var i :| 0 <= i < |Without(p, stale)| && Without(p, stale)[i].key == k;
    var e := Without(p, stale)[i];
    var j :| 0 <= j < |p| && p[j] == e;
    assert p[j].key == k;
  }

  lemma {:induction false} WithoutStaysSeparate(b: seq<Entry>, p: seq<Entry>, stale: set<Key>)
    requires Separate(b, p)
    ensures Separate(b, Without(p, stale))
    decreases |p|
  {
    if p != [] {
      WithoutStaysSeparate(b, p[1..], stale);
      if p[0].key !in stale {
        var rest := Without(p[1..], stale);
        assert ([p[0]] + rest)[1..] == rest;
        if HasKey(rest, p[0].key) {
          WithoutHasFewer(p[1..], stale, p[0].key);
        }
      }
    }
  }

  lemma {:induction false} OneMoreStaysSeparate(b: seq<Entry>, p: seq<Entry>, e: Entry)
    requires Separate(b, p) && !HasKey(b, e.key) && !HasKey(p, e.key)
    ensures Separate(b, p + [e])
    decreases |p|
  {
    if p == [] {
      assert p + [e] == [e] && [e][1..] == [];
    } else {
      var rest := p[1..];
      assert (p + [e])[1..] == rest + [e];
      forall i | 0 <= i < |rest| ensures rest[i].key != e.key {
        assert rest[i] == p[i + 1];
      }
      OneMoreStaysSeparate(b, rest, e);
      assert p[0].key != e.key;
      forall i | 0 <= i < |rest + [e]| ensures (rest + [e])[i].key != p[0].key {
        if i < |rest| {
          assert rest[i].key != p[0].key;
        }
      }
    }
  }

  lemma HasKeyConcat(a: seq<Entry>, b: seq<Entry>, k: Key)
    ensures HasKey(a + b, k) <==> HasKey(a, k) || HasKey(b, k)
  {
    var c := a + b;
    if HasKey(a, k) {
      var i :| 0 <= i < |a| && a[i].key == k;
      assert c[i].key == k;
    }
    if HasKey(b, k) {
      var i :| 0 <= i < |b| && b[i].key == k;
      assert c[|a| + i].key == k;
    }
    if HasKey(c, k) {
      var i :| 0 <= i < |c| && c[i].key == k;
      assert if i < |a| then a[i].key == k else b[i - |a|].key == k;
    }
  }

  /** What is left of the placed entries is what stays recorded. */
  lemma {:induction false} LeftIsRecorded(p: seq<Entry>, want: seq<Entry>, list: seq<Entry>, stale: set<Key>)
    requires forall i :: 0 <= i < |p| ==> HasKey(list, p[i].key) && (p[i].key in stale <==> !HasKey(want, p[i].key))
    ensures KeysOf(Without(p, stale)) == StillPlaced(KeysOf(p), want, list)
    decreases |p|
  {
    if p != [] {
      assert KeysOf(p)[1..] == KeysOf(p[1..]);
      LeftIsRecorded(p[1..], want, list, stale);
      var rest := Without(p[1..], stale);
      assert KeysOf([p[0]] + rest) == [p[0].key] + KeysOf(rest);
    }
  }

  /** Topping up puts wanted entries behind and records exactly those. */
  lemma {:induction false} ToppedUp(b: seq<Entry>, p: seq<Entry>, want: seq<Entry>) returns (more: seq<Entry>)
    requires Separate(b, p)
    ensures Topped(b + p, KeysOf(p), want) == (b + more, KeysOf(more)) && Separate(b, more) && p <= more
    ensures b == [] && want != [] ==> more != []
    decreases |want|
  {
    if want == [] {
      more := p;
    } else {
      HasKeyConcat(b, p, want[0].key);
      if HasKey(b + p, want[0].key) {
        more := ToppedUp(b, p, want[1..]);
      } else {
        OneMoreStaysSeparate(b, p, want[0]);
        assert b + p + [want[0]] == b + (p + [want[0]]) && KeysOf(p) + [want[0].key] == KeysOf(p + [want[0]]);
        more := ToppedUp(b, p + [want[0]], want[1..]);
      }
    }
  }

  /** The list is what was there at the start with what the agent placed behind it; one that was not there is
      there exactly while something is placed in it, and recorded as created. */
  ghost predicate Own(base: Option<seq<Entry>>, s: Slot) {
    var b, items := Items(base), Items(s.list);
    && b <= items && Separate(b, items[|b|..]) && s.placed == KeysOf(items[|b|..])
    && if base.Some? then s.list.Some? && !s.created else s.created == s.list.Some? && (s.list.Some? ==> s.placed != [])
  }

  lemma {:induction false} MergedStaysOwn(base: Option<seq<Entry>>, s: Slot, want: seq<Entry>)
    requires Own(base, s)
    ensures Own(base, Merged(s, want))
    ensures want == [] ==> Merged(s, want).placed == []
  {
    hide Topped, Without, StillPlaced, Separate;
    var b, items := Items(base), Items(s.list);
    var p := items[|b|..];
    var stale := Stale(s.placed, want);
    assert items == b + p;
    KeptOfOwn(b, p, want, stale);
    var more := ToppedUp(b, Without(p, stale), want);
    assert (b + more)[|b|..] == more;
    if want == [] {
      AllAreStale(p, stale);
      NothingToTop(b, Without(p, stale));
    }
    if s.list.None? {
      WithoutNothing([], stale);
      assert KeysOf([]) == [];
    }
  }

  lemma AllAreStale(p: seq<Entry>, stale: set<Key>)
    requires stale == Stale(KeysOf(p), [])
    ensures Without(p, stale) == []
  {
    forall i | 0 <= i < |p| ensures p[i].key in stale {
      assert KeysOf(p)[i] in KeysOf(p);
    }
    WithoutAll(p, stale);
  }

  lemma NothingToTop(b: seq<Entry>, p: seq<Entry>)
    requires p == []
    ensures Topped(b + p, KeysOf(p), []) == (b, [])
  {
    assert b + p == b;
  }

  lemma KeysAreKeys(p: seq<Entry>, k: Key)
    ensures k in KeysOf(p) <==> HasKey(p, k)
  {}

  lemma {:induction false} NotAmongThePlaced(b: seq<Entry>, p: seq<Entry>, k: Key)
    requires Separate(b, p) && exists i :: 0 <= i < |b| && b[i].key == k
    ensures !HasKey(p, k)
    decreases |p|
  {
    if p != [] {
      NotAmongThePlaced(b, p[1..], k);
      forall i | 1 <= i < |p| ensures p[i].key != k {
        assert p[1..][i - 1].key != k;
      }
    }
  }

  lemma {:induction false} KeptOfOwn(b: seq<Entry>, p: seq<Entry>, want: seq<Entry>, stale: set<Key>)
    requires Separate(b, p) && stale == Stale(KeysOf(p), want)
    ensures Without(b + p, stale) == b + Without(p, stale) && Separate(b, Without(p, stale))
    ensures KeysOf(Without(p, stale)) == StillPlaced(KeysOf(p), want, b + p)
  {
    WithoutConcat(b, p, stale);
    forall i | 0 <= i < |b| ensures b[i].key !in stale {
      KeysAreKeys(p, b[i].key);
      NotAmongThePlaced(b, p, b[i].key);
    }
    WithoutNothing(b, stale);
    WithoutStaysSeparate(b, p, stale);
    forall i | 0 <= i < |p| ensures HasKey(b + p, p[i].key) && (p[i].key in stale <==> !HasKey(want, p[i].key)) {
      assert (b + p)[|b| + i].key == p[i].key;
      assert KeysOf(p)[i] in KeysOf(p);
    }
    LeftIsRecorded(p, want, b + p, stale);
  }

  /** With nothing stale in it, a list that is left alone keeps its record. */
  lemma {:induction false} UnwrittenStaysOwn(base: Option<seq<Entry>>, s: Slot, want: seq<Entry>)
    requires Own(base, s) && !HasStale(s, want)
    ensures Unwritten(s, want) == s && (want == [] ==> s.placed == [])
  {
    var b, items := Items(base), Items(s.list);
    forall i | 0 <= i < |s.placed| ensures HasKey(items, s.placed[i]) && HasKey(want, s.placed[i]) {
      assert items[|b| + i].key == s.placed[i];
    }
    AllStillPlaced(s.placed, want, items);
    assert s.placed != [] ==> HasKey(want, s.placed[0]);
  }

  lemma {:induction false} AllStillPlaced(placed: seq<Key>, want: seq<Entry>, list: seq<Entry>)
    requires forall i :: 0 <= i < |placed| ==> HasKey(want, placed[i]) && HasKey(list, placed[i])
    ensures StillPlaced(placed, want, list) == placed
    decreases |placed|
  {
    if placed != [] {
      AllStillPlaced(placed[1..], want, list);
    }
  }

  // ── One pass ──

  ghost predicate GoodPaths(paths: seq<Path>) {
    Distinct(paths) && forall i :: 0 <= i < |paths| ==> ValidPath(paths[i])
  }

  lemma {:induction false} DistinctSnoc(paths: seq<Path>, p: Path)
    requires Distinct(paths) && p !in paths
    ensures Distinct(paths + [p])
  {
    DistinctByIndex(paths);
    DistinctByIndex(paths + [p]);
  }

  lemma {:induction false} WantedPathsAreGood(tool: Tool, lists: seq<Wanted>, paths: seq<Path>)
    requires GoodPaths(paths)
    ensures GoodPaths(WantedPaths(tool, lists, paths))
    decreases |lists|
  {
    if lists != [] {
      var place := Place(tool, lists[0].list);
      if place.Some? && place.value !in paths {
        DistinctSnoc(paths, place.value);
      }
      WantedPathsAreGood(tool, lists[1..], if place.Some? then WithPath(paths, place.value) else paths);
    }
  }

  ghost predicate ValidPlaced(placed: seq<Placed>) {
    forall i :: 0 <= i < |placed| ==> ValidPath(placed[i].path)
  }

  lemma {:induction false} PlacedPathsAreGood(placed: seq<Placed>, paths: seq<Path>, p: Path)
    requires GoodPaths(paths) && ValidPlaced(placed)
    ensures GoodPaths(PlacedPaths(placed, paths))
    ensures p in paths || KeysAt(placed, p) != [] ==> p in PlacedPaths(placed, paths)
    decreases |placed|
  {
    if placed != [] {
      var next := placed[0].path;
      if next !in paths {
        DistinctSnoc(paths, next);
      }
      PlacedPathsAreGood(placed[1..], WithPath(paths, next), p);
    }
  }

  lemma {:induction false} PathsAreGood(tool: Tool, lists: seq<Wanted>, placed: seq<Placed>, p: Path)
    requires ValidPlaced(placed)
    ensures GoodPaths(Paths(tool, lists, placed))
    ensures KeysAt(placed, p) != [] ==> p in Paths(tool, lists, placed)
  {
    WantedPathsAreGood(tool, lists, []);
    PlacedPathsAreGood(placed, WantedPaths(tool, lists, []), p);
  }

  /** What a pass that writes leaves at `p`. */
  predicate MergedAt(tool: Tool, lists: seq<Wanted>, f: File, paths: seq<Path>, p: Path)
    requires f.applied.Some?
  {
    var (c, placed, created) := MergeAll(tool, lists, f, paths);
    var s := SlotAt(f, p);
    Slot(ListAt(c, p), KeysAt(placed, p), p in created)
    == if p in paths then Merged(s, Want(tool, lists, p)) else s.(placed := [])
  }

  lemma WrittenAt(c: Config, p: Path, was: Slot, want: seq<Entry>, q: Path)
    requires ValidPath(p) && ValidPath(q) && Readable(c, p) && was.list == ListAt(c, p)
    ensures ListAt(Written(c, p, was, want), q) == if q == p then Merged(was, want).list else ListAt(c, q)
    ensures Readable(c, q) ==> Readable(Written(c, p, was, want), q)
  {
    hide Merged, ListAt, WithList, WithoutList, Readable;
    var m := Merged(was, want);
    if m.list.Some? {
      ListsAfterWriting(c, p, m.list.value, q);
    }
    ListsAfterRemoving(c, p, q);
    if was.list.None? && want == [] {
      NothingMerged(was);
    }
  }

  lemma NothingMerged(was: Slot)
    requires was.list.None?
    ensures Merged(was, []).list.None?
  {}

  /** Each list is merged on its own, whatever the order. */
  lemma {:induction false} EachListIsMerged(tool: Tool, lists: seq<Wanted>, f: File, paths: seq<Path>, p: Path)
    requires f.applied.Some? && GoodPaths(paths) && ValidPath(p) && forall q :: q in paths ==> Readable(f.config, q)
    ensures MergedAt(tool, lists, f, paths, p)
    decreases |paths|
  {
    hide Merged, Want, ListAt, Readable, Written;
    if paths != [] {
      var q, rest := paths[0], paths[1..];
      var was, want := SlotAt(f, q), Want(tool, lists, q);
      var m := Merged(was, want);
      var created := if m.created then CreatedBefore(f) + {q} else CreatedBefore(f) - {q};
      var next := File(Written(f.config, q, was, want), Some(f.applied.value.(created := created)));
      forall r | r in rest ensures Readable(next.config, r) {
        var i :| 0 <= i < |rest| && rest[i] == r;
        assert paths[i + 1] == r;
        WrittenAt(f.config, q, was, want, r);
      }
      WrittenAt(f.config, q, was, want, p);
      assert GoodPaths(rest) by {
        assert forall i :: 0 <= i < |rest| ==> rest[i] == paths[i + 1];
      }
      EachListIsMerged(tool, lists, next, rest, p);
      assert MergedAt(tool, lists, next, rest, p);
    }
  }

  lemma {:induction false} EachRecordIsKept(tool: Tool, lists: seq<Wanted>, f: File, paths: seq<Path>, p: Path)
    ensures KeysAt(KeepAll(tool, lists, f, paths), p)
         == if p in paths then Unwritten(SlotAt(f, p), Want(tool, lists, p)).placed else []
    decreases |paths|
  {
    hide Unwritten, Want, SlotAt;
    if paths != [] {
      EachRecordIsKept(tool, lists, f, paths[1..], p);
    }
  }

  // ── Runs with no outside edits ──

  function RunPasses(tool: Tool, f: File, requests: seq<Request>): File
    decreases requests
  {
    if requests == [] then f else RunPasses(tool, Pass(tool, f, requests[0]).0, requests[1..])
  }

  ghost predicate AllOwn(base: Config, f: File) {
    forall p :: ValidPath(p) ==> Own(ListAt(base, p), SlotAt(f, p))
  }

  ghost predicate Recalls(base: Config, f: File) {
    AllOwn(base, f) && ValidPlaced(PlacedBefore(f))
  }

  lemma {:induction false} MergeAllIsValid(tool: Tool, lists: seq<Wanted>, f: File, paths: seq<Path>)
    requires f.applied.Some? && GoodPaths(paths)
    ensures ValidPlaced(MergeAll(tool, lists, f, paths).1)
    decreases |paths|
  {
    hide Merged, Want, Written, SlotAt;
    if paths != [] {
      var p := paths[0];
      var was, want := SlotAt(f, p), Want(tool, lists, p);
      var created := if Merged(was, want).created then CreatedBefore(f) + {p} else CreatedBefore(f) - {p};
      var next := File(Written(f.config, p, was, want), Some(f.applied.value.(created := created)));
      assert forall i :: 0 <= i < |paths[1..]| ==> paths[1..][i] == paths[i + 1];
      MergeAllIsValid(tool, lists, next, paths[1..]);
    }
  }

  lemma {:induction false} KeepAllIsValid(tool: Tool, lists: seq<Wanted>, f: File, paths: seq<Path>)
    requires GoodPaths(paths)
    ensures ValidPlaced(KeepAll(tool, lists, f, paths))
    decreases |paths|
  {
    hide Unwritten, Want, SlotAt;
    if paths != [] {
      assert forall i :: 0 <= i < |paths[1..]| ==> paths[1..][i] == paths[i + 1];
      KeepAllIsValid(tool, lists, f, paths[1..]);
    }
  }

  /** Nothing is wanted of a tool that is not named. */
  lemma NotNamedWantsNothing(tool: Tool, q: Request, p: Path)
    requires q.settings.None?
    ensures Want(tool, Lists(q), p) == []
  {}

  lemma {:induction false} KeptPassIsOwn(tool: Tool, base: Config, f: File, q: Request, p: Path)
    requires Recalls(base, f) && ValidPath(p)
    requires
      var paths := Paths(tool, Lists(q), PlacedBefore(f));
      !AnyStale(tool, Lists(q), f, paths)
    ensures
      var placed := KeepAll(tool, Lists(q), f, Paths(tool, Lists(q), PlacedBefore(f)));
      Own(ListAt(base, p), SlotAt(File(f.config, Remembered(q, placed, CreatedBefore(f))), p))
  {
    hide Own, HasStale, Unwritten, Want, ListAt, Paths, KeepAll;
    var lists := Lists(q);
    var paths := Paths(tool, lists, PlacedBefore(f));
    var s, want := SlotAt(f, p), Want(tool, lists, p);
    assert Own(ListAt(base, p), s);
    PathsAreGood(tool, lists, PlacedBefore(f), p);
    EachRecordIsKept(tool, lists, f, paths, p);
    if p in paths {
      UnwrittenStaysOwn(ListAt(base, p), s, want);
    } else {
      assert s.placed == [];
    }
    if q.settings.None? {
      NotNamedWantsNothing(tool, q, p);
      ForgottenIsOwn(ListAt(base, p), s);
    }
  }

  /** With nothing placed in it a list needs no record. */
  lemma ForgottenIsOwn(base: Option<seq<Entry>>, s: Slot)
    requires Own(base, s) && s.placed == []
    ensures s == Slot(base, [], false)
  {
    var rest := Items(s.list)[|Items(base)|..];
    assert |KeysOf(rest)| == |rest| == 0;
    assert Items(s.list) == Items(base) + rest == Items(base);
  }

  lemma {:induction false} WrittenPassIsOwn(tool: Tool, base: Config, f: File, q: Request, p: Path)
    requires Recalls(base, f) && ValidPath(p) && GoesAhead(tool, f, q)
    ensures
      var (c, placed, created) := MergeAll(tool, Lists(q), Remembering(f), Paths(tool, Lists(q), PlacedBefore(f)));
      Own(ListAt(base, p), SlotAt(File(c, Remembered(q, placed, created)), p))
  {
    hide Own, Merged, Want, ListAt, Paths, Readable;
    var lists, g := Lists(q), Remembering(f);
    var paths := Paths(tool, lists, PlacedBefore(f));
    var s, want := SlotAt(f, p), Want(tool, lists, p);
    assert Own(ListAt(base, p), s) && SlotAt(g, p) == s;
    PathsAreGood(tool, lists, PlacedBefore(f), p);
    EachListIsMerged(tool, lists, g, paths, p);
    var (c, placed, created) := MergeAll(tool, lists, g, paths);
    MergedStaysOwn(ListAt(base, p), s, want);
    assert MergedAt(tool, lists, g, paths, p);
    if q.settings.None? {
      NotNamedWantsNothing(tool, q, p);
      ForgottenIsOwn(ListAt(base, p), if p in paths then Merged(s, want) else s);
    } else if p !in paths {
      assert s.(placed := []) == s;
    }
  }

  lemma {:induction false} PassRecalls(tool: Tool, base: Config, f: File, q: Request)
    requires Recalls(base, f)
    ensures Recalls(base, Pass(tool, f, q).0)
  {
    hide Own, Want, ListAt, Paths, Readable, MergeAll, KeepAll, MissingIn, AnyStale, AsksUnsupported;
    var lists, f' := Lists(q), Pass(tool, f, q).0;
    var paths := Paths(tool, lists, PlacedBefore(f));
    PathsAreGood(tool, lists, PlacedBefore(f), Top(""));
    if f' != f {
      MergeAllIsValid(tool, lists, Remembering(f), paths);
      KeepAllIsValid(tool, lists, f, paths);
      forall p | ValidPath(p) ensures Own(ListAt(base, p), SlotAt(f', p)) {
        if !AnyStale(tool, lists, f, paths) {
          KeptPassIsOwn(tool, base, f, q, p);
        }
        WrittenPassIsOwn(tool, base, f, q, p);
      }
    }
  }

  lemma {:induction false} RunRecalls(tool: Tool, base: Config, f: File, requests: seq<Request>)
    requires Recalls(base, f)
    ensures Recalls(base, RunPasses(tool, f, requests))
    decreases requests
  {
    hide Pass, Recalls;
    if requests != [] {
      PassRecalls(tool, base, f, requests[0]);
      RunRecalls(tool, base, Pass(tool, f, requests[0]).0, requests[1..]);
    }
  }

  lemma StartRecalls(base: Config)
    ensures Recalls(base, File(base, None))
  {}

  /** Whatever sections came, and whatever passes failed, once the agent remembers nothing of the tool every
      list reads as at the start: the same entries in the same order, and none where none was. */
  lemma {:induction false} ListsComeBack(tool: Tool, base: Config, requests: seq<Request>, p: Path)
    requires ValidPath(p) && RunPasses(tool, File(base, None), requests).applied.None?
    ensures ListAt(RunPasses(tool, File(base, None), requests).config, p) == ListAt(base, p)
  {
    hide Pass, ListAt, RunPasses;
    var f := RunPasses(tool, File(base, None), requests);
    StartRecalls(base);
    RunRecalls(tool, base, File(base, None), requests);
    assert Own(ListAt(base, p), SlotAt(f, p));
    ForgottenIsOwn(ListAt(base, p), SlotAt(f, p));
  }

  lemma UnnamedMissesNothing(tool: Tool, f: File, q: Request, paths: seq<Path>)
    requires q.settings.None?
    ensures MissingIn(tool, Lists(q), f, paths) == {}
  {
    hide SlotAt;
    forall p | p in paths ensures !Missing(SlotAt(f, p), Want(tool, Lists(q), p)) {
      NotNamedWantsNothing(tool, q, p);
    }
  }

  /** A pass that does not name the tool and meets no obstacle makes the agent forget it. */
  lemma {:induction false} UnnamedIsForgotten(tool: Tool, f: File, q: Request)
    requires q.settings.None? && GoesAhead(tool, f, q) && !q.changed && q.writable
    ensures Pass(tool, f, q).0.applied.None?
  {
    hide Want, ListAt, Paths, Readable, MergeAll, KeepAll, MissingIn, AnyStale, AsksUnsupported;
    UnnamedMissesNothing(tool, f, q, Paths(tool, Lists(q), PlacedBefore(f)));
  }

  // ── The rest of the file ──

  /** The fields that are not lists. */
  function NoLists(fields: Config): Config {
    map k | k in fields && !fields[k].Array? :: fields[k]
  }

  predicate EmptyPermissions(c: Config) {
    PERMISSIONS in c && c[PERMISSIONS] == Object(map[])
  }

  function Fields(c: Config): Config {
    if Permissions(c).Some? then Permissions(c).value else map[]
  }

  /** Everything but lists is as it was, except that an empty object for permissions may have gone. */
  ghost predicate RestIsKept(base: Config, c: Config) {
    && NoLists(c - {PERMISSIONS}) == NoLists(base - {PERMISSIONS})
    && NoLists(Fields(c)) == NoLists(Fields(base))
    && (PERMISSIONS in base && !base[PERMISSIONS].Object? ==> PERMISSIONS in c && c[PERMISSIONS] == base[PERMISSIONS])
    && (PERMISSIONS in c && !c[PERMISSIONS].Object? ==> PERMISSIONS in base && c[PERMISSIONS] == base[PERMISSIONS])
    && (EmptyPermissions(c) ==> EmptyPermissions(base))
  }

  lemma WritingKeepsTheRest(base: Config, c: Config, p: Path, items: seq<Entry>)
    requires RestIsKept(base, c) && ValidPath(p) && Readable(c, p)
    ensures RestIsKept(base, WithList(c, p, items))
  {
    var c' := WithList(c, p, items);
    if p.Top? {
      assert NoLists(c' - {PERMISSIONS}) == NoLists(c - {PERMISSIONS});
    } else {
      assert c' - {PERMISSIONS} == c - {PERMISSIONS};
      assert NoLists(Fields(c')) == NoLists(Fields(c));
      assert p.key in Fields(c');
    }
  }

  lemma RemovingKeepsTheRest(base: Config, c: Config, p: Path)
    requires RestIsKept(base, c) && ValidPath(p) && Readable(c, p)
    ensures RestIsKept(base, WithoutList(c, p))
  {
    var c' := WithoutList(c, p);
    if p.Top? {
      assert NoLists(c' - {PERMISSIONS}) == NoLists(c - {PERMISSIONS});
    } else if Permissions(c).Some? {
      assert c' - {PERMISSIONS} == c - {PERMISSIONS};
      assert Fields(c') == Fields(c) - {p.key};
      assert NoLists(Fields(c')) == NoLists(Fields(c));
    }
  }

  lemma {:induction false} MergingKeepsTheRest(tool: Tool, lists: seq<Wanted>, base: Config, f: File, paths: seq<Path>)
    requires f.applied.Some? && GoodPaths(paths) && (forall q :: q in paths ==> Readable(f.config, q))
    requires RestIsKept(base, f.config)
    ensures RestIsKept(base, MergeAll(tool, lists, f, paths).0)
    decreases |paths|
  {
    hide Merged, Want, ListAt, Readable, RestIsKept, WithList, WithoutList;
    if paths != [] {
      var q, rest := paths[0], paths[1..];
      var was, want := SlotAt(f, q), Want(tool, lists, q);
      var m := Merged(was, want);
      var created := if m.created then CreatedBefore(f) + {q} else CreatedBefore(f) - {q};
      var next := File(Written(f.config, q, was, want), Some(f.applied.value.(created := created)));
      if m.list.Some? {
        WritingKeepsTheRest(base, f.config, q, m.list.value);
      }
      RemovingKeepsTheRest(base, f.config, q);
      forall r | r in rest ensures Readable(next.config, r) {
        var i :| 0 <= i < |rest| && rest[i] == r;
        assert paths[i + 1] == r;
        WrittenAt(f.config, q, was, want, r);
      }
      assert forall i :: 0 <= i < |rest| ==> rest[i] == paths[i + 1];
      MergingKeepsTheRest(tool, lists, base, next, rest);
    }
  }

  lemma {:induction false} PassKeepsTheRest(tool: Tool, base: Config, f: File, q: Request)
    requires RestIsKept(base, f.config) && ValidPlaced(PlacedBefore(f))
    ensures RestIsKept(base, Pass(tool, f, q).0.config)
  {
    hide Want, ListAt, Paths, Readable, MergeAll, KeepAll, MissingIn, AnyStale, AsksUnsupported, RestIsKept;
    PathsAreGood(tool, Lists(q), PlacedBefore(f), Top(""));
    if GoesAhead(tool, f, q) {
      MergingKeepsTheRest(tool, Lists(q), base, Remembering(f), Paths(tool, Lists(q), PlacedBefore(f)));
    }
  }

  lemma {:induction false} RunKeepsTheRest(tool: Tool, base: Config, f: File, requests: seq<Request>)
    requires Recalls(base, f) && RestIsKept(base, f.config)
    ensures RestIsKept(base, RunPasses(tool, f, requests).config)
    decreases requests
  {
    hide Pass, RestIsKept, AllOwn;
    if requests != [] {
      PassKeepsTheRest(tool, base, f, requests[0]);
      PassRecalls(tool, base, f, requests[0]);
      RunKeepsTheRest(tool, base, Pass(tool, f, requests[0]).0, requests[1..]);
    }
  }

  /** Two files with the same lists and the same rest are the same, but for an empty object for permissions. */
  lemma SameListsSameFile(base: Config, c: Config)
    requires RestIsKept(base, c) && forall p :: ValidPath(p) ==> ListAt(c, p) == ListAt(base, p)
    ensures c == base || (EmptyPermissions(base) && c == base - {PERMISSIONS})
  {
    var a, b := c - {PERMISSIONS}, base - {PERMISSIONS};
    SameTop(a, b, c, base);
    forall k ensures ArrayIn(Fields(c), k) == ArrayIn(Fields(base), k) {
      assert ListAt(c, Permission(k)) == ListAt(base, Permission(k));
    }
    SameByField(Fields(c), Fields(base));
    assert c == if PERMISSIONS in c then a[PERMISSIONS := c[PERMISSIONS]] else a;
    assert base == if PERMISSIONS in base then b[PERMISSIONS := base[PERMISSIONS]] else b;
  }

  lemma SameTop(a: Config, b: Config, c: Config, base: Config)
    requires a == c - {PERMISSIONS} && b == base - {PERMISSIONS} && NoLists(a) == NoLists(b)
    requires forall p :: ValidPath(p) ==> ListAt(c, p) == ListAt(base, p)
    ensures a == b
  {
    forall k ensures ArrayIn(a, k) == ArrayIn(b, k) {
      if k != PERMISSIONS {
        assert ListAt(c, Top(k)) == ListAt(base, Top(k));
      }
    }
    SameByField(a, b);
  }

  lemma SameByField(a: Config, b: Config)
    requires NoLists(a) == NoLists(b) && forall k :: ArrayIn(a, k) == ArrayIn(b, k)
    ensures a == b
  {
    forall k ensures (k in a <==> k in b) && (k in a ==> a[k] == b[k]) {
      assert ArrayIn(a, k) == ArrayIn(b, k);
      assert (k in NoLists(a) <==> k in NoLists(b)) && (k in NoLists(a) ==> NoLists(a)[k] == NoLists(b)[k]);
    }
  }

  /** Once the agent remembers nothing of the tool the whole file is as it was, or has only lost an object for
      permissions that was there and empty. */
  lemma {:induction false} FileComesBack(tool: Tool, base: Config, requests: seq<Request>)
    requires RunPasses(tool, File(base, None), requests).applied.None?
    ensures
      var c := RunPasses(tool, File(base, None), requests).config;
      c == base || (EmptyPermissions(base) && c == base - {PERMISSIONS})
  {
    hide Pass, ListAt, RunPasses, AllOwn, EmptyPermissions;
    var start := File(base, None);
    StartRecalls(base);
    assert RestIsKept(base, base);
    RunKeepsTheRest(tool, base, start, requests);
    forall p | ValidPath(p) ensures ListAt(RunPasses(tool, start, requests).config, p) == ListAt(base, p) {
      ListsComeBack(tool, base, requests, p);
    }
    SameListsSameFile(base, RunPasses(tool, start, requests).config);
  }

  function AllowOne(): Request {
    Request(Some([Wanted(PermissionsAllow, ["x"])]), "d", true, true, false, true)
  }

  function NoLonger(): Request {
    Request(None, "e", true, true, false, true)
  }

  /** One rule placed and taken out again removes an empty object for permissions. */
  lemma {:induction false} AnEmptyObjectGoes(tool: Tool, base: Config)
    requires EmptyPermissions(base)
    ensures RunPasses(tool, File(base, None), [AllowOne(), NoLonger()]) == File(base - {PERMISSIONS}, None)
  {
    var p, e := Permission("allow"), Entry(Text("x"), "");
    var f0 := File(base, None);
    var f1 := File(base[PERMISSIONS := Object(map["allow" := Array([e])])], Some(Applied("d", [Placed(p, [e.key])], {p})));
    AllowOnePasses(tool, base, f1);
    NoLongerPasses(tool, base, f1);
    assert [AllowOne(), NoLonger()][1..] == [NoLonger()] && [NoLonger()][1..] == [];
    assert RunPasses(tool, f1, [NoLonger()]) == RunPasses(tool, File(base - {PERMISSIONS}, None), []);
  }

  lemma {:induction false} AllowOneWants(tool: Tool)
    ensures
      var lists := [Wanted(PermissionsAllow, ["x"])];
      && Paths(tool, lists, []) == [Permission("allow")] && !AsksUnsupported(tool, lists)
      && Want(tool, lists, Permission("allow")) == [Entry(Text("x"), "")]
  {
    var w := Wanted(PermissionsAllow, ["x"]);
    var e := Entry(Text("x"), "");
    assert [w][1..] == [] && ["x"][1..] == [];
    assert AddedValues(tool, PermissionsAllow, ["x"], []) == AddedValues(tool, PermissionsAllow, [], [e]);
    assert WantedAt(tool, [w], Permission("allow"), []) == WantedAt(tool, [], Permission("allow"), [e]);
    assert WantedPaths(tool, [w], []) == WantedPaths(tool, [], [Permission("allow")]);
  }

  lemma {:induction false} AllowOnePasses(tool: Tool, base: Config, f1: File)
    requires EmptyPermissions(base)
    requires
      var p, e := Permission("allow"), Entry(Text("x"), "");
      f1 == File(base[PERMISSIONS := Object(map["allow" := Array([e])])], Some(Applied("d", [Placed(p, [e.key])], {p})))
    ensures Pass(tool, File(base, None), AllowOne()).0 == f1
  {
    hide Want, Paths, AsksUnsupported;
    var p, e := Permission("allow"), Entry(Text("x"), "");
    var f0, lists := File(base, None), [Wanted(PermissionsAllow, ["x"])];
    AllowOneWants(tool);
    var s := SlotAt(f0, p);
    assert s == Slot(None, [], false);
    assert !HasKey(Items(s.list), [e][0].key);
    assert Missing(s, [e]);
    assert p in MissingIn(tool, lists, f0, [p]);
    ToppedOne(e);
    assert Merged(s, [e]) == Slot(Some([e]), [e.key], true);
    var next := File(WithList(base, p, [e]), Some(Applied("", [], {p})));
    assert {} + {p} == {p};
    MergeOne(tool, lists, Remembering(f0), p, next);
    assert Recorded(p, [e.key], []) == [Placed(p, [e.key])];
    assert Lists(AllowOne()) == lists && PlacedBefore(f0) == [] && Readable(base, p);
    assert WithList(base, p, [e]) == f1.config;
  }

  lemma {:induction false} ToppedOne(e: Entry)
    ensures Topped([], [], [e]) == ([e], [e.key])
  {
    assert [e][1..] == [] && [] + [e] == [e] && [] + [e.key] == [e.key];
    assert Topped([e], [e.key], []) == ([e], [e.key]);
  }

  lemma {:induction false} NoLongerPasses(tool: Tool, base: Config, f1: File)
    requires EmptyPermissions(base)
    requires
      var p, e := Permission("allow"), Entry(Text("x"), "");
      f1 == File(base[PERMISSIONS := Object(map["allow" := Array([e])])], Some(Applied("d", [Placed(p, [e.key])], {p})))
    ensures Pass(tool, f1, NoLonger()).0 == File(base - {PERMISSIONS}, None)
  {
    hide Want, ListAt, Paths, MergeAll, KeepAll, MissingIn, AnyStale, AsksUnsupported;
    var p := Permission("allow");
    NoLongerLooksAt(tool, f1.applied.value.placed, p);
    NoLongerMerges(tool, base, f1, p);
    UnnamedMissesNothing(tool, f1, NoLonger(), [p]);
    UnnamedAsksNothing(tool);
  }

  lemma UnnamedAsksNothing(tool: Tool)
    ensures !AsksUnsupported(tool, [])
  {}

  lemma {:induction false} NoLongerLooksAt(tool: Tool, placed: seq<Placed>, p: Path)
    requires |placed| == 1 && placed[0].path == p
    ensures Paths(tool, [], placed) == [p]
  {
    assert WantedPaths(tool, [], []) == [];
    assert placed[1..] == [];
    assert PlacedPaths(placed, []) == PlacedPaths([], [p]) == [p];
  }

  lemma {:induction false} NoLongerIsStale(tool: Tool, f: File, p: Path)
    requires
      var s := SlotAt(f, p);
      s.list.Some? && |s.list.value| == |s.placed| == 1 && s.list.value[0].key == s.placed[0]
    ensures AnyStale(tool, [], f, [p])
  {
    hide ListAt, KeysAt;
    var s := SlotAt(f, p);
    assert Want(tool, [], p) == [];
    assert Items(s.list)[0].key == s.placed[0];
    assert HasStale(s, []);
    assert p in [p];
  }

  lemma {:induction false} NoLongerMerges(tool: Tool, base: Config, f: File, p: Path)
    requires EmptyPermissions(base) && p == Permission("allow")
    requires
      var e := Entry(Text("x"), "");
      f == File(base[PERMISSIONS := Object(map["allow" := Array([e])])], Some(Applied("d", [Placed(p, [e.key])], {p})))
    ensures MergeAll(tool, [], Remembering(f), [p]) == (base - {PERMISSIONS}, [], {})
    ensures AnyStale(tool, [], f, [p])
  {
    hide AnyStale;
    var e := Entry(Text("x"), "");
    var s := SlotAt(f, p);
    assert s == Slot(Some([e]), [e.key], true);
    NoLongerIsStale(tool, f, p);
    assert Want(tool, [], p) == [];
    GoneWhenUnwanted(e);
    assert Merged(s, []).list.None? && Merged(s, []).placed == [];
    assert WithoutList(f.config, p) == base - {PERMISSIONS};
    assert {p} - {p} == {};
    MergeOne(tool, [], Remembering(f), p, File(base - {PERMISSIONS}, Some(Applied("", f.applied.value.placed, {}))));
  }

  lemma {:induction false} GoneWhenUnwanted(e: Entry)
    ensures Without([e], Stale([e.key], [])) == [] && StillPlaced([e.key], [], [e]) == []
    ensures Topped([], [], []) == ([], [])
  {
    assert e.key in [e.key];
    assert [e][1..] == [] && [e.key][1..] == [];
  }

  lemma {:induction false} MergeOne(tool: Tool, lists: seq<Wanted>, f: File, p: Path, next: File)
    requires f.applied.Some? && next.applied.Some?
    requires
      var was, want := SlotAt(f, p), Want(tool, lists, p);
      var m := Merged(was, want);
      && next.config == Written(f.config, p, was, want)
      && next.applied == Some(f.applied.value.(created := if m.created then CreatedBefore(f) + {p} else CreatedBefore(f) - {p}))
    ensures
      var m := Merged(SlotAt(f, p), Want(tool, lists, p));
      MergeAll(tool, lists, f, [p]) == (next.config, Recorded(p, m.placed, []), CreatedBefore(next))
  {
    hide Merged, Want, SlotAt, Written;
    assert [p][1..] == [];
    assert MergeAll(tool, lists, next, []) == (next.config, [], CreatedBefore(next));
  }

  /** The file always comes back whole exactly when it had no empty object for permissions. */
  lemma {:induction false} FileComesBackExactlyUnless(tool: Tool, base: Config)
    ensures
      (forall requests :: RunPasses(tool, File(base, None), requests).applied.None? ==>
                            RunPasses(tool, File(base, None), requests).config == base)
      <==> !EmptyPermissions(base)
  {
    hide RunPasses;
    if EmptyPermissions(base) {
      AnEmptyObjectGoes(tool, base);
      assert PERMISSIONS !in base - {PERMISSIONS};
      assert RunPasses(tool, File(base, None), [AllowOne(), NoLonger()]).config != base;
    }
    forall requests | RunPasses(tool, File(base, None), requests).applied.None? && !EmptyPermissions(base)
      ensures RunPasses(tool, File(base, None), requests).config == base
    {
      FileComesBack(tool, base, requests);
    }
  }

  // ── Runs with outside edits ──

  /** A section, or any change to the file by someone else. */
  datatype Event = Applies(request: Request) | Edits(config: Config)

  /** `ever` holds what the agent has placed since the start, by setting. */
  datatype World = World(file: File, ever: set<(Path, Key)>)

  function NowPlaced(f: File): set<(Path, Key)> {
    set pl, k | pl in PlacedBefore(f) && k in pl.keys :: (pl.path, k)
  }

  function Apply(tool: Tool, w: World, e: Event): World {
    match e
    case Applies(q) => var f := Pass(tool, w.file, q).0; World(f, w.ever + NowPlaced(f))
    case Edits(config) => w.(file := w.file.(config := config))
  }

  function RunEvents(tool: Tool, w: World, events: seq<Event>): World
    decreases events
  {
    if events == [] then w else RunEvents(tool, Apply(tool, w, events[0]), events[1..])
  }

  function EverAt(ever: set<(Path, Key)>, p: Path): set<Key> {
    set x | x in ever && x.0 == p :: x.1
  }

  ghost predicate Accounted(w: World) {
    ValidPlaced(PlacedBefore(w.file)) && NowPlaced(w.file) <= w.ever
  }

  lemma {:induction false} PassStaysValid(tool: Tool, f: File, q: Request)
    requires ValidPlaced(PlacedBefore(f))
    ensures ValidPlaced(PlacedBefore(Pass(tool, f, q).0))
  {
    hide Want, ListAt, Paths, Readable, MergeAll, KeepAll, MissingIn, AnyStale, AsksUnsupported;
    var paths := Paths(tool, Lists(q), PlacedBefore(f));
    PathsAreGood(tool, Lists(q), PlacedBefore(f), Top(""));
    MergeAllIsValid(tool, Lists(q), Remembering(f), paths);
    KeepAllIsValid(tool, Lists(q), f, paths);
  }

  lemma {:induction false} RunStaysAccounted(tool: Tool, w: World, events: seq<Event>)
    requires Accounted(w)
    ensures Accounted(RunEvents(tool, w, events))
    decreases events
  {
    hide Pass;
    if events != [] {
      if events[0].Applies? {
        PassStaysValid(tool, w.file, events[0].request);
      }
      RunStaysAccounted(tool, Apply(tool, w, events[0]), events[1..]);
    }
  }

  lemma {:induction false} KeysAtArePlaced(placed: seq<Placed>, p: Path, k: Key)
    requires k in KeysAt(placed, p)
    ensures exists pl :: pl in placed && pl.path == p && k in pl.keys
  {
    if placed[0].path == p {
      assert placed[0] in placed;
    } else {
      KeysAtArePlaced(placed[1..], p, k);
      var pl :| pl in placed[1..] && pl.path == p && k in pl.keys;
      assert pl in placed;
    }
  }

  lemma {:induction false} ToppedIsPlaced(kept: seq<Entry>, placed: seq<Key>, want: seq<Entry>, ever: set<Key>)
    requires forall k :: k in Topped(kept, placed, want).1 ==> k in ever
    ensures Without(Topped(kept, placed, want).0, ever) == Without(kept, ever)
    ensures placed <= Topped(kept, placed, want).1
    decreases |want|
  {
    if want != [] {
      if HasKey(kept, want[0].key) {
        ToppedIsPlaced(kept, placed, want[1..], ever);
      } else {
        ToppedIsPlaced(kept + [want[0]], placed + [want[0].key], want[1..], ever);
        assert (placed + [want[0].key])[|placed|] == want[0].key;
        WithoutConcat(kept, [want[0]], ever);
        WithoutAll([want[0]], ever);
      }
    }
  }

  /** Merging a list touches only entries whose key the agent has placed there. */
  lemma {:induction false} MergedKeepsOthers(s: Slot, want: seq<Entry>, ever: set<Key>)
    requires forall k :: k in s.placed || k in Merged(s, want).placed ==> k in ever
    ensures Without(Items(Merged(s, want).list), ever) == Without(Items(s.list), ever)
    ensures s.list.Some? && Merged(s, want).list.None? ==> s.created
  {
    hide Topped, Without, StillPlaced;
    if !(s.list.None? && want == []) {
      var stale := Stale(s.placed, want);
      var left := Without(Items(s.list), stale);
      var placed := StillPlaced(s.placed, want, Items(s.list));
      ToppedIsPlaced(left, placed, want, ever);
      WithoutTwice(Items(s.list), stale, ever);
    }
  }

  lemma RecordedIsEver(f: File, p: Path, ever: set<(Path, Key)>, k: Key)
    requires NowPlaced(f) <= ever && k in SlotAt(f, p).placed
    ensures k in EverAt(ever, p)
  {
    KeysAtArePlaced(PlacedBefore(f), p, k);
    var pl :| pl in PlacedBefore(f) && pl.path == p && k in pl.keys;
    assert (p, k) in NowPlaced(f);
    assert (p, k) in ever && (p, k).0 == p && (p, k).1 == k;
  }

  lemma {:induction false} PassKeepsOthers(tool: Tool, f: File, q: Request, p: Path, ever: set<(Path, Key)>)
    requires ValidPath(p) && ValidPlaced(PlacedBefore(f)) && NowPlaced(f) <= ever && NowPlaced(Pass(tool, f, q).0) <= ever
    ensures
      var f' := Pass(tool, f, q).0;
      && Without(Items(ListAt(f'.config, p)), EverAt(ever, p)) == Without(Items(ListAt(f.config, p)), EverAt(ever, p))
      && (ListAt(f.config, p).Some? && ListAt(f'.config, p).None? ==> p in CreatedBefore(f))
  {
    hide Want, ListAt, Paths, Readable, MergeAll, KeepAll, MissingIn, AnyStale, AsksUnsupported, Merged, Without, NowPlaced, EverAt;
    var f', lists, g := Pass(tool, f, q).0, Lists(q), Remembering(f);
    var paths := Paths(tool, lists, PlacedBefore(f));
    PathsAreGood(tool, lists, PlacedBefore(f), p);
    if f'.config != f.config && p in paths {
      EachListIsMerged(tool, lists, g, paths, p);
      var s, want := SlotAt(f, p), Want(tool, lists, p);
      assert SlotAt(g, p) == s && MergedAt(tool, lists, g, paths, p);
      forall k | k in s.placed || k in Merged(s, want).placed ensures k in EverAt(ever, p) {
        if k in s.placed {
          RecordedIsEver(f, p, ever, k);
        } else if q.settings.Some? {
          RecordedIsEver(f', p, ever, k);
        } else {
          NotNamedWantsNothing(tool, q, p);
          NothingNewUnwanted(s, k);
        }
      }
      MergedKeepsOthers(s, want, EverAt(ever, p));
    } else if f'.config != f.config {
      EachListIsMerged(tool, lists, g, paths, p);
      assert MergedAt(tool, lists, g, paths, p);
    }
  }

  lemma {:induction false} NothingNewUnwanted(s: Slot, k: Key)
    ensures k in Merged(s, []).placed ==> k in s.placed
  {
    StillPlacedIsPlaced(s.placed, [], Items(s.list), k);
  }

  lemma {:induction false} StillPlacedIsPlaced(placed: seq<Key>, want: seq<Entry>, list: seq<Entry>, k: Key)
    ensures k in StillPlaced(placed, want, list) ==> k in placed
    decreases |placed|
  {
    if placed != [] {
      StillPlacedIsPlaced(placed[1..], want, list, k);
    }
  }

  lemma NothingPlacedAtFirst(start: Config)
    ensures Accounted(World(File(start, None), {}))
  {
    assert NowPlaced(File(start, None)) == {};
  }

  lemma AccountedMeans(w: World)
    requires Accounted(w)
    ensures ValidPlaced(PlacedBefore(w.file)) && NowPlaced(w.file) <= w.ever
  {}

  /** In any run, with any outside edits, a pass takes out and puts in only entries whose key the agent itself
      places or once placed in that setting: all others stay, in order. A list goes only when the agent created
      it, and everything that is no list stays, but for an empty object for permissions. */
  lemma {:induction false} OnlyWhatWasPlacedIsTouched(tool: Tool, start: Config, events: seq<Event>, q: Request, p: Path)
    requires ValidPath(p)
    ensures
      var w := RunEvents(tool, World(File(start, None), {}), events);
      var w' := Apply(tool, w, Applies(q));
      var before, after := ListAt(w.file.config, p), ListAt(w'.file.config, p);
      && Without(Items(after), EverAt(w'.ever, p)) == Without(Items(before), EverAt(w'.ever, p))
      && (before.Some? && after.None? ==> p in CreatedBefore(w.file))
      && RestIsKept(w.file.config, w'.file.config)
  {
    hide Pass, ListAt, Without, EverAt, NowPlaced, Accounted;
    var w0 := World(File(start, None), {});
    NothingPlacedAtFirst(start);
    RunStaysAccounted(tool, w0, events);
    var w := RunEvents(tool, w0, events);
    AccountedMeans(w);
    PassKeepsOthers(tool, w.file, q, p, Apply(tool, w, Applies(q)).ever);
    PassKeepsTheRest(tool, w.file.config, w.file, q);
  }
}
