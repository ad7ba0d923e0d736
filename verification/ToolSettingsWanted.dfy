/** What is in a tool's settings file after a pass: each value the section names, where the tool reads it and as it
    reads it; nothing the agent placed that is no longer named; and all else as it was. Where the lists are is
    written out again here, without the tables the pass works from. */
module ToolSettingsWanted {
  import opened Foundations
  import opened ToolSettings
  import opened ToolSettingsRuns

  // ── Where each value belongs ──

  predicate GoesTo(tool: Tool, list: List, p: Path) {
    || (list == PermissionsAllow && p == Permission("allow"))
    || (list == PermissionsDeny && p == Permission("deny"))
    || (tool == Claude && list == McpAllowed && p == Top("allowedMcpServers"))
    || (tool == Claude && list == McpDenied && p == Top("deniedMcpServers"))
    || (tool == Cursor && list == McpDenied && p == Permission("deny"))
  }

  predicate Reads(tool: Tool, list: List, value: string, k: Key) {
    if list == PermissionsAllow || list == PermissionsDeny then k == Text(value)
    else if tool == Claude then k == Server(value)
    else k == Text("Mcp(" + value + ":*)")
  }

  predicate AsksOf(tool: Tool, list: List, values: seq<string>, k: Key) {
    exists j | 0 <= j < |values| :: Reads(tool, list, values[j], k)
  }

  /** Some list of the section puts an entry with this key at `p`. */
  predicate Asks(tool: Tool, lists: seq<Wanted>, p: Path, k: Key) {
    exists i | 0 <= i < |lists| :: GoesTo(tool, lists[i].list, p) && AsksOf(tool, lists[i].list, lists[i].values, k)
  }

  predicate Names(tool: Tool, lists: seq<Wanted>, p: Path) {
    exists i | 0 <= i < |lists| :: GoesTo(tool, lists[i].list, p)
  }

  predicate HoldsIn(fields: Config, name: string, k: Key) {
    name in fields && fields[name].Array? && exists i | 0 <= i < |fields[name].items| :: fields[name].items[i].key == k
  }

  predicate Holds(c: Config, p: Path, k: Key) {
    match p
    case Top(name) => HoldsIn(c, name, k)
    case Permission(name) => "permissions" in c && c["permissions"].Object? && HoldsIn(c["permissions"].fields, name, k)
  }

  /** The agent placed an entry with this key at `p`. */
  predicate PlacedIn(f: File, p: Path, k: Key) {
    k in KeysAt(PlacedBefore(f), p)
  }

  lemma HoldsIsInTheList(c: Config, p: Path, k: Key)
    ensures Holds(c, p, k) <==> HasKey(Items(ListAt(c, p)), k)
  {}

  // ── What is wanted ──

  lemma GoesWhereItIsPlaced(tool: Tool, list: List, p: Path, value: string, k: Key)
    ensures GoesTo(tool, list, p) <==> Place(tool, list) == Some(p)
    ensures GoesTo(tool, list, p) ==> (Reads(tool, list, value, k) <==> EntryFor(tool, list, value).key == k)
  {}

  lemma {:induction false} AddedValuesHave(tool: Tool, list: List, values: seq<string>, entries: seq<Entry>, p: Path, k: Key)
    requires GoesTo(tool, list, p)
    ensures HasKey(AddedValues(tool, list, values, entries), k) <==> HasKey(entries, k) || AsksOf(tool, list, values, k)
    decreases |values|
  {
    hide EntryFor, GoesTo, Reads;
    if values != [] {
      var e := EntryFor(tool, list, values[0]);
      GoesWhereItIsPlaced(tool, list, p, values[0], k);
      HasKeyConcat(entries, [e], k);
      assert HasKey([e], k) <==> [e][0].key == k;
      AddedValuesHave(tool, list, values[1..], Added(entries, e), p, k);
      assert HasKey(Added(entries, e), k) <==> HasKey(entries, k) || e.key == k;
      if AsksOf(tool, list, values, k) {
        var j :| 0 <= j < |values| && Reads(tool, list, values[j], k);
        assert j > 0 ==> values[1..][j - 1] == values[j];
      }
      if AsksOf(tool, list, values[1..], k) {
        var j :| 0 <= j < |values[1..]| && Reads(tool, list, values[1..][j], k);
        assert values[j + 1] == values[1..][j];
      }
    }
  }

  lemma {:induction false} AsksStep(tool: Tool, lists: seq<Wanted>, p: Path, k: Key)
    requires lists != []
    ensures Asks(tool, lists, p, k) <==>
      || (GoesTo(tool, lists[0].list, p) && AsksOf(tool, lists[0].list, lists[0].values, k))
      || Asks(tool, lists[1..], p, k)
    ensures Names(tool, lists, p) <==> GoesTo(tool, lists[0].list, p) || Names(tool, lists[1..], p)
  {
    hide GoesTo, AsksOf;
    forall i | 1 <= i < |lists| ensures lists[1..][i - 1] == lists[i] {}
    forall i | 0 <= i < |lists[1..]| ensures lists[i + 1] == lists[1..][i] {}
  }

  lemma NothingAsked(tool: Tool, p: Path, k: Key)
    ensures !Asks(tool, [], p, k) && !Names(tool, [], p)
  {}

  lemma {:induction false} WantedAtHas(tool: Tool, lists: seq<Wanted>, p: Path, entries: seq<Entry>, k: Key)
    ensures HasKey(WantedAt(tool, lists, p, entries), k) <==> HasKey(entries, k) || Asks(tool, lists, p, k)
    decreases |lists|
  {
    hide GoesTo, AsksOf, Asks, Names, HasKey, AddedValues, Place;
    if lists == [] {
      NothingAsked(tool, p, k);
    } else {
      var w := lists[0];
      AsksStep(tool, lists, p, k);
      GoesWhereItIsPlaced(tool, w.list, p, "", k);
      if GoesTo(tool, w.list, p) {
        AddedValuesHave(tool, w.list, w.values, entries, p, k);
        WantedAtHas(tool, lists[1..], p, AddedValues(tool, w.list, w.values, entries), k);
      } else {
        WantedAtHas(tool, lists[1..], p, entries, k);
      }
    }
  }

  lemma {:induction false} WantHas(tool: Tool, lists: seq<Wanted>, p: Path, k: Key)
    ensures HasKey(Want(tool, lists, p), k) <==> Asks(tool, lists, p, k)
  {
    hide Asks, WantedAt;
    WantedAtHas(tool, lists, p, [], k);
  }

  predicate NoKeyTwice(entries: seq<Entry>) {
    forall i, j :: 0 <= i < j < |entries| ==> entries[i].key != entries[j].key
  }

  lemma {:induction false} AddedValuesDiffer(tool: Tool, list: List, values: seq<string>, entries: seq<Entry>)
    requires NoKeyTwice(entries)
    ensures NoKeyTwice(AddedValues(tool, list, values, entries))
    decreases |values|
  {
    hide EntryFor;
    if values != [] {
      AddedValuesDiffer(tool, list, values[1..], Added(entries, EntryFor(tool, list, values[0])));
    }
  }

  /** However often the section names a value, it is wanted once in a place. */
  lemma {:induction false} WantedOnce(tool: Tool, lists: seq<Wanted>, p: Path, entries: seq<Entry>)
    requires NoKeyTwice(entries)
    ensures NoKeyTwice(WantedAt(tool, lists, p, entries))
    decreases |lists|
  {
    hide NoKeyTwice, Place, AddedValues;
    if lists != [] {
      var w := lists[0];
      AddedValuesDiffer(tool, w.list, w.values, entries);
      WantedOnce(tool, lists[1..], p, if Place(tool, w.list) == Some(p) then AddedValues(tool, w.list, w.values, entries) else entries);
    }
  }

  // ── Which settings a pass looks at ──

  lemma {:induction false} WantedPathsHave(tool: Tool, lists: seq<Wanted>, paths: seq<Path>, p: Path)
    ensures p in WantedPaths(tool, lists, paths) <==> p in paths || Names(tool, lists, p)
    decreases |lists|
  {
    hide GoesTo, Names, Place, Asks;
    if lists == [] {
      NothingAsked(tool, p, Text(""));
    } else {
      AsksStep(tool, lists, p, Text(""));
      GoesWhereItIsPlaced(tool, lists[0].list, p, "", Text(""));
      var place := Place(tool, lists[0].list);
      WantedPathsHave(tool, lists[1..], if place.Some? then WithPath(paths, place.value) else paths, p);
    }
  }

  lemma {:induction false} PlacedPathsHave(placed: seq<Placed>, paths: seq<Path>, p: Path)
    ensures p in PlacedPaths(placed, paths) <==> p in paths || exists pl :: pl in placed && pl.path == p
    decreases |placed|
  {
    if placed != [] {
      PlacedPathsHave(placed[1..], WithPath(paths, placed[0].path), p);
      assert forall pl :: pl in placed <==> pl == placed[0] || pl in placed[1..];
    }
  }

  /** The section names the setting, or the agent placed something in it. */
  ghost predicate LooksAt(tool: Tool, f: File, q: Request, p: Path) {
    Names(tool, Lists(q), p) || exists pl :: pl in PlacedBefore(f) && pl.path == p
  }

  lemma {:induction false} PathsAreLookedAt(tool: Tool, f: File, q: Request, p: Path)
    ensures p in Paths(tool, Lists(q), PlacedBefore(f)) <==> LooksAt(tool, f, q, p)
  {
    hide Names;
    WantedPathsHave(tool, Lists(q), [], p);
    PlacedPathsHave(PlacedBefore(f), WantedPaths(tool, Lists(q), []), p);
  }

  lemma {:induction false} AskedIsNamed(tool: Tool, lists: seq<Wanted>, p: Path, k: Key)
    requires Asks(tool, lists, p, k)
    ensures Names(tool, lists, p)
  {
    hide GoesTo, AsksOf;
  }

  lemma {:induction false} OnlyWhereItLooks(tool: Tool, f: File, q: Request, p: Path, k: Key)
    requires !LooksAt(tool, f, q, p)
    ensures !Asks(tool, Lists(q), p, k) && KeysAt(PlacedBefore(f), p) == []
  {
    hide Asks, Names;
    if Asks(tool, Lists(q), p, k) {
      AskedIsNamed(tool, Lists(q), p, k);
    }
    if KeysAt(PlacedBefore(f), p) != [] {
      KeysAtArePlaced(PlacedBefore(f), p, KeysAt(PlacedBefore(f), p)[0]);
    }
  }

  // ── One list merged ──

  lemma {:induction false} WithoutHas(entries: seq<Entry>, stale: set<Key>, k: Key)
    ensures HasKey(Without(entries, stale), k) <==> HasKey(entries, k) && k !in stale
    decreases |entries|
  {
    if entries != [] {
      WithoutHas(entries[1..], stale, k);
      assert entries == [entries[0]] + entries[1..] && [entries[0]][0] == entries[0];
      HasKeyConcat([entries[0]], entries[1..], k);
      HasKeyConcat([entries[0]], Without(entries[1..], stale), k);
    }
  }

  lemma {:induction false} StillPlacedHas(placed: seq<Key>, want: seq<Entry>, list: seq<Entry>, k: Key)
    ensures k in StillPlaced(placed, want, list) <==> k in placed && HasKey(want, k) && HasKey(list, k)
    decreases |placed|
  {
    if placed != [] {
      StillPlacedHas(placed[1..], want, list, k);
    }
  }

  lemma {:induction false} ToppedHas(kept: seq<Entry>, placed: seq<Key>, want: seq<Entry>, k: Key)
    ensures HasKey(Topped(kept, placed, want).0, k) <==> HasKey(kept, k) || HasKey(want, k)
    ensures k in Topped(kept, placed, want).1 <==> k in placed || (HasKey(want, k) && !HasKey(kept, k))
    decreases |want|
  {
    if want != [] {
      var e := want[0];
      assert want == [e] + want[1..] && [e][0] == e;
      HasKeyConcat([e], want[1..], k);
      if HasKey(kept, e.key) {
        ToppedHas(kept, placed, want[1..], k);
      } else {
        HasKeyConcat(kept, [e], k);
        ToppedHas(kept + [e], placed + [e.key], want[1..], k);
      }
    }
  }

  lemma {:induction false} MergedHas(s: Slot, want: seq<Entry>, k: Key)
    ensures HasKey(Items(Merged(s, want).list), k) <==> HasKey(want, k) || (HasKey(Items(s.list), k) && k !in s.placed)
    ensures k in Merged(s, want).placed <==> HasKey(want, k) && (k in s.placed || !HasKey(Items(s.list), k))
  {
    hide Without, StillPlaced, Topped, HasKey;
    var stale := Stale(s.placed, want);
    var placed := StillPlaced(s.placed, want, Items(s.list));
    StillPlacedHas(s.placed, want, Items(s.list), k);
    WithoutHas(Items(s.list), stale, k);
    ToppedHas(Without(Items(s.list), stale), placed, want, k);
    NoKeyInNothing(k);
  }

  lemma NoKeyInNothing(k: Key)
    ensures !HasKey([], k)
  {}

  lemma {:induction false} UnwrittenHas(s: Slot, want: seq<Entry>, k: Key)
    requires !Missing(s, want) && !HasStale(s, want)
    ensures HasKey(Items(s.list), k) <==> HasKey(want, k) || (HasKey(Items(s.list), k) && k !in s.placed)
    ensures k in Unwritten(s, want).placed <==> HasKey(want, k) && (k in s.placed || !HasKey(Items(s.list), k))
  {
    hide StillPlaced;
    StillPlacedHas(s.placed, want, Items(s.list), k);
  }

  // ── After a pass ──

  /** The pass applied the section, or took out what was placed for a tool no longer named. */
  predicate Completed(tool: Tool, f: File, q: Request) {
    var (g, report) := Pass(tool, f, q);
    report.Done? || (q.settings.None? && f.applied.Some? && g.applied.None?)
  }

  lemma {:induction false} CompletedEither(tool: Tool, f: File, q: Request)
    requires Completed(tool, f, q)
    ensures
      var lists, paths := Lists(q), Paths(tool, Lists(q), PlacedBefore(f));
      && !AsksUnsupported(tool, lists) && (forall p :: p in paths ==> Readable(f.config, p))
      && if MissingIn(tool, lists, f, paths) == {} && !AnyStale(tool, lists, f, paths) then
           Pass(tool, f, q).0 == File(f.config, Remembered(q, KeepAll(tool, lists, f, paths), CreatedBefore(f)))
         else
           var (c, placed, created) := MergeAll(tool, lists, Remembering(f), paths);
           Pass(tool, f, q).0 == File(c, Remembered(q, placed, created))
  {
    hide Paths, AsksUnsupported, Readable, MissingIn, AnyStale, MergeAll, KeepAll;
  }

  /** What a completed pass leaves at `p`: the list's keys and the record. */
  ghost predicate LeftAt(tool: Tool, f: File, q: Request, p: Path, k: Key) {
    var g, had := Pass(tool, f, q).0, HasKey(Items(ListAt(f.config, p)), k);
    var want := HasKey(Want(tool, Lists(q), p), k);
    && (HasKey(Items(ListAt(g.config, p)), k) <==> want || (had && !PlacedIn(f, p, k)))
    && (PlacedIn(g, p, k) <==> q.settings.Some? && want && (PlacedIn(f, p, k) || !had))
  }

  lemma {:induction false} LeftByWriting(tool: Tool, f: File, q: Request, p: Path, k: Key)
    requires ValidPath(p) && ValidPlaced(PlacedBefore(f)) && Completed(tool, f, q)
    requires
      var paths := Paths(tool, Lists(q), PlacedBefore(f));
      !(MissingIn(tool, Lists(q), f, paths) == {} && !AnyStale(tool, Lists(q), f, paths))
    ensures LeftAt(tool, f, q, p, k)
  {
    hide Paths, AsksUnsupported, Readable, MissingIn, AnyStale, MergeAll, KeepAll, Want, ListAt, Merged, HasKey, Pass, Completed;
    var lists, g := Lists(q), Remembering(f);
    var paths := Paths(tool, lists, PlacedBefore(f));
    CompletedEither(tool, f, q);
    PathsAreGood(tool, lists, PlacedBefore(f), p);
    EachListIsMerged(tool, lists, g, paths, p);
    assert MergedAt(tool, lists, g, paths, p);
    MergedHas(SlotAt(f, p), Want(tool, lists, p), k);
    PathsAreLookedAt(tool, f, q, p);
    if p !in paths {
      OnlyWhereItLooks(tool, f, q, p, k);
      WantHas(tool, lists, p, k);
    }
    if q.settings.None? {
      NotNamedWantsNothing(tool, q, p);
      NoKeyInNothing(k);
    }
  }

  lemma {:induction false} LeftAlone(tool: Tool, f: File, q: Request, p: Path, k: Key)
    requires ValidPath(p) && ValidPlaced(PlacedBefore(f)) && Completed(tool, f, q)
    requires
      var paths := Paths(tool, Lists(q), PlacedBefore(f));
      MissingIn(tool, Lists(q), f, paths) == {} && !AnyStale(tool, Lists(q), f, paths)
    ensures LeftAt(tool, f, q, p, k)
  {
    hide Paths, AsksUnsupported, Readable, KeepAll, MergeAll, Want, ListAt, HasKey, Missing, HasStale, Unwritten, Pass, Completed;
    var lists := Lists(q);
    var paths := Paths(tool, lists, PlacedBefore(f));
    CompletedEither(tool, f, q);
    EachRecordIsKept(tool, lists, f, paths, p);
    PathsAreLookedAt(tool, f, q, p);
    if p in paths {
      assert p !in MissingIn(tool, lists, f, paths);
      UnwrittenHas(SlotAt(f, p), Want(tool, lists, p), k);
    } else {
      OnlyWhereItLooks(tool, f, q, p, k);
      WantHas(tool, lists, p, k);
    }
    if q.settings.None? {
      NotNamedWantsNothing(tool, q, p);
      NoKeyInNothing(k);
    }
  }

  lemma {:induction false} CompletedPassLeaves(tool: Tool, f: File, q: Request, p: Path, k: Key)
    requires ValidPath(p) && ValidPlaced(PlacedBefore(f)) && Completed(tool, f, q)
    ensures
      var g, had := Pass(tool, f, q).0, Holds(f.config, p, k);
      && (Holds(g.config, p, k) <==> Asks(tool, Lists(q), p, k) || (had && !PlacedIn(f, p, k)))
      && (PlacedIn(g, p, k) <==> q.settings.Some? && Asks(tool, Lists(q), p, k) && (PlacedIn(f, p, k) || !had))
  {
    hide Paths, MissingIn, AnyStale, Want, ListAt, HasKey, Pass, Completed, Asks, Holds;
    var paths := Paths(tool, Lists(q), PlacedBefore(f));
    if MissingIn(tool, Lists(q), f, paths) == {} && !AnyStale(tool, Lists(q), f, paths) {
      LeftAlone(tool, f, q, p, k);
    } else {
      LeftByWriting(tool, f, q, p, k);
    }
    WantHas(tool, Lists(q), p, k);
    HoldsIsInTheList(f.config, p, k);
    HoldsIsInTheList(Pass(tool, f, q).0.config, p, k);
  }

  /** In any run, with any outside edits, after a pass that applies the section or takes out what was placed, a
      setting's list holds exactly what the section puts there and what was there and not placed by the agent.
      What it then counts as placed is what is wanted and was either so counted before or not there: a person's own
      entry never becomes the agent's. */
  lemma {:induction false} EachEntryExactlyWhen(tool: Tool, start: Config, events: seq<Event>, q: Request, p: Path, k: Key)
    requires ValidPath(p) && Completed(tool, RunEvents(tool, World(File(start, None), {}), events).file, q)
    ensures
      var f := RunEvents(tool, World(File(start, None), {}), events).file;
      var g, had := Pass(tool, f, q).0, Holds(f.config, p, k);
      && (Holds(g.config, p, k) <==> Asks(tool, Lists(q), p, k) || (had && !PlacedIn(f, p, k)))
      && (PlacedIn(g, p, k) <==> q.settings.Some? && Asks(tool, Lists(q), p, k) && (PlacedIn(f, p, k) || !had))
  {
    hide Pass, Completed, Asks, Holds, PlacedIn, Accounted;
    var w0 := World(File(start, None), {});
    NothingPlacedAtFirst(start);
    RunStaysAccounted(tool, w0, events);
    AccountedMeans(RunEvents(tool, w0, events));
    CompletedPassLeaves(tool, RunEvents(tool, w0, events).file, q, p, k);
  }

  /** Where a tool reads a value of a list, and in what form; Cursor has no list of permitted servers. */
  predicate InTheFile(tool: Tool, list: List, value: string, c: Config) {
    match (tool, list)
    case (_, PermissionsAllow) => Holds(c, Permission("allow"), Text(value))
    case (_, PermissionsDeny) => Holds(c, Permission("deny"), Text(value))
    case (Claude, McpAllowed) => Holds(c, Top("allowedMcpServers"), Server(value))
    case (Claude, McpDenied) => Holds(c, Top("deniedMcpServers"), Server(value))
    case (Cursor, McpAllowed) => false
    case (Cursor, McpDenied) => Holds(c, Permission("deny"), Text("Mcp(" + value + ":*)"))
  }

  /** Whatever was in the file and whatever the agent remembers, once a pass reports the section applied each value
      of each list it names is in the file, where that tool reads it. */
  lemma {:induction false} NamedIsInTheFile(tool: Tool, f: File, q: Request, i: nat, j: nat)
    requires ValidPlaced(PlacedBefore(f)) && q.settings.Some? && Pass(tool, f, q).1.Done?
    requires i < |Lists(q)| && j < |Lists(q)[i].values|
    ensures InTheFile(tool, Lists(q)[i].list, Lists(q)[i].values[j], Pass(tool, f, q).0.config)
  {
    hide Pass, Holds, Paths, AnyStale, MissingIn;
    var w := Lists(q)[i];
    assert Completed(tool, f, q);
    CompletedEither(tool, f, q);
    assert Place(tool, w.list).Some?;
    var p, k := Place(tool, w.list).value, EntryFor(tool, w.list, w.values[j]).key;
    GoesWhereItIsPlaced(tool, w.list, p, w.values[j], k);
    assert Reads(tool, w.list, w.values[j], k);
    assert AsksOf(tool, w.list, w.values, k);
    assert Asks(tool, Lists(q), p, k);
    CompletedPassLeaves(tool, f, q, p, k);
  }

  // ── What a pass reports ──

  /** Something other than a list, or than an object for permissions, is where the list would be. */
  predicate InTheWay(c: Config, p: Path) {
    match p
    case Top(name) => name in c && !c[name].Array?
    case Permission(name) =>
      && "permissions" in c
      && (c["permissions"].Object? ==> name in c["permissions"].fields && !c["permissions"].fields[name].Array?)
  }

  /** Something is asked for at `p` that is not there. */
  ghost predicate Lacks(tool: Tool, f: File, q: Request, p: Path) {
    exists k :: Asks(tool, Lists(q), p, k) && !Holds(f.config, p, k)
  }

  /** Something the agent placed at `p` is still there and no longer asked for. */
  ghost predicate Keeps(tool: Tool, f: File, q: Request, p: Path) {
    exists k :: PlacedIn(f, p, k) && Holds(f.config, p, k) && !Asks(tool, Lists(q), p, k)
  }

  /** Servers are permitted by name for a tool that has no list of them. */
  predicate CannotBeSet(tool: Tool, q: Request) {
    tool == Cursor && exists i | 0 <= i < |Lists(q)| :: Lists(q)[i].list == McpAllowed && Lists(q)[i].values != []
  }

  ghost predicate NothingToLookAt(tool: Tool, f: File, q: Request) {
    f.applied.None? && forall p :: !Names(tool, Lists(q), p)
  }

  /** The settings that lack something of a section that was applied before. */
  ghost predicate DriftedAt(tool: Tool, f: File, q: Request, p: Path) {
    f.applied.Some? && f.applied.value.digest == q.digest && Lacks(tool, f, q, p)
  }

  lemma {:induction false} MissingIsLacking(tool: Tool, f: File, q: Request, p: Path)
    ensures p in MissingIn(tool, Lists(q), f, Paths(tool, Lists(q), PlacedBefore(f))) <==> Lacks(tool, f, q, p)
  {
    hide Paths, Asks, Holds, Want, ListAt, HasKey;
    var paths, want := Paths(tool, Lists(q), PlacedBefore(f)), Want(tool, Lists(q), p);
    PathsAreLookedAt(tool, f, q, p);
    forall k ensures Asks(tool, Lists(q), p, k) <==> HasKey(want, k) {
      WantHas(tool, Lists(q), p, k);
    }
    forall k ensures Holds(f.config, p, k) <==> HasKey(Items(ListAt(f.config, p)), k) {
      HoldsIsInTheList(f.config, p, k);
    }
    if p !in paths {
      forall k ensures !Asks(tool, Lists(q), p, k) {
        OnlyWhereItLooks(tool, f, q, p, k);
      }
    }
    MissingByKey(SlotAt(f, p), want);
  }

  lemma MissingByKey(s: Slot, want: seq<Entry>)
    ensures Missing(s, want) <==> exists k :: HasKey(want, k) && !HasKey(Items(s.list), k)
  {
    if k :| HasKey(want, k) && !HasKey(Items(s.list), k) {
      var i :| 0 <= i < |want| && want[i].key == k;
      assert !HasKey(Items(s.list), want[i].key);
    }
    if Missing(s, want) {
      var i :| 0 <= i < |want| && !HasKey(Items(s.list), want[i].key);
      assert HasKey(want, want[i].key);
    }
  }

  lemma {:induction false} StaleIsKept(tool: Tool, f: File, q: Request)
    ensures AnyStale(tool, Lists(q), f, Paths(tool, Lists(q), PlacedBefore(f))) <==> exists p :: Keeps(tool, f, q, p)
  {
    hide Paths, HasStale, Keeps;
    var paths := Paths(tool, Lists(q), PlacedBefore(f));
    forall p ensures Keeps(tool, f, q, p) <==> p in paths && HasStale(SlotAt(f, p), Want(tool, Lists(q), p)) {
      StaleByKey(tool, f, q, p);
    }
  }

  lemma {:induction false} StaleByKey(tool: Tool, f: File, q: Request, p: Path)
    ensures
      Keeps(tool, f, q, p)
      <==> p in Paths(tool, Lists(q), PlacedBefore(f)) && HasStale(SlotAt(f, p), Want(tool, Lists(q), p))
  {
    hide Paths, Asks, Holds, Want, ListAt, HasKey, LooksAt;
    var want, s := Want(tool, Lists(q), p), SlotAt(f, p);
    PathsAreLookedAt(tool, f, q, p);
    forall k ensures Asks(tool, Lists(q), p, k) <==> HasKey(want, k) {
      WantHas(tool, Lists(q), p, k);
    }
    forall k ensures Holds(f.config, p, k) <==> HasKey(Items(s.list), k) {
      HoldsIsInTheList(f.config, p, k);
    }
    if !LooksAt(tool, f, q, p) {
      OnlyWhereItLooks(tool, f, q, p, Text(""));
    }
    if HasStale(s, want) {
      var i :| 0 <= i < |s.placed| && !HasKey(want, s.placed[i]) && HasKey(Items(s.list), s.placed[i]);
      assert PlacedIn(f, p, s.placed[i]);
    }
  }

  lemma UnsupportedIsNotSet(tool: Tool, q: Request)
    ensures AsksUnsupported(tool, Lists(q)) <==> CannotBeSet(tool, q)
  {}

  lemma {:induction false} NoPathsMeansNothingToLookAt(tool: Tool, f: File, q: Request)
    ensures Paths(tool, Lists(q), PlacedBefore(f)) == [] && f.applied.None? <==> NothingToLookAt(tool, f, q)
  {
    hide Paths, Names;
    var paths := Paths(tool, Lists(q), PlacedBefore(f));
    forall p ensures p in paths <==> LooksAt(tool, f, q, p) {
      PathsAreLookedAt(tool, f, q, p);
    }
    forall p ensures Names(tool, Lists(q), p) ==> p in paths {
      assert p in paths <==> LooksAt(tool, f, q, p);
    }
    if paths != [] {
      assert LooksAt(tool, f, q, paths[0]);
    }
  }

  lemma InTheWayIsUnreadable(c: Config, p: Path)
    ensures Readable(c, p) <==> !InTheWay(c, p)
  {}

  ghost predicate Blocked(tool: Tool, f: File, q: Request) {
    exists p :: LooksAt(tool, f, q, p) && InTheWay(f.config, p)
  }

  lemma {:induction false} UnreadableIsBlocked(tool: Tool, f: File, q: Request)
    ensures (forall p :: p in Paths(tool, Lists(q), PlacedBefore(f)) ==> Readable(f.config, p)) <==> !Blocked(tool, f, q)
  {
    hide Paths, LooksAt, InTheWay, Readable;
    forall p ensures (p in Paths(tool, Lists(q), PlacedBefore(f)) <==> LooksAt(tool, f, q, p)) && (Readable(f.config, p) <==> !InTheWay(f.config, p)) {
      PathsAreLookedAt(tool, f, q, p);
      InTheWayIsUnreadable(f.config, p);
    }
  }

  /** The pass gets as far as the lists: what is named can be set, the tool is here and every list can be read. */
  ghost predicate Reached(tool: Tool, f: File, q: Request) {
    !CannotBeSet(tool, q) && !NothingToLookAt(tool, f, q) && q.installed && !Blocked(tool, f, q)
  }

  /** A drift is reported and left exactly when the section is the one applied before, some list lacks something of
      it, and it is not to be put back. A section counts as applied exactly when it is not that, and nothing is to
      be changed or the file can be. Each refusal is given exactly for its reason, and whatever is reported but that
      the section was applied, file and record stay. */
  lemma {:induction false} ReportedExactlyWhen(tool: Tool, f: File, q: Request)
    ensures
      var (g, report) := Pass(tool, f, q);
      var drifted := exists p :: DriftedAt(tool, f, q, p);
      var toWrite := (exists p :: Lacks(tool, f, q, p)) || (exists p :: Keeps(tool, f, q, p));
      && (report.Drifted? <==> Reached(tool, f, q) && drifted && !q.enforce)
      && (report.Drifted? ==> forall p :: p in report.at <==> DriftedAt(tool, f, q, p))
      && (report.Done? <==>
            q.settings.Some? && Reached(tool, f, q) && (drifted ==> q.enforce) && (toWrite ==> !q.changed && q.writable))
      && (report == Refused(Unsupported) <==> CannotBeSet(tool, q))
      && (report == Refused(NotInstalled) <==> !CannotBeSet(tool, q) && !NothingToLookAt(tool, f, q) && q.settings.Some? && !q.installed)
      && (report == Refused(Unparseable) <==> !CannotBeSet(tool, q) && !NothingToLookAt(tool, f, q) && q.installed && Blocked(tool, f, q))
      && (report == Refused(WriteFailed) <==> Reached(tool, f, q) && (drifted ==> q.enforce) && toWrite && !q.changed && !q.writable)
      && (report.Done? ==> forall p :: p in report.restored <==> DriftedAt(tool, f, q, p))
      && (report.Done? ==> g.applied.Some? && g.applied.value.digest == q.digest)
      && (!Completed(tool, f, q) ==> g == f)
  {
    hide Paths, MissingIn, AnyStale, AsksUnsupported, Readable, MergeAll, KeepAll, Lacks, Keeps, CannotBeSet, NothingToLookAt, Blocked;
    var paths := Paths(tool, Lists(q), PlacedBefore(f));
    var missing := MissingIn(tool, Lists(q), f, paths);
    forall p ensures p in missing <==> Lacks(tool, f, q, p) {
      MissingIsLacking(tool, f, q, p);
    }
    StaleIsKept(tool, f, q);
    UnsupportedIsNotSet(tool, q);
    NoPathsMeansNothingToLookAt(tool, f, q);
    UnreadableIsBlocked(tool, f, q);
    if missing != {} {
      var p :| p in missing;
      assert Lacks(tool, f, q, p);
      assert DriftedAt(tool, f, q, p) <==> Drifts(f, q, missing);
    }
    if q.settings.None? && f.applied.None? {
      UnrememberedLooksNowhere(tool, f, q);
    }
  }

  lemma UnrememberedLooksNowhere(tool: Tool, f: File, q: Request)
    requires q.settings.None? && f.applied.None?
    ensures NothingToLookAt(tool, f, q)
  {}
}
