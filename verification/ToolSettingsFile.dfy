/** `applyHarness` as it runs: the file's lists and the record are changed in place, step by step. */
module ToolSettingsFile {
  import opened Foundations
  import opened ToolSettings

  /** The wanted entries of each setting, without repeats, and the settings in the order first named. */
  method Desired(tool: Tool, lists: seq<Wanted>) returns (desired: map<Path, seq<Entry>>, order: seq<Path>)
    ensures order == WantedPaths(tool, lists, [])
    ensures forall p :: (if p in desired then desired[p] else []) == Want(tool, lists, p)
  {
    hide AddedValues, Added, EntryFor;
    desired, order := map[], [];
    for i := 0 to |lists|
      invariant WantedPaths(tool, lists[i..], order) == WantedPaths(tool, lists, [])
      invariant forall p :: p in order <==> p in desired
      invariant forall p :: WantedAt(tool, lists[i..], p, if p in desired then desired[p] else []) == Want(tool, lists, p)
    {
      assert lists[i..][0] == lists[i] && lists[i..][1..] == lists[i + 1..];
      var place := Place(tool, lists[i].list);
      if place.Some? {
        var slot := if place.value in desired then desired[place.value] else [];
        slot := AddValues(tool, lists[i].list, lists[i].values, slot);
        ghost var was := desired;
        desired := desired[place.value := slot];
        order := WithPath(order, place.value);
      }
    }
  }

  method AddValues(tool: Tool, list: List, values: seq<string>, slot: seq<Entry>) returns (r: seq<Entry>)
    ensures r == AddedValues(tool, list, values, slot)
  {
    hide EntryFor;
    r := slot;
    for i := 0 to |values|
      invariant AddedValues(tool, list, values[i..], r) == AddedValues(tool, list, values, slot)
    {
      assert values[i..][0] == values[i] && values[i..][1..] == values[i + 1..];
      var value := EntryFor(tool, list, values[i]);
      if !(exists k | 0 <= k < |r| :: r[k].key == value.key) {
        r := r + [value];
      }
    }
  }

  /** One list: what is stale goes, what is missing is put behind and recorded. */
  method MergeList(list: seq<Entry>, stale: set<Key>, placed: seq<Key>, want: seq<Entry>) returns (kept: seq<Entry>, now: seq<Key>)
    ensures (kept, now) == Topped(Without(list, stale), placed, want)
  {
    kept := Filtered(list, stale);
    now := placed;
    for i := 0 to |want|
      invariant Topped(kept, now, want[i..]) == Topped(Without(list, stale), placed, want)
    {
      assert want[i..][0] == want[i] && want[i..][1..] == want[i + 1..];
      if !(exists k | 0 <= k < |kept| :: kept[k].key == want[i].key) {
        kept, now := kept + [want[i]], now + [want[i].key];
      }
    }
  }

  method Filtered(list: seq<Entry>, stale: set<Key>) returns (kept: seq<Entry>)
    ensures kept == Without(list, stale)
  {
    kept := [];
    for i := 0 to |list|
      invariant kept + Without(list[i..], stale) == Without(list, stale)
    {
      assert list[i..][0] == list[i] && list[i..][1..] == list[i + 1..];
      if list[i].key !in stale {
        kept := kept + [list[i]];
      }
    }
  }

  lemma {:induction false} MergeAllStep(
    tool: Tool, lists: seq<Wanted>, c: Config, before: seq<Placed>, created: set<Path>, paths: seq<Path>,
    done: seq<Placed>, c': Config, now: seq<Key>, created': set<Path>)
    requires paths != []
    requires
      var was := Slot(ListAt(c, paths[0]), KeysAt(before, paths[0]), paths[0] in created);
      var want := Want(tool, lists, paths[0]);
      var m := Merged(was, want);
      && c' == Written(c, paths[0], was, want) && now == m.placed
      && created' == if m.created then created + {paths[0]} else created - {paths[0]}
    ensures
      var rest := MergeAll(tool, lists, File(c, Some(Applied("", before, created))), paths);
      var left := MergeAll(tool, lists, File(c', Some(Applied("", before, created'))), paths[1..]);
      (rest.0, done + rest.1, rest.2) == (left.0, RecordedBehind(done, paths[0], now) + left.1, left.2)
  {
    hide Want, Merged, ListAt, Written, KeysAt;
    var left := MergeAll(tool, lists, File(c', Some(Applied("", before, created'))), paths[1..]);
    assert done + ([Placed(paths[0], now)] + left.1) == done + [Placed(paths[0], now)] + left.1;
  }

  function RecordedBehind(done: seq<Placed>, p: Path, keys: seq<Key>): seq<Placed> {
    if keys == [] then done else done + [Placed(p, keys)]
  }

  lemma {:induction false} MergedToTheEnd(tool: Tool, lists: seq<Wanted>, c: Config, before: seq<Placed>, created: set<Path>, done: seq<Placed>)
    ensures
      var rest := MergeAll(tool, lists, File(c, Some(Applied("", before, created))), []);
      (rest.0, done + rest.1, rest.2) == (c, done, created)
  {
    assert done + [] == done;
  }

  lemma {:induction false} KeepAllStep(tool: Tool, lists: seq<Wanted>, f: File, paths: seq<Path>, done: seq<Placed>, now: seq<Key>)
    requires paths != []
    requires now == StillPlaced(KeysAt(PlacedBefore(f), paths[0]), Want(tool, lists, paths[0]), Items(ListAt(f.config, paths[0])))
    ensures done + KeepAll(tool, lists, f, paths) == RecordedBehind(done, paths[0], now) + KeepAll(tool, lists, f, paths[1..])
  {
    hide Want, ListAt, KeysAt, StillPlaced;
    var left := KeepAll(tool, lists, f, paths[1..]);
    assert done + ([Placed(paths[0], now)] + left) == done + [Placed(paths[0], now)] + left;
  }

  lemma {:induction false} KeptToTheEnd(tool: Tool, lists: seq<Wanted>, f: File, done: seq<Placed>)
    ensures done + KeepAll(tool, lists, f, []) == done
  {
    assert done + [] == done;
  }

  class SettingsFile {
    var config: Config
    var applied: Option<Applied>

    constructor (start: Config)
      ensures config == start && applied.None?
    {
      config, applied := start, None;
    }

    function Value(): File
      reads this
    {
      File(config, applied)
    }

    /** The list at `p`, merged in place. */
    method MergeAt(p: Path, want: seq<Entry>, keys: seq<Key>, createdBefore: set<Path>) returns (now: seq<Key>, created: set<Path>)
      modifies this`config
      ensures
        var was := Slot(ListAt(old(config), p), keys, p in createdBefore);
        var m := Merged(was, want);
        && config == Written(old(config), p, was, want) && now == m.placed
        && created == if m.created then createdBefore + {p} else createdBefore - {p}
    {
      hide WithList, WithoutList, ListAt, Without, Topped, StillPlaced;
      created := createdBefore;
      var list := ListAt(config, p);
      now := StillPlaced(keys, want, Items(list));
      if list.None? && |want| == 0 {
        assert created == if p in created then created + {p} else created - {p};
        return;
      }
      if list.None? {
        created := created + {p};
      }
      var kept;
      kept, now := MergeList(Items(list), Stale(keys, want), now, want);
      if |kept| == 0 && p in created {
        config := WithoutList(config, p);
        created := created - {p};
      } else {
        config := WithList(config, p, kept);
      }
      assert created == if p in created then createdBefore + {p} else createdBefore - {p};
    }

    /** The write of a pass: each list merged in turn, what is placed recorded where there is any. */
    method MergeLists(tool: Tool, ghost lists: seq<Wanted>, desired: map<Path, seq<Entry>>, paths: seq<Path>)
      returns (placed: seq<Placed>, created: set<Path>)
      requires forall p :: (if p in desired then desired[p] else []) == Want(tool, lists, p)
      modifies this`config
      ensures (config, placed, created) == MergeAll(tool, lists, Remembering(old(Value())), paths)
    {
      hide Want, Merged, ListAt, Written, KeysAt, MergeAll;
      var before := if applied.Some? then applied.value.placed else [];
      placed, created := [], if applied.Some? then applied.value.created else {};
      ghost var whole := MergeAll(tool, lists, Remembering(Value()), paths);
      assert paths[0..] == paths && [] + whole.1 == whole.1;
      for i := 0 to |paths|
        invariant
          var rest := MergeAll(tool, lists, File(config, Some(Applied("", before, created))), paths[i..]);
          whole == (rest.0, placed + rest.1, rest.2)
      {
        var p := paths[i];
        assert paths[i..][0] == p && paths[i..][1..] == paths[i + 1..];
        ghost var was, had := config, created;
        var now;
        now, created := MergeAt(p, if p in desired then desired[p] else [], KeysAt(before, p), created);
        MergeAllStep(tool, lists, was, before, had, paths[i..], placed, config, now, created);
        placed := RecordedBehind(placed, p, now);
      }
      MergedToTheEnd(tool, lists, config, before, created, placed);
    }

    method KeepRecords(tool: Tool, ghost lists: seq<Wanted>, desired: map<Path, seq<Entry>>, paths: seq<Path>) returns (placed: seq<Placed>)
      requires forall p :: (if p in desired then desired[p] else []) == Want(tool, lists, p)
      ensures placed == KeepAll(tool, lists, Value(), paths)
    {
      hide Want, ListAt, KeysAt, StillPlaced, KeepAll;
      var before := if applied.Some? then applied.value.placed else [];
      placed := [];
      assert paths[0..] == paths && [] + KeepAll(tool, lists, Value(), paths) == KeepAll(tool, lists, Value(), paths);
      for i := 0 to |paths|
        invariant KeepAll(tool, lists, Value(), paths) == placed + KeepAll(tool, lists, Value(), paths[i..])
      {
        var p := paths[i];
        assert paths[i..][0] == p && paths[i..][1..] == paths[i + 1..];
        var now := StillPlaced(KeysAt(before, p), if p in desired then desired[p] else [], Items(ListAt(config, p)));
        KeepAllStep(tool, lists, Value(), paths[i..], placed, now);
        placed := RecordedBehind(placed, p, now);
      }
      KeptToTheEnd(tool, lists, Value(), placed);
    }

    /** What is missing, and whether anything is stale. */
    method Inspect(tool: Tool, ghost lists: seq<Wanted>, desired: map<Path, seq<Entry>>, paths: seq<Path>) returns (missing: set<Path>, stale: bool)
      requires forall p :: (if p in desired then desired[p] else []) == Want(tool, lists, p)
      ensures missing == MissingIn(tool, lists, Value(), paths) && stale == AnyStale(tool, lists, Value(), paths)
    {
      hide Want, SlotAt, Missing, HasStale;
      missing, stale := {}, false;
      for i := 0 to |paths|
        invariant missing == set p | p in paths[..i] && Missing(SlotAt(Value(), p), Want(tool, lists, p))
        invariant stale <==> exists p | p in paths[..i] :: HasStale(SlotAt(Value(), p), Want(tool, lists, p))
      {
        var p := paths[i];
        assert paths[..i + 1] == paths[..i] + [p];
        var slot, want := SlotAt(Value(), p), if p in desired then desired[p] else [];
        if Missing(slot, want) {
          missing := missing + {p};
        }
        if HasStale(slot, want) {
          stale := true;
        }
      }
      assert paths[..|paths|] == paths;
    }

    /** `applyHarness`, against the pass it makes. */
    method Apply(tool: Tool, q: Request) returns (report: Report)
      modifies this
      ensures (Value(), report) == Pass(tool, old(Value()), q)
    {
      hide Want, ListAt, Readable, MergeAll, KeepAll, MissingIn, AnyStale, WantedPaths, PlacedPaths;
      var lists := if q.settings.Some? then q.settings.value else [];
      if exists i | 0 <= i < |lists| :: |lists[i].values| > 0 && Place(tool, lists[i].list).None? {
        return Refused(Unsupported);
      }
      var desired, order := Desired(tool, lists);
      var paths := PlacedPaths(PlacedBefore(Value()), order);
      if paths == [] && applied.None? {
        return Silent;
      }
      if !q.installed {
        return if q.settings.Some? then Refused(NotInstalled) else Silent;
      }
      if exists p | p in paths :: !Readable(config, p) {
        return Refused(Unparseable);
      }
      var missing, stale := Inspect(tool, lists, desired, paths);
      var isNew := applied.None? || applied.value.digest != q.digest;
      var drifted := !isNew && missing != {};
      if drifted && !q.enforce {
        return Drifted(missing);
      }
      var placed, created;
      if missing != {} || stale {
        if q.changed {
          return Silent;
        }
        if !q.writable {
          return Refused(WriteFailed);
        }
        placed, created := MergeLists(tool, lists, desired, paths);
      } else {
        placed := KeepRecords(tool, lists, desired, paths);
        created := CreatedBefore(Value());
      }
      if q.settings.None? {
        applied := None;
        return Silent;
      }
      applied := Some(Applied(q.digest, placed, created));
      return Done(if drifted then missing else {});
    }
  }
}
