/** Grouping the blocks the tray lists: today's blocks of one action under one rule are one row, any other block
    is a row of its own. */
module GroupBlocks {
  import opened Foundations

  /** A block: its times as read from its text (None when they cannot be), its key among today's blocks, and
      how often it was tried when that is a positive number. */
  datatype Block = Block(at: Option<Time>, key: string, tries: Option<nat>, firstAt: Option<Option<Time>>)

  datatype Group = Group(today: bool, key: string, members: seq<nat>, times: nat, firstAt: Option<Time>)

  predicate Today(b: Block, midnight: Time) {
    b.at.Some? && b.at.value >= midnight
  }

  function Tries(b: Block): nat {
    if b.tries.Some? && b.tries.value > 0 then b.tries.value else 1
  }

  /** When the block was first tried: its own `first_at`, or when it is listed. */
  function First(b: Block): Option<Time> {
    if b.firstAt.Some? then b.firstAt.value else b.at
  }

  /** The earlier of two times as the code compares them: a time that cannot be read is never earlier. */
  function Earlier(known: Option<Time>, first: Option<Time>): Option<Time> {
    if first.Some? && known.Some? && first.value < known.value then first else known
  }

  predicate SameRow(a: Block, b: Block, midnight: Time) {
    Today(a, midnight) && Today(b, midnight) && a.key == b.key
  }

  /** Today's row with this key, if there is one. */
  function FindRow(groups: seq<Group>, key: string): Option<nat> {
    if groups == [] then None
    else if groups[|groups| - 1].today && groups[|groups| - 1].key == key then Some(|groups| - 1)
    else FindRow(groups[..|groups| - 1], key)
  }

  lemma {:induction false} FoundRow(groups: seq<Group>, key: string)
    ensures
      match FindRow(groups, key)
      case Some(g) => g < |groups| && groups[g].today && groups[g].key == key
      case None => forall g :: 0 <= g < |groups| && groups[g].today ==> groups[g].key != key
    decreases |groups|
  {
    if groups != [] {
      FoundRow(groups[..|groups| - 1], key);
    }
  }

  function NewRow(b: Block, i: nat, midnight: Time): Group {
    Group(Today(b, midnight), b.key, [i], Tries(b), First(b))
  }

  function Joined(g: Group, b: Block, i: nat): Group {
    Group(g.today, g.key, g.members + [i], g.times + Tries(b), Earlier(g.firstAt, First(b)))
  }

  /** Block `i` put into its row. */
  function Put(groups: seq<Group>, b: Block, i: nat, midnight: Time): seq<Group> {
    FoundRow(groups, b.key);
    var found := if Today(b, midnight) then FindRow(groups, b.key) else None;
    if found.Some? then groups[found.value := Joined(groups[found.value], b, i)]
    else groups + [NewRow(b, i, midnight)]
  }

  function Grouped(blocks: seq<Block>, midnight: Time): seq<Group> {
    if blocks == [] then []
    else
      var n := |blocks| - 1;
      Put(Grouped(blocks[..n], midnight), blocks[n], n, midnight)
  }

  /** `groupBlocks`: `byKey` finds today's row of a key. */
  method GroupAll(blocks: seq<Block>, midnight: Time) returns (groups: seq<Group>)
    ensures groups == Grouped(blocks, midnight)
  {
    hide FindRow, Grouped;
    groups := [];
    var byKey: map<string, nat> := map[];
    StartsEmpty(blocks, midnight);
    for i := 0 to |blocks|
      invariant groups == Grouped(blocks[..i], midnight)
      invariant forall k :: FindRow(groups, k) == if k in byKey then Some(byKey[k]) else None
    {
      var b := blocks[i];
      GroupedStep(blocks, i, midnight);
      var today := b.at.Some? && b.at.value >= midnight;
      var tries := if b.tries.Some? && b.tries.value > 0 then b.tries.value else 1;
      var first := if b.firstAt.Some? then b.firstAt.value else b.at;
      ghost var before := groups;
      FoundRow(groups, b.key);
      if today && b.key in byKey {
        var g := byKey[b.key];
        var known := groups[g];
        var earlier := if first.Some? && known.firstAt.Some? && first.value < known.firstAt.value then first else known.firstAt;
        groups := groups[g := Group(known.today, known.key, known.members + [i], known.times + tries, earlier)];
        forall k ensures FindRow(groups, k) == FindRow(before, k) {
          SameKeysSameRows(before, groups, k);
        }
      } else {
        groups := groups + [Group(today, b.key, [i], tries, first)];
        forall k ensures FindRow(groups, k) == if today && b.key == k then Some(|before|) else FindRow(before, k) {
          RowAdded(before, groups[|before|], k);
        }
        if today {
          byKey := byKey[b.key := |groups| - 1];
        }
      }
    }
    assert blocks[..|blocks|] == blocks;
  }

  lemma {:induction false} StartsEmpty(blocks: seq<Block>, midnight: Time)
    ensures Grouped(blocks[..0], midnight) == [] && forall k :: FindRow([], k) == None
  {}

  lemma {:induction false} GroupedStep(blocks: seq<Block>, i: nat, midnight: Time)
    requires i < |blocks|
    ensures Grouped(blocks[..i + 1], midnight) == Put(Grouped(blocks[..i], midnight), blocks[i], i, midnight)
  {
    assert blocks[..i + 1][..i] == blocks[..i] && blocks[..i + 1][i] == blocks[i];
  }

  lemma {:induction false} RowAdded(groups: seq<Group>, g: Group, key: string)
    ensures FindRow(groups + [g], key) == if g.today && g.key == key then Some(|groups|) else FindRow(groups, key)
  {
    assert (groups + [g])[..|groups|] == groups;
  }

  lemma {:induction false} SameKeysSameRows(a: seq<Group>, b: seq<Group>, key: string)
    requires |a| == |b| && forall g :: 0 <= g < |a| ==> a[g].today == b[g].today && a[g].key == b[g].key
    ensures FindRow(a, key) == FindRow(b, key)
    decreases |a|
  {
    if a != [] {
      SameKeysSameRows(a[..|a| - 1], b[..|b| - 1], key);
    }
  }

  // ── What the rows are ──

  function SumOfTries(blocks: seq<Block>, members: seq<nat>): nat
    requires forall i :: 0 <= i < |members| ==> members[i] < |blocks|
  {
    if members == [] then 0 else SumOfTries(blocks, members[..|members| - 1]) + Tries(blocks[members[|members| - 1]])
  }

  /** The first of the members' times, each compared with what is known before it. */
  function FirstOf(blocks: seq<Block>, members: seq<nat>): Option<Time>
    requires members != [] && forall i :: 0 <= i < |members| ==> members[i] < |blocks|
  {
    var n := |members| - 1;
    if n == 0 then First(blocks[members[0]]) else Earlier(FirstOf(blocks, members[..n]), First(blocks[members[n]]))
  }

  /** A row of the first `n` blocks: its members in ascending order, their tries and their first time. */
  predicate RowOk(blocks: seq<Block>, n: nat, g: Group, midnight: Time)
    requires n <= |blocks|
  {
    && g.members != [] && (forall k :: 0 <= k < |g.members| ==> g.members[k] < n)
    && (forall k, l :: 0 <= k < l < |g.members| ==> g.members[k] < g.members[l])
    && g.times == SumOfTries(blocks, g.members) && g.firstAt == FirstOf(blocks, g.members)
    && g.today == Today(blocks[g.members[0]], midnight) && g.key == blocks[g.members[0]].key
  }

  /** `row` says which row each block is in: rows hold exactly their blocks, and two blocks share one exactly
      when both are today's with one key. Rows stand in the order of their first blocks. */
  ghost predicate Partition(blocks: seq<Block>, n: nat, groups: seq<Group>, row: seq<nat>, midnight: Time)
    requires n <= |blocks|
  {
    && |row| == n
    && (forall g :: 0 <= g < |groups| ==> RowOk(blocks, n, groups[g], midnight))
    && (forall i :: 0 <= i < n ==> InSomeRow(groups, row, i))
    && (forall g :: 0 <= g < |groups| ==> HoldsItsOwn(groups[g], row, g))
    && (forall i, j :: 0 <= i < j < n ==> TogetherWhenSame(blocks, row, i, j, midnight))
    && (forall g, h :: 0 <= g < h < |groups| ==> StandsBefore(groups[g], groups[h]))
  }

  predicate HoldsItsOwn(g: Group, row: seq<nat>, at: nat) {
    forall k :: 0 <= k < |g.members| ==> g.members[k] < |row| && row[g.members[k]] == at
  }

  predicate InSomeRow(groups: seq<Group>, row: seq<nat>, i: nat)
    requires i < |row|
  {
    row[i] < |groups| && i in groups[row[i]].members
  }

  predicate TogetherWhenSame(blocks: seq<Block>, row: seq<nat>, i: nat, j: nat, midnight: Time)
    requires i < |row| && j < |row| && i < |blocks| && j < |blocks|
  {
    row[i] == row[j] <==> SameRow(blocks[i], blocks[j], midnight)
  }

  predicate StandsBefore(g: Group, h: Group) {
    g.members != [] && h.members != [] && g.members[0] < h.members[0]
  }

  lemma {:induction false} SumWithOneMore(blocks: seq<Block>, members: seq<nat>, i: nat)
    requires i < |blocks| && forall k :: 0 <= k < |members| ==> members[k] < |blocks|
    ensures SumOfTries(blocks, members + [i]) == SumOfTries(blocks, members) + Tries(blocks[i])
    ensures members != [] ==> FirstOf(blocks, members + [i]) == Earlier(FirstOf(blocks, members), First(blocks[i]))
  {
    assert (members + [i])[..|members|] == members;
  }

  lemma JoinedIsOk(blocks: seq<Block>, n: nat, g: Group, midnight: Time)
    requires n < |blocks| && RowOk(blocks, n, g, midnight)
    ensures RowOk(blocks, n + 1, Joined(g, blocks[n], n), midnight)
  {
    SumWithOneMore(blocks, g.members, n);
  }

  lemma NewIsOk(blocks: seq<Block>, n: nat, midnight: Time)
    requires n < |blocks|
    ensures RowOk(blocks, n + 1, NewRow(blocks[n], n, midnight), midnight)
  {
    assert SumOfTries(blocks, []) == 0;
    SumWithOneMore(blocks, [], n);
    assert [] + [n] == [n];
  }

  /** All blocks of a row of today's are today's with its key. */
  lemma RowsShareAKey(blocks: seq<Block>, n: nat, groups: seq<Group>, row: seq<nat>, midnight: Time, i: nat)
    requires n <= |blocks| && Partition(blocks, n, groups, row, midnight) && i < n
    ensures row[i] < |groups|
    ensures groups[row[i]].today == Today(blocks[i], midnight) && (Today(blocks[i], midnight) ==> groups[row[i]].key == blocks[i].key)
  {
    assert InSomeRow(groups, row, i);
    var g := groups[row[i]];
    assert RowOk(blocks, n, g, midnight);
    var f := g.members[0];
    assert HoldsItsOwn(g, row, row[i]);
    assert f in g.members && row[f] == row[i];
    if f != i {
      var k :| 0 <= k < |g.members| && g.members[k] == i;
      assert f < i;
      assert TogetherWhenSame(blocks, row, f, i, midnight);
    }
  }

  lemma SomeMember(blocks: seq<Block>, n: nat, g: Group, midnight: Time)
    requires n <= |blocks| && RowOk(blocks, n, g, midnight)
    ensures g.members != []
  {}

  lemma StaysOk(blocks: seq<Block>, n: nat, g: Group, midnight: Time)
    requires n < |blocks| && RowOk(blocks, n, g, midnight)
    ensures RowOk(blocks, n + 1, g, midnight)
  {}

  lemma InItsRow(blocks: seq<Block>, n: nat, groups: seq<Group>, row: seq<nat>, midnight: Time, g: nat, i: nat)
    requires n <= |blocks| && Partition(blocks, n, groups, row, midnight) && g < |groups| && i in groups[g].members
    ensures i < n && row[i] == g
  {
    assert HoldsItsOwn(groups[g], row, g);
  }

  lemma JoinKeepsPartition(blocks: seq<Block>, n: nat, groups: seq<Group>, row: seq<nat>, midnight: Time, g: nat)
    requires n < |blocks| && Partition(blocks, n, groups, row, midnight)
    requires g < |groups| && groups[g].today && groups[g].key == blocks[n].key && Today(blocks[n], midnight)
    ensures Partition(blocks, n + 1, groups[g := Joined(groups[g], blocks[n], n)], row + [g], midnight)
  {
    hide RowOk;
    var after, rows := groups[g := Joined(groups[g], blocks[n], n)], row + [g];
    forall h | 0 <= h < |groups| ensures groups[h].members != [] {
      SomeMember(blocks, n, groups[h], midnight);
    }
    forall h | 0 <= h < |after| ensures RowOk(blocks, n + 1, after[h], midnight) {
      assert RowOk(blocks, n, groups[h], midnight);
      StaysOk(blocks, n, groups[h], midnight);
      if h == g {
        JoinedIsOk(blocks, n, groups[g], midnight);
      }
    }
    forall h | 0 <= h < |after| ensures HoldsItsOwn(after[h], rows, h) {
      assert HoldsItsOwn(groups[h], row, h);
    }
    forall i | 0 <= i < n ensures rows[i] == rows[n] <==> SameRow(blocks[i], blocks[n], midnight) {
      RowsShareAKey(blocks, n, groups, row, midnight, i);
      if SameRow(blocks[i], blocks[n], midnight) && row[i] != g {
        TwoRowsOneKey(blocks, n, groups, row, midnight, row[i], g);
      }
    }
    forall i | 0 <= i < n + 1 ensures InSomeRow(after, rows, i) {
      if i < n {
        assert InSomeRow(groups, row, i);
      } else {
        assert after[g].members[|groups[g].members|] == n;
      }
    }
    forall i, j | 0 <= i < j < n + 1 ensures TogetherWhenSame(blocks, rows, i, j, midnight) {
      assert j < n ==> TogetherWhenSame(blocks, row, i, j, midnight);
    }
    forall h, k | 0 <= h < k < |after| ensures StandsBefore(after[h], after[k]) {
      assert StandsBefore(groups[h], groups[k]);
    }
  }

  /** Two of today's rows never have one key. */
  lemma TwoRowsOneKey(blocks: seq<Block>, n: nat, groups: seq<Group>, row: seq<nat>, midnight: Time, g: nat, h: nat)
    requires n <= |blocks| && Partition(blocks, n, groups, row, midnight) && g < |groups| && h < |groups|
    requires groups[g].today && groups[h].today && groups[g].key == groups[h].key
    ensures g == h
  {
    assert RowOk(blocks, n, groups[g], midnight) && RowOk(blocks, n, groups[h], midnight);
    var i, j := groups[g].members[0], groups[h].members[0];
    assert HoldsItsOwn(groups[g], row, g) && HoldsItsOwn(groups[h], row, h);
    assert row[i] == g && row[j] == h;
    assert SameRow(blocks[i], blocks[j], midnight) && SameRow(blocks[j], blocks[i], midnight);
    assert i < j ==> TogetherWhenSame(blocks, row, i, j, midnight);
    assert j < i ==> TogetherWhenSame(blocks, row, j, i, midnight);
  }

  lemma NewKeepsPartition(blocks: seq<Block>, n: nat, groups: seq<Group>, row: seq<nat>, midnight: Time)
    requires n < |blocks| && Partition(blocks, n, groups, row, midnight)
    requires Today(blocks[n], midnight) ==> forall g :: 0 <= g < |groups| && groups[g].today ==> groups[g].key != blocks[n].key
    ensures Partition(blocks, n + 1, groups + [NewRow(blocks[n], n, midnight)], row + [|groups|], midnight)
  {
    var after, rows := groups + [NewRow(blocks[n], n, midnight)], row + [|groups|];
    NewIsOk(blocks, n, midnight);
    forall h | 0 <= h < |after| ensures RowOk(blocks, n + 1, after[h], midnight) {
      if h < |groups| {
        assert RowOk(blocks, n, groups[h], midnight);
      }
    }
    forall i | 0 <= i < n ensures rows[i] == rows[n] <==> SameRow(blocks[i], blocks[n], midnight) {
      RowsShareAKey(blocks, n, groups, row, midnight, i);
    }
    forall h | 0 <= h < |after| ensures HoldsItsOwn(after[h], rows, h) {
      assert h < |groups| ==> HoldsItsOwn(groups[h], row, h);
    }
    forall i | 0 <= i < n + 1 ensures InSomeRow(after, rows, i) {
      assert i < n ==> InSomeRow(groups, row, i);
    }
    forall i, j | 0 <= i < j < n + 1 ensures TogetherWhenSame(blocks, rows, i, j, midnight) {
      assert j < n ==> TogetherWhenSame(blocks, row, i, j, midnight);
    }
    forall h, k | 0 <= h < k < |after| ensures StandsBefore(after[h], after[k]) {
      if k < |groups| {
        assert StandsBefore(groups[h], groups[k]);
      } else {
        assert RowOk(blocks, n, groups[h], midnight);
      }
    }
  }

  lemma {:induction false} PrefixIsGrouped(blocks: seq<Block>, n: nat, midnight: Time) returns (row: seq<nat>)
    requires n <= |blocks|
    ensures Partition(blocks, n, Grouped(blocks[..n], midnight), row, midnight)
    decreases n
  {
    hide Partition;
    if n == 0 {
      row := [];
      NothingIsGrouped(blocks, midnight);
    } else {
      row := PrefixIsGrouped(blocks, n - 1, midnight);
      var groups, b := Grouped(blocks[..n - 1], midnight), blocks[n - 1];
      assert blocks[..n][..n - 1] == blocks[..n - 1];
      FoundRow(groups, b.key);
      var found := if Today(b, midnight) then FindRow(groups, b.key) else None;
      if found.Some? {
        JoinKeepsPartition(blocks, n - 1, groups, row, midnight, found.value);
        row := row + [found.value];
      } else {
        NewKeepsPartition(blocks, n - 1, groups, row, midnight);
        row := row + [|groups|];
      }
    }
  }

  lemma {:induction false} NothingIsGrouped(blocks: seq<Block>, midnight: Time)
    ensures Partition(blocks, 0, Grouped(blocks[..0], midnight), [], midnight)
  {
    assert Grouped([], midnight) == [];
  }

  function SumOfTimes(groups: seq<Group>): nat {
    if groups == [] then 0 else SumOfTimes(groups[..|groups| - 1]) + groups[|groups| - 1].times
  }

  function AllTries(blocks: seq<Block>): nat {
    if blocks == [] then 0 else AllTries(blocks[..|blocks| - 1]) + Tries(blocks[|blocks| - 1])
  }

  lemma {:induction false} SumWithChange(groups: seq<Group>, g: nat, h: Group)
    requires g < |groups|
    ensures SumOfTimes(groups[g := h]) + groups[g].times == SumOfTimes(groups) + h.times
    decreases |groups|
  {
    var n := |groups| - 1;
    if g < n {
      SumWithChange(groups[..n], g, h);
      assert groups[g := h][..n] == groups[..n][g := h];
    } else {
      assert groups[g := h][..n] == groups[..n];
    }
  }

  lemma {:induction false} TriesAreConserved(blocks: seq<Block>, midnight: Time)
    ensures SumOfTimes(Grouped(blocks, midnight)) == AllTries(blocks)
    decreases |blocks|
  {
    if blocks != [] {
      var n := |blocks| - 1;
      TriesAreConserved(blocks[..n], midnight);
      var groups, b := Grouped(blocks[..n], midnight), blocks[n];
      FoundRow(groups, b.key);
      var found := if Today(b, midnight) then FindRow(groups, b.key) else None;
      if found.Some? {
        SumWithChange(groups, found.value, Joined(groups[found.value], b, n));
      } else {
        assert (groups + [NewRow(b, n, midnight)])[..|groups|] == groups;
      }
    }
  }

  /** For any list and midnight: the rows split the blocks, each ascending, in the order of their first blocks;
      two blocks share a row exactly when both are today's with one key; and no try is lost or added. */
  lemma {:induction false} GroupingIsAPartition(blocks: seq<Block>, midnight: Time) returns (row: seq<nat>)
    ensures Partition(blocks, |blocks|, Grouped(blocks, midnight), row, midnight)
    ensures SumOfTimes(Grouped(blocks, midnight)) == AllTries(blocks)
  {
    assert blocks[..|blocks|] == blocks;
    row := PrefixIsGrouped(blocks, |blocks|, midnight);
    TriesAreConserved(blocks, midnight);
  }

  /** A block on its own: today's from midnight on, tried once unless it says a positive number, first tried when it
      says so or else when it is listed. */
  lemma {:induction false} OneBlock(b: Block, midnight: Time)
    ensures
      var groups := Grouped([b], midnight);
      && |groups| == 1 && groups[0].members == [0] && groups[0].key == b.key
      && (groups[0].today <==> b.at.Some? && midnight <= b.at.value)
      && (b.tries.Some? && b.tries.value >= 1 ==> groups[0].times == b.tries.value)
      && (b.tries.None? || b.tries.value == 0 ==> groups[0].times == 1)
      && (b.firstAt.None? ==> groups[0].firstAt == b.at)
      && (b.firstAt.Some? ==> groups[0].firstAt == b.firstAt.value)
  {
    assert [b][..0] == [];
    assert Grouped([], midnight) == [];
    assert Grouped([b], midnight) == Put([], b, 0, midnight);
  }

  /** Two blocks share a row exactly when both can be dated, neither is from before midnight, and their keys are the
      same. */
  lemma {:induction false} SharedExactlyWhen(blocks: seq<Block>, midnight: Time, i: nat, j: nat)
    requires i < j < |blocks|
    ensures
      (exists g :: 0 <= g < |Grouped(blocks, midnight)| && i in Grouped(blocks, midnight)[g].members && j in Grouped(blocks, midnight)[g].members)
      <==>
      && blocks[i].at.Some? && blocks[j].at.Some? && midnight <= blocks[i].at.value && midnight <= blocks[j].at.value
      && blocks[i].key == blocks[j].key
  {
    hide Partition, Grouped;
    var row := GroupingIsAPartition(blocks, midnight);
    var groups, n := Grouped(blocks, midnight), |blocks|;
    RowsTogether(blocks, n, groups, row, midnight, i, j);
    if g :| 0 <= g < |groups| && i in groups[g].members && j in groups[g].members {
      InItsRow(blocks, n, groups, row, midnight, g, i);
      InItsRow(blocks, n, groups, row, midnight, g, j);
    }
  }

  lemma RowsTogether(blocks: seq<Block>, n: nat, groups: seq<Group>, row: seq<nat>, midnight: Time, i: nat, j: nat)
    requires n == |blocks| && Partition(blocks, n, groups, row, midnight) && i < j < n
    ensures |row| == n && (row[i] == row[j] <==> SameRow(blocks[i], blocks[j], midnight))
    ensures row[i] < |groups| && row[j] < |groups| && i in groups[row[i]].members && j in groups[row[j]].members
  {
    assert TogetherWhenSame(blocks, row, i, j, midnight) && InSomeRow(groups, row, i) && InSomeRow(groups, row, j);
  }

  /** The earliest of the members' times that can be read. */
  function Earliest(blocks: seq<Block>, members: seq<nat>): Option<Time>
    requires forall i :: 0 <= i < |members| ==> members[i] < |blocks|
  {
    if members == [] then None
    else
      var before, last := Earliest(blocks, members[..|members| - 1]), First(blocks[members[|members| - 1]]);
      if before.None? || (last.Some? && last.value < before.value) then last else before
  }

  /** A row shows the earliest readable time of its members exactly when its first block's can be read, or no
      member's can: one that cannot be read is never replaced. */
  lemma {:induction false} FirstTimeExactlyWhen(blocks: seq<Block>, members: seq<nat>)
    requires members != [] && forall i :: 0 <= i < |members| ==> members[i] < |blocks|
    ensures FirstOf(blocks, members) == Earliest(blocks, members)
            <==> First(blocks[members[0]]).Some? || forall i :: 0 <= i < |members| ==> First(blocks[members[i]]).None?
  {
    FirstTimeFold(blocks, members);
  }

  lemma {:induction false} FirstTimeFold(blocks: seq<Block>, members: seq<nat>)
    requires members != [] && forall i :: 0 <= i < |members| ==> members[i] < |blocks|
    ensures if First(blocks[members[0]]).Some? then FirstOf(blocks, members) == Earliest(blocks, members) && Earliest(blocks, members).Some?
            else FirstOf(blocks, members).None?
    ensures Earliest(blocks, members).None? <==> forall i :: 0 <= i < |members| ==> First(blocks[members[i]]).None?
    decreases |members|
  {
    var n := |members| - 1;
    if n == 0 {
      assert members[..0] == [];
      assert Earliest(blocks, []) == None;
    } else {
      FirstTimeFold(blocks, members[..n]);
      assert members[..n][0] == members[0];
      assert forall i :: 0 <= i < n ==> members[..n][i] == members[i];
    }
  }

  /** Two of today's blocks in one row, the first with a first time that cannot be read: the row shows none,
      though the second has one. */
  lemma {:induction false} AnUnreadableFirstTimeHidesTheNext() returns (blocks: seq<Block>, midnight: Time)
    ensures
      var groups := Grouped(blocks, midnight);
      && |blocks| == 2 && |groups| == 1 && groups[0].members == [0, 1] && groups[0].firstAt == None
      && Earliest(blocks, [0, 1]) == Some(5)
  {
    midnight := 0;
    var a, b := Block(Some(10), "k", None, Some(None)), Block(Some(9), "k", None, Some(Some(5)));
    blocks := [a, b];
    assert blocks[..0] == [] && blocks[..1] == [a] && [a][..0] == [] && blocks[..2] == blocks;
    GroupedStep(blocks, 0, midnight);
    GroupedStep(blocks, 1, midnight);
    var one := Grouped([a], midnight);
    assert one == [NewRow(a, 0, midnight)];
    assert FindRow(one, "k") == Some(0);
    assert [0, 1][..1] == [0] && [0][..0] == [];
    assert Earliest(blocks, []) == None;
    assert Earliest(blocks, [0]) == None;
  }
}
