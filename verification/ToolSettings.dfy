/** The settings a workspace keeps in an AI coding tool's own file: entries added to lists that are also a
    person's, with a record of which ones the agent added and which lists it created. */
module ToolSettings {
  import opened Foundations

  // ── The file ──

  /** A list entry as it is compared: a string, an object naming a server, or any other value's text. */
  datatype Key = Text(text: string) | Server(name: string) | Other(json: string)

  /** An entry and how it is written; entries with one key may be written differently. */
  datatype Entry = Entry(key: Key, written: string)

  datatype Json = Object(fields: map<string, Json>) | Array(items: seq<Entry>) | Scalar(text: string)

  type Config = map<string, Json>

  const PERMISSIONS := "permissions"

  /** A list's place: under `permissions`, or at the top. */
  datatype Path = Permission(key: string) | Top(key: string)

  predicate ValidPath(p: Path) {
    p.Top? ==> p.key != PERMISSIONS
  }

  function Permissions(c: Config): Option<Config> {
    if PERMISSIONS in c && c[PERMISSIONS].Object? then Some(c[PERMISSIONS].fields) else None
  }

  function ArrayIn(fields: Config, key: string): Option<seq<Entry>> {
    if key in fields && fields[key].Array? then Some(fields[key].items) else None
  }

  /** `listAt` without `create`. */
  function ListAt(c: Config, p: Path): Option<seq<Entry>> {
    if p.Top? then ArrayIn(c, p.key)
    else if Permissions(c).None? then None
    else ArrayIn(Permissions(c).value, p.key)
  }

  predicate ArrayOrAbsent(fields: Config, key: string) {
    key in fields ==> fields[key].Array?
  }

  /** The file may be changed at `p`: what is there is a list, and what holds it an object. */
  predicate Readable(c: Config, p: Path) {
    if p.Top? then ArrayOrAbsent(c, p.key)
    else PERMISSIONS in c ==> c[PERMISSIONS].Object? && ArrayOrAbsent(c[PERMISSIONS].fields, p.key)
  }

  function WithList(c: Config, p: Path, items: seq<Entry>): Config {
    if p.Top? then c[p.key := Array(items)]
    else
      var fields := if Permissions(c).Some? then Permissions(c).value else map[];
      c[PERMISSIONS := Object(fields[p.key := Array(items)])]
  }

  /** `removeList`: the list, and the object that held it when nothing else is in there. */
  function WithoutList(c: Config, p: Path): Config {
    if p.Top? then c - {p.key}
    else if Permissions(c).None? then c
    else
      var rest := Permissions(c).value - {p.key};
      if rest == map[] then c - {PERMISSIONS} else c[PERMISSIONS := Object(rest)]
  }

  lemma ListsAfterWriting(c: Config, p: Path, items: seq<Entry>, q: Path)
    requires ValidPath(p) && ValidPath(q) && Readable(c, p)
    ensures ListAt(WithList(c, p, items), q) == if q == p then Some(items) else ListAt(c, q)
    ensures Readable(c, q) ==> Readable(WithList(c, p, items), q)
  {}

  lemma ListsAfterRemoving(c: Config, p: Path, q: Path)
    requires ValidPath(p) && ValidPath(q)
    ensures ListAt(WithoutList(c, p), q) == if q == p then None else ListAt(c, q)
    ensures Readable(c, q) ==> Readable(WithoutList(c, p), q)
  {
    if p.Permission? && Permissions(c).Some? {
      var fields := Permissions(c).value;
      assert q.key != p.key && q.key in fields ==> q.key in fields - {p.key};
    }
  }

  // ── What a workspace asks for ──

  datatype Tool = Claude | Cursor

  datatype List = PermissionsAllow | PermissionsDeny | McpAllowed | McpDenied

  function Place(tool: Tool, list: List): (p: Option<Path>)
    ensures p.Some? ==> ValidPath(p.value)
  {
    match (tool, list)
    case (_, PermissionsAllow) => Some(Permission("allow"))
    case (_, PermissionsDeny) => Some(Permission("deny"))
    case (Claude, McpAllowed) => Some(Top("allowedMcpServers"))
    case (Claude, McpDenied) => Some(Top("deniedMcpServers"))
    case (Cursor, McpAllowed) => None
    case (Cursor, McpDenied) => Some(Permission("deny"))
  }

  function EntryFor(tool: Tool, list: List, value: string): Entry {
    match (tool, list)
    case (Claude, McpAllowed) => Entry(Server(value), "")
    case (Claude, McpDenied) => Entry(Server(value), "")
    case (Cursor, McpDenied) => Entry(Text("Mcp(" + value + ":*)"), "")
    case (_, _) => Entry(Text(value), "")
  }

  datatype Wanted = Wanted(list: List, values: seq<string>)

  predicate HasKey(entries: seq<Entry>, k: Key) {
    exists i | 0 <= i < |entries| :: entries[i].key == k
  }

  /** `entries` with `e` behind, unless its key is there already. */
  function Added(entries: seq<Entry>, e: Entry): seq<Entry> {
    if HasKey(entries, e.key) then entries else entries + [e]
  }

  function AddedValues(tool: Tool, list: List, values: seq<string>, entries: seq<Entry>): seq<Entry>
    decreases |values|
  {
    if values == [] then entries
    else AddedValues(tool, list, values[1..], Added(entries, EntryFor(tool, list, values[0])))
  }

  /** What the section wants at `p`, after `entries` from the lists before. */
  function WantedAt(tool: Tool, lists: seq<Wanted>, p: Path, entries: seq<Entry>): seq<Entry>
    decreases |lists|
  {
    if lists == [] then entries
    else
      var w := lists[0];
      WantedAt(tool, lists[1..], p, if Place(tool, w.list) == Some(p) then AddedValues(tool, w.list, w.values, entries) else entries)
  }

  function Want(tool: Tool, lists: seq<Wanted>, p: Path): seq<Entry> {
    WantedAt(tool, lists, p, [])
  }

  // ── One list ──

  /** A list, the keys the agent placed in it, and whether the agent created it. */
  datatype Slot = Slot(list: Option<seq<Entry>>, placed: seq<Key>, created: bool)

  function Items(list: Option<seq<Entry>>): seq<Entry> {
    if list.Some? then list.value else []
  }

  function Without(entries: seq<Entry>, stale: set<Key>): (r: seq<Entry>)
    ensures forall i :: 0 <= i < |r| ==> r[i].key !in stale && r[i] in entries
  {
    if entries == [] then []
    else if entries[0].key in stale then Without(entries[1..], stale)
    else [entries[0]] + Without(entries[1..], stale)
  }

  /** The placed keys that are still wanted and still there. */
  function StillPlaced(placed: seq<Key>, want: seq<Entry>, list: seq<Entry>): seq<Key> {
    if placed == [] then []
    else
      var rest := StillPlaced(placed[1..], want, list);
      if HasKey(want, placed[0]) && HasKey(list, placed[0]) then [placed[0]] + rest else rest
  }

  function Stale(placed: seq<Key>, want: seq<Entry>): set<Key> {
    set k | k in placed && !HasKey(want, k)
  }

  /** The wanted entries that are missing, put behind and recorded. */
  function Topped(kept: seq<Entry>, placed: seq<Key>, want: seq<Entry>): (seq<Entry>, seq<Key>)
    decreases |want|
  {
    if want == [] then (kept, placed)
    else if HasKey(kept, want[0].key) then Topped(kept, placed, want[1..])
    else Topped(kept + [want[0]], placed + [want[0].key], want[1..])
  }

  /** A list left as it is, and what stays recorded. */
  function Unwritten(s: Slot, want: seq<Entry>): Slot {
    s.(placed := StillPlaced(s.placed, want, Items(s.list)))
  }

  function Merged(s: Slot, want: seq<Entry>): Slot {
    var placed := StillPlaced(s.placed, want, Items(s.list));
    if s.list.None? && want == [] then Slot(None, placed, s.created)
    else
      var created := s.created || s.list.None?;
      var (kept, now) := Topped(Without(Items(s.list), Stale(s.placed, want)), placed, want);
      if kept == [] && created then Slot(None, now, false) else Slot(Some(kept), now, created)
  }

  predicate Missing(s: Slot, want: seq<Entry>) {
    exists i | 0 <= i < |want| :: !HasKey(Items(s.list), want[i].key)
  }

  predicate HasStale(s: Slot, want: seq<Entry>) {
    exists i | 0 <= i < |s.placed| :: !HasKey(want, s.placed[i]) && HasKey(Items(s.list), s.placed[i])
  }

  // ── One pass over a tool's file ──

  datatype Placed = Placed(path: Path, keys: seq<Key>)

  /** What the agent remembers of a tool: the section last applied, and per setting what it placed and created. */
  datatype Applied = Applied(digest: string, placed: seq<Placed>, created: set<Path>)

  datatype File = File(config: Config, applied: Option<Applied>)

  /** `settings` is None when the section no longer names the tool. `installed`, `changed` and `writable` are
      what the disk answers. */
  datatype Request = Request(
    settings: Option<seq<Wanted>>, digest: string, enforce: bool, installed: bool, changed: bool, writable: bool)

  datatype Why = Unsupported | NotInstalled | Unparseable | WriteFailed

  datatype Report = Silent | Refused(why: Why) | Drifted(at: set<Path>) | Done(restored: set<Path>)

  function Lists(q: Request): seq<Wanted> {
    if q.settings.Some? then q.settings.value else []
  }

  function PlacedBefore(f: File): seq<Placed> {
    if f.applied.Some? then f.applied.value.placed else []
  }

  function CreatedBefore(f: File): set<Path> {
    if f.applied.Some? then f.applied.value.created else {}
  }

  function KeysAt(placed: seq<Placed>, p: Path): seq<Key> {
    if placed == [] then [] else if placed[0].path == p then placed[0].keys else KeysAt(placed[1..], p)
  }

  function SlotAt(f: File, p: Path): Slot {
    Slot(ListAt(f.config, p), KeysAt(PlacedBefore(f), p), p in CreatedBefore(f))
  }

  function WithPath(paths: seq<Path>, p: Path): seq<Path> {
    if p in paths then paths else paths + [p]
  }

  function WantedPaths(tool: Tool, lists: seq<Wanted>, paths: seq<Path>): seq<Path>
    decreases |lists|
  {
    if lists == [] then paths
    else
      var place := Place(tool, lists[0].list);
      WantedPaths(tool, lists[1..], if place.Some? then WithPath(paths, place.value) else paths)
  }

  function PlacedPaths(placed: seq<Placed>, paths: seq<Path>): seq<Path>
    decreases |placed|
  {
    if placed == [] then paths else PlacedPaths(placed[1..], WithPath(paths, placed[0].path))
  }

  /** The settings a pass looks at: those the section names, then those where something was placed. */
  function Paths(tool: Tool, lists: seq<Wanted>, placed: seq<Placed>): seq<Path> {
    PlacedPaths(placed, WantedPaths(tool, lists, []))
  }

  predicate AsksUnsupported(tool: Tool, lists: seq<Wanted>) {
    exists i | 0 <= i < |lists| :: |lists[i].values| > 0 && Place(tool, lists[i].list).None?
  }

  function Recorded(p: Path, keys: seq<Key>, rest: seq<Placed>): seq<Placed> {
    if keys == [] then rest else [Placed(p, keys)] + rest
  }

  /** The config with the merged list in its place. */
  function Written(c: Config, p: Path, was: Slot, want: seq<Entry>): Config {
    var m := Merged(was, want);
    if was.list.None? && want == [] then c
    else if m.list.Some? then WithList(c, p, m.list.value)
    else WithoutList(c, p)
  }

  function MergeAll(tool: Tool, lists: seq<Wanted>, f: File, paths: seq<Path>): (Config, seq<Placed>, set<Path>)
    requires f.applied.Some?
    decreases |paths|
  {
    if paths == [] then (f.config, [], CreatedBefore(f))
    else
      var p := paths[0];
      var was, want := SlotAt(f, p), Want(tool, lists, p);
      var m := Merged(was, want);
      var created := if m.created then CreatedBefore(f) + {p} else CreatedBefore(f) - {p};
      var (c, placed, all) := MergeAll(tool, lists, File(Written(f.config, p, was, want), Some(f.applied.value.(created := created))), paths[1..]);
      (c, Recorded(p, m.placed, placed), all)
  }

  function KeepAll(tool: Tool, lists: seq<Wanted>, f: File, paths: seq<Path>): seq<Placed>
    decreases |paths|
  {
    if paths == [] then []
    else
      var p := paths[0];
      Recorded(p, Unwritten(SlotAt(f, p), Want(tool, lists, p)).placed, KeepAll(tool, lists, f, paths[1..]))
  }

  function MissingIn(tool: Tool, lists: seq<Wanted>, f: File, paths: seq<Path>): set<Path> {
    set p | p in paths && Missing(SlotAt(f, p), Want(tool, lists, p))
  }

  predicate AnyStale(tool: Tool, lists: seq<Wanted>, f: File, paths: seq<Path>) {
    exists p | p in paths :: HasStale(SlotAt(f, p), Want(tool, lists, p))
  }

  /** With nothing remembered, as if something empty were. */
  function Remembering(f: File): File {
    f.(applied := Some(Applied("", PlacedBefore(f), CreatedBefore(f))))
  }

  predicate Drifts(f: File, q: Request, missing: set<Path>) {
    f.applied.Some? && f.applied.value.digest == q.digest && missing != {}
  }

  function Remembered(q: Request, placed: seq<Placed>, created: set<Path>): Option<Applied> {
    if q.settings.Some? then Some(Applied(q.digest, placed, created)) else None
  }

  predicate GoesAhead(tool: Tool, f: File, q: Request) {
    var lists := Lists(q);
    var paths := Paths(tool, lists, PlacedBefore(f));
    && !AsksUnsupported(tool, lists) && (paths != [] || f.applied.Some?) && q.installed
    && forall p :: p in paths ==> Readable(f.config, p)
  }

  /** `applyHarness`. */
  function Pass(tool: Tool, f: File, q: Request): (File, Report) {
    var lists := Lists(q);
    var paths := Paths(tool, lists, PlacedBefore(f));
    if AsksUnsupported(tool, lists) then (f, Refused(Unsupported))
    else if paths == [] && f.applied.None? then (f, Silent)
    else if !q.installed then (f, if q.settings.Some? then Refused(NotInstalled) else Silent)
    else if !(forall p :: p in paths ==> Readable(f.config, p)) then (f, Refused(Unparseable))
    else
      var missing := MissingIn(tool, lists, f, paths);
      var drifts := Drifts(f, q, missing);
      var report := if q.settings.None? then Silent else Done(if drifts then missing else {});
      if drifts && !q.enforce then (f, Drifted(missing))
      else if missing == {} && !AnyStale(tool, lists, f, paths) then
        (File(f.config, Remembered(q, KeepAll(tool, lists, f, paths), CreatedBefore(f))), report)
      else if q.changed then (f, Silent)
      else if !q.writable then (f, Refused(WriteFailed))
      else
        var (c, placed, created) := MergeAll(tool, lists, Remembering(f), paths);
        (File(c, Remembered(q, placed, created)), report)
  }
}
