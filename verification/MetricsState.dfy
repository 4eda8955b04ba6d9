/** Printing a metrics view's state as a hash, and parsing any hash back into a state. */
module MetricsState {
  import opened Text
  import opened Percent
  import opened MetricsRoute

  datatype Facet = Role | Model | Effort | Group | Workflow | Project | TaskClass | Source

  /** The query's parameters, in the order they are written. */
  datatype Key = View | Route | Off(facet: Facet) | Grouping | Columns | Sort | Direction | FrontierRole | FrontierY | FrontierX | Untested

  const KEYS: seq<Key> := [View, Route, Off(Role), Off(Model), Off(Effort), Off(Group), Off(Workflow), Off(Project), Off(TaskClass),
                           Off(Source), Grouping, Columns, Sort, Direction, FrontierRole, FrontierY, FrontierX, Untested]

  function Name(k: Key): string {
    match k
    case View => "view"
    case Route => "route"
    case Off(Role) => "x.role"
    case Off(Model) => "x.model"
    case Off(Effort) => "x.effort"
    case Off(Group) => "x.state"
    case Off(Workflow) => "x.workflow"
    case Off(Project) => "x.project"
    case Off(TaskClass) => "x.taskClass"
    case Off(Source) => "x.source"
    case Grouping => "group"
    case Columns => "cols"
    case Sort => "sort"
    case Direction => "dir"
    case FrontierRole => "f.role"
    case FrontierY => "f.y"
    case FrontierX => "f.x"
    case Untested => "untested"
  }

  const VIEWS := ["matrix", "frontier", "ledger", "run"]
  const GROUPS := ["route", "role", "model", "effort", "workflow", "project", "taskClass", "run"]
  const FAMILIES := ["outcome", "verification", "work", "tokens", "cost", "provenance"]
  const DEFAULT_FAMILIES := ["outcome", "verification", "work", "cost"]
  const FRONTIER_Y := ["first-pass", "clean", "not-blocked", "landed"]
  const FRONTIER_X := ["list-per-row", "median-minutes"]
  const DIRECTIONS := ["asc", "desc"]

  datatype State = State(
    view: string, run: Option<string>, route: Option<string>, off: map<Facet, seq<string>>,
    role: Option<string>, y: string, x: string, untested: bool, group: string,
    families: seq<string>, column: string, dir: string)

  /** What one view of the tab starts from and falls back to. */
  datatype Vocabulary = Vocabulary(
    views: seq<string>, groups: seq<string>, families: seq<string>, shown: seq<string>,
    ys: seq<string>, xs: seq<string>, dirs: seq<string>, hidden: string, dir: string, column: string)

  const V1 := Vocabulary(VIEWS, GROUPS, FAMILIES, DEFAULT_FAMILIES, FRONTIER_Y, FRONTIER_X, DIRECTIONS, "proving-ground", "desc", "n")

  function DefaultOff(v: Vocabulary, f: Facet): seq<string> {
    if f == Source then [v.hidden] else []
  }

  function OffOf(s: State, f: Facet): seq<string> {
    if f in s.off then s.off[f] else []
  }

  predicate SameList(a: seq<string>, b: seq<string>) {
    |a| == |b| && forall i :: 0 <= i < |a| ==> a[i] in b
  }

  /** Known families only, in the order of the pills. */
  function OrderFamilies(all: seq<string>, values: seq<string>): seq<string> {
    if all == [] then [] else (if all[0] in values then [all[0]] else []) + OrderFamilies(all[1..], values)
  }

  // ----- printing

  /** The raw value written under a key, None where the state is at its default. */
  function Entry(v: Vocabulary, s: State, k: Key): Option<string>
    requires |v.views| > 0 && |v.groups| > 0 && |v.ys| > 0 && |v.xs| > 0
  {
    match k
    case View => if s.run.None? && s.view != v.views[0] then Some(s.view) else None
    case Route => if s.route.Some? then Some(Unescaped(EncodeUri(s.route.value))) else None
    case Off(f) => if SameList(OffOf(s, f), DefaultOff(v, f)) then None else Some(JoinWith(EncodeEach(OffOf(s, f)), ','))
    case Grouping => if s.group != v.groups[0] then Some(s.group) else None
    case Columns => if SameList(s.families, v.shown) then None else Some(JoinWith(OrderFamilies(v.families, s.families), ','))
    case Sort => if s.column != v.column then Some(EncodeUri(s.column)) else None
    case Direction => if s.dir != v.dir then Some(s.dir) else None
    case FrontierRole => if s.role.Some? then Some(EncodeUri(s.role.value)) else None
    case FrontierY => if s.y != v.ys[0] then Some(s.y) else None
    case FrontierX => if s.x != v.xs[0] then Some(s.x) else None
    case Untested => if s.untested then Some("1") else None
  }

  function Parts(v: Vocabulary, s: State, keys: seq<Key>): seq<string>
    requires |v.views| > 0 && |v.groups| > 0 && |v.ys| > 0 && |v.xs| > 0
  {
    if keys == [] then []
    else
      var k := keys[|keys| - 1];
      Parts(v, s, keys[..|keys| - 1]) + if Entry(v, s, k).Some? then [Name(k) + "=" + Entry(v, s, k).value] else []
  }

  const PATH := "#/metrics"
  const RUN_PATH := "#/metrics/run/"

  function Path(s: State): string {
    if s.run.None? then PATH else RUN_PATH + EncodeUri(s.run.value)
  }

  /** metricsRouteHash. */
  function Hash(v: Vocabulary, s: State): string
    requires |v.views| > 0 && |v.groups| > 0 && |v.ys| > 0 && |v.xs| > 0
  {
    var parts := Parts(v, s, KEYS);
    if parts == [] then Path(s) else Path(s) + "?" + JoinWith(parts, '&')
  }

  // ----- parsing

  /** rawParams: the first value under each decoded key, still encoded. */
  function RawParams(parts: seq<string>): map<string, string> {
    if parts == [] then map[]
    else
      var params := RawParams(parts[..|parts| - 1]);
      var part := parts[|parts| - 1];
      if part == "" then params
      else
        var eq := FindChar(part, '=', 0);
        var key := SafeDecode(part[..eq]);
        if key in params then params else params[key := if eq < |part| then part[eq + 1..] else ""]
  }

  function Get(params: map<string, string>, k: Key): Option<string> {
    if Name(k) in params then Some(params[Name(k)]) else None
  }

  function ReadOne(raw: Option<string>, allowed: seq<string>, fallback: string): string {
    if raw.Some? && SafeDecode(raw.value) in allowed then SafeDecode(raw.value) else fallback
  }

  function ReadText(raw: Option<string>): Option<string> {
    if raw.Some? && SafeDecode(raw.value) != "" then Some(SafeDecode(raw.value)) else None
  }

  /** The run named by the path: one nonempty segment after the run prefix. */
  function ReadRun(path: string): Option<string> {
    if |path| > |RUN_PATH| && path[..|RUN_PATH|] == RUN_PATH && '/' !in path[|RUN_PATH|..] then Some(SafeDecode(path[|RUN_PATH|..])) else None
  }

  function ReadOff(v: Vocabulary, raw: Option<string>, f: Facet): seq<string> {
    if raw.Some? then ReadList(raw.value) else DefaultOff(v, f)
  }

  function ReadState(v: Vocabulary, run: Option<string>, params: map<string, string>): State
    requires |v.views| == 4 && |v.groups| > 0 && |v.ys| > 0 && |v.xs| > 0
  {
    State(
      if run.Some? then v.views[3] else ReadOne(Get(params, View), v.views, v.views[0]),
      run, ReadText(Get(params, Route)),
      map f: Facet | f in {Role, Model, Effort, Group, Workflow, Project, TaskClass, Source} :: ReadOff(v, Get(params, Off(f)), f),
      ReadText(Get(params, FrontierRole)),
      ReadOne(Get(params, FrontierY), v.ys, v.ys[0]), ReadOne(Get(params, FrontierX), v.xs, v.xs[0]),
      Get(params, Untested) == Some("1"), ReadOne(Get(params, Grouping), v.groups, v.groups[0]),
      match Get(params, Columns) case None => v.shown case Some(raw) => OrderFamilies(v.families, ReadList(raw)),
      match ReadText(Get(params, Sort)) case None => v.column case Some(c) => c,
      ReadOne(Get(params, Direction), v.dirs, v.dir))
  }

  /** parseMetricsRoute. */
  function Parse(v: Vocabulary, hash: string): State
    requires |v.views| == 4 && |v.groups| > 0 && |v.ys| > 0 && |v.xs| > 0
  {
    var split := FindChar(hash, '?', 0);
    var query := if split < |hash| then hash[split + 1..] else "";
    ReadState(v, ReadRun(hash[..split]), RawParams(Split(query, '&')))
  }

  /** The parameter loop: empty parts skipped, the first of a repeated key kept. */
  method ReadParams(query: string) returns (params: map<string, string>)
    ensures params == RawParams(Split(query, '&'))
  {
    var parts := Split(query, '&');
    params := map[];
    for i := 0 to |parts|
      invariant params == RawParams(parts[..i])
    {
      assert parts[..i + 1][..i] == parts[..i];
      var part := parts[i];
      if |part| > 0 {
        var eq := FindChar(part, '=', 0);
        var key := SafeDecode(part[..eq]);
        if key !in params { params := params[key := if eq < |part| then part[eq + 1..] else ""]; }
      }
    }
    assert parts[..|parts|] == parts;
  }

  /** Pushing one part for every key away from its default, then joining. */
  method PrintRoute(v: Vocabulary, s: State) returns (hash: string)
    requires |v.views| > 0 && |v.groups| > 0 && |v.ys| > 0 && |v.xs| > 0
    ensures hash == Hash(v, s)
  {
    var parts := [];
    for i := 0 to |KEYS|
      invariant parts == Parts(v, s, KEYS[..i])
    {
      assert KEYS[..i + 1][..i] == KEYS[..i];
      var entry := Entry(v, s, KEYS[i]);
      if entry.Some? { parts := parts + [Name(KEYS[i]) + "=" + entry.value]; }
    }
    assert KEYS[..|KEYS|] == KEYS;
    hash := if |parts| == 0 then Path(s) else Path(s) + "?" + JoinWith(parts, '&');
  }

  // ----- what the round trip asks of a state

  ghost predicate Words(values: seq<string>) {
    forall w :: w in values ==> Word(w)
  }

  ghost predicate Distinct(values: seq<string>) {
    forall i, j :: 0 <= i < j < |values| ==> values[i] != values[j]
  }

  ghost predicate Sound(v: Vocabulary) {
    && |v.views| == 4 && |v.groups| > 0 && |v.ys| > 0 && |v.xs| > 0
    && Words(v.views) && Words(v.groups) && Words(v.families) && Words(v.ys) && Words(v.xs) && Words(v.dirs)
    && Distinct(v.families) && v.shown == OrderFamilies(v.families, v.shown) && Distinct(v.shown)
    && v.hidden != "" && v.dir in v.dirs && v.column != ""
  }

  /** Closed vocabularies are kept to, open values are nonempty, and no list repeats a value. */
  ghost predicate Writable(v: Vocabulary, s: State) {
    && s.view in v.views && s.group in v.groups && s.y in v.ys && s.x in v.xs && s.dir in v.dirs
    && (s.run.Some? ==> s.run.value != "") && (s.route.Some? ==> s.route.value != "") && (s.role.Some? ==> s.role.value != "")
    && s.column != "" && Distinct(s.families) && (forall w :: w in s.families ==> w in v.families)
    && forall f :: GoodList(OffOf(s, f))
  }

  /** The same state: families in pill order, and the view a named run forces. */
  ghost predicate Restored(v: Vocabulary, s: State, t: State)
    requires |v.views| == 4
  {
    && t.view == (if s.run.Some? then v.views[3] else s.view) && t.run == s.run && t.route == s.route
    && (forall f :: OffOf(t, f) == OffOf(s, f))
    && t.role == s.role && t.y == s.y && t.x == s.x && t.untested == s.untested && t.group == s.group
    && t.families == OrderFamilies(v.families, s.families) && t.column == s.column && t.dir == s.dir
  }
}
