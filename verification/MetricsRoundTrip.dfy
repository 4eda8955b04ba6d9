/** Every state the metrics tab can be in survives the URL. */
module MetricsRoundTrip {
  import opened Text
  import opened Percent
  import opened MetricsRoute
  import opened MetricsState

  // ----- the parameter names are distinct words

  /** Three things that tell the names apart: length, first and third character. */
  function Mark(k: Key): (nat, char, char) {
    match k
    case View => (4, 'v', 'e')
    case Route => (5, 'r', 'u')
    case Off(Role) => (6, 'x', 'r')
    case Off(Model) => (7, 'x', 'm')
    case Off(Effort) => (8, 'x', 'e')
    case Off(Group) => (7, 'x', 's')
    case Off(Workflow) => (10, 'x', 'w')
    case Off(Project) => (9, 'x', 'p')
    case Off(TaskClass) => (11, 'x', 't')
    case Off(Source) => (8, 'x', 's')
    case Grouping => (5, 'g', 'o')
    case Columns => (4, 'c', 'l')
    case Sort => (4, 's', 'r')
    case Direction => (3, 'd', 'r')
    case FrontierRole => (6, 'f', 'r')
    case FrontierY => (3, 'f', 'y')
    case FrontierX => (3, 'f', 'x')
    case Untested => (8, 'u', 't')
  }

  lemma NameIsMarked(k: Key)
    ensures |Name(k)| == Mark(k).0 >= 3 && Name(k)[0] == Mark(k).1 && Name(k)[2] == Mark(k).2
  {}

  lemma MarksDiffer(j: Key, k: Key)
    ensures Mark(j) == Mark(k) ==> j == k
  {}

  lemma NamesDiffer(j: Key, k: Key)
    requires Name(j) == Name(k)
    ensures j == k
  {
    hide Name;
    NameIsMarked(j);
    NameIsMarked(k);
    MarksDiffer(j, k);
  }

  lemma NameIsWord(k: Key)
    ensures Word(Name(k))
  {
    match k
    case View => case Route => case Off(f) => FacetNameIsWord(f);
    case Grouping => case Columns => case Sort => case Direction =>
    case FrontierRole => case FrontierY => case FrontierX => case Untested =>
  }

  lemma FacetNameIsWord(f: Facet)
    ensures Word(Name(Off(f)))
  {}

  // ----- every value written is quiet but for its commas

  predicate Separated(s: string) {
    '&' !in s && '?' !in s
  }

  lemma QuietIsSeparated(s: string)
    requires Quiet(s)
    ensures Separated(s)
  {
    QuietDecodes(s);
  }

  lemma ListIsSeparated(parts: seq<string>)
    requires forall p :: p in parts ==> Quiet(p)
    ensures Separated(JoinWith(parts, ','))
  {
    forall p | p in parts ensures '&' !in p && '?' !in p { QuietDecodes(p); }
    JoinedHolds(parts, ',', '&');
    JoinedHolds(parts, ',', '?');
  }

  lemma EachIsQuiet(values: seq<string>)
    ensures forall p :: p in EncodeEach(values) ==> Quiet(p)
  {
    forall p | p in EncodeEach(values) ensures Quiet(p) {
      var i :| 0 <= i < |values| && EncodeEach(values)[i] == p;
      EncodedIsQuiet(values[i]);
    }
  }

  lemma WordIsQuiet(w: string)
    requires Word(w)
    ensures Quiet(w)
  {
    WordReads(w);
  }

  lemma {:induction false} OrderedAre(all: seq<string>, values: seq<string>)
    ensures forall w :: w in OrderFamilies(all, values) <==> w in all && w in values
  {
    if all != [] {
      OrderedAre(all[1..], values);
      assert all == [all[0]] + all[1..];
    }
  }

  lemma FamiliesAreQuiet(v: Vocabulary, values: seq<string>)
    requires Words(v.families)
    ensures forall w :: w in OrderFamilies(v.families, values) ==> Quiet(w) && w != ""
  {
    OrderedAre(v.families, values);
    forall w | w in OrderFamilies(v.families, values) ensures Quiet(w) && w != "" { WordIsQuiet(w); }
  }

  lemma RawOneIsSeparated()
    ensures Separated("1")
  {}

  lemma EntryIsSeparated(v: Vocabulary, s: State, k: Key)
    requires Sound(v) && Writable(v, s) && Entry(v, s, k).Some?
    ensures Separated(Entry(v, s, k).value)
  {
    match k
    case View => WordIsQuiet(s.view); QuietIsSeparated(s.view);
    case Route => RouteReads(s.route.value); QuietIsSeparated(Unescaped(EncodeUri(s.route.value)));
    case Off(f) => EachIsQuiet(OffOf(s, f)); ListIsSeparated(EncodeEach(OffOf(s, f)));
    case Grouping => WordIsQuiet(s.group); QuietIsSeparated(s.group);
    case Columns => FamiliesAreQuiet(v, s.families); ListIsSeparated(OrderFamilies(v.families, s.families));
    case Sort => EncodedIsQuiet(s.column); QuietIsSeparated(EncodeUri(s.column));
    case Direction => WordIsQuiet(s.dir); QuietIsSeparated(s.dir);
    case FrontierRole => EncodedIsQuiet(s.role.value); QuietIsSeparated(EncodeUri(s.role.value));
    case FrontierY => WordIsQuiet(s.y); QuietIsSeparated(s.y);
    case FrontierX => WordIsQuiet(s.x); QuietIsSeparated(s.x);
    case Untested => RawOneIsSeparated();
  }

  // ----- the parameters read back

  ghost predicate DistinctKeys(keys: seq<Key>) {
    forall i, j :: 0 <= i < j < |keys| ==> keys[i] != keys[j]
  }

  /** params holds exactly the entries of these keys. */
  ghost predicate Holds(v: Vocabulary, s: State, keys: seq<Key>, params: map<string, string>)
    requires Sound(v)
  {
    && (forall k :: k in keys ==> Get(params, k) == Entry(v, s, k))
    && (forall k :: k !in keys ==> Get(params, k) == None)
  }

  lemma {:induction false} FindHere(s: string, c: char, i: nat, j: nat)
    requires j <= i < |s| && s[i] == c && forall m :: j <= m < i ==> s[m] != c
    ensures FindChar(s, c, j) == i
    decreases i - j
  {
    if j < i { FindHere(s, c, i, j + 1); }
  }

  lemma PartReads(k: Key, value: string, params: map<string, string>)
    requires Name(k) !in params
    ensures var part := Name(k) + "=" + value;
      && part != "" && FindChar(part, '=', 0) == |Name(k)| && SafeDecode(part[..|Name(k)|]) == Name(k) && part[|Name(k)| + 1..] == value
  {
    hide Name;
    var part := Name(k) + "=" + value;
    NameIsWord(k);
    WordReads(Name(k));
    forall m | 0 <= m < |Name(k)| ensures part[m] != '=' { assert part[m] == Name(k)[m] && IsPlain(Name(k)[m]); }
    FindHere(part, '=', |Name(k)|, 0);
    assert part[..|Name(k)|] == Name(k);
  }

  lemma OnePartMore(parts: seq<string>, part: string, key: string, value: string)
    requires part != "" && SafeDecode(part[..FindChar(part, '=', 0)]) == key && key !in RawParams(parts)
    requires FindChar(part, '=', 0) < |part| && part[FindChar(part, '=', 0) + 1..] == value
    ensures RawParams(parts + [part]) == RawParams(parts)[key := value]
  {
    assert (parts + [part])[..|parts|] == parts;
  }

  lemma {:induction false} PartsHold(v: Vocabulary, s: State, keys: seq<Key>)
    requires Sound(v) && Writable(v, s) && DistinctKeys(keys)
    ensures Holds(v, s, keys, RawParams(Parts(v, s, keys)))
    decreases |keys|
  {
    hide Name, Entry, Sound, Writable, SafeDecode, FindChar;
    ViewsHold(v);
    if keys == [] {
      NoParams();
    } else {
      var init, k := keys[..|keys| - 1], keys[|keys| - 1];
      PartsHold(v, s, init);
      var before := RawParams(Parts(v, s, init));
      assert keys == init + [k] && k !in init;
      assert Name(k) !in before by { assert Get(before, k) == None; }
      if Entry(v, s, k).Some? {
        var value := Entry(v, s, k).value;
        PartReads(k, value, before);
        OnePartMore(Parts(v, s, init), Name(k) + "=" + value, Name(k), value);
        OneKeyMore(v, s, init, k, before, value);
      } else {
        assert Parts(v, s, keys) == Parts(v, s, init);
        SameKeys(v, s, init, k, before);
      }
    }
  }

  lemma ViewsHold(v: Vocabulary)
    requires Sound(v)
    ensures |v.views| > 0 && |v.groups| > 0 && |v.ys| > 0 && |v.xs| > 0
  {}

  lemma NoParams()
    ensures RawParams([]) == map[]
  {}

  lemma OneKeyMore(v: Vocabulary, s: State, init: seq<Key>, k: Key, before: map<string, string>, value: string)
    requires Sound(v) && Holds(v, s, init, before) && k !in init && Entry(v, s, k) == Some(value)
    ensures Holds(v, s, init + [k], before[Name(k) := value])
  {
    hide Name, Entry;
    var after := before[Name(k) := value];
    forall j ensures Get(after, j) == if j == k then Some(value) else Get(before, j) {
      if Name(j) == Name(k) { NamesDiffer(j, k); }
    }
  }

  lemma SameKeys(v: Vocabulary, s: State, init: seq<Key>, k: Key, before: map<string, string>)
    requires Sound(v) && Holds(v, s, init, before) && k !in init && Entry(v, s, k) == None
    ensures Holds(v, s, init + [k], before)
  {
    hide Name, Entry;
  }

  function FacetPlace(f: Facet): nat {
    match f case Role => 2 case Model => 3 case Effort => 4 case Group => 5 case Workflow => 6 case Project => 7 case TaskClass => 8 case Source => 9
  }

  function Place(k: Key): nat {
    match k
    case View => 0 case Route => 1 case Off(f) => FacetPlace(f) case Grouping => 10 case Columns => 11 case Sort => 12
    case Direction => 13 case FrontierRole => 14 case FrontierY => 15 case FrontierX => 16 case Untested => 17
  }

  lemma AllKeys()
    ensures (forall k :: k in KEYS) && DistinctKeys(KEYS)
  {
    forall k ensures k in KEYS { KeyPlaced(k); }
  }

  lemma FacetPlaced(f: Facet)
    ensures KEYS[FacetPlace(f)] == Off(f)
  {
    match f case Role => case Model => case Effort => case Group => case Workflow => case Project => case TaskClass => case Source =>
  }

  lemma KeyPlaced(k: Key)
    ensures Place(k) < |KEYS| && KEYS[Place(k)] == k
  {
    match k
    case Off(f) => FacetPlaced(f);
    case View => case Route => case Grouping => case Columns => case Sort => case Direction =>
    case FrontierRole => case FrontierY => case FrontierX => case Untested =>
  }

  // ----- each field read back from its entry

  lemma OneReads(raw: Option<string>, value: string, allowed: seq<string>, fallback: string)
    requires Words(allowed) && value in allowed && raw == if value != fallback then Some(value) else None
    ensures ReadOne(raw, allowed, fallback) == value
  {
    WordReads(value);
  }

  lemma TextReads(raw: Option<string>, value: Option<string>)
    requires raw == (if value.Some? then Some(EncodeUri(value.value)) else None) && (value.Some? ==> value.value != "")
    ensures ReadText(raw) == value
  {
    if value.Some? { EncodedReads(value.value); }
  }

  lemma RouteTextReads(raw: Option<string>, value: Option<string>)
    requires raw == (if value.Some? then Some(Unescaped(EncodeUri(value.value))) else None) && (value.Some? ==> value.value != "")
    ensures ReadText(raw) == value
  {
    if value.Some? { RouteReads(value.value); }
  }

  lemma OffReads(v: Vocabulary, s: State, f: Facet)
    requires Sound(v) && Writable(v, s)
    ensures ReadOff(v, Entry(v, s, Off(f)), f) == OffOf(s, f)
  {
    var off := OffOf(s, f);
    assert GoodList(off);
    if SameList(off, DefaultOff(v, f)) {
      if f == Source { assert off[0] in [v.hidden]; }
    } else {
      ListReads(off);
    }
  }

  lemma {:induction false} OrderedDistinct(all: seq<string>, values: seq<string>)
    requires Distinct(all)
    ensures Distinct(OrderFamilies(all, values))
  {
    if all != [] {
      var tail := all[1..];
      forall i, j | 0 <= i < j < |tail| ensures tail[i] != tail[j] { assert all[i + 1] != all[j + 1]; }
      OrderedDistinct(tail, values);
      OrderedAre(tail, values);
      if all[0] in values {
        var rest := OrderFamilies(tail, values);
        var whole := [all[0]] + rest;
        forall i, j | 0 <= i < j < |whole| ensures whole[i] != whole[j] {
          if i == 0 {
            assert rest[j - 1] in tail;
            var m :| 0 <= m < |tail| && tail[m] == rest[j - 1];
            assert all[m + 1] != all[0];
          }
        }
      }
    }
  }

  lemma {:induction false} OrderedSame(all: seq<string>, x: seq<string>, y: seq<string>)
    requires forall w :: w in all ==> (w in x <==> w in y)
    ensures OrderFamilies(all, x) == OrderFamilies(all, y)
  {
    if all != [] {
      assert all[0] in all;
      forall w | w in all[1..] ensures w in all {}
      OrderedSame(all[1..], x, y);
    }
  }

  lemma EncodedWords(values: seq<string>)
    requires forall w :: w in values ==> Quiet(w) && w != "" && SafeDecode(w) == w
    ensures Distinct(values) ==> ReadList(JoinWith(values, ',')) == values
  {
    if values == [] {
      EncodedReads("");
      assert DecodeEach([""]) == [""];
    } else {
      forall p | p in values ensures ',' !in p { QuietDecodes(p); }
      SplitJoined(values, ',');
      assert DecodeEach(values) == values;
      if Distinct(values) {
        NonEmptySame(values);
        DedupedSame(values);
      }
    }
  }

  lemma FamilyListReads(v: Vocabulary, values: seq<string>)
    requires Words(v.families) && Distinct(v.families)
    ensures ReadList(JoinWith(OrderFamilies(v.families, values), ',')) == OrderFamilies(v.families, values)
  {
    var shown := OrderFamilies(v.families, values);
    OrderedAre(v.families, values);
    OrderedDistinct(v.families, values);
    forall w | w in shown ensures Quiet(w) && w != "" && SafeDecode(w) == w { WordReads(w); }
    EncodedWords(shown);
  }

  /** Equal-length lists without repeats, one inside the other, hold the same values. */
  lemma {:induction false} SameMembers(x: seq<string>, y: seq<string>)
    requires Distinct(x) && Distinct(y) && |x| == |y| && forall i :: 0 <= i < |x| ==> x[i] in y
    ensures forall w :: w in x <==> w in y
  {
    Sized(x);
    Sized(y);
    var xs, ys := set w | w in x, set w | w in y;
    assert xs <= ys && |xs| == |ys|;
    Equal(xs, ys);
    forall w ensures w in x <==> w in y { assert w in xs <==> w in ys; }
  }

  lemma Equal(x: set<string>, y: set<string>)
    requires x <= y && |x| == |y|
    ensures x == y
  {
    assert y == x + (y - x);
  }

  lemma {:induction false} Sized(x: seq<string>)
    requires Distinct(x)
    ensures |set w | w in x| == |x|
  {
    if x == [] {
      assert (set w | w in x) == {};
    } else {
      var init, last := x[..|x| - 1], x[|x| - 1];
      Sized(init);
      assert x == init + [last] && last !in init;
      assert (set w | w in x) == (set w | w in init) + {last};
    }
  }

  lemma FamiliesRead(v: Vocabulary, s: State)
    requires Sound(v) && Writable(v, s)
    ensures (match Entry(v, s, Columns) case None => v.shown case Some(raw) => OrderFamilies(v.families, ReadList(raw)))
            == OrderFamilies(v.families, s.families)
  {
    if SameList(s.families, v.shown) {
      SameMembers(s.families, v.shown);
      OrderedSame(v.families, s.families, v.shown);
    } else {
      FamilyListReads(v, s.families);
      OrderedAre(v.families, s.families);
      OrderedSame(v.families, OrderFamilies(v.families, s.families), s.families);
    }
  }

  lemma ColumnReads(v: Vocabulary, s: State)
    requires Sound(v) && Writable(v, s)
    ensures (match ReadText(Entry(v, s, Sort)) case None => v.column case Some(c) => c) == s.column
  {
    TextReads(Entry(v, s, Sort), if s.column != v.column then Some(s.column) else None);
  }

  lemma RunReads(s: State)
    requires s.run.Some? ==> s.run.value != ""
    ensures ReadRun(Path(s)) == s.run && '?' !in Path(s)
  {
    if s.run.Some? {
      var enc := EncodeUri(s.run.value);
      EncodedIsQuiet(s.run.value);
      EncodedReads(s.run.value);
      PrefixSliced(RUN_PATH, enc);
      RunPathQuiet();
    } else {
      RunPathQuiet();
    }
  }

  lemma PrefixSliced(a: string, b: string)
    ensures (a + b)[..|a|] == a && (a + b)[|a|..] == b && |a + b| == |a| + |b|
  {}

  lemma RunPathQuiet()
    ensures '?' !in RUN_PATH && '?' !in PATH && |PATH| < |RUN_PATH|
  {}

  // ----- the whole hash

  ghost predicate ReadsAs(v: Vocabulary, s: State, params: map<string, string>)
    requires Sound(v)
  {
    forall k :: Get(params, k) == Entry(v, s, k)
  }

  lemma FieldsRestored(v: Vocabulary, s: State, params: map<string, string>)
    requires Sound(v) && Writable(v, s) && ReadsAs(v, s, params)
    ensures Restored(v, s, ReadState(v, s.run, params))
  {
    hide Get, ReadOne, ReadText, ReadOff, OrderFamilies, Entry;
    var t := ReadState(v, s.run, params);
    EntriesAre(v, s);
    RouteTextReads(Entry(v, s, Route), s.route);
    TextReads(Entry(v, s, FrontierRole), s.role);
    OneReads(Entry(v, s, FrontierY), s.y, v.ys, v.ys[0]);
    OneReads(Entry(v, s, FrontierX), s.x, v.xs, v.xs[0]);
    OneReads(Entry(v, s, Grouping), s.group, v.groups, v.groups[0]);
    OneReads(Entry(v, s, Direction), s.dir, v.dirs, v.dir);
    if s.run.None? { OneReads(Entry(v, s, View), s.view, v.views, v.views[0]); }
    ColumnReads(v, s);
    FamiliesRead(v, s);
    forall f ensures OffOf(t, f) == OffOf(s, f) {
      OffReads(v, s, f);
      EveryFacet(f);
      assert Get(params, Off(f)) == Entry(v, s, Off(f));
    }
  }

  lemma EveryFacet(f: Facet)
    ensures f in {Role, Model, Effort, Group, Workflow, Project, TaskClass, Source}
  {
    match f case Role => case Model => case Effort => case Group => case Workflow => case Project => case TaskClass => case Source =>
  }

  lemma EntriesAre(v: Vocabulary, s: State)
    requires Sound(v)
    ensures Entry(v, s, Route) == (if s.route.Some? then Some(Unescaped(EncodeUri(s.route.value))) else None)
    ensures Entry(v, s, FrontierRole) == (if s.role.Some? then Some(EncodeUri(s.role.value)) else None)
    ensures Entry(v, s, FrontierY) == (if s.y != v.ys[0] then Some(s.y) else None)
    ensures Entry(v, s, FrontierX) == (if s.x != v.xs[0] then Some(s.x) else None)
    ensures Entry(v, s, Grouping) == (if s.group != v.groups[0] then Some(s.group) else None)
    ensures Entry(v, s, Direction) == (if s.dir != v.dir then Some(s.dir) else None)
    ensures s.run.None? ==> Entry(v, s, View) == (if s.view != v.views[0] then Some(s.view) else None)
    ensures Entry(v, s, Untested) == Some("1") <==> s.untested
  {}

  lemma {:induction false} PartsAreSeparated(v: Vocabulary, s: State, keys: seq<Key>)
    requires Sound(v) && Writable(v, s)
    ensures forall p :: p in Parts(v, s, keys) ==> Separated(p)
    decreases |keys|
  {
    hide Name, Entry;
    if keys != [] {
      var k := keys[|keys| - 1];
      PartsAreSeparated(v, s, keys[..|keys| - 1]);
      if Entry(v, s, k).Some? {
        EntryIsSeparated(v, s, k);
        NameIsWord(k);
        WordIsQuiet(Name(k));
        QuietIsSeparated(Name(k));
      }
    }
  }

  lemma FindsMark(path: string, query: string)
    requires '?' !in path
    ensures FindChar(path + "?" + query, '?', 0) == |path|
    ensures (path + "?" + query)[..|path|] == path && (path + "?" + query)[|path| + 1..] == query
  {
    var hash := path + "?" + query;
    assert hash[|path|] == '?';
    forall m | 0 <= m < |path| ensures hash[m] != '?' { assert hash[m] == path[m]; }
    FindHere(hash, '?', |path|, 0);
  }

  lemma {:induction false} FindsNone(s: string, c: char, j: nat)
    requires j <= |s| && c !in s
    ensures FindChar(s, c, j) == |s|
    decreases |s| - j
  {
    if j < |s| { FindsNone(s, c, j + 1); }
  }

  lemma ParamsRead(v: Vocabulary, s: State)
    requires Sound(v) && Writable(v, s)
    ensures var parts := Parts(v, s, KEYS);
      ReadsAs(v, s, RawParams(Split(if parts == [] then "" else JoinWith(parts, '&'), '&')))
  {
    hide Name, Entry, Sound, Writable;
    ViewsHold(v);
    var parts := Parts(v, s, KEYS);
    AllKeys();
    PartsHold(v, s, KEYS);
    PartsAreSeparated(v, s, KEYS);
    if parts == [] {
      EmptyQuery();
    } else {
      SplitJoined(parts, '&');
    }
  }

  lemma EmptyQuery()
    ensures RawParams(Split("", '&')) == RawParams([])
  {
    assert Split("", '&') == [""] && [""][..0] == [];
  }

  /** parseMetricsRoute undoes metricsRouteHash on every state a user can reach. */
  lemma RoundTrip(v: Vocabulary, s: State)
    requires Sound(v) && Writable(v, s)
    ensures Restored(v, s, Parse(v, Hash(v, s)))
  {
    hide Restored, ReadState, Writable, Sound, ReadRun, RawParams, Split, Path;
    ViewsHold(v);
    WritableRun(v, s);
    var parts := Parts(v, s, KEYS);
    RunReads(s);
    ParamsRead(v, s);
    if parts == [] {
      FindsNone(Path(s), '?', 0);
      assert Path(s)[..|Path(s)|] == Path(s);
      FieldsRestored(v, s, RawParams(Split("", '&')));
    } else {
      FindsMark(Path(s), JoinWith(parts, '&'));
      FieldsRestored(v, s, RawParams(Split(JoinWith(parts, '&'), '&')));
    }
  }

  lemma WritableRun(v: Vocabulary, s: State)
    requires Sound(v) && Writable(v, s)
    ensures (s.run.Some? ==> s.run.value != "") && |v.views| == 4
  {}

  // ----- the vocabulary the dashboard ships

  lemma ShippedWords()
    ensures Words(VIEWS) && Words(GROUPS) && Words(FAMILIES) && Words(FRONTIER_Y) && Words(FRONTIER_X) && Words(DIRECTIONS)
  {
    ViewWords();
    GroupWords();
    FamilyWords();
    FrontierWords();
  }

  lemma ViewWords()
    ensures Words(VIEWS)
  {
    assert Word("matrix") && Word("frontier") && Word("ledger") && Word("run");
  }

  lemma GroupWords()
    ensures Words(GROUPS)
  {
    assert Word("route") && Word("role") && Word("model") && Word("effort");
    assert Word("workflow") && Word("project") && Word("taskClass") && Word("run");
  }

  lemma FamilyWords()
    ensures Words(FAMILIES)
  {
    assert Word("outcome") && Word("verification") && Word("work");
    assert Word("tokens") && Word("cost") && Word("provenance");
  }

  lemma FrontierWords()
    ensures Words(FRONTIER_Y) && Words(FRONTIER_X) && Words(DIRECTIONS)
  {
    assert Word("first-pass") && Word("clean") && Word("not-blocked") && Word("landed");
    assert Word("list-per-row") && Word("median-minutes") && Word("asc") && Word("desc");
  }

  /** Six families told apart by length and first character. */
  lemma FamiliesDistinct()
    ensures Distinct(FAMILIES) && Distinct(DEFAULT_FAMILIES)
  {
    assert FAMILIES[0] == "outcome" && FAMILIES[1] == "verification" && FAMILIES[2] == "work";
    assert FAMILIES[3] == "tokens" && FAMILIES[4] == "cost" && FAMILIES[5] == "provenance";
    assert "work"[0] == 'w' && "cost"[0] == 'c';
  }

  lemma ShownInOrder()
    ensures OrderFamilies(FAMILIES, DEFAULT_FAMILIES) == DEFAULT_FAMILIES
  {
    var shown := DEFAULT_FAMILIES;
    FamiliesDistinct();
    assert FAMILIES[3] == "tokens" && FAMILIES[5] == "provenance";
    assert shown[0] == FAMILIES[0] && shown[1] == FAMILIES[1] && shown[2] == FAMILIES[2] && shown[3] == FAMILIES[4];
    assert FAMILIES[3] !in shown && FAMILIES[5] !in shown;
    OrderSix(FAMILIES, shown);
  }

  lemma OrderSix(all: seq<string>, shown: seq<string>)
    requires |all| == 6 && shown == [all[0], all[1], all[2], all[4]] && all[3] !in shown && all[5] !in shown
    ensures OrderFamilies(all, shown) == shown
  {
    assert all[5..][1..] == [] && all[4..][1..] == all[5..] && all[3..][1..] == all[4..];
    assert all[2..][1..] == all[3..] && all[1..][1..] == all[2..];
    assert OrderFamilies(all[5..], shown) == [];
    assert OrderFamilies(all[4..], shown) == [all[4]];
    assert OrderFamilies(all[3..], shown) == [all[4]];
    assert OrderFamilies(all[2..], shown) == [all[2], all[4]];
    assert OrderFamilies(all[1..], shown) == [all[1], all[2], all[4]];
  }

  lemma V1IsSound()
    ensures Sound(V1)
  {
    ShippedWords();
    FamiliesDistinct();
    ShownInOrder();
    assert DIRECTIONS[1] == "desc";
  }
}
