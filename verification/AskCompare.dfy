/** Comparing what was asked before and after: a difference is reported exactly where a field differs. */
module AskCompare {
  import opened Sorting
  import opened Order
  import opened StableJson

  datatype Selection = PlanTicket(plan: string, ticket: string) | LightTicket(light: string)
  datatype Declaration = Declaration(id: string, statement: string)
  datatype Ask =
    | PlanAsk(prompt: string, title: Value, milestone: Value, dependsOn: Value, serves: Value,
              checklist: seq<string>, declarations: seq<Declaration>)
    | LightAsk(frontmatter: seq<Field>, body: string)

  /** selectionAsk: the ask of a selection in one tree, or the error that resolving it throws. */
  datatype Resolved = Found(ask: Ask) | Unresolved(path: string, message: string)
  type Resolver = Selection -> Resolved

  datatype Difference = Difference(selection: Selection, field: string, before: Value, after: Value)
  datatype Outcome = Unchanged | Changed(differences: seq<Difference>) | BadTree(path: string, message: string)

  /** A plan selection resolves to a plan ask and a light one to a light ask, of well-formed values. */
  ghost predicate Sound(resolve: Resolver) {
    forall s {:trigger resolve(s)} :: resolve(s).Found? ==> Fits(s, resolve(s).ask)
  }

  ghost predicate Fits(s: Selection, a: Ask) {
    match a
    case PlanAsk(_, title, milestone, dependsOn, serves, _, _) =>
      s.PlanTicket? && Valid(title) && Valid(milestone) && Valid(dependsOn) && Valid(serves)
    case LightAsk(frontmatter, _) => s.LightTicket? && Valid(Object(frontmatter))
  }

  // ----- the compared fields

  datatype Row = Row(field: string, before: Value, after: Value)

  function Texts(lines: seq<string>): (v: Value)
    ensures v.List? && |v.items| == |lines| && forall i :: 0 <= i < |lines| ==> v.items[i] == Str(lines[i])
  {
    List(seq(|lines|, i requires 0 <= i < |lines| => Str(lines[i])))
  }

  function Declared(d: Declaration): Value {
    Object([Field("id", Str(d.id)), Field("statement", Str(d.statement))])
  }

  function Declarations(ds: seq<Declaration>): (v: Value)
    ensures v.List? && |v.items| == |ds| && forall i :: 0 <= i < |ds| ==> v.items[i] == Declared(ds[i])
  {
    List(seq(|ds|, i requires 0 <= i < |ds| => Declared(ds[i])))
  }

  function PlanRows(a: Ask, b: Ask): seq<Row>
    requires a.PlanAsk? && b.PlanAsk?
  {
    [Row("prompt", Str(a.prompt), Str(b.prompt)), Row("title", a.title, b.title), Row("milestone", a.milestone, b.milestone),
     Row("depends_on", a.dependsOn, b.dependsOn), Row("serves", a.serves, b.serves),
     Row("checklist", Texts(a.checklist), Texts(b.checklist)), Row("declarations", Declarations(a.declarations), Declarations(b.declarations))]
  }

  /** A missing field reads as undefined. */
  function Get(fs: seq<Field>, key: string): Value {
    if fs == [] then Undefined else if fs[0].key == key then fs[0].value else Get(fs[1..], key)
  }

  function Keys(fs: seq<Field>): seq<string> {
    if fs == [] then [] else [fs[0].key] + Keys(fs[1..])
  }

  /** new Set(keys): each key once, where it first stands. */
  function Once(keys: seq<string>): seq<string> {
    if keys == [] then []
    else
      var rest := Once(keys[..|keys| - 1]);
      if keys[|keys| - 1] in rest then rest else rest + [keys[|keys| - 1]]
  }

  function KeyRows(keys: seq<string>, a: seq<Field>, b: seq<Field>): seq<Row> {
    if keys == [] then [] else [Row("frontmatter." + keys[0], Get(a, keys[0]), Get(b, keys[0]))] + KeyRows(keys[1..], a, b)
  }

  function AllKeys(a: seq<Field>, b: seq<Field>): seq<string> {
    Sort(Once(Keys(a) + Keys(b)), AtMost)
  }

  /** Each key of either frontmatter, then the body; for two strings, differing and differing in stable text are the same. */
  function LightRows(a: Ask, b: Ask): seq<Row>
    requires a.LightAsk? && b.LightAsk?
  {
    KeyRows(AllKeys(a.frontmatter, b.frontmatter), a.frontmatter, b.frontmatter) + [Row("body", Str(a.body), Str(b.body))]
  }

  function Rows(a: Ask, b: Ask): seq<Row> {
    if a.PlanAsk? && b.PlanAsk? then PlanRows(a, b) else if a.LightAsk? && b.LightAsk? then LightRows(a, b) else []
  }

  /** The rows whose stable texts differ. */
  function Differing(s: Selection, rows: seq<Row>): seq<Difference> {
    if rows == [] then []
    else Differing(s, rows[..|rows| - 1]) + Told(s, rows[|rows| - 1])
  }

  function Told(s: Selection, row: Row): seq<Difference> {
    if Stable(row.before) != Stable(row.after) then [Difference(s, row.field, row.before, row.after)] else []
  }

  /** What the first selections yield: their differences, or the first error met. */
  function CompareFrom(before: Resolver, after: Resolver, selected: seq<Selection>): Outcome {
    if selected == [] then Changed([])
    else
      var so := CompareFrom(before, after, selected[..|selected| - 1]);
      var s := selected[|selected| - 1];
      if so.BadTree? || so.Unchanged? then so
      else match before(s)
        case Unresolved(path, message) => BadTree(path, message)
        case Found(a) =>
          match after(s)
          case Unresolved(path, message) => BadTree(path, message)
          case Found(b) => Changed(so.differences + Differing(s, Rows(a, b)))
  }

  function Compare(before: Resolver, after: Resolver, selected: seq<Selection>): Outcome {
    var o := CompareFrom(before, after, selected);
    if o == Changed([]) then Unchanged else o
  }

  // ----- what is compared, said directly

  ghost predicate SameAsk(a: Ask, b: Ask) {
    if a.PlanAsk? && b.PlanAsk? then
      && a.prompt == b.prompt && a.checklist == b.checklist && a.declarations == b.declarations
      && Same(a.title, b.title) && Same(a.milestone, b.milestone) && Same(a.dependsOn, b.dependsOn) && Same(a.serves, b.serves)
    else if a.LightAsk? && b.LightAsk? then
      a.body == b.body && SameFields(a.frontmatter, b.frontmatter)
    else false
  }

  ghost predicate SameFields(a: seq<Field>, b: seq<Field>) {
    forall key {:trigger Get(a, key)} :: Same(Get(a, key), Get(b, key))
  }

  ghost predicate Resolves(before: Resolver, after: Resolver, selected: seq<Selection>) {
    forall s :: s in selected ==> before(s).Found? && after(s).Found?
  }

  ghost predicate SameAsks(before: Resolver, after: Resolver, selected: seq<Selection>) {
    forall s :: s in selected ==> before(s).Found? && after(s).Found? && SameAsk(before(s).ask, after(s).ask)
  }

  ghost predicate RowsAgree(rows: seq<Row>) {
    forall i :: 0 <= i < |rows| ==> Same(rows[i].before, rows[i].after)
  }

  ghost predicate ValidRows(rows: seq<Row>) {
    forall i :: 0 <= i < |rows| ==> Valid(rows[i].before) && Valid(rows[i].after)
  }

  lemma {:induction false} Tells(s: Selection, rows: seq<Row>, d: Difference)
    requires ValidRows(rows)
    ensures d in Differing(s, rows)
      <==> exists i :: 0 <= i < |rows| && d == Difference(s, rows[i].field, rows[i].before, rows[i].after) && !Same(rows[i].before, rows[i].after)
  {
    hide Same, Valid, Stable;
    if rows != [] {
      var n := |rows| - 1;
      Tells(s, rows[..n], d);
      StableIffSame(rows[n].before, rows[n].after);
      if d in Differing(s, rows[..n]) {
        var i :| 0 <= i < n && d == Difference(s, rows[..n][i].field, rows[..n][i].before, rows[..n][i].after) && !Same(rows[..n][i].before, rows[..n][i].after);
        assert rows[i] == rows[..n][i];
      }
      if i :| 0 <= i < |rows| && d == Difference(s, rows[i].field, rows[i].before, rows[i].after) && !Same(rows[i].before, rows[i].after) {
        if i < n { assert rows[..n][i] == rows[i]; }
      }
    }
  }

  lemma NothingToTell(s: Selection, rows: seq<Row>)
    requires ValidRows(rows)
    ensures Differing(s, rows) == [] <==> RowsAgree(rows)
  {
    hide Same, Valid, Differing;
    if Differing(s, rows) == [] {
      forall i | 0 <= i < |rows| ensures Same(rows[i].before, rows[i].after) {
        Tells(s, rows, Difference(s, rows[i].field, rows[i].before, rows[i].after));
      }
    } else {
      var d := Differing(s, rows)[0];
      Tells(s, rows, d);
    }
  }

  // ----- the rows stand for the ask

  lemma {:induction false} GetIs(fs: seq<Field>, key: string)
    requires Valid(Object(fs))
    ensures Valid(Get(fs, key)) && (key in Keys(fs) || Get(fs, key) == Undefined)
  {
    if fs != [] {
      assert Valid(fs[0].value);
      assert Valid(Object(fs[1..]));
      GetIs(fs[1..], key);
    }
  }

  lemma {:induction false} OnceHolds(keys: seq<string>)
    ensures forall k :: k in Once(keys) <==> k in keys
  {
    if keys != [] { OnceHolds(keys[..|keys| - 1]); }
  }

  lemma AllKeysHold(a: seq<Field>, b: seq<Field>)
    ensures forall k :: k in AllKeys(a, b) <==> k in Keys(a) || k in Keys(b)
  {
    hide Sort, Once, Keys;
    AtMostIsTotal();
    OnceHolds(Keys(a) + Keys(b));
    SortIsSortedPermutation(Once(Keys(a) + Keys(b)), AtMost);
    forall k ensures k in AllKeys(a, b) <==> k in Keys(a) || k in Keys(b) {
      assert k in Sort(Once(Keys(a) + Keys(b)), AtMost) <==> k in Once(Keys(a) + Keys(b));
    }
  }

  lemma {:induction false} KeyRowsAre(keys: seq<string>, a: seq<Field>, b: seq<Field>)
    ensures |KeyRows(keys, a, b)| == |keys|
    ensures forall i :: 0 <= i < |keys| ==> KeyRows(keys, a, b)[i] == Row("frontmatter." + keys[i], Get(a, keys[i]), Get(b, keys[i]))
  {
    hide Get;
    if keys != [] { KeyRowsAre(keys[1..], a, b); }
  }

  lemma UndefinedIsSame()
    ensures Same(Undefined, Undefined) && Valid(Undefined)
  {}

  lemma LightRowsAgree(a: Ask, b: Ask)
    requires a.LightAsk? && b.LightAsk? && Valid(Object(a.frontmatter)) && Valid(Object(b.frontmatter))
    ensures ValidRows(Rows(a, b)) && (RowsAgree(Rows(a, b)) <==> SameAsk(a, b))
  {
    hide Same, Valid, Get, Keys, AllKeys, KeyRows;
    var fa, fb, keys := a.frontmatter, b.frontmatter, AllKeys(a.frontmatter, b.frontmatter);
    var rows := Rows(a, b);
    KeyRowsAre(keys, fa, fb);
    AllKeysHold(fa, fb);
    UndefinedIsSame();
    StringsAgree(a.body, b.body);
    forall key ensures Valid(Get(fa, key)) && Valid(Get(fb, key)) && (key in keys || Same(Get(fa, key), Get(fb, key))) {
      GetIs(fa, key);
      GetIs(fb, key);
    }
    assert rows[|keys|] == Row("body", Str(a.body), Str(b.body));
    assert forall i :: 0 <= i < |keys| ==> rows[i] == KeyRows(keys, fa, fb)[i];
    if RowsAgree(rows) {
      assert Same(rows[|keys|].before, rows[|keys|].after);
      forall key ensures Same(Get(fa, key), Get(fb, key)) {
        if key in keys {
          var i :| 0 <= i < |keys| && keys[i] == key;
          assert Same(rows[i].before, rows[i].after);
        }
      }
    }
  }

  lemma StringsAgree(x: string, y: string)
    ensures Valid(Str(x)) && Valid(Str(y)) && (Same(Str(x), Str(y)) <==> x == y)
  {}

  lemma TextsAgree(x: seq<string>, y: seq<string>)
    ensures Valid(Texts(x)) && Valid(Texts(y)) && (Same(Texts(x), Texts(y)) <==> x == y)
  {
    hide Texts;
    if Same(Texts(x), Texts(y)) {
      forall i | 0 <= i < |x| ensures x[i] == y[i] { assert Same(Texts(x).items[i], Texts(y).items[i]); }
    }
  }

  lemma DeclaredAgree(d: Declaration, e: Declaration)
    ensures Valid(Declared(d)) && (Same(Declared(d), Declared(e)) <==> d == e)
  {
    var fs, gs := Declared(d).fields, Declared(e).fields;
    assert fs[0].key == gs[0].key && fs[1].key == gs[1].key && fs[0].key != gs[1].key && fs[1].key != gs[0].key;
    if Same(Declared(d), Declared(e)) {
      assert Same(fs[0].value, gs[0].value) && Same(fs[1].value, gs[1].value);
    }
    if d == e { assert HasKey(fs, fs[0].key) && HasKey(fs, fs[1].key); }
  }

  lemma DeclarationsAgree(x: seq<Declaration>, y: seq<Declaration>)
    ensures Valid(Declarations(x)) && Valid(Declarations(y)) && (Same(Declarations(x), Declarations(y)) <==> x == y)
  {
    hide Declarations, Declared;
    forall i | 0 <= i < |x| ensures Valid(Declared(x[i])) { DeclaredAgree(x[i], x[i]); }
    forall i | 0 <= i < |y| ensures Valid(Declared(y[i])) { DeclaredAgree(y[i], y[i]); }
    forall i | 0 <= i < |x| && i < |y| ensures Same(Declared(x[i]), Declared(y[i])) <==> x[i] == y[i] { DeclaredAgree(x[i], y[i]); }
    if Same(Declarations(x), Declarations(y)) {
      forall i | 0 <= i < |x| ensures x[i] == y[i] { assert Same(Declarations(x).items[i], Declarations(y).items[i]); }
    }
  }

  lemma PlanRowsAgree(a: Ask, b: Ask, s: Selection)
    requires a.PlanAsk? && b.PlanAsk? && Fits(s, a) && Fits(s, b)
    ensures ValidRows(Rows(a, b)) && (RowsAgree(Rows(a, b)) <==> SameAsk(a, b))
  {
    hide Same, Valid, Texts, Declarations;
    StringsAgree(a.prompt, b.prompt);
    TextsAgree(a.checklist, b.checklist);
    DeclarationsAgree(a.declarations, b.declarations);
    var rows := Rows(a, b);
    if forall i :: 0 <= i < 7 ==> Same(rows[i].before, rows[i].after) {
      assert Same(rows[0].before, rows[0].after) && Same(rows[1].before, rows[1].after) && Same(rows[2].before, rows[2].after);
      assert Same(rows[3].before, rows[3].after) && Same(rows[4].before, rows[4].after) && Same(rows[5].before, rows[5].after);
      assert Same(rows[6].before, rows[6].after);
    }
  }

  /** One selection shows no difference exactly when its ask is the same. */
  lemma AskAgrees(s: Selection, a: Ask, b: Ask)
    requires Fits(s, a) && Fits(s, b)
    ensures ValidRows(Rows(a, b)) && (Differing(s, Rows(a, b)) == [] <==> SameAsk(a, b))
  {
    hide Same, Valid, Rows, Differing, SameAsk, RowsAgree, ValidRows;
    if a.PlanAsk? {
      PlanRowsAgree(a, b, s);
    } else {
      LightRowsAgree(a, b);
    }
    NothingToTell(s, Rows(a, b));
  }

  // ----- exactness of the comparison

  lemma {:induction false} CompareFromIs(before: Resolver, after: Resolver, selected: seq<Selection>)
    requires Sound(before) && Sound(after)
    ensures !CompareFrom(before, after, selected).Unchanged?
    ensures CompareFrom(before, after, selected).Changed? <==> Resolves(before, after, selected)
    ensures Resolves(before, after, selected) ==> (CompareFrom(before, after, selected).differences == [] <==> SameAsks(before, after, selected))
  {
    hide Rows, Differing, SameAsk, Fits;
    if selected != [] {
      var n := |selected| - 1;
      var s := selected[n];
      CompareFromIs(before, after, selected[..n]);
      assert Resolves(before, after, selected) <==> Resolves(before, after, selected[..n]) && before(s).Found? && after(s).Found? by {
        assert selected == selected[..n] + [s];
      }
      if Resolves(before, after, selected) {
        AskAgrees(s, before(s).ask, after(s).ask);
        assert SameAsks(before, after, selected) <==> SameAsks(before, after, selected[..n]) && SameAsk(before(s).ask, after(s).ask) by {
          assert selected == selected[..n] + [s];
        }
      }
    }
  }

  /** The comparison passes exactly when every selection resolves in both trees and asks the same. */
  lemma UnchangedIff(before: Resolver, after: Resolver, selected: seq<Selection>)
    requires Sound(before) && Sound(after)
    ensures Compare(before, after, selected) == Unchanged <==> Resolves(before, after, selected) && SameAsks(before, after, selected)
    ensures Compare(before, after, selected).BadTree? <==> !Resolves(before, after, selected)
  {
    hide CompareFrom, Resolves, SameAsks, Sound;
    CompareFromIs(before, after, selected);
  }

  ghost predicate Reported(before: Resolver, after: Resolver, s: Selection, d: Difference) {
    && before(s).Found? && after(s).Found?
    && var rows := Rows(before(s).ask, after(s).ask);
    exists i :: 0 <= i < |rows| && d == Difference(s, rows[i].field, rows[i].before, rows[i].after) && !Same(rows[i].before, rows[i].after)
  }

  /** Every difference told is a field that differs, and every field that differs is told. */
  lemma {:induction false} DifferencesAreExact(before: Resolver, after: Resolver, selected: seq<Selection>, d: Difference)
    requires Sound(before) && Sound(after) && Resolves(before, after, selected)
    ensures CompareFrom(before, after, selected).Changed?
    ensures d in CompareFrom(before, after, selected).differences <==> exists s :: s in selected && Reported(before, after, s, d)
  {
    hide Rows, Differing, SameAsk, Fits, Same;
    CompareFromIs(before, after, selected);
    if selected != [] {
      var n := |selected| - 1;
      var s := selected[n];
      forall r | r in selected[..n] ensures r in selected {}
      DifferencesAreExact(before, after, selected[..n], d);
      AskAgrees(s, before(s).ask, after(s).ask);
      Tells(s, Rows(before(s).ask, after(s).ask), d);
      assert selected == selected[..n] + [s];
      if d in CompareFrom(before, after, selected).differences {
        if d in Differing(s, Rows(before(s).ask, after(s).ask)) { assert Reported(before, after, s, d); }
      }
      if r :| r in selected && Reported(before, after, r, d) {
        if r in selected[..n] {} else { assert r == s; }
      }
    }
  }

  /** Where a selection does not resolve, the error told is the first one met, the tree before it first. */
  lemma {:induction false} FirstErrorIsTold(before: Resolver, after: Resolver, selected: seq<Selection>, k: nat)
    requires k < |selected| && Resolves(before, after, selected[..k]) && !(before(selected[k]).Found? && after(selected[k]).Found?)
    requires Sound(before) && Sound(after)
    ensures var at := if before(selected[k]).Unresolved? then before(selected[k]) else after(selected[k]);
      Compare(before, after, selected) == BadTree(at.path, at.message)
  {
    hide Resolves, Sound, SameAsks, Differing, Rows;
    var n := |selected| - 1;
    if k < n {
      assert selected[..n][..k] == selected[..k];
      FirstErrorIsTold(before, after, selected[..n], k);
    } else {
      CompareFromIs(before, after, selected[..n]);
    }
  }

  // ----- the loops

  method CompareRows(s: Selection, rows: seq<Row>, found: seq<Difference>) returns (differences: seq<Difference>)
    ensures differences == found + Differing(s, rows)
  {
    hide Stable;
    differences := found;
    for i := 0 to |rows|
      invariant differences == found + Differing(s, rows[..i])
    {
      assert rows[..i + 1][..i] == rows[..i];
      if Stable(rows[i].before) != Stable(rows[i].after) {
        differences := differences + [Difference(s, rows[i].field, rows[i].before, rows[i].after)];
      }
    }
    assert rows[..|rows|] == rows;
  }

  /** compareAskedFor. */
  method CompareAskedFor(before: Resolver, after: Resolver, selected: seq<Selection>) returns (o: Outcome)
    ensures o == Compare(before, after, selected)
  {
    hide Rows, Differing;
    var differences: seq<Difference> := [];
    for i := 0 to |selected|
      invariant CompareFrom(before, after, selected[..i]) == Changed(differences)
    {
      var s, left, right := selected[i], before(selected[i]), after(selected[i]);
      assert selected[..i + 1][..i] == selected[..i];
      if left.Unresolved? {
        ErrorStays(before, after, selected, i + 1);
        return BadTree(left.path, left.message);
      }
      if right.Unresolved? {
        ErrorStays(before, after, selected, i + 1);
        return BadTree(right.path, right.message);
      }
      differences := CompareRows(s, Rows(left.ask, right.ask), differences);
    }
    assert selected[..|selected|] == selected;
    o := if differences == [] then Unchanged else Changed(differences);
  }

  lemma {:induction false} ErrorStays(before: Resolver, after: Resolver, selected: seq<Selection>, k: nat)
    requires k <= |selected| && CompareFrom(before, after, selected[..k]).BadTree?
    ensures CompareFrom(before, after, selected) == CompareFrom(before, after, selected[..k])
    decreases |selected|
  {
    hide Rows, Differing;
    var n := |selected| - 1;
    if k < |selected| {
      assert selected[..n][..k] == selected[..k];
      ErrorStays(before, after, selected[..n], k);
    } else {
      assert selected[..k] == selected;
    }
  }
}
