/** Which differences an ask comparison tells, field by field. */
module AskFields {
  import opened Sorting
  import opened Order
  import opened StableJson
  import opened AskCompare

  ghost predicate Says(d: Difference, s: Selection, field: string, before: Value, after: Value) {
    d.selection == s && d.field == field && d.before == before && d.after == after
  }

  /** A plan ask differs in its prompt, its frontmatter values, its checklist or its declarations. */
  ghost predicate PlanDiffers(s: Selection, a: Ask, b: Ask, d: Difference)
    requires a.PlanAsk? && b.PlanAsk?
  {
    || (Says(d, s, "prompt", Str(a.prompt), Str(b.prompt)) && a.prompt != b.prompt)
    || (Says(d, s, "title", a.title, b.title) && !Same(a.title, b.title))
    || (Says(d, s, "milestone", a.milestone, b.milestone) && !Same(a.milestone, b.milestone))
    || (Says(d, s, "depends_on", a.dependsOn, b.dependsOn) && !Same(a.dependsOn, b.dependsOn))
    || (Says(d, s, "serves", a.serves, b.serves) && !Same(a.serves, b.serves))
    || (Says(d, s, "checklist", Texts(a.checklist), Texts(b.checklist)) && a.checklist != b.checklist)
    || (Says(d, s, "declarations", Declarations(a.declarations), Declarations(b.declarations)) && a.declarations != b.declarations)
  }

  /** The value under a key, Undefined where the frontmatter has none. */
  ghost predicate Under(fields: seq<Field>, key: string, value: Value) {
    if exists f :: f in fields && f.key == key then exists f :: f in fields && f.key == key && f.value == value else value == Undefined
  }

  /** A light ask differs under a frontmatter key, whichever side holds it, or in its body. */
  ghost predicate LightDiffers(s: Selection, a: Ask, b: Ask, d: Difference)
    requires a.LightAsk? && b.LightAsk?
  {
    || (exists key :: d.selection == s && d.field == "frontmatter." + key && Under(a.frontmatter, key, d.before) && Under(b.frontmatter, key, d.after)
                      && !Same(d.before, d.after))
    || (Says(d, s, "body", Str(a.body), Str(b.body)) && a.body != b.body)
  }

  lemma PlanTells(s: Selection, a: Ask, b: Ask, d: Difference)
    requires a.PlanAsk? && b.PlanAsk? && Fits(s, a) && Fits(s, b)
    ensures d in Differing(s, Rows(a, b)) <==> PlanDiffers(s, a, b, d)
  {
    hide Same, Valid, Texts, Declarations, Differing;
    PlanRowsAgree(a, b, s);
    Tells(s, Rows(a, b), d);
    StringsAgree(a.prompt, b.prompt);
    TextsAgree(a.checklist, b.checklist);
    DeclarationsAgree(a.declarations, b.declarations);
    var rows := Rows(a, b);
    assert |rows| == 7;
    if d in Differing(s, rows) {
      var i :| 0 <= i < |rows| && d == Difference(s, rows[i].field, rows[i].before, rows[i].after) && !Same(rows[i].before, rows[i].after);
    }
    if PlanDiffers(s, a, b, d) {
      var i := if d.field == "prompt" then 0 else if d.field == "title" then 1 else if d.field == "milestone" then 2
        else if d.field == "depends_on" then 3 else if d.field == "serves" then 4 else if d.field == "checklist" then 5 else 6;
      assert d == Difference(s, rows[i].field, rows[i].before, rows[i].after) && !Same(rows[i].before, rows[i].after);
    }
  }

  lemma {:induction false} GetUnder(fields: seq<Field>, key: string)
    requires Valid(Object(fields))
    ensures forall value :: Under(fields, key, value) <==> value == Get(fields, key)
  {
    if fields != [] {
      assert Valid(Object(fields[1..]));
      GetUnder(fields[1..], key);
      assert fields == [fields[0]] + fields[1..];
      if fields[0].key == key {
        OneKey(fields, key);
        assert fields[0] in fields;
      } else {
        forall value ensures Under(fields, key, value) <==> Under(fields[1..], key, value) {}
      }
    }
  }

  lemma OneKey(fields: seq<Field>, key: string)
    requires Valid(Object(fields)) && fields != [] && fields[0].key == key
    ensures forall f :: f in fields && f.key == key ==> f == fields[0]
  {
    forall f | f in fields && f.key == key ensures f == fields[0] {
      var i :| 0 <= i < |fields| && fields[i] == f;
    }
  }

  lemma LightTells(s: Selection, a: Ask, b: Ask, d: Difference)
    requires a.LightAsk? && b.LightAsk? && Fits(s, a) && Fits(s, b)
    ensures d in Differing(s, Rows(a, b)) <==> LightDiffers(s, a, b, d)
  {
    hide Same, Valid, Get, Keys, AllKeys, KeyRows, Differing, Under;
    var fa, fb, keys := a.frontmatter, b.frontmatter, AllKeys(a.frontmatter, b.frontmatter);
    var rows := Rows(a, b);
    LightRowsAgree(a, b);
    Tells(s, rows, d);
    KeyRowsAre(keys, fa, fb);
    AllKeysHold(fa, fb);
    UndefinedIsSame();
    StringsAgree(a.body, b.body);
    forall key ensures (forall value :: Under(fa, key, value) <==> value == Get(fa, key)) && (forall value :: Under(fb, key, value) <==> value == Get(fb, key)) {
      GetUnder(fa, key);
      GetUnder(fb, key);
    }
    forall key ensures key in keys || Same(Get(fa, key), Get(fb, key)) { GetIs(fa, key); GetIs(fb, key); }
    assert rows[|keys|] == Row("body", Str(a.body), Str(b.body));
    forall i | 0 <= i < |keys| ensures rows[i] == Row("frontmatter." + keys[i], Get(fa, keys[i]), Get(fb, keys[i])) { assert rows[i] == KeyRows(keys, fa, fb)[i]; }
    if d in Differing(s, rows) {
      var i :| 0 <= i < |rows| && d == Difference(s, rows[i].field, rows[i].before, rows[i].after) && !Same(rows[i].before, rows[i].after);
      if i < |keys| { assert d.field == "frontmatter." + keys[i]; }
    }
    if key :| d.selection == s && d.field == "frontmatter." + key && Under(fa, key, d.before) && Under(fb, key, d.after) && !Same(d.before, d.after) {
      assert Same(Get(fa, key), Get(fb, key)) <==> Same(d.before, d.after);
      var i :| 0 <= i < |keys| && keys[i] == key;
      assert d == Difference(s, rows[i].field, rows[i].before, rows[i].after);
    }
    if Says(d, s, "body", Str(a.body), Str(b.body)) && a.body != b.body {
      assert d == Difference(s, rows[|keys|].field, rows[|keys|].before, rows[|keys|].after);
    }
  }
}
