/** Substituting some of a plan's status values, in any order, is restating the plan. */
module EditPlan {
  import opened Text
  import opened PlanScan
  import opened Splice
  import opened Sorting
  import opened ScanOrder
  import opened Rewrite
  import opened ClosureTree

  function EditFor(k: Token, value: string): Edit {
    Edit(k.valueStart, k.valueEnd, value)
  }

  /** These edits write f's value through tokens of the plan, and miss no token f changes. */
  ghost predicate Writes(tokens: seq<Token>, edits: seq<Edit>, f: Token -> string) {
    && DistinctBy(edits, StartOf())
    && (forall e :: e in edits ==> ThroughToken(tokens, e, f))
    && (forall k :: k in tokens ==> f(k) == k.value || EditFor(k, f(k)) in edits)
  }

  ghost predicate ThroughToken(tokens: seq<Token>, e: Edit, f: Token -> string) {
    exists k :: k in tokens && e == EditFor(k, f(k))
  }

  function EditMap(edits: seq<Edit>): map<nat, string> {
    if edits == [] then map[] else EditMap(edits[1..])[edits[0].start := edits[0].value]
  }

  lemma {:induction false} EditMapHas(edits: seq<Edit>)
    requires DistinctBy(edits, StartOf())
    ensures forall e :: e in edits ==> e.start in EditMap(edits) && EditMap(edits)[e.start] == e.value
    ensures forall s :: s in EditMap(edits) ==> exists e :: e in edits && e.start == s
  {
    if edits != [] {
      var rest := edits[1..];
      forall i, j | 0 <= i < j < |rest| ensures StartOf()(rest[i]) != StartOf()(rest[j]) {
        assert StartOf()(edits[i + 1]) != StartOf()(edits[j + 1]);
      }
      EditMapHas(rest);
      forall e | e in edits ensures e.start in EditMap(edits) && EditMap(edits)[e.start] == e.value {
        if e != edits[0] {
          var i :| 0 <= i < |edits| && edits[i] == e;
          assert e == rest[i - 1];
          assert StartOf()(edits[0]) != StartOf()(edits[i]);
        }
      }
      forall s | s in EditMap(edits) ensures exists e :: e in edits && e.start == s {
        if s == edits[0].start {
          assert edits[0] in edits;
        } else {
          var e :| e in rest && e.start == s;
          assert e in edits;
        }
      }
    }
  }

  lemma {:induction false} PickedElements(spans: seq<Edit>, m: map<nat, string>)
    ensures forall e :: e in Picked(spans, m) <==> exists s :: s in spans && s.start in m && e == s.(value := m[s.start])
  {
    if spans != [] {
      var rest := spans[1..];
      PickedElements(rest, m);
      assert spans == [spans[0]] + rest;
      forall e ensures e in Picked(spans, m) <==> exists s :: s in spans && s.start in m && e == s.(value := m[s.start]) {
        if e in Picked(spans, m) {
          if spans[0].start in m && e == spans[0].(value := m[spans[0].start]) {
            assert spans[0] in spans;
          } else {
            assert e in Picked(rest, m);
            var s :| s in rest && s.start in m && e == s.(value := m[s.start]);
            assert s in spans;
          }
        }
        if s :| s in spans && s.start in m && e == s.(value := m[s.start]) {
          if s != spans[0] { assert s in rest; assert e in Picked(rest, m); }
        }
      }
    }
  }

  lemma {:induction false} GapsByPlace(text: string, x: seq<Edit>, y: seq<Edit>, from: nat)
    requires |x| == |y| && forall i :: 0 <= i < |x| ==> x[i].start == y[i].start && x[i].end == y[i].end
    ensures Gaps(text, x, from) == Gaps(text, y, from)
  {
    if x != [] { GapsByPlace(text, x[1..], y[1..], x[0].end); }
  }

  lemma SpanOf(tokens: seq<Token>, k: Token)
    requires k in tokens
    ensures EditFor(k, k.value) in Spans(tokens)
  {
    var i :| 0 <= i < |tokens| && tokens[i] == k;
    assert Spans(tokens)[i] == EditFor(k, k.value);
  }

  lemma TokenOfSpan(tokens: seq<Token>, s: Edit) returns (k: Token)
    requires s in Spans(tokens)
    ensures k in tokens && s == EditFor(k, k.value)
  {
    var i :| 0 <= i < |Spans(tokens)| && Spans(tokens)[i] == s;
    k := tokens[i];
  }

  lemma EditsAreThePicked(html: string, tokens: seq<Token>, edits: seq<Edit>, f: Token -> string)
    requires Laid(html, tokens, 0, |html|) && Writes(tokens, edits, f)
    ensures forall e :: e in edits <==> e in Picked(Spans(tokens), EditMap(edits))
  {
    var spans, m := Spans(tokens), EditMap(edits);
    EditMapHas(edits);
    PickedElements(spans, m);
    LaidNeverTie(html, tokens);
    forall e ensures e in edits <==> e in Picked(spans, m) {
      if e in edits {
        assert ThroughToken(tokens, e, f);
        var k :| k in tokens && e == EditFor(k, f(k));
        SpanOf(tokens, k);
        assert e == EditFor(k, k.value).(value := m[k.valueStart]);
      }
      if e in Picked(spans, m) {
        var s :| s in spans && s.start in m && e == s.(value := m[s.start]);
        var k := TokenOfSpan(tokens, s);
        var d :| d in edits && d.start == s.start;
        assert ThroughToken(tokens, d, f);
        var k' :| k' in tokens && d == EditFor(k', f(k'));
        assert k' == k;
        assert m[s.start] == d.value && e == d;
      }
    }
  }

  lemma RevaluedValues(html: string, tokens: seq<Token>, edits: seq<Edit>, f: Token -> string)
    requires Laid(html, tokens, 0, |html|) && Writes(tokens, edits, f)
    ensures Values(Revalued(Spans(tokens), EditMap(edits))) == Mapped(tokens, f)
  {
    var spans, m := Spans(tokens), EditMap(edits);
    EditMapHas(edits);
    LaidNeverTie(html, tokens);
    forall i | 0 <= i < |tokens| ensures Revalued(spans, m)[i].value == f(tokens[i]) {
      var k := tokens[i];
      assert k in tokens;
      if k.valueStart in m {
        var d :| d in edits && d.start == k.valueStart;
        assert ThroughToken(tokens, d, f);
        var k' :| k' in tokens && d == EditFor(k', f(k'));
        assert k' == k && m[k.valueStart] == d.value;
      } else {
        assert EditFor(k, f(k)) !in edits;
      }
    }
  }

  /** substitute over scanner spans: right to left, any order given, it is the plan restated. */
  lemma EditsRestate(g: Grammar, html: string, edits: seq<Edit>, f: Token -> string)
    requires Readable(g, html) && Writes(Tokens(Scan(g, html)), edits, f)
    ensures PutAll(html, Sort(edits, Descending())) == Restated(g, html, f)
  {
    var tokens := Tokens(Scan(g, html));
    var spans, m := Spans(tokens), EditMap(edits);
    PlanIsLaid(g, html);
    EditsAreThePicked(html, tokens, edits, f);
    PickedApart(spans, m, 0, |html|);
    SubstituteIsSplice(html, edits, Picked(spans, m));
    PickedIsRevalued(html, spans, m, 0);
    RenderedIsWoven(html, Revalued(spans, m), 0);
    GapsByPlace(html, Revalued(spans, m), spans, 0);
    RevaluedValues(html, tokens, edits, f);
  }
}
