/** Rewriting status values changes nothing a ticket asks for: every masked checklist row stays as it was. */
module AskedKept {
  import opened Text
  import opened PlanScan
  import opened Holes
  import opened Rescan
  import opened ScanOrder
  import opened Rewrite
  import opened Splice
  import opened AskedFor
  import opened TaskRanges

  // ----- row boundaries move with the cells

  lemma EdgeAfter(a: seq<Cell>, i: nat)
    requires Fits(a) && 0 < i <= |a| && a[i - 1].c != '['
    ensures Edge(a, i)
  {
    if i < |a| { assert FitsAt(a, i); }
  }

  /** No value breaks a line or opens a tag. */
  ghost predicate Still(a: seq<Cell>) {
    Free(a, '\n') && Free(a, '<') && Free(a, ']')
  }

  lemma QuietSub(a: seq<Cell>, from: nat, to: nat)
    requires Still(a) && from <= to <= |a|
    requires forall h :: from <= h < to && a[h].value != "" ==> from + 2 <= h && a[h - 2].c == '>'
    ensures Quiet(a[from..to])
  {
    var sub := a[from..to];
    forall j | 0 <= j < |sub| ensures AfterTagAt(sub, j) && FreeAt(sub, '\n', j) && FreeAt(sub, '<', j) && FreeAt(sub, ']', j) {
      assert FreeAt(a, '\n', from + j) && FreeAt(a, '<', from + j) && FreeAt(a, ']', from + j);
    }
  }

  lemma QuietStart(a: seq<Cell>, to: nat)
    requires Quiet(a) && to <= |a|
    ensures Quiet(a[0..to])
  {
    forall h | 0 <= h < to && a[h].value != "" ensures 2 <= h && a[h - 2].c == '>' {
      assert AfterTagAt(a, h);
    }
    QuietSub(a, 0, to);
  }

  lemma FirstEdge(a: seq<Cell>)
    requires Fits(a)
    ensures Edge(a, 0)
  {
    if a != [] { assert FitsAt(a, 0); }
  }

  lemma ItemMoves(s: seq<Cell>, ts: string, bs: string, i: nat)
    requires Written(s, ts, bs) && Fits(s) && Quiet(s) && i < |s| && Edge(s, i)
    ensures LastItem(Slice(ts, 0, Char(s, i)), 0) == Index(s[0..i], LastItem(Slice(bs, 0, i), 0))
  {
    FirstEdge(s);
    SubCells(s, ts, bs, 0, i);
    QuietStart(s, i);
    LastItemLift(s[0..i], Slice(ts, 0, Char(s, i)), Slice(bs, 0, i), 0);
  }

  lemma ItemEdges(s: seq<Cell>, ts: string, bs: string, i: nat)
    requires Written(s, ts, bs) && Fits(s) && Quiet(s) && i < |s| && bs[i] == '<'
    ensures LastItem(Slice(ts, 0, Char(s, i)), 0) == Index(s, LastItem(Slice(bs, 0, i), 0))
    ensures LastItem(Slice(bs, 0, i), 0).Some? ==> LastItem(Slice(bs, 0, i), 0).value < i && Edge(s, LastItem(Slice(bs, 0, i), 0).value)
  {
    assert ReadsAt(s, ts, bs, i);
    EdgeAt(s, i);
    FirstEdge(s);
    ItemMoves(s, ts, bs, i);
    var k := LastItem(Slice(bs, 0, i), 0);
    if k.Some? {
      SubAt(s, 0, i, k.value);
      LastItemAtAngle(Slice(bs, 0, i), 0);
      assert ReadsAt(s, ts, bs, k.value);
      EdgeAt(s, k.value);
    }
  }

  lemma {:induction false} LastItemAtAngle(s: string, i: nat)
    ensures LastItem(s, i).Some? ==> LastItem(s, i).value < |s| && s[LastItem(s, i).value] == '<'
    decreases |s| - i
  {
    if i < |s| {
      var lit := "<li";
      assert lit[0] == '<';
      match ItemAt(s, i)
      case None => LastItemAtAngle(s, i + 1);
      case Some(e) => LastItemAtAngle(s, e);
    }
  }

  lemma CloseEdges(s: seq<Cell>, ts: string, bs: string, e: nat)
    requires Written(s, ts, bs) && Fits(s) && Quiet(s) && e <= |s| && Edge(s, e)
    ensures var c := IndexOf(bs, "</li>", e);
      && (c.Some? ==> e <= c.value && c.value + 5 <= |s| && Edge(s, c.value + 5))
      && IndexOf(ts, "</li>", Char(s, e)) == (if c.Some? then Some(Char(s, c.value)) else None)
      && (c.Some? ==> Char(s, c.value + 5) == Char(s, c.value) + 5)
  {
    var lit := "</li>";
    IndexLift(s, ts, bs, lit, e, Char(s, e));
    var c := IndexOf(bs, lit, e);
    if c.Some? {
      InStepLast(s, ts, bs, c.value, lit);
      LiteralInStep(s, ts, bs, c.value, lit);
    }
  }

  lemma LineEdges(s: seq<Cell>, ts: string, bs: string, i: nat, e: nat)
    requires Written(s, ts, bs) && Fits(s) && Quiet(s) && i < |s| && bs[i] == '<' && e <= |s| && Edge(s, e)
    ensures var n := LastIndexOf(bs, "\n", i);
      && LastIndexOf(ts, "\n", Char(s, i)) == (if n.Some? then Some(Char(s, n.value)) else None)
      && (n.Some? ==> n.value < i && Edge(s, n.value + 1) && Char(s, n.value + 1) == Char(s, n.value) + 1)
    ensures var n := IndexOf(bs, "\n", e);
      && IndexOf(ts, "\n", Char(s, e)) == (if n.Some? then Some(Char(s, n.value)) else None)
      && (n.Some? ==> n.value < |s| && Edge(s, n.value))
  {
    var lit := "\n";
    LastIndexLift(s, ts, bs, lit, i);
    IndexLift(s, ts, bs, lit, e, Char(s, e));
    var up, down := LastIndexOf(bs, lit, i), IndexOf(bs, lit, e);
    if up.Some? {
      assert ReadsAt(s, ts, bs, up.value) && bs[up.value] == '\n';
      EdgeAfter(s, up.value + 1);
    }
    if down.Some? {
      assert ReadsAt(s, ts, bs, down.value) && bs[down.value] == '\n';
      EdgeAt(s, down.value);
    }
  }

  ghost predicate BoundsMove(s: seq<Cell>, ts: string, bs: string, i: nat, e: nat) {
    && i < |s| && e <= |s|
    && var from, to := RowStart(bs, i, e), RowEnd(bs, i, e);
    && from <= i && e <= to <= |s| && Edge(s, from) && Edge(s, to)
    && RowStart(ts, Char(s, i), Char(s, e)) == Char(s, from) && RowEnd(ts, Char(s, i), Char(s, e)) == Char(s, to)
  }

  lemma InItemMoves(s: seq<Cell>, ts: string, bs: string, i: nat, e: nat)
    requires Written(s, ts, bs) && Fits(s) && Quiet(s) && i < e <= |s| && bs[i] == '<' && Edge(s, e)
    ensures InItem(ts, Char(s, i), Char(s, e)) <==> InItem(bs, i, e)
  {
    ItemEdges(s, ts, bs, i);
    CloseEdges(s, ts, bs, e);
    var lit := "</li>";
    LastIndexLift(s, ts, bs, lit, i);
    var opening, previous := LastItem(Slice(bs, 0, i), 0), LastIndexOf(bs, lit, i);
    if opening.Some? && previous.Some? {
      if opening.value > previous.value { Ordered(s, previous.value, opening.value); } else { Ordered(s, opening.value, previous.value); }
    }
  }

  lemma RowBoundsMove(s: seq<Cell>, ts: string, bs: string, i: nat, e: nat)
    requires Written(s, ts, bs) && Fits(s) && Quiet(s) && i < e <= |s| && bs[i] == '<' && Edge(s, e)
    ensures BoundsMove(s, ts, bs, i, e)
  {
    InItemMoves(s, ts, bs, i, e);
    FirstEdge(s);
    if InItem(bs, i, e) {
      ItemEdges(s, ts, bs, i);
      CloseEdges(s, ts, bs, e);
      assert BoundsMove(s, ts, bs, i, e);
    } else {
      LineEdges(s, ts, bs, i, e);
      assert BoundsMove(s, ts, bs, i, e);
    }
  }

  // ----- a row less its values is the base row

  lemma OneMore(s: string, i: nat, j: nat)
    requires i <= j < |s|
    ensures s[i..j + 1] == s[i..j] + [s[j]]
  {}

  lemma {:induction false} SegmentReads(a: seq<Cell>, t: string, b: string, p: nat, h: nat)
    requires Written(a, t, b) && p <= h <= |a| && (h == p ==> Edge(a, p))
    requires forall j :: p < j < h ==> a[j].value == ""
    ensures Char(a, p) <= At(a, h) <= |t| && t[Char(a, p)..At(a, h)] == b[p..h]
    decreases h
  {
    Ordered(a, h, |a|);
    if h > p + 1 {
      SegmentReads(a, t, b, p, h - 1);
      assert ReadsAt(a, t, b, h - 1);
      OneMore(b, p, h - 1);
      OneMore(t, Char(a, p), At(a, h - 1));
    } else if h == p + 1 {
      assert ReadsAt(a, t, b, p);
      OneMore(b, p, p);
      OneMore(t, Char(a, p), Char(a, p));
    }
  }

  ghost predicate HolesOf(a: seq<Cell>, tokens: seq<Token>) {
    && (forall k :: k in tokens ==> k.start <= |a| && k.valueStart == k.valueEnd < |a|)
    && (forall i, j :: 0 <= i < j < |tokens| ==> tokens[i].valueStart < tokens[j].valueStart)
  }

  /** Past position p, every value before `to` belongs to one of these tokens. */
  ghost predicate Covered(a: seq<Cell>, tokens: seq<Token>, p: nat, to: nat) {
    forall j :: p < j < to && j < |a| && a[j].value != "" ==> exists k :: k in tokens && k.valueStart == j
  }

  lemma CoveredRest(a: seq<Cell>, tokens: seq<Token>, p: nat, p': nat, to: nat)
    requires tokens != [] && Covered(a, tokens, p, to) && p <= p' && tokens[0].valueStart <= p'
    ensures Covered(a, tokens[1..], p', to)
  {
    forall j | p' < j < to && j < |a| && a[j].value != "" ensures exists k :: k in tokens[1..] && k.valueStart == j {
      var k :| k in tokens && k.valueStart == j;
      assert k != tokens[0];
      assert k in tokens[1..];
    }
  }

  lemma FirstIsLeast(a: seq<Cell>, tokens: seq<Token>)
    requires tokens != [] && HolesOf(a, tokens)
    ensures tokens[0] in tokens && forall k :: k in tokens ==> tokens[0].valueStart <= k.valueStart
  {
    forall k | k in tokens ensures tokens[0].valueStart <= k.valueStart {
      var i :| 0 <= i < |tokens| && tokens[i] == k;
    }
  }

  lemma CoveredPast(a: seq<Cell>, tokens: seq<Token>, p: nat, to: nat)
    requires tokens != [] && Covered(a, tokens, p, to) && HolesOf(a, tokens) && to <= tokens[0].valueStart
    ensures Covered(a, tokens[1..], p, to)
    ensures forall j :: p < j < to && j < |a| ==> a[j].value == ""
  {
    FirstIsLeast(a, tokens);
  }

  lemma NothingBetween(a: seq<Cell>, tokens: seq<Token>, p: nat, to: nat)
    requires tokens != [] && Covered(a, tokens, p, to) && HolesOf(a, tokens) && p <= tokens[0].valueStart <= to
    ensures forall j :: p < j < tokens[0].valueStart && j < |a| ==> a[j].value == ""
  {
    FirstIsLeast(a, tokens);
  }

  lemma HolesRest(a: seq<Cell>, tokens: seq<Token>)
    requires tokens != [] && HolesOf(a, tokens)
    ensures HolesOf(a, tokens[1..]) && forall k :: k in tokens[1..] ==> tokens[0].valueStart < k.valueStart
  {
    forall k | k in tokens[1..] ensures k in tokens && tokens[0].valueStart < k.valueStart {
      var i :| 0 <= i < |tokens[1..]| && tokens[1..][i] == k;
      assert tokens[i + 1] == k;
    }
  }

  ghost predicate Cut(a: seq<Cell>, t: string, b: string, from: nat, to: nat) {
    Written(a, t, b) && Edge(a, from) && Edge(a, to) && from <= to
  }

  /** The row between two places of a text, less the values of these tokens that lie inside it. */
  function Masked(t: string, tokens: seq<Token>, cursor: nat, from: nat, to: nat): string
    decreases |tokens|
  {
    if tokens == [] then Slice(t, cursor, to)
    else if tokens[0].valueStart >= from && tokens[0].valueStart <= tokens[0].valueEnd <= to
    then Slice(t, cursor, tokens[0].valueStart) + Masked(t, tokens[1..], tokens[0].valueEnd, from, to)
    else Masked(t, tokens[1..], cursor, from, to)
  }

  lemma GapsCons(row: string, e: Edit, rest: seq<Edit>, cursor: nat)
    ensures Join(Gaps(row, [e] + rest, cursor)) == Slice(row, cursor, e.start) + Join(Gaps(row, rest, e.end))
  {
    var all := [e] + rest;
    assert all[1..] == rest;
    var gaps := [Slice(row, cursor, e.start)] + Gaps(row, rest, e.end);
    assert Gaps(row, all, cursor) == gaps;
    assert gaps[1..] == Gaps(row, rest, e.end);
  }

  lemma SlicedTwice(t: string, from: nat, to: nat, i: nat, j: nat)
    requires from <= i && from <= j <= to <= |t|
    ensures Slice(Slice(t, from, to), i - from, j - from) == Slice(t, i, j)
  {
    assert Slice(t, from, to) == t[from..to];
    if i <= j { assert t[from..to][i - from..j - from] == t[i..j]; }
  }

  lemma MaskedStep(t: string, e: Edit, rest: seq<Edit>, cursor: nat, from: nat, to: nat, tail: string)
    requires from <= cursor && from <= e.start + from <= to <= |t|
    requires Join(Gaps(Slice(t, from, to), rest, e.end)) == tail
    ensures Join(Gaps(Slice(t, from, to), [e] + rest, cursor - from)) == Slice(t, cursor, e.start + from) + tail
  {
    GapsCons(Slice(t, from, to), e, rest, cursor - from);
    SlicedTwice(t, from, to, cursor, e.start + from);
  }

  lemma MaskedEnd(t: string, cursor: nat, from: nat, to: nat)
    requires from <= cursor && from <= to <= |t|
    ensures Join(Gaps(Slice(t, from, to), [], cursor - from)) == Slice(t, cursor, to)
  {
    GapsEnd(Slice(t, from, to), cursor - from);
    SlicedTwice(t, from, to, cursor, to);
  }

  lemma {:induction false} RowIsMasked(t: string, tokens: seq<Token>, cursor: nat, from: nat, to: nat)
    requires from <= cursor && from <= to <= |t|
    ensures Join(Gaps(Slice(t, from, to), RowSpans(tokens, from, to), cursor - from)) == Masked(t, tokens, cursor, from, to)
    decreases |tokens|
  {
    if tokens == [] {
      MaskedEnd(t, cursor, from, to);
    } else {
      var k := tokens[0];
      var spans := RowSpans(tokens[1..], from, to);
      if k.valueStart >= from && k.valueStart <= k.valueEnd <= to {
        RowIsMasked(t, tokens[1..], k.valueEnd, from, to);
        var e := Edit(k.valueStart - from, k.valueEnd - from, "");
        assert RowSpans(tokens, from, to) == [e] + spans;
        MaskedStep(t, e, spans, cursor, from, to, Masked(t, tokens[1..], k.valueEnd, from, to));
      } else {
        RowIsMasked(t, tokens[1..], cursor, from, to);
      }
    }
  }

  lemma InRowIff(a: seq<Cell>, h: nat, from: nat, to: nat)
    requires Edge(a, from) && Edge(a, to) && from <= to && h < |a|
    ensures At(a, h) >= Char(a, from) <==> h >= from
    ensures Char(a, h) <= Char(a, to) <==> h <= to
  {
    if h >= from { Ordered(a, from, h); } else { Ordered(a, h, from); }
    if h <= to { Ordered(a, h, to); } else { Ordered(a, to, h); }
  }

  function LiftedMask(g: Grammar, a: seq<Cell>, t: string, tokens: seq<Token>, p: nat, from: nat, to: nat): string
    requires Within(tokens, |a|) && p <= |a| && from <= |a| && to <= |a|
  {
    Masked(t, LiftTokens(g, a, t, tokens), Char(a, p), Char(a, from), Char(a, to))
  }

  lemma WithinRest(tokens: seq<Token>, n: nat)
    requires tokens != [] && Within(tokens, n)
    ensures Within(tokens[1..], n)
  {}

  lemma MaskHead(g: Grammar, a: seq<Cell>, t: string, k: Token, rest: seq<Token>, tokens: seq<Token>, p: nat, from: nat, to: nat)
    requires tokens == [k] + rest && Within(tokens, |a|) && Within(rest, |a|) && p <= |a|
    requires Edge(a, from) && Edge(a, to) && from <= to && k.valueStart == k.valueEnd < |a|
    ensures LiftedMask(g, a, t, tokens, p, from, to) ==
      if from <= k.valueStart <= to
      then Slice(t, Char(a, p), At(a, k.valueStart)) + LiftedMask(g, a, t, rest, k.valueStart, from, to)
      else LiftedMask(g, a, t, rest, p, from, to)
  {
    InRowIff(a, k.valueStart, from, to);
    assert k in tokens;
    LiftCons(g, a, t, k, rest, tokens);
    MaskedCons(t, LiftToken(g, a, t, k), LiftTokens(g, a, t, rest), LiftTokens(g, a, t, tokens), Char(a, p), Char(a, from), Char(a, to));
  }

  lemma LiftCons(g: Grammar, a: seq<Cell>, t: string, k: Token, rest: seq<Token>, tokens: seq<Token>)
    requires tokens == [k] + rest && Within(tokens, |a|) && Within(rest, |a|)
    ensures k in tokens && LiftTokens(g, a, t, tokens) == [LiftToken(g, a, t, k)] + LiftTokens(g, a, t, rest)
  {
    assert tokens[1..] == rest && k in tokens;
  }

  lemma MaskedCons(t: string, k: Token, rest: seq<Token>, all: seq<Token>, cursor: nat, from: nat, to: nat)
    requires all == [k] + rest
    ensures Masked(t, all, cursor, from, to) ==
      if k.valueStart >= from && k.valueStart <= k.valueEnd <= to
      then Slice(t, cursor, k.valueStart) + Masked(t, rest, k.valueEnd, from, to)
      else Masked(t, rest, cursor, from, to)
  {
    assert all[1..] == rest;
  }

  lemma RowSegment(a: seq<Cell>, t: string, b: string, from: nat, to: nat, p: nat, h: nat)
    requires Cut(a, t, b, from, to) && from <= p <= h <= to
    requires (h == p ==> Edge(a, p)) && forall j :: p < j < h && j < |a| ==> a[j].value == ""
    ensures Slice(t, Char(a, p), At(a, h)) == b[p..h]
  {
    SegmentReads(a, t, b, p, h);
  }

  lemma SegmentThen(a: seq<Cell>, t: string, b: string, from: nat, to: nat, p: nat, h: nat, tail: string)
    requires Cut(a, t, b, from, to) && from <= p <= h <= to && tail == b[h..to]
    requires (h == p ==> Edge(a, p)) && forall j :: p < j < h && j < |a| ==> a[j].value == ""
    ensures Slice(t, Char(a, p), At(a, h)) + tail == b[p..to]
  {
    RowSegment(a, t, b, from, to, p, h);
    assert b[p..to] == b[p..h] + b[h..to];
  }

  /** Past p, the segments between a row's values join up to the base row. */
  lemma {:induction false} RowLessValues(g: Grammar, a: seq<Cell>, t: string, b: string, from: nat, to: nat, tokens: seq<Token>, p: nat)
    requires Cut(a, t, b, from, to) && from <= p <= to && HolesOf(a, tokens) && Within(tokens, |a|)
    requires Covered(a, tokens, p, to) && (p == from || forall k :: k in tokens ==> p < k.valueStart)
    ensures LiftedMask(g, a, t, tokens, p, from, to) == b[p..to]
    decreases |tokens|
  {
    if tokens == [] {
      LastSegment(a, t, b, from, to, p);
      assert LiftedMask(g, a, t, tokens, p, from, to) == b[p..to];
    } else {
      var k, rest := tokens[0], tokens[1..];
      var h := k.valueStart;
      assert k in tokens && tokens == [k] + rest;
      HolesRest(a, tokens);
      WithinRest(tokens, |a|);
      MaskHead(g, a, t, k, rest, tokens, p, from, to);
      if from <= h <= to {
        NothingBetween(a, tokens, p, to);
        CoveredRest(a, tokens, p, h, to);
        RowLessValues(g, a, t, b, from, to, rest, h);
        SegmentThen(a, t, b, from, to, p, h, LiftedMask(g, a, t, rest, h, from, to));
        assert LiftedMask(g, a, t, tokens, p, from, to) == b[p..to];
      } else {
        if h < from { CoveredRest(a, tokens, p, p, to); } else { CoveredPast(a, tokens, p, to); }
        RowLessValues(g, a, t, b, from, to, rest, p);
        assert LiftedMask(g, a, t, tokens, p, from, to) == b[p..to];
      }
    }
  }

  lemma LastSegment(a: seq<Cell>, t: string, b: string, from: nat, to: nat, p: nat)
    requires Cut(a, t, b, from, to) && from <= p <= to && Covered(a, [], p, to)
    ensures Slice(t, Char(a, p), Char(a, to)) == b[p..to]
  {
    if p < to {
      RowSegment(a, t, b, from, to, p, to);
    } else {
      Ordered(a, p, |a|);
    }
  }
}
