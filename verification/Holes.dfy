/**
 A text seen as characters with values standing before some of them.

 Emptying the values gives the base text. When every value stands in brackets
 and holds neither `<` nor `]`, whatever the scanner finds in the text it finds
 in the base text, at the corresponding place.
*/
module Holes {
  import opened Text
  import opened PlanScan

  datatype Cell = Cell(value: string, c: char)

  /** The first n cells, written out. */
  function Flat(a: seq<Cell>, n: nat): (s: string)
    requires n <= |a|
    ensures |s| == At(a, n)
  {
    if n == 0 then "" else Flat(a, n - 1) + a[n - 1].value + [a[n - 1].c]
  }

  /** Where the value before character i starts in the text. */
  function At(a: seq<Cell>, i: nat): nat
    requires i <= |a|
  {
    if i == 0 then 0 else At(a, i - 1) + |a[i - 1].value| + 1
  }

  /** Where character i itself stands in the text. */
  function Char(a: seq<Cell>, i: nat): nat
    requires i <= |a|
  {
    At(a, i) + if i < |a| then |a[i].value| else 0
  }

  function TextOf(a: seq<Cell>): (s: string)
    ensures |s| == Char(a, |a|)
  {
    Flat(a, |a|)
  }

  function Base(a: seq<Cell>): (s: string)
    ensures |s| == |a| && forall i :: 0 <= i < |a| ==> s[i] == a[i].c
  {
    seq(|a|, i requires 0 <= i < |a| => a[i].c)
  }

  predicate Plain(v: string) {
    '<' !in v && ']' !in v
  }

  ghost predicate FitsAt(a: seq<Cell>, i: nat)
    requires i < |a|
  {
    a[i].value != "" ==> i > 0 && a[i - 1].c == '[' && a[i].c == ']' && Plain(a[i].value)
  }

  /** Every value stands in brackets, and is plain. */
  ghost predicate Fits(a: seq<Cell>) {
    forall i {:trigger FitsAt(a, i)} :: 0 <= i < |a| ==> FitsAt(a, i)
  }

  ghost predicate FreeAt(a: seq<Cell>, c: char, i: nat)
    requires i < |a|
  {
    c !in a[i].value
  }

  ghost predicate Free(a: seq<Cell>, c: char) {
    forall i {:trigger FreeAt(a, c, i)} :: 0 <= i < |a| ==> FreeAt(a, c, i)
  }

  ghost predicate ReadsAt(a: seq<Cell>, t: string, b: string, i: nat)
    requires i < |a| && |b| == |a|
  {
    && b[i] == a[i].c
    && At(a, i) <= Char(a, i) < |t| && t[Char(a, i)] == a[i].c
    && t[At(a, i)..Char(a, i)] == a[i].value
  }

  /** The cells written out are t; with every value emptied they are b. */
  ghost predicate Written(a: seq<Cell>, t: string, b: string) {
    |b| == |a| && |t| == At(a, |a|) && forall i {:trigger ReadsAt(a, t, b, i)} :: 0 <= i < |a| ==> ReadsAt(a, t, b, i)
  }

  lemma WrittenOut(a: seq<Cell>)
    ensures Written(a, TextOf(a), Base(a))
  {
    forall i | 0 <= i < |a| ensures ReadsAt(a, TextOf(a), Base(a), i) {
      FlatReads(a, |a|, i);
    }
  }

  // ----- positions

  lemma {:induction false} Ordered(a: seq<Cell>, i: nat, j: nat)
    requires i <= j <= |a|
    ensures At(a, i) + (j - i) <= At(a, j)
    ensures i < j ==> Char(a, i) < At(a, j)
    ensures Char(a, i) <= Char(a, j)
    ensures i < j ==> Char(a, i) < Char(a, j)
  {
    if i < j {
      Ordered(a, i, j - 1);
    }
  }

  lemma {:induction false} FlatReads(a: seq<Cell>, n: nat, i: nat)
    requires i < n <= |a|
    ensures At(a, i) <= Char(a, i) < At(a, n)
    ensures Flat(a, n)[Char(a, i)] == a[i].c
    ensures Flat(a, n)[At(a, i)..Char(a, i)] == a[i].value
  {
    Ordered(a, i, n);
    if i < n - 1 {
      FlatReads(a, n - 1, i);
      var s := Flat(a, n - 1);
      assert Flat(a, n) == s + (a[n - 1].value + [a[n - 1].c]);
      assert Flat(a, n)[At(a, i)..Char(a, i)] == s[At(a, i)..Char(a, i)];
    }
  }

  /** Text positions run in step with base positions until a bracket opens. */
  lemma {:induction false} InStep(a: seq<Cell>, i: nat, k: nat)
    requires Fits(a) && i + k <= |a|
    requires forall j :: i <= j < i + k ==> a[j].c != '['
    ensures Char(a, i + k) == Char(a, i) + k
  {
    if k > 0 {
      InStep(a, i, k - 1);
      if i + k < |a| { assert FitsAt(a, i + k); }
    }
  }

  /** A literal in the base text is also unbroken in the text, up to its last character. */
  lemma {:induction false} LiteralInStep(a: seq<Cell>, t: string, b: string, i: nat, lit: string)
    requires Written(a, t, b) && Fits(a) && BracketLast(lit) && lit != "" && StartsAt(b, i, lit)
    ensures i + |lit| <= |a| && a[i].c == lit[0]
    ensures At(a, i + |lit|) == Char(a, i) + |lit|
    ensures lit[|lit| - 1] != '[' ==> Char(a, i + |lit|) == Char(a, i) + |lit|
    decreases |lit|
  {
    assert ReadsAt(a, t, b, i);
    if lit[0] != '[' {
      InStep(a, i, 1);
    }
    if |lit| > 1 {
      LiteralInStep(a, t, b, i + 1, lit[1..]);
    }
  }

  // ----- searching

  lemma {:induction false} StartsLift(a: seq<Cell>, t: string, b: string, i: nat, lit: string)
    requires Written(a, t, b) && Fits(a) && BracketLast(lit) && i <= |a|
    ensures StartsAt(t, Char(a, i), lit) == StartsAt(b, i, lit)
    decreases |lit|
  {
    if lit != "" && i < |a| {
      assert ReadsAt(a, t, b, i);
      if a[i].c == lit[0] && |lit| > 1 {
        InStep(a, i, 1);
        StartsLift(a, t, b, i + 1, lit[1..]);
      }
    }
  }

  lemma {:induction false} FindLift(a: seq<Cell>, t: string, b: string, c: char, i: nat, q: nat)
    requires Written(a, t, b) && Free(a, c) && i <= |a| && At(a, i) <= q <= Char(a, i)
    ensures FindChar(t, c, q) == Char(a, FindChar(b, c, i))
    decreases |a| - i, Char(a, i) - q
  {
    if i < |a| {
      assert ReadsAt(a, t, b, i);
      if q < Char(a, i) {
        assert FreeAt(a, c, i) && t[q] == a[i].value[q - At(a, i)];
        FindLift(a, t, b, c, i, q + 1);
      } else if a[i].c != c {
        FindLift(a, t, b, c, i + 1, At(a, i + 1));
      }
    }
  }

  lemma {:induction false} DigitsLift(a: seq<Cell>, t: string, b: string, i: nat)
    requires Written(a, t, b) && Fits(a) && i <= |a|
    ensures Digits(t, Char(a, i)) == Digits(b, i)
    ensures i + |Digits(b, i)| <= |a|
    ensures Char(a, i + |Digits(b, i)|) == Char(a, i) + |Digits(b, i)|
    decreases |a| - i
  {
    if i < |a| {
      assert ReadsAt(a, t, b, i);
      if IsDigit(a[i].c) {
        InStep(a, i, 1);
        DigitsLift(a, t, b, i + 1);
      }
    }
  }

  function Index(a: seq<Cell>, k: Option<nat>): Option<nat>
    requires k.Some? ==> k.value <= |a|
  {
    if k.Some? then Some(Char(a, k.value)) else None
  }

  lemma {:induction false} IndexLift(a: seq<Cell>, t: string, b: string, lit: string, i: nat, q: nat)
    requires Written(a, t, b) && Fits(a) && BracketLast(lit) && lit != "" && Free(a, lit[0])
    requires i <= |a| && At(a, i) <= q <= Char(a, i)
    ensures IndexOf(b, lit, i).Some? ==> IndexOf(b, lit, i).value < |a|
    ensures IndexOf(t, lit, q) == Index(a, IndexOf(b, lit, i))
    decreases |a| - i, Char(a, i) - q
  {
    if i < |a| {
      assert ReadsAt(a, t, b, i);
      if q < Char(a, i) {
        assert FreeAt(a, lit[0], i) && t[q] == a[i].value[q - At(a, i)];
        IndexLift(a, t, b, lit, i, q + 1);
      } else {
        StartsLift(a, t, b, i, lit);
        if !StartsAt(b, i, lit) {
          IndexLift(a, t, b, lit, i + 1, At(a, i + 1));
        }
      }
    }
  }

  // ----- matching

  function Moved(a: seq<Cell>, h: Hit): Hit
    requires h.start <= |a| && h.from <= |a| && h.to <= |a| && h.end <= |a|
  {
    Hit(Char(a, h.start), At(a, h.from), Char(a, h.to), At(a, h.end), h.name)
  }

  lemma FreeOfBrackets(a: seq<Cell>)
    requires Fits(a)
    ensures Free(a, ']') && Free(a, '<')
  {
    forall i | 0 <= i < |a| ensures FreeAt(a, ']', i) && FreeAt(a, '<', i) {
      assert FitsAt(a, i);
    }
  }

  ghost predicate BracketedAt(a: seq<Cell>, b: string, i: nat, open: string, close: string, j: nat) {
    && i + |open| <= j && j + |close| <= |a|
    && At(a, i + |open|) == Char(a, i) + |open| && At(a, j + |close|) == Char(a, j) + |close|
    && StartsAt(b, i, open) && StartsAt(b, j, close)
  }

  lemma BracketedLift(a: seq<Cell>, t: string, b: string, i: nat, open: string, close: string)
    requires Written(a, t, b) && Fits(a) && i <= |a| && BracketLast(open) && BracketLast(close) && open != "" && close != ""
    ensures Bracketed(t, Char(a, i), open, close) == Index(a, Bracketed(b, i, open, close))
    ensures Bracketed(b, i, open, close).Some? ==>
      BracketedAt(a, b, i, open, close, Bracketed(b, i, open, close).value)
  {
    StartsLift(a, t, b, i, open);
    Ordered(a, i, |a|);
    if StartsAt(b, i, open) {
      LiteralInStep(a, t, b, i, open);
      FreeOfBrackets(a);
      var j := FindChar(b, ']', i + |open|);
      FindLift(a, t, b, ']', i + |open|, At(a, i + |open|));
      StartsLift(a, t, b, j, close);
      if StartsAt(b, j, close) {
        LiteralInStep(a, t, b, j, close);
      }
    }
  }

  lemma MatchLift(g: Grammar, p: Pattern, a: seq<Cell>, t: string, b: string, i: nat)
    requires Sound(g) && Written(a, t, b) && Fits(a) && i < |a|
    ensures MatchAt(g, p, b, i).None? ==> MatchAt(g, p, t, Char(a, i)).None?
    ensures MatchAt(g, p, b, i).Some? ==>
      && a[i].c == '<'
      && MatchAt(g, p, t, Char(a, i)) == Some(Moved(a, MatchAt(g, p, b, i).value))
  {
    match p
    case Row => RowLift(g, a, t, b, i);
    case Head => HeadLift(g, a, t, b, i);
    case Task => TaskLift(g, a, t, b, i);
  }

  lemma RowLift(g: Grammar, a: seq<Cell>, t: string, b: string, i: nat)
    requires Sound(g) && Written(a, t, b) && Fits(a) && i < |a|
    ensures MatchRow(g, b, i).None? ==> MatchRow(g, t, Char(a, i)).None?
    ensures MatchRow(g, b, i).Some? ==>
      a[i].c == '<' && MatchRow(g, t, Char(a, i)) == Some(Moved(a, MatchRow(g, b, i).value))
  {
    BracketedLift(a, t, b, i, g.open, g.close);
    assert ReadsAt(a, t, b, i);
  }

  lemma CharLift(a: seq<Cell>, t: string, b: string, i: nat, c: char)
    requires Written(a, t, b) && Fits(a) && i <= |a| && c != '['
    ensures (Char(a, i) < |t| && t[Char(a, i)] == c) <==> (i < |a| && b[i] == c)
    ensures i < |a| && a[i].c == c ==> At(a, i + 1) == Char(a, i) + 1
  {
    if i < |a| {
      assert ReadsAt(a, t, b, i);
    }
  }

  lemma HeadLift(g: Grammar, a: seq<Cell>, t: string, b: string, i: nat)
    requires Sound(g) && Written(a, t, b) && Fits(a) && i < |a|
    ensures MatchHead(g, b, i).None? ==> MatchHead(g, t, Char(a, i)).None?
    ensures MatchHead(g, b, i).Some? ==>
      a[i].c == '<' && MatchHead(g, t, Char(a, i)) == Some(Moved(a, MatchHead(g, b, i).value))
  {
    hide Bracketed, Digits, FitsAt, ReadsAt;
    var open := g.headTag + g.open;
    BracketedLift(a, t, b, i, open, g.headMid);
    var j := Bracketed(b, i, open, g.headMid);
    if j.Some? {
      HeadTailLift(g, a, t, b, j.value);
      LiteralInStep(a, t, b, i, open);
    }
  }

  lemma HeadTailLift(g: Grammar, a: seq<Cell>, t: string, b: string, j: nat)
    requires Sound(g) && Written(a, t, b) && Fits(a) && j < |a| && StartsAt(b, j, g.headMid)
    ensures var d := Digits(b, j + |g.headMid|); var colon := j + |g.headMid| + |d|;
      && d == Digits(t, Char(a, j) + |g.headMid|)
      && colon <= |a| && Char(a, colon) == Char(a, j) + |g.headMid| + |d|
      && ((Char(a, colon) < |t| && t[Char(a, colon)] == ':') <==> (colon < |a| && b[colon] == ':'))
      && (colon < |a| && b[colon] == ':' ==> At(a, colon + 1) == Char(a, colon) + 1)
  {
    LiteralInStep(a, t, b, j, g.headMid);
    DigitsLift(a, t, b, j + |g.headMid|);
    CharLift(a, t, b, j + |g.headMid| + |Digits(b, j + |g.headMid|)|, ':');
  }

  lemma TaskLift(g: Grammar, a: seq<Cell>, t: string, b: string, i: nat)
    requires Sound(g) && Written(a, t, b) && Fits(a) && i < |a|
    ensures MatchTask(g, b, i).None? ==> MatchTask(g, t, Char(a, i)).None?
    ensures MatchTask(g, b, i).Some? ==>
      a[i].c == '<' && MatchTask(g, t, Char(a, i)) == Some(Moved(a, MatchTask(g, b, i).value))
  {
    StartsLift(a, t, b, i, g.taskOpen);
    if StartsAt(b, i, g.taskOpen) {
      LiteralInStep(a, t, b, i, g.taskOpen);
      DigitsLift(a, t, b, i + |g.taskOpen|);
      CharLift(a, t, b, i + |g.taskOpen| + |Digits(b, i + |g.taskOpen|)|, '.');
    }
  }

  /** The matches are in bounds and each starts with `<`. */
  ghost predicate Anchored(a: seq<Cell>, hits: seq<Hit>) {
    forall h :: h in hits ==> h.start <= h.from <= h.to < h.end <= |a| && a[h.start].c == '<'
  }

  function MovedAll(a: seq<Cell>, hits: seq<Hit>): (r: seq<Hit>)
    requires forall h :: h in hits ==> h.start <= h.from <= h.to < h.end <= |a|
    ensures |r| == |hits| && forall i :: 0 <= i < |r| ==> r[i] == Moved(a, hits[i])
  {
    if hits == [] then [] else [Moved(a, hits[0])] + MovedAll(a, hits[1..])
  }

  lemma MovedCons(a: seq<Cell>, h: Hit, hits: seq<Hit>)
    requires Anchored(a, [h] + hits)
    ensures Anchored(a, hits) && MovedAll(a, [h] + hits) == [Moved(a, h)] + MovedAll(a, hits)
  {
    assert ([h] + hits)[1..] == hits && h in [h] + hits;
    forall x | x in hits ensures x in [h] + hits {}
  }

  lemma NoMatchWithout(g: Grammar, p: Pattern, s: string, i: nat)
    requires Sound(g) && i < |s| && s[i] != '<'
    ensures MatchAt(g, p, s, i).None?
  {
    assert (g.headTag + g.open)[0] == '<';
  }

  lemma {:induction false} MatchAllAnchored(g: Grammar, p: Pattern, a: seq<Cell>, t: string, b: string, i: nat)
    requires Sound(g) && Written(a, t, b) && Fits(a)
    ensures Anchored(a, MatchAll(g, p, b, i))
    decreases |a| - i
  {
    if i < |a| {
      MatchLift(g, p, a, t, b, i);
      match MatchAt(g, p, b, i)
      case None => MatchAllAnchored(g, p, a, t, b, i + 1);
      case Some(h) => MatchAllAnchored(g, p, a, t, b, h.end);
    }
  }

  /** The scan skips the rest of a value: nothing can match inside one. */
  lemma {:induction false} SkipValue(g: Grammar, p: Pattern, a: seq<Cell>, t: string, b: string, i: nat, q: nat)
    requires Sound(g) && Written(a, t, b) && Fits(a) && i < |a| && At(a, i) <= q <= Char(a, i)
    ensures MatchAll(g, p, t, q) == MatchAll(g, p, t, Char(a, i))
    decreases Char(a, i) - q
  {
    if q < Char(a, i) {
      assert ReadsAt(a, t, b, i);
      Ordered(a, i, |a|);
      assert FitsAt(a, i) && t[q] == a[i].value[q - At(a, i)];
      NoMatchWithout(g, p, t, q);
      SkipValue(g, p, a, t, b, i, q + 1);
    }
  }

  lemma NextAfterMiss(g: Grammar, p: Pattern, a: seq<Cell>, t: string, b: string, i: nat)
    requires i < |a| == |b| && At(a, i) <= Char(a, i) < |t|
    requires MatchAt(g, p, b, i).None? && MatchAt(g, p, t, Char(a, i)).None?
    requires MatchAll(g, p, t, At(a, i)) == MatchAll(g, p, t, Char(a, i))
    ensures MatchAll(g, p, b, i) == MatchAll(g, p, b, i + 1)
    ensures MatchAll(g, p, t, At(a, i)) == MatchAll(g, p, t, At(a, i + 1))
  {
    hide MatchAt;
  }

  lemma ValueFirst(a: seq<Cell>, i: nat)
    requires i <= |a|
    ensures At(a, i) <= Char(a, i)
  {}

  lemma Lengths(g: Grammar, a: seq<Cell>, t: string, b: string)
    requires Sound(g) && Written(a, t, b)
    ensures g.close != "" && |b| == |a| && |t| == At(a, |a|)
  {}

  lemma NothingAtEnd(g: Grammar, p: Pattern, a: seq<Cell>, t: string, b: string)
    requires |b| == |a| && |t| == At(a, |a|)
    ensures MatchAll(g, p, b, |a|) == [] && MatchAll(g, p, t, At(a, |a|)) == []
    ensures MovedAll(a, []) == []
  {}

  lemma {:induction false} MatchAllLift(g: Grammar, p: Pattern, a: seq<Cell>, t: string, b: string, i: nat)
    requires Sound(g) && Written(a, t, b) && Fits(a) && i <= |a|
    requires Anchored(a, MatchAll(g, p, b, i))
    ensures MatchAll(g, p, t, At(a, i)) == MovedAll(a, MatchAll(g, p, b, i))
    decreases |a| - i
  {
    hide *;
    Lengths(g, a, t, b);
    if i < |a| {
      Ordered(a, i, |a|);
      ValueFirst(a, i);
      SkipValue(g, p, a, t, b, i, At(a, i));
      MatchLift(g, p, a, t, b, i);
      var here := MatchAt(g, p, b, i);
      if here.None? {
        NextAfterMiss(g, p, a, t, b, i);
        MatchAllLift(g, p, a, t, b, i + 1);
      } else {
        var next := here.value.end;
        MatchEnds(g, p, b, i, here.value);
        Ordered(a, i, next);
        Ordered(a, next, |a|);
        MatchAllAnchored(g, p, a, t, b, next);
        MatchAllLift(g, p, a, t, b, next);
        MatchedFirst(g, p, b, i, here.value);
        MatchedLift(g, p, a, t, b, i, here.value);
      }
    } else {
      NothingAtEnd(g, p, a, t, b);
    }
  }

  lemma MatchEnds(g: Grammar, p: Pattern, s: string, i: nat, h: Hit)
    requires g.close != "" && MatchAt(g, p, s, i) == Some(h)
    ensures i < h.end <= |s|
  {
    assert Proper(Some(h), s, i);
  }

  lemma MatchedFirst(g: Grammar, p: Pattern, s: string, i: nat, h: Hit)
    requires i < |s| && MatchAt(g, p, s, i) == Some(h) && i < h.end
    ensures MatchAll(g, p, s, i) == [h] + MatchAll(g, p, s, h.end)
  {
    hide MatchAt;
  }

  lemma MatchedLift(g: Grammar, p: Pattern, a: seq<Cell>, t: string, b: string, i: nat, h: Hit)
    requires i < h.end <= |a| == |b| && Char(a, i) < At(a, h.end) <= |t|
    requires MatchAt(g, p, b, i) == Some(h)
    requires Anchored(a, [h] + MatchAll(g, p, b, h.end))
    requires MatchAt(g, p, t, Char(a, i)) == Some(Moved(a, h))
    requires MatchAll(g, p, t, At(a, h.end)) == MovedAll(a, MatchAll(g, p, b, h.end))
    ensures MatchAll(g, p, b, i) == [h] + MatchAll(g, p, b, h.end)
    ensures MatchAll(g, p, t, Char(a, i)) == MovedAll(a, [h] + MatchAll(g, p, b, h.end))
  {
    MovedCons(a, h, MatchAll(g, p, b, h.end));
  }
}
