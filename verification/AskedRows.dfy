/** What a checklist row is: the list item around a token, or its line. */
module AskedRows {
  import opened Text
  import opened AskedFor

  lemma {:induction false} FirstIndex(s: string, lit: string, from: nat)
    ensures var k := IndexOf(s, lit, from);
      if k.Some? then from <= k.value <= |s| && StartsAt(s, k.value, lit) && forall j :: from <= j < k.value ==> !StartsAt(s, j, lit)
      else forall j :: from <= j <= |s| ==> !StartsAt(s, j, lit)
    decreases |s| - from
  {
    hide StartsAt;
    if !(StartsAt(s, from, lit) && from <= |s|) && from < |s| { FirstIndex(s, lit, from + 1); }
  }

  lemma {:induction false} LastIndex(s: string, lit: string, from: nat)
    requires from <= |s|
    ensures var k := LastIndexOf(s, lit, from);
      if k.Some? then k.value <= from && StartsAt(s, k.value, lit) && forall j :: k.value < j <= from ==> !StartsAt(s, j, lit)
      else forall j :: 0 <= j <= from ==> !StartsAt(s, j, lit)
    decreases from
  {
    hide StartsAt;
    if !(StartsAt(s, from, lit) && from <= |s|) && from > 0 { LastIndex(s, lit, from - 1); }
  }

  /** A list item's opening tag stands at i and ends before j: "<li" with no letter, digit or underscore behind it, up to the next ">". */
  ghost predicate OpensAt(s: string, i: nat, j: nat) {
    && StartsAt(s, i, "<li") && i + 3 < j <= |s| && s[j - 1] == '>' && (forall k :: i + 3 <= k < j - 1 ==> s[k] != '>')
    && var c := s[i + 3]; !('a' <= c <= 'z') && !('A' <= c <= 'Z') && !('0' <= c <= '9') && c != '_'
  }

  lemma {:induction false} FoundChar(s: string, c: char, from: nat)
    requires from <= |s|
    ensures var k := FindChar(s, c, from); from <= k <= |s| && (k < |s| ==> s[k] == c) && forall j :: from <= j < k ==> s[j] != c
    decreases |s| - from
  {
    if from < |s| && s[from] != c { FoundChar(s, c, from + 1); }
  }

  lemma ItemIs(s: string, i: nat, j: nat)
    ensures ItemAt(s, i) == Some(j) <==> OpensAt(s, i, j)
  {
    hide FindChar, StartsAt;
    if StartsAt(s, i, "<li") && i + 3 < |s| { FoundChar(s, '>', i + 3); }
  }

  /** No tag opens from a up to b. */
  ghost predicate NoTag(s: string, a: nat, b: nat) {
    forall k, j :: a <= k < b ==> !OpensAt(s, k, j)
  }

  /** The tags a search from i on finds, each with its start and end: leftmost first, each next one behind the last, none missed. */
  ghost predicate Tags(s: string, i: nat, tags: seq<(nat, nat)>)
    decreases |tags|
  {
    if tags == [] then NoTag(s, i, |s|)
    else i <= tags[0].0 && OpensAt(s, tags[0].0, tags[0].1) && NoTag(s, i, tags[0].0) && Tags(s, tags[0].1, tags[1..])
  }

  lemma {:induction false} ItemFound(s: string, i: nat) returns (tags: seq<(nat, nat)>)
    ensures Tags(s, i, tags) && LastItem(s, i) == if tags == [] then None else Some(tags[|tags| - 1].0)
    decreases |s| - i
  {
    hide ItemAt, OpensAt;
    if i >= |s| {
      tags := [];
    } else {
      forall j ensures ItemAt(s, i) == Some(j) <==> OpensAt(s, i, j) { if j >= 0 { ItemIs(s, i, j); } }
      match ItemAt(s, i)
      case None =>
        tags := ItemFound(s, i + 1);
        if tags != [] { assert NoTag(s, i, tags[0].0); }
      case Some(e) =>
        var later := ItemFound(s, e);
        tags := [(i, e)] + later;
        assert tags[1..] == later;
    }
  }

  /** The row inside a list item: it opens with the item's tag, no item closes before the token, and it ends with the first closing tag behind it. */
  ghost predicate ItemRow(s: string, start: nat, end: nat, tag: nat, from: nat, to: nat)
    requires start < end <= |s|
  {
    && from == tag && (forall j :: from <= j <= start ==> !StartsAt(s, j, "</li>"))
    && end + 5 <= to <= |s| && StartsAt(s, to - 5, "</li>") && forall j :: end <= j < to - 5 ==> !StartsAt(s, j, "</li>")
  }

  /** The row on a bare line: the stretch without a line break around the token. */
  ghost predicate LineRow(s: string, start: nat, end: nat, from: nat, to: nat)
    requires start < end <= |s|
  {
    && from <= start && end <= to <= |s|
    && (from == 0 || s[from - 1] == '\n') && (forall j :: from <= j < start ==> s[j] != '\n')
    && (to == |s| || s[to] == '\n') && forall j :: end <= j < to ==> s[j] != '\n'
  }

  lemma NewlineAt(s: string, j: nat)
    ensures StartsAt(s, j, "\n") <==> j < |s| && s[j] == '\n'
  {
    assert "\n"[1..] == "";
  }

  /** The token stands in a list item: no item closes between the last tag opened before it and the token, and one closes behind it. */
  ghost predicate Inside(s: string, start: nat, end: nat, tags: seq<(nat, nat)>) {
    && tags != [] && (forall j :: tags[|tags| - 1].0 <= j <= start ==> !StartsAt(s, j, "</li>"))
    && exists j :: end <= j <= |s| && StartsAt(s, j, "</li>")
  }

  /** A token's row is its list item, where it stands in one, and otherwise its line. */
  lemma RowMeans(s: string, start: nat, end: nat) returns (tags: seq<(nat, nat)>)
    requires start < end <= |s| && s[start] != '\n'
    ensures Tags(s[..start], 0, tags)
    ensures var from, to := RowStart(s, start, end), RowEnd(s, start, end);
      if Inside(s, start, end, tags) then ItemRow(s, start, end, tags[|tags| - 1].0, from, to)
      else LineRow(s, start, end, from, to)
  {
    hide StartsAt, OpensAt, LastItem, IndexOf, LastIndexOf, Tags;
    assert Slice(s, 0, start) == s[..start];
    tags := ItemFound(s[..start], 0);
    LastIndex(s, "</li>", start);
    FirstIndex(s, "</li>", end);
    LastIndex(s, "\n", start);
    FirstIndex(s, "\n", end);
    forall j: nat ensures StartsAt(s, j, "\n") <==> j < |s| && s[j] == '\n' { NewlineAt(s, j); }
    if InItem(s, start, end) { Closes(s, IndexOf(s, "</li>", end).value); }
    if tags != [] {
      var k := tags[|tags| - 1].0;
      if !StartsAt(s, k, "</li>") && LastIndexOf(s, "</li>", start).Some? { assert LastIndexOf(s, "</li>", start).value != k; }
      TagIsNoClose(s, start, tags);
    }
    assert InItem(s, start, end) <==> Inside(s, start, end, tags);
  }

  lemma {:induction false} LastTag(s: string, i: nat, tags: seq<(nat, nat)>)
    requires tags != [] && Tags(s, i, tags)
    ensures OpensAt(s, tags[|tags| - 1].0, tags[|tags| - 1].1)
    decreases |tags|
  {
    if |tags| > 1 { LastTag(s, tags[0].1, tags[1..]); }
  }

  /** A tag that opens an item does not close one. */
  lemma TagIsNoClose(s: string, start: nat, tags: seq<(nat, nat)>)
    requires start <= |s| && tags != [] && Tags(s[..start], 0, tags)
    ensures var k := tags[|tags| - 1].0; k < start && !StartsAt(s, k, "</li>")
  {
    hide Tags;
    var k := tags[|tags| - 1].0;
    LastTag(s[..start], 0, tags);
    StartsAtIsPrefix(s[..start], k, "<li");
    assert s[..start][k..k + 3][1] == 'l' && s[k + 1] == 'l';
    if |s| >= k + 5 { assert s[k..k + 5][1] == 'l'; }
    if StartsAt(s, k, "</li>") { StartsAtIsPrefix(s, k, "</li>"); }
  }

  lemma Closes(s: string, j: nat)
    requires StartsAt(s, j, "</li>")
    ensures j + 5 <= |s|
  {
    StartsAtIsPrefix(s, j, "</li>");
  }
}
