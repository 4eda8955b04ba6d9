/** The string operations the sources use, on character positions. */
module Text {

  datatype Option<+T> = None | Some(value: T)

  /** String.prototype.slice for non-negative arguments: clamped, and empty when reversed. */
  function Slice(s: string, from: nat, to: nat): string {
    var lo := if from < |s| then from else |s|;
    var hi := if to < |s| then to else |s|;
    if lo <= hi then s[lo..hi] else ""
  }

  predicate StartsAt(s: string, i: nat, lit: string)
    decreases |lit|
  {
    lit == "" || (i < |s| && s[i] == lit[0] && StartsAt(s, i + 1, lit[1..]))
  }

  /** The first position at or after `from` holding `c`, or the length. */
  function FindChar(s: string, c: char, from: nat): (k: nat)
    ensures from <= |s| ==> from <= k <= |s|
    decreases |s| - from
  {
    if from >= |s| then |s| else if s[from] == c then from else FindChar(s, c, from + 1)
  }

  /** String.prototype.indexOf(lit, from), None for -1. */
  function IndexOf(s: string, lit: string, from: nat): (k: Option<nat>)
    ensures k.Some? ==> from <= k.value <= |s| && StartsAt(s, k.value, lit)
    decreases |s| - from
  {
    if StartsAt(s, from, lit) && from <= |s| then Some(from)
    else if from >= |s| then None
    else IndexOf(s, lit, from + 1)
  }

  /** String.prototype.lastIndexOf(lit, from), None for -1. */
  function LastIndexOf(s: string, lit: string, from: nat): (k: Option<nat>)
    ensures k.Some? ==> k.value <= from && StartsAt(s, k.value, lit)
  {
    if StartsAt(s, from, lit) && from <= |s| then Some(from)
    else if from == 0 then None
    else LastIndexOf(s, lit, from - 1)
  }

  predicate IsDigit(c: char) {
    '0' <= c <= '9'
  }

  /** The longest run of ASCII digits starting at i. */
  function Digits(s: string, i: nat): (d: string)
    ensures d != "" ==> i + |d| <= |s|
    decreases |s| - i
  {
    if i < |s| && IsDigit(s[i]) then [s[i]] + Digits(s, i + 1) else ""
  }

  function NumberOf(digits: string): nat {
    if digits == "" then 0
    else
      var last := digits[|digits| - 1];
      10 * NumberOf(digits[..|digits| - 1]) + (if IsDigit(last) then last as nat - '0' as nat else 0)
  }

  lemma {:induction false} StartsAtIsPrefix(s: string, i: nat, lit: string)
    ensures StartsAt(s, i, lit) <==> (lit == "" || (i + |lit| <= |s| && s[i..i + |lit|] == lit))
    decreases |lit|
  {
    if lit != "" && i < |s| && s[i] == lit[0] {
      StartsAtIsPrefix(s, i + 1, lit[1..]);
      if i + |lit| <= |s| {
        assert s[i..i + |lit|] == [s[i]] + s[i + 1..i + |lit|];
        assert lit == [lit[0]] + lit[1..];
      }
    } else if lit != "" && i + |lit| <= |s| {
      assert s[i..i + |lit|][0] == s[i];
    }
  }
}
