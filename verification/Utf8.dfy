/** UTF-8 (section 3 of RFC 3629) over Unicode scalar values, and cutting encoded text at a character. */
module Utf8 {

  type byte = n: int | 0 <= n < 256

  /** Dafny's char is a Unicode scalar value: no surrogates, at most U+10FFFF. */
  function Point(c: char): (n: nat)
    ensures n < 0x11_0000 && !(0xD800 <= n < 0xE000)
  {
    c as int
  }

  function Tail(n: nat): (b: byte)
    ensures 128 <= b < 192
  {
    128 + n % 64
  }

  function EncodeChar(c: char): (s: seq<byte>)
    ensures 1 <= |s| <= 4 && (s[0] < 128 || s[0] >= 192) && forall i :: 1 <= i < |s| ==> 128 <= s[i] < 192
  {
    var n := Point(c);
    if n < 0x80 then [n]
    else if n < 0x800 then [192 + n / 64, Tail(n)]
    else if n < 0x1_0000 then [224 + n / 4096, Tail(n / 64), Tail(n)]
    else [240 + n / 262144, Tail(n / 4096), Tail(n / 64), Tail(n)]
  }

  function Encode(s: string): (r: seq<byte>)
    ensures |r| >= |s|
  {
    if s == "" then [] else Encode(s[..|s| - 1]) + EncodeChar(s[|s| - 1])
  }

  function Length(s: string): nat {
    |Encode(s)|
  }

  predicate Continues(b: byte) {
    128 <= b < 192
  }

  /** truncateToCodePoint: step back from the limit until the cut is not before a continuation byte. */
  method TruncateToCodePoint(bytes: seq<byte>, limit: nat) returns (end: nat)
    ensures end == Cut(bytes, limit)
  {
    end := if limit < |bytes| then limit else |bytes|;
    while end > 0 && end < |bytes| && Continues(bytes[end])
      invariant end <= |bytes| && Cut(bytes, end) == Cut(bytes, limit)
    {
      end := end - 1;
    }
  }

  function Cut(bytes: seq<byte>, limit: nat): (end: nat)
    ensures end <= limit && end <= |bytes|
  {
    if limit >= |bytes| then |bytes|
    else if limit > 0 && Continues(bytes[limit]) then Cut(bytes, limit - 1)
    else limit
  }

  /** The longest prefix of a text whose encoding fits the limit. */
  function Fitting(s: string, limit: nat): (p: string)
    ensures p <= s && Length(p) <= limit
    decreases |s|
  {
    if Length(s) <= limit then s else Fitting(s[..|s| - 1], limit)
  }

  lemma {:induction false} CutPrefix(x: seq<byte>, y: seq<byte>, limit: nat)
    requires limit < |x|
    ensures Cut(x + y, limit) == Cut(x, limit)
  {
    if limit > 0 && Continues(x[limit]) { CutPrefix(x, y, limit - 1); }
  }

  /** Within an encoded character every cut falls back to its first byte. */
  lemma {:induction false} CutInside(x: seq<byte>, last: seq<byte>, limit: nat)
    requires last != [] && !Continues(last[0]) && forall i :: 1 <= i < |last| ==> Continues(last[i])
    requires |x| <= limit < |x| + |last|
    ensures Cut(x + last, limit) == |x|
    decreases limit
  {
    var all := x + last;
    assert all[limit] == last[limit - |x|];
    if limit > |x| { CutInside(x, last, limit - 1); }
  }

  /** Cutting the encoding keeps exactly the longest prefix of whole characters that fits: no character is split. */
  lemma {:induction false} CutIsFitting(s: string, limit: nat)
    ensures Encode(s)[..Cut(Encode(s), limit)] == Encode(Fitting(s, limit))
    decreases |s|
  {
    var bytes := Encode(s);
    if limit < |bytes| {
      var init, last := Encode(s[..|s| - 1]), EncodeChar(s[|s| - 1]);
      assert bytes == init + last;
      CutIsFitting(s[..|s| - 1], limit);
      if limit < |init| {
        CutPrefix(init, last, limit);
        assert bytes[..Cut(init, limit)] == init[..Cut(init, limit)];
      } else {
        CutInside(init, last, limit);
        assert bytes[..|init|] == init;
        assert Cut(init, limit) == |init| && init[..|init|] == init;
      }
    } else {
      assert bytes[..|bytes|] == bytes;
    }
  }

  /** No longer prefix fits. */
  lemma {:induction false} FittingIsLongest(s: string, limit: nat, k: nat)
    requires k <= |s| && Length(s[..k]) <= limit
    ensures k <= |Fitting(s, limit)|
    decreases |s|
  {
    if Length(s) > limit {
      assert k < |s| by { assert s[..|s|] == s; }
      assert s[..|s| - 1][..k] == s[..k];
      FittingIsLongest(s[..|s| - 1], limit, k);
    }
  }
}
