/** The metrics tab's state in the URL: what is printed is what is read back. */
module MetricsRoute {
  import opened Text
  import opened Utf8
  import opened Percent

  // ----- splitting and joining

  /** String.prototype.split on one character. */
  function Split(s: string, sep: char): (parts: seq<string>)
    ensures |parts| >= 1
  {
    if s == "" then [""]
    else if s[0] == sep then [""] + Split(s[1..], sep)
    else var rest := Split(s[1..], sep); [[s[0]] + rest[0]] + rest[1..]
  }

  function JoinWith(parts: seq<string>, sep: char): string {
    if parts == [] then "" else if |parts| == 1 then parts[0] else parts[0] + [sep] + JoinWith(parts[1..], sep)
  }

  lemma {:induction false} SplitWord(word: string, sep: char, rest: string)
    requires sep !in word
    ensures Split(word + [sep] + rest, sep) == [word] + Split(rest, sep)
    ensures Split(word, sep) == [word]
    decreases |word|
  {
    var all := word + [sep] + rest;
    if word == "" {
      assert all[0] == sep && all[1..] == rest;
    } else {
      SplitWord(word[1..], sep, rest);
      assert all[0] == word[0] && all[1..] == word[1..] + [sep] + rest;
      assert [word[0]] + word[1..] == word;
    }
  }

  /** Splitting undoes joining when no part holds the separator. */
  lemma {:induction false} SplitJoined(parts: seq<string>, sep: char)
    requires parts != [] && forall p :: p in parts ==> sep !in p
    ensures Split(JoinWith(parts, sep), sep) == parts
    decreases |parts|
  {
    assert parts[0] in parts;
    if |parts| == 1 {
      SplitWord(parts[0], sep, "");
      assert parts == [parts[0]];
    } else {
      forall p | p in parts[1..] ensures p in parts {}
      SplitJoined(parts[1..], sep);
      SplitWord(parts[0], sep, JoinWith(parts[1..], sep));
      assert parts == [parts[0]] + parts[1..];
    }
  }

  // ----- decoding that never throws

  function PlusToSpace(s: string): (r: string)
    ensures |r| == |s| && forall i :: 0 <= i < |s| ==> r[i] == if s[i] == '+' then ' ' else s[i]
  {
    seq(|s|, i requires 0 <= i < |s| => if s[i] == '+' then ' ' else s[i])
  }

  function SafeDecode(value: string): string {
    match DecodeUri(PlusToSpace(value))
    case Some(s) => s
    case None => value
  }

  /** Characters an encoded value can hold; none of them separates anything. */
  predicate IsQuiet(c: char) {
    IsPlain(c) || c == '%' || c == '/' || c == '@'
  }

  predicate Quiet(s: string) {
    forall i :: 0 <= i < |s| ==> IsQuiet(s[i])
  }

  lemma {:induction false} EscapedIsQuiet(bytes: seq<byte>)
    ensures Quiet(EscapeAll(bytes)) && '/' !in EscapeAll(bytes)
  {
    if bytes != [] { EscapedIsQuiet(bytes[1..]); }
  }

  lemma {:induction false} EncodedIsQuiet(s: string)
    ensures Quiet(EncodeUri(s)) && '/' !in EncodeUri(s) && '?' !in EncodeUri(s) && (s != "" ==> EncodeUri(s) != "")
  {
    if s != "" {
      EncodedIsQuiet(s[1..]);
      EscapedIsQuiet(EncodeChar(s[0]));
    }
  }

  lemma QuietDecodes(s: string)
    requires Quiet(s)
    ensures PlusToSpace(s) == s && ',' !in s && '&' !in s && '=' !in s && '?' !in s
  {
    forall i | 0 <= i < |s| ensures s[i] !in "+,&=?" { assert IsQuiet(s[i]); }
  }

  lemma EncodedReads(s: string)
    ensures SafeDecode(EncodeUri(s)) == s
  {
    EncodedIsQuiet(s);
    QuietDecodes(EncodeUri(s));
    UriRoundTrip(s);
  }

  /** A word that needs no escaping. */
  predicate Word(s: string) {
    s != "" && forall i :: 0 <= i < |s| ==> IsPlain(s[i])
  }

  lemma {:induction false} PlainDecodes(s: string)
    requires forall i :: 0 <= i < |s| ==> IsPlain(s[i])
    ensures DecodeUri(s) == Some(s)
  {
    if s != "" {
      assert IsPlain(s[0]);
      PlainDecodes(s[1..]);
      assert [s[0]] + s[1..] == s;
    }
  }

  lemma WordReads(s: string)
    requires Word(s)
    ensures Quiet(s) && SafeDecode(s) == s
  {
    forall i | 0 <= i < |s| ensures IsQuiet(s[i]) { assert IsPlain(s[i]); }
    QuietDecodes(s);
    PlainDecodes(s);
  }

  // ----- a route key keeps its slash and at sign

  /** replace(/%2F/g, "/").replace(/%40/g, "@") on encoded text. */
  function Unescaped(s: string): string
    decreases |s|
  {
    if |s| >= 3 && s[..3] == "%2F" then "/" + Unescaped(s[3..])
    else if |s| >= 3 && s[..3] == "%40" then "@" + Unescaped(s[3..])
    else if s == "" then ""
    else [s[0]] + Unescaped(s[1..])
  }

  /** What a route key is written as. */
  function EncodeRoute(s: string): string {
    if s == "" then ""
    else (if IsPlain(s[0]) || s[0] == '/' || s[0] == '@' then [s[0]] else EscapeAll(EncodeChar(s[0]))) + EncodeRoute(s[1..])
  }

  lemma {:induction false} EncodeRouteReads(s: string)
    ensures DecodeUri(EncodeRoute(s)) == Some(s) && Quiet(EncodeRoute(s)) && (s != "" ==> EncodeRoute(s) != "")
    decreases |s|
  {
    if s != "" {
      var rest := EncodeRoute(s[1..]);
      EncodeRouteReads(s[1..]);
      if IsPlain(s[0]) || s[0] == '/' || s[0] == '@' {
        assert ([s[0]] + rest)[1..] == rest;
      } else {
        EscapedCharDecodes(s[0], rest);
        EscapedIsQuiet(EncodeChar(s[0]));
      }
      assert [s[0]] + s[1..] == s;
    }
  }

  lemma HexDigits(n: nat, m: nat)
    requires n < 16 && m < 16
    ensures Hex(n) != '%' && (Hex(n) == Hex(m) <==> n == m)
  {
    HexRoundTrip(n);
    HexRoundTrip(m);
  }

  lemma OtherEscapeStays(b: byte, rest: string)
    requires b != 0x2F && b != 0x40
    ensures Unescaped(Escape(b) + rest) == Escape(b) + Unescaped(rest)
  {
    var s := Escape(b) + rest;
    HexDigits(b / 16, 2);
    HexDigits(b / 16, 4);
    HexDigits(b % 16, 15);
    HexDigits(b % 16, 0);
    assert s[..3] == ['%', Hex(b / 16), Hex(b % 16)];
    assert s[..3] != "%2F" && s[..3] != "%40";
    CharStays(s);
    CharStays(s[1..]);
    CharStays(s[2..]);
    assert s[1..][1..] == s[2..] && s[2..][1..] == rest;
    assert Escape(b) + Unescaped(rest) == [s[0]] + ([s[1]] + ([s[2]] + Unescaped(rest)));
  }

  lemma CharStays(s: string)
    requires s != "" && (s[0] != '%' || (|s| >= 3 && s[..3] != "%2F" && s[..3] != "%40"))
    ensures Unescaped(s) == [s[0]] + Unescaped(s[1..])
  {
    if |s| >= 3 { assert s[..3][0] == s[0]; }
  }

  lemma {:induction false} OtherEscapesStay(bytes: seq<byte>, rest: string)
    requires forall i :: 0 <= i < |bytes| ==> bytes[i] != 0x2F && bytes[i] != 0x40
    ensures Unescaped(EscapeAll(bytes) + rest) == EscapeAll(bytes) + Unescaped(rest)
    decreases |bytes|
  {
    if bytes == [] {
      assert EscapeAll(bytes) + rest == rest && EscapeAll(bytes) + Unescaped(rest) == Unescaped(rest);
    } else {
      var later := EscapeAll(bytes[1..]);
      OtherEscapesStay(bytes[1..], rest);
      OtherEscapeStays(bytes[0], later + rest);
      assert EscapeAll(bytes) + rest == Escape(bytes[0]) + (later + rest);
      assert EscapeAll(bytes) + Unescaped(rest) == Escape(bytes[0]) + (later + Unescaped(rest));
    }
  }

  lemma SlashUnescapes(rest: string)
    ensures EscapeAll(EncodeChar('/')) == "%2F" && Unescaped("%2F" + rest) == "/" + Unescaped(rest)
    ensures EscapeAll(EncodeChar('@')) == "%40" && Unescaped("%40" + rest) == "@" + Unescaped(rest)
  {
    assert ("%2F" + rest)[..3] == "%2F" && ("%2F" + rest)[3..] == rest;
    assert ("%40" + rest)[..3] == "%40" && ("%40" + rest)[3..] == rest;
    assert [0x2F][1..] == [] && [0x40][1..] == [];
  }

  /** Un-escaping only ever meets escapes the encoder wrote for a slash or an at sign. */
  lemma {:induction false} UnescapedIsRoute(s: string)
    ensures Unescaped(EncodeUri(s)) == EncodeRoute(s)
    decreases |s|
  {
    if s != "" {
      var rest := EncodeUri(s[1..]);
      UnescapedIsRoute(s[1..]);
      if IsPlain(s[0]) {
        CharStays([s[0]] + rest);
        assert ([s[0]] + rest)[1..] == rest;
      } else if s[0] == '/' || s[0] == '@' {
        SlashUnescapes(rest);
      } else {
        OtherEscapesStay(EncodeChar(s[0]), rest);
      }
    }
  }

  lemma RouteReads(s: string)
    ensures SafeDecode(Unescaped(EncodeUri(s))) == s && Quiet(Unescaped(EncodeUri(s)))
  {
    UnescapedIsRoute(s);
    EncodeRouteReads(s);
    QuietDecodes(EncodeRoute(s));
  }

  // ----- lists

  function EncodeEach(values: seq<string>): (r: seq<string>)
    ensures |r| == |values| && forall i :: 0 <= i < |r| ==> r[i] == EncodeUri(values[i])
  {
    if values == [] then [] else [EncodeUri(values[0])] + EncodeEach(values[1..])
  }

  function DecodeEach(parts: seq<string>): (r: seq<string>)
    ensures |r| == |parts| && forall i :: 0 <= i < |r| ==> r[i] == SafeDecode(parts[i])
  {
    if parts == [] then [] else [SafeDecode(parts[0])] + DecodeEach(parts[1..])
  }

  function NonEmpty(values: seq<string>): seq<string> {
    if values == [] then [] else (if values[0] == "" then [] else [values[0]]) + NonEmpty(values[1..])
  }

  /** [...new Set(values)]: first occurrences, in order. */
  function Deduped(values: seq<string>): seq<string> {
    if values == [] then []
    else
      var init := Deduped(values[..|values| - 1]);
      if values[|values| - 1] in init then init else init + [values[|values| - 1]]
  }

  function ReadList(value: string): seq<string> {
    Deduped(NonEmpty(DecodeEach(Split(value, ','))))
  }

  ghost predicate GoodList(values: seq<string>) {
    (forall i, j :: 0 <= i < j < |values| ==> values[i] != values[j]) && "" !in values
  }

  lemma {:induction false} DedupedSame(values: seq<string>)
    requires forall i, j :: 0 <= i < j < |values| ==> values[i] != values[j]
    ensures Deduped(values) == values
  {
    if values != [] {
      DedupedSame(values[..|values| - 1]);
      assert values == values[..|values| - 1] + [values[|values| - 1]];
    }
  }

  lemma {:induction false} NonEmptySame(values: seq<string>)
    requires "" !in values
    ensures NonEmpty(values) == values
  {
    if values != [] {
      assert values[0] in values;
      NonEmptySame(values[1..]);
      assert values == [values[0]] + values[1..];
    }
  }

  /** A list written with literal commas between encoded values reads back as it was. */
  lemma ListReads(values: seq<string>)
    requires GoodList(values)
    ensures ReadList(JoinWith(EncodeEach(values), ',')) == values
  {
    var parts := EncodeEach(values);
    if values == [] {
      assert Split("", ',') == [""];
      EncodedReads("");
      assert DecodeEach([""]) == [""];
    } else {
      forall p | p in parts ensures ',' !in p {
        var i :| 0 <= i < |parts| && parts[i] == p;
        EncodedIsQuiet(values[i]);
        QuietDecodes(p);
      }
      SplitJoined(parts, ',');
      forall i | 0 <= i < |values| ensures DecodeEach(parts)[i] == values[i] { EncodedReads(values[i]); }
      assert DecodeEach(parts) == values;
      NonEmptySame(values);
      DedupedSame(values);
    }
  }

  /** Joined encoded values hold no ampersand. */
  lemma {:induction false} JoinedHolds(parts: seq<string>, sep: char, c: char)
    requires c != sep && forall p :: p in parts ==> c !in p
    ensures c !in JoinWith(parts, sep)
    decreases |parts|
  {
    if parts != [] {
      assert parts[0] in parts;
      forall p | p in parts[1..] ensures p in parts {}
      if |parts| > 1 { JoinedHolds(parts[1..], sep, c); }
    }
  }
}
