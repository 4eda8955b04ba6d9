/** Percent-encoding of URI components (sections 2.1 and 2.3 of RFC 3986) over UTF-8, and its inverse. */
module Percent {
  import opened Text
  import opened Utf8

  predicate IsPlain(c: char) {
    'a' <= c <= 'z' || 'A' <= c <= 'Z' || '0' <= c <= '9' || c in "-_.!~*'()"
  }

  function Hex(n: nat): (c: char)
    requires n < 16
    ensures '0' <= c <= '9' || 'A' <= c <= 'F'
  {
    if n < 10 then '0' + n as char else 'A' + (n - 10) as char
  }

  function HexValue(c: char): (n: Option<nat>)
    ensures n.Some? ==> n.value < 16
  {
    if '0' <= c <= '9' then Some((c - '0') as nat)
    else if 'A' <= c <= 'F' then Some(10 + (c - 'A') as nat)
    else if 'a' <= c <= 'f' then Some(10 + (c - 'a') as nat)
    else None
  }

  function Escape(b: byte): (s: string)
    ensures |s| == 3
  {
    ['%', Hex(b / 16), Hex(b % 16)]
  }

  function EscapeAll(bytes: seq<byte>): string {
    if bytes == [] then "" else Escape(bytes[0]) + EscapeAll(bytes[1..])
  }

  /** encodeURIComponent. */
  function EncodeUri(s: string): string {
    if s == "" then ""
    else (if IsPlain(s[0]) then [s[0]] else EscapeAll(EncodeChar(s[0]))) + EncodeUri(s[1..])
  }

  /** One escape at the start of the text. */
  function ByteAt(s: string): (b: Option<byte>)
    ensures b.Some? ==> |s| >= 3
  {
    if |s| >= 3 && s[0] == '%' && HexValue(s[1]).Some? && HexValue(s[2]).Some?
    then Some(16 * HexValue(s[1]).value + HexValue(s[2]).value) else None
  }

  /** A continuation byte at the start of the text. */
  function TailAt(s: string): (n: Option<nat>)
    ensures n.Some? ==> |s| >= 3 && n.value < 64
  {
    match ByteAt(s)
    case Some(b) => if Continues(b) then Some(b - 128) else None
    case None => None
  }

  /** The scalar value written from byte b on, and how many characters of escapes it takes. */
  function PointAt(s: string): (r: Option<(nat, nat)>)
    ensures r.Some? ==> 3 <= r.value.1 <= |s|
  {
    match ByteAt(s)
    case None => None
    case Some(b) =>
      if b < 128 then Some((b, 3))
      else if 192 <= b < 224 && |s| >= 6 then
        match TailAt(s[3..])
        case Some(x) => Some((64 * (b - 192) + x, 6))
        case None => None
      else if 224 <= b < 240 && |s| >= 9 then
        match (TailAt(s[3..]), TailAt(s[6..]))
        case (Some(x), Some(y)) => Some((4096 * (b - 224) + 64 * x + y, 9))
        case _ => None
      else if 240 <= b < 248 && |s| >= 12 then
        match (TailAt(s[3..]), TailAt(s[6..]), TailAt(s[9..]))
        case (Some(x), Some(y), Some(z)) => Some((262144 * (b - 240) + 4096 * x + 64 * y + z, 12))
        case _ => None
      else None
  }

  /** A scalar value in the shortest form: no surrogates, nothing overlong. */
  predicate WellEncoded(point: nat, width: nat) {
    && point < 0x11_0000 && !(0xD800 <= point < 0xE000)
    && (width == 6 ==> point >= 0x80) && (width == 9 ==> point >= 0x800) && (width == 12 ==> point >= 0x1_0000)
  }

  /** decodeURIComponent, None where it throws. */
  function DecodeUri(s: string): Option<string>
    decreases |s|
  {
    if s == "" then Some("")
    else if s[0] != '%' then Before(s[0], DecodeUri(s[1..]))
    else
      match PointAt(s)
      case None => None
      case Some((point, width)) =>
        if WellEncoded(point, width) then Before(point as char, DecodeUri(s[width..])) else None
  }

  function Before(c: char, rest: Option<string>): Option<string> {
    if rest.Some? then Some([c] + rest.value) else None
  }

  // ----- the round trip

  lemma HexRoundTrip(n: nat)
    requires n < 16
    ensures HexValue(Hex(n)) == Some(n)
  {}

  lemma EscapeReads(b: byte, rest: string)
    ensures ByteAt(Escape(b) + rest) == Some(b) && (Escape(b) + rest)[3..] == rest
  {
    HexRoundTrip(b / 16);
    HexRoundTrip(b % 16);
  }

  lemma TailReads(n: nat, rest: string)
    ensures TailAt(Escape(Tail(n)) + rest) == Some(n % 64)
  {
    EscapeReads(Tail(n), rest);
  }

  lemma EscapedTwo(a: byte, b: byte, rest: string)
    ensures EscapeAll([a, b]) + rest == Escape(a) + (Escape(b) + rest)
  {
    assert [a, b][1..] == [b] && [b][1..] == [];
    assert EscapeAll([b]) == Escape(b);
    assert EscapeAll([a, b]) == Escape(a) + EscapeAll([b]);
  }

  lemma EscapedThree(a: byte, b: byte, c: byte, rest: string)
    ensures EscapeAll([a, b, c]) + rest == Escape(a) + (Escape(b) + (Escape(c) + rest))
  {
    assert [a, b, c][1..] == [b, c];
    EscapedTwo(b, c, rest);
    assert EscapeAll([a, b, c]) == Escape(a) + EscapeAll([b, c]);
  }

  lemma EscapedFour(a: byte, b: byte, c: byte, d: byte, rest: string)
    ensures EscapeAll([a, b, c, d]) + rest == Escape(a) + (Escape(b) + (Escape(c) + (Escape(d) + rest)))
  {
    assert [a, b, c, d][1..] == [b, c, d];
    EscapedThree(b, c, d, rest);
    assert EscapeAll([a, b, c, d]) == Escape(a) + EscapeAll([b, c, d]);
  }

  ghost predicate PointReads(s: string, c: char, rest: string) {
    exists width ::
      PointAt(s) == Some((Point(c), width)) && WellEncoded(Point(c), width) && s[width..] == rest
  }

  lemma OneReads(c: char, rest: string)
    requires Point(c) < 0x80
    ensures PointReads(EscapeAll(EncodeChar(c)) + rest, c, rest)
  {
    var n := Point(c);
    assert [n][1..] == [];
    assert EscapeAll([n]) == Escape(n);
    EscapeReads(n, rest);
    assert PointAt(Escape(n) + rest) == Some((n, 3));
  }

  lemma TwoPoint(s: string, b: byte, x: nat)
    requires |s| >= 6 && ByteAt(s) == Some(b) && 192 <= b < 224 && TailAt(s[3..]) == Some(x)
    ensures PointAt(s) == Some((64 * (b - 192) + x, 6))
  {
    hide ByteAt, TailAt;
  }

  lemma TwoReads(c: char, rest: string)
    requires 0x80 <= Point(c) < 0x800
    ensures PointReads(EscapeAll(EncodeChar(c)) + rest, c, rest)
  {
    hide ByteAt, TailAt, PointAt, Escape, EscapeAll, Tail;
    var n := Point(c);
    var a: byte := 192 + n / 64;
    var s1 := Escape(Tail(n)) + rest;
    var s := Escape(a) + s1;
    EscapedTwo(a, Tail(n), rest);
    EscapeReads(a, s1);
    EscapeReads(Tail(n), rest);
    TailReads(n, rest);
    assert s[6..] == s1[3..];
    TwoPoint(s, a, n % 64);
    assert PointAt(s) == Some((n, 6));
  }

  lemma ThreePoint(s: string, b: byte, x: nat, y: nat)
    requires |s| >= 9 && ByteAt(s) == Some(b) && 224 <= b < 240 && TailAt(s[3..]) == Some(x) && TailAt(s[6..]) == Some(y)
    ensures PointAt(s) == Some((4096 * (b - 224) + 64 * x + y, 9))
  {
    hide ByteAt, TailAt;
  }

  lemma FourPoint(s: string, b: byte, x: nat, y: nat, z: nat)
    requires |s| >= 12 && ByteAt(s) == Some(b) && 240 <= b < 248
    requires TailAt(s[3..]) == Some(x) && TailAt(s[6..]) == Some(y) && TailAt(s[9..]) == Some(z)
    ensures PointAt(s) == Some((262144 * (b - 240) + 4096 * x + 64 * y + z, 12))
  {
    hide ByteAt, TailAt;
  }

  lemma Regroup64(n: nat)
    ensures 64 * (n / 64) + n % 64 == n
    ensures 4096 * (n / 4096) + 64 * ((n / 64) % 64) + n % 64 == n
    ensures 262144 * (n / 262144) + 4096 * ((n / 4096) % 64) + 64 * ((n / 64) % 64) + n % 64 == n
  {
    assert n / 4096 == (n / 64) / 64 && n / 262144 == (n / 4096) / 64;
  }

  lemma ThreeReads(c: char, rest: string)
    requires 0x800 <= Point(c) < 0x1_0000
    ensures PointReads(EscapeAll(EncodeChar(c)) + rest, c, rest)
  {
    hide ByteAt, TailAt, PointAt, Escape, EscapeAll, Tail;
    var n := Point(c);
    var a: byte := 224 + n / 4096;
    var s2 := Escape(Tail(n)) + rest;
    var s1 := Escape(Tail(n / 64)) + s2;
    var s := Escape(a) + s1;
    EscapedThree(a, Tail(n / 64), Tail(n), rest);
    EscapeReads(a, s1);
    EscapeReads(Tail(n / 64), s2);
    EscapeReads(Tail(n), rest);
    TailReads(n / 64, s2);
    TailReads(n, rest);
    assert s[6..] == s1[3..] && s[9..] == s2[3..];
    ThreePoint(s, a, (n / 64) % 64, n % 64);
    Regroup64(n);
    assert PointAt(s) == Some((n, 9));
  }

  lemma FourReads(c: char, rest: string)
    requires 0x1_0000 <= Point(c)
    ensures PointReads(EscapeAll(EncodeChar(c)) + rest, c, rest)
  {
    hide ByteAt, TailAt, PointAt, Escape, EscapeAll, Tail;
    var n := Point(c);
    var a: byte := 240 + n / 262144;
    var s3 := Escape(Tail(n)) + rest;
    var s2 := Escape(Tail(n / 64)) + s3;
    var s1 := Escape(Tail(n / 4096)) + s2;
    var s := Escape(a) + s1;
    EscapedFour(a, Tail(n / 4096), Tail(n / 64), Tail(n), rest);
    EscapeReads(a, s1);
    EscapeReads(Tail(n / 4096), s2);
    EscapeReads(Tail(n / 64), s3);
    EscapeReads(Tail(n), rest);
    TailReads(n / 4096, s2);
    TailReads(n / 64, s3);
    TailReads(n, rest);
    assert s[6..] == s1[3..] && s[9..] == s2[3..] && s[12..] == s3[3..];
    FourPoint(s, a, (n / 4096) % 64, (n / 64) % 64, n % 64);
    Regroup64(n);
    assert PointAt(s) == Some((n, 12));
  }

  lemma EscapedCharDecodes(c: char, rest: string)
    ensures DecodeUri(EscapeAll(EncodeChar(c)) + rest) == Before(c, DecodeUri(rest))
  {
    var n := Point(c);
    if n < 0x80 { OneReads(c, rest); } else if n < 0x800 { TwoReads(c, rest); } else if n < 0x1_0000 { ThreeReads(c, rest); } else { FourReads(c, rest); }
    var s := EscapeAll(EncodeChar(c)) + rest;
    assert s[0] == '%' by { assert EscapeAll(EncodeChar(c))[0] == '%'; }
  }

  /** Decoding what encoding wrote gives the text back, whatever characters it holds. */
  lemma {:induction false} UriRoundTrip(s: string)
    ensures DecodeUri(EncodeUri(s)) == Some(s)
    decreases |s|
  {
    if s != "" {
      var rest := EncodeUri(s[1..]);
      UriRoundTrip(s[1..]);
      if IsPlain(s[0]) {
        assert ([s[0]] + rest)[1..] == rest;
      } else {
        EscapedCharDecodes(s[0], rest);
      }
      assert [s[0]] + s[1..] == s;
    }
  }
}
