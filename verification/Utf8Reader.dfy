/** Reading UTF-8 byte by byte as a streaming text decoder does: what is incomplete is carried, what is malformed is replaced. */
module Utf8Reader {
  import opened Utf8

  const REPLACEMENT: char := '\U{FFFD}'
  const MARK: char := '\U{FEFF}'

  // ----- one character's bytes

  /** How many continuation bytes follow a first byte, 4 for a byte that starts nothing. */
  function Trailing(b: byte): nat {
    if b < 0x80 then 0 else if 0xC2 <= b < 0xE0 then 1 else if 0xE0 <= b < 0xF0 then 2 else if 0xF0 <= b < 0xF5 then 3 else 4
  }

  /** Whether b can follow the first byte: nothing overlong, no surrogates, nothing past the last scalar value. */
  predicate Seconds(lead: byte, b: byte) {
    (if lead == 0xE0 then 0xA0 else if lead == 0xF0 then 0x90 else 0x80) <= b
    <= (if lead == 0xED then 0x9F else if lead == 0xF4 then 0x8F else 0xBF)
  }

  predicate Follows(held: seq<byte>, b: byte)
    requires held != []
  {
    if |held| == 1 then Seconds(held[0], b) else Continues(b)
  }

  /** The bytes of a character so far, more to come. */
  predicate Partial(held: seq<byte>) {
    held == [] || (1 <= |held| <= Trailing(held[0]) <= 3 && (|held| > 1 ==> Seconds(held[0], held[1])) && (|held| > 2 ==> Continues(held[2])))
  }

  /** The scalar value that bytes held and then b spell. */
  function Spelled(held: seq<byte>, b: byte): (n: nat)
    requires held != [] && Partial(held) && |held| == Trailing(held[0]) && Follows(held, b)
    ensures n < 0x11_0000 && !(0xD800 <= n < 0xE000)
  {
    match |held|
    case 1 => 64 * (held[0] - 192) + (b - 128)
    case 2 => 4096 * (held[0] - 224) + 64 * (held[1] - 128) + (b - 128)
    case _ => 262144 * (held[0] - 240) + 4096 * (held[1] - 128) + 64 * (held[2] - 128) + (b - 128)
  }

  // ----- the decoder

  /** What the decoder carries: a character's first bytes, and whether any text has come out. */
  datatype Reader = Reader(held: seq<byte>, begun: bool)

  const START := Reader([], false)

  predicate Sound(r: Reader) {
    Partial(r.held)
  }

  /** A byte that starts a character, or is one, or is none. */
  function First(b: byte): (r: (seq<byte>, string))
    ensures Partial(r.0)
  {
    if Trailing(b) == 0 then ([], [b as char]) else if Trailing(b) == 4 then ([], [REPLACEMENT]) else ([b], "")
  }

  /** One byte: it continues what is held, or what is held is replaced and the byte read afresh. */
  function Raw(held: seq<byte>, b: byte): (r: (seq<byte>, string))
    requires Partial(held)
    ensures Partial(r.0)
  {
    if held == [] then First(b)
    else if !Follows(held, b) then (First(b).0, [REPLACEMENT] + First(b).1)
    else if |held| == Trailing(held[0]) then ([], [Spelled(held, b) as char])
    else (held + [b], "")
  }

  /** A byte order mark is dropped where it is the first character. */
  function Unmarked(begun: bool, text: string): string {
    if !begun && text != "" && text[0] == MARK then text[1..] else text
  }

  function Read(r: Reader, b: byte): (after: (Reader, string))
    requires Sound(r)
    ensures Sound(after.0)
  {
    var (held, text) := Raw(r.held, b);
    (Reader(held, r.begun || text != ""), Unmarked(r.begun, text))
  }

  /** decode(bytes, {stream: true}): what the decoder holds afterwards, and the text that came out. */
  function Feed(r: Reader, bytes: seq<byte>): (after: (Reader, string))
    requires Sound(r)
    ensures Sound(after.0)
  {
    if bytes == [] then (r, "")
    else
      var (mid, text) := Feed(r, bytes[..|bytes| - 1]);
      var (end, more) := Read(mid, bytes[|bytes| - 1]);
      (end, text + more)
  }

  /** decode(): what is still incomplete is replaced. */
  function Rest(r: Reader): string {
    if r.held == [] then "" else [REPLACEMENT]
  }

  /** The text a whole stream of bytes decodes to. */
  function Decoded(bytes: seq<byte>): string {
    Feed(START, bytes).1 + Rest(Feed(START, bytes).0)
  }

  lemma {:induction false} FeedMore(r: Reader, x: seq<byte>, y: seq<byte>)
    requires Sound(r)
    ensures Feed(r, x + y) == (Feed(Feed(r, x).0, y).0, Feed(r, x).1 + Feed(Feed(r, x).0, y).1)
    decreases |y|
  {
    hide Read, Sound;
    if y == [] {
      assert x + y == x && Feed(r, x).1 + "" == Feed(r, x).1;
    } else {
      var init, last := y[..|y| - 1], y[|y| - 1];
      FeedMore(r, x, init);
      assert (x + y)[..|x + y| - 1] == x + init && (x + y)[|x + y| - 1] == last;
      var mid := Feed(r, x);
      var next := Feed(mid.0, init);
      Appended(mid.1, next.1, Read(next.0, last).1);
      assert Feed(r, x + y) == (Read(next.0, last).0, (mid.1 + next.1) + Read(next.0, last).1);
    }
  }

  lemma Appended(a: string, b: string, c: string)
    ensures (a + b) + c == a + (b + c)
  {}

  // ----- reading back what was encoded

  lemma FeedOne(r: Reader, b: byte)
    requires Sound(r)
    ensures Feed(r, [b]) == Read(r, b)
  {
    assert [b][..0] == [];
    assert Feed(r, []) == (r, "");
    assert "" + Read(r, b).1 == Read(r, b).1;
  }

  lemma Feed2(r: Reader, a: byte, b: byte)
    requires Sound(r)
    ensures var s := Read(r, a); Feed(r, [a, b]) == (Read(s.0, b).0, s.1 + Read(s.0, b).1)
  {
    FeedMore(r, [a], [b]);
    FeedOne(r, a);
    FeedOne(Read(r, a).0, b);
    assert [a] + [b] == [a, b];
  }

  /** The bytes of one character, fed to a decoder between characters, come out as that character. */
  lemma CharReads(begun: bool, c: char)
    ensures Feed(Reader([], begun), EncodeChar(c)) == (Reader([], true), Unmarked(begun, [c]))
  {
    hide Feed, Read;
    var n, r := Point(c), Reader([], begun);
    if n < 0x80 {
      FeedOne(r, n);
      OneByte(begun, c);
    } else if n < 0x800 {
      TwoBytes(begun, c);
    } else if n < 0x1_0000 {
      ThreeBytes(begun, c);
    } else {
      FourBytes(begun, c);
    }
  }

  lemma OneByte(begun: bool, c: char)
    requires Point(c) < 0x80
    ensures Read(Reader([], begun), Point(c)) == (Reader([], true), Unmarked(begun, [c]))
  {}

  /** A byte that is only taken in. */
  lemma Taken(held: seq<byte>, begun: bool, b: byte)
    requires Partial(held) && Partial(held + [b])
    ensures Read(Reader(held, begun), b) == (Reader(held + [b], begun), "")
  {
    if held == [] { assert held + [b] == [b]; } else { assert (held + [b])[|held|] == b; }
  }

  /** The byte that completes a character. */
  lemma Completed(held: seq<byte>, begun: bool, b: byte, c: char)
    requires Partial(held) && held != [] && |held| == Trailing(held[0]) && Follows(held, b) && Spelled(held, b) == Point(c)
    ensures Read(Reader(held, begun), b) == (Reader([], true), Unmarked(begun, [c]))
  {}

  lemma Digits64(n: nat)
    ensures n == 64 * (n / 64) + n % 64 && n == 4096 * (n / 4096) + 64 * (n / 64 % 64) + n % 64
    ensures n == 262144 * (n / 262144) + 4096 * (n / 4096 % 64) + 64 * (n / 64 % 64) + n % 64
  {
    assert n / 64 / 64 == n / 4096 && n / 4096 / 64 == n / 262144;
  }

  lemma TwoBytes(begun: bool, c: char)
    requires 0x80 <= Point(c) < 0x800
    ensures Feed(Reader([], begun), EncodeChar(c)) == (Reader([], true), Unmarked(begun, [c]))
  {
    hide Feed, Read;
    var n := Point(c);
    var lead: byte := 192 + n / 64;
    Digits64(n);
    Feed2(Reader([], begun), lead, Tail(n));
    assert [] + [lead] == [lead];
    Taken([], begun, lead);
    Completed([lead], begun, Tail(n), c);
    assert "" + Unmarked(begun, [c]) == Unmarked(begun, [c]);
  }

  lemma ThreeBytes(begun: bool, c: char)
    requires 0x800 <= Point(c) < 0x1_0000
    ensures Feed(Reader([], begun), EncodeChar(c)) == (Reader([], true), Unmarked(begun, [c]))
  {
    hide Feed, Read;
    var n := Point(c);
    var lead: byte := 224 + n / 4096;
    var second := Tail(n / 64);
    Digits64(n);
    assert [] + [lead] == [lead] && [lead] + [second] == [lead, second] && [lead, second] + [Tail(n)] == EncodeChar(c);
    Taken([], begun, lead);
    Taken([lead], begun, second);
    Completed([lead, second], begun, Tail(n), c);
    Feed2(Reader([], begun), lead, second);
    FeedMore(Reader([], begun), [lead, second], [Tail(n)]);
    FeedOne(Reader([lead, second], begun), Tail(n));
    assert "" + "" == "" && "" + Unmarked(begun, [c]) == Unmarked(begun, [c]);
  }

  lemma FourBytes(begun: bool, c: char)
    requires 0x1_0000 <= Point(c)
    ensures Feed(Reader([], begun), EncodeChar(c)) == (Reader([], true), Unmarked(begun, [c]))
  {
    hide Feed, Read;
    var n := Point(c);
    var lead: byte := 240 + n / 262144;
    var second, third := Tail(n / 4096), Tail(n / 64);
    Digits64(n);
    assert [] + [lead] == [lead] && [lead] + [second] == [lead, second] && [lead, second] + [third] == [lead, second, third];
    assert [lead, second] + [third, Tail(n)] == EncodeChar(c);
    Taken([], begun, lead);
    Taken([lead], begun, second);
    Taken([lead, second], begun, third);
    Completed([lead, second, third], begun, Tail(n), c);
    Feed2(Reader([], begun), lead, second);
    Feed2(Reader([lead, second], begun), third, Tail(n));
    FeedMore(Reader([], begun), [lead, second], [third, Tail(n)]);
    assert "" + "" == "" && "" + Unmarked(begun, [c]) == Unmarked(begun, [c]);
  }

  /** A whole text, fed in its encoding, comes out again without a mark in front. */
  lemma {:induction false} EncodedReads(s: string)
    ensures Feed(START, Encode(s)) == (Reader([], s != ""), Unmarked(false, s))
  {
    hide EncodeChar, Read;
    if s != "" {
      var init, last := s[..|s| - 1], s[|s| - 1];
      EncodedReads(init);
      FeedMore(START, Encode(init), EncodeChar(last));
      CharReads(init != "", last);
      assert s == init + [last];
      assert Unmarked(false, s) == Unmarked(false, init) + Unmarked(init != "", [last]);
    } else {
      assert Encode(s) == [];
    }
  }

  /** Decoding inverts encoding, but for one byte order mark in front. */
  lemma DecodedIsText(s: string)
    ensures Decoded(Encode(s)) == Unmarked(false, s)
  {
    EncodedReads(s);
  }
}
