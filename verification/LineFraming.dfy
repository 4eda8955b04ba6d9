/** Incremental newline framing: the lines do not depend on where the chunks were cut. */
module LineFraming {
  import opened Utf8
  import opened Utf8Reader

  /** The lines a newline has closed, and the unterminated rest: split on newlines with the last part popped. */
  function Closed(s: string): (r: (seq<string>, string))
    decreases |s|
  {
    if s == "" then ([], "")
    else
      var (lines, tail) := Closed(s[..|s| - 1]);
      if s[|s| - 1] == '\n' then (lines + [tail], "") else (lines, tail + [s[|s| - 1]])
  }

  lemma {:induction false} ClosedMore(s: string, more: string)
    ensures Closed(s + more) == (Closed(s).0 + Closed(Closed(s).1 + more).0, Closed(Closed(s).1 + more).1)
    decreases |more|
  {
    var tail := Closed(s).1;
    if more == "" {
      assert s + more == s && tail + more == tail;
      TailOpen(s);
      assert Closed(s).0 + [] == Closed(s).0;
    } else {
      var init, last := more[..|more| - 1], more[|more| - 1];
      ClosedMore(s, init);
      assert (s + more)[..|s + more| - 1] == s + init;
      assert (tail + more)[..|tail + more| - 1] == tail + init;
      assert (s + more)[|s + more| - 1] == last && (tail + more)[|tail + more| - 1] == last;
      var (lines, rest) := Closed(tail + init);
      assert Closed(s).0 + lines + [rest] == Closed(s).0 + (lines + [rest]);
    }
  }

  /** What is held back has no newline in it. */
  lemma {:induction false} TailOpen(s: string)
    ensures '\n' !in Closed(s).1 && Closed(Closed(s).1) == ([], Closed(s).1)
  {
    if s != "" {
      TailOpen(s[..|s| - 1]);
      var tail := Closed(s[..|s| - 1]).1;
      if s[|s| - 1] != '\n' { assert (tail + [s[|s| - 1]])[..|tail|] == tail; }
    }
  }

  lemma {:induction false} NothingClosed(s: string)
    requires '\n' !in s
    ensures Closed(s) == ([], s)
  {
    if s != "" {
      NothingClosed(s[..|s| - 1]);
      assert s == s[..|s| - 1] + [s[|s| - 1]];
    }
  }

  // ----- the framer

  /** What a child hands over: bytes, which may split a character, or text already decoded. */
  datatype Chunk = Bytes(bytes: seq<byte>) | Text(text: string)

  /** The decoder after a chunk, and the text of the chunk; text passes the decoder by. */
  function Take(r: Reader, chunk: Chunk): (after: (Reader, string))
    requires Sound(r)
    ensures Sound(after.0)
  {
    match chunk
    case Bytes(bytes) => Feed(r, bytes)
    case Text(text) => (r, text)
  }

  function Size(chunk: Chunk): nat {
    match chunk
    case Bytes(bytes) => |bytes|
    case Text(text) => Length(text)
  }

  class LineFramer {
    var reader: Reader
    var pending: string
    var bytes: nat

    ghost predicate Valid()
      reads this
    {
      Sound(reader) && '\n' !in pending
    }

    constructor ()
      ensures Valid() && reader == START && pending == "" && bytes == 0
    {
      reader, pending, bytes := START, "", 0;
    }

    /** The bytes of a chunk through this framer's own decoder. */
    method Decode(chunk: Chunk) returns (text: string)
      requires Valid()
      modifies this`reader, this`bytes
      ensures Valid() && (reader, text) == Take(old(reader), chunk) && bytes == old(bytes) + Size(chunk)
    {
      match chunk
      case Bytes(more) =>
        bytes := bytes + |more|;
        text := "";
        var next := reader;
        for i := 0 to |more|
          invariant Sound(next) && (next, text) == Feed(reader, more[..i])
        {
          assert more[..i + 1][..i] == more[..i];
          var (after, out) := Read(next, more[i]);
          next, text := after, text + out;
        }
        assert more[..|more|] == more;
        reader := next;
      case Text(decoded) =>
        bytes := bytes + Length(decoded);
        text := decoded;
    }

    /** The lines this chunk closes; the rest waits. */
    method Push(chunk: Chunk) returns (lines: seq<string>)
      requires Valid()
      modifies this
      ensures Valid() && reader == Take(old(reader), chunk).0 && bytes == old(bytes) + Size(chunk)
      ensures (lines, pending) == Closed(old(pending) + Take(old(reader), chunk).1)
    {
      var text := Decode(chunk);
      TailOpen(pending + text);
      if |text| == 0 {
        assert pending + text == pending;
        NothingClosed(pending);
        return [];
      }
      pending := pending + text;
      if '\n' !in pending {
        NothingClosed(pending);
        return [];
      }
      var part := "";
      lines := [];
      for i := 0 to |pending|
        invariant (lines, part) == Closed(pending[..i])
      {
        assert pending[..i + 1][..i] == pending[..i];
        if pending[i] == '\n' { lines, part := lines + [part], ""; } else { part := part + [pending[i]]; }
      }
      assert pending[..|pending|] == pending;
      pending := part;
    }

    /** The unterminated tail of a stream that ended in the middle of a line, or of a character. */
    method Flush() returns (lines: seq<string>)
      requires Valid()
      modifies this`reader, this`pending
      ensures Valid() && reader == START && pending == ""
      ensures lines == (if old(pending) + Rest(old(reader)) == "" then [] else [old(pending) + Rest(old(reader))])
    {
      pending := pending + Rest(reader);
      reader := START;
      var tail := pending;
      pending := "";
      lines := if |tail| == 0 then [] else [tail];
    }
  }

  // ----- whole streams

  /** The decoder after all chunks, and all their text. */
  function TakeAll(chunks: seq<Chunk>): (after: (Reader, string))
    ensures Sound(after.0)
  {
    if chunks == [] then (START, "")
    else
      var (r, text) := TakeAll(chunks[..|chunks| - 1]);
      var (end, more) := Take(r, chunks[|chunks| - 1]);
      (end, text + more)
  }

  /** The text a stream of chunks is. */
  function TextOf(chunks: seq<Chunk>): string {
    TakeAll(chunks).1 + Rest(TakeAll(chunks).0)
  }

  /** The lines of a text: those a newline closed, and the rest if there is any. */
  function Frames(s: string): seq<string> {
    Closed(s).0 + if Closed(s).1 == "" then [] else [Closed(s).1]
  }

  /** A rest that holds no newline only lengthens the last line. */
  lemma TailGrows(s: string, rest: string)
    requires '\n' !in rest
    ensures Frames(s + rest) == Closed(s).0 + if Closed(s).1 + rest == "" then [] else [Closed(s).1 + rest]
  {
    TailOpen(s);
    ClosedMore(s, rest);
    NothingClosed(Closed(s).1 + rest);
    assert Closed(s).0 + [] == Closed(s).0;
  }

  /** Whatever the chunks, the framed lines are those of the text they are. */
  method FrameAll(chunks: seq<Chunk>) returns (lines: seq<string>)
    ensures lines == Frames(TextOf(chunks))
  {
    hide Take, Frames;
    var framer := new LineFramer();
    lines := [];
    for i := 0 to |chunks|
      invariant framer.Valid() && fresh(framer) && framer.reader == TakeAll(chunks[..i]).0
      invariant (lines, framer.pending) == Closed(TakeAll(chunks[..i]).1)
    {
      assert chunks[..i + 1][..i] == chunks[..i];
      ClosedMore(TakeAll(chunks[..i]).1, Take(framer.reader, chunks[i]).1);
      var more := framer.Push(chunks[i]);
      lines := lines + more;
    }
    assert chunks[..|chunks|] == chunks;
    TailGrows(TakeAll(chunks).1, Rest(framer.reader));
    var tail := framer.Flush();
    lines := lines + tail;
  }

  function JoinedBytes(chunks: seq<Chunk>): seq<byte>
    requires forall c :: c in chunks ==> c.Bytes?
  {
    if chunks == [] then [] else JoinedBytes(chunks[..|chunks| - 1]) + chunks[|chunks| - 1].bytes
  }

  lemma {:induction false} TakesJoined(chunks: seq<Chunk>)
    requires forall c :: c in chunks ==> c.Bytes?
    ensures TakeAll(chunks) == Feed(START, JoinedBytes(chunks))
  {
    if chunks != [] {
      TakesJoined(chunks[..|chunks| - 1]);
      FeedMore(START, JoinedBytes(chunks[..|chunks| - 1]), chunks[|chunks| - 1].bytes);
    }
  }

  /** Wherever the bytes were cut, inside a character or not and well-formed or not, the text is that of all bytes together. */
  lemma CutsDoNotShow(chunks: seq<Chunk>)
    requires forall c :: c in chunks ==> c.Bytes?
    ensures TextOf(chunks) == Decoded(JoinedBytes(chunks))
  {
    TakesJoined(chunks);
  }

  /** A text encoded and cut anywhere frames as the text itself, without a mark in front. */
  lemma EncodedFrames(chunks: seq<Chunk>, s: string)
    requires (forall c :: c in chunks ==> c.Bytes?) && JoinedBytes(chunks) == Encode(s)
    ensures Frames(TextOf(chunks)) == Frames(Unmarked(false, s))
  {
    CutsDoNotShow(chunks);
    DecodedIsText(s);
  }

  /** Framing loses nothing: joined back with newlines, closed lines and tail are the text. */
  lemma {:induction false} FramingIsLossless(s: string)
    ensures Unframed(Closed(s).0) + Closed(s).1 == s
  {
    if s != "" {
      FramingIsLossless(s[..|s| - 1]);
      var (lines, tail) := Closed(s[..|s| - 1]);
      if s[|s| - 1] == '\n' { assert (lines + [tail])[..|lines|] == lines; }
    }
  }

  function Unframed(lines: seq<string>): string {
    if lines == [] then "" else Unframed(lines[..|lines| - 1]) + lines[|lines| - 1] + "\n"
  }
}
