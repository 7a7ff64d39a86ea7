/** Newline framing: read_bounded_line over arbitrarily chunked input, and write_line. */
module Framing {
  import opened Wrappers

  newtype byte = b: int | 0 <= b < 256

  const LF: byte := 10
  const CR: byte := 13

  datatype LineResult =
    | EndOfInput
    | Line(bytes: seq<byte>, rest: seq<byte>)
    | TooLong

  /** The position of the first LF, or the length of the input. */
  function LineEnd(input: seq<byte>): (p: nat)
    ensures p <= |input|
  {
    if input == [] || input[0] == LF then 0 else 1 + LineEnd(input[1..])
  }

  lemma {:induction false} LineEndFirst(input: seq<byte>)
    ensures var p := LineEnd(input);
            (p < |input| ==> input[p] == LF) && forall i :: 0 <= i < p ==> input[i] != LF
  {
    if input != [] && input[0] != LF {
      LineEndFirst(input[1..]);
    }
  }

  function StripCr(line: seq<byte>): seq<byte> {
    if line != [] && line[|line| - 1] == CR then line[..|line| - 1] else line
  }

  /** What one call of the reader returns. */
  datatype ReadResult = End | Read(bytes: seq<byte>) | Over

  /** One line off a whole byte stream. The limit counts the newline. An unterminated last line keeps
      its carriage return. */
  function ReadLine(input: seq<byte>, maximum: nat): LineResult {
    var p := LineEnd(input);
    if input == [] then EndOfInput
    else if p == |input| then if p > maximum then TooLong else Line(input, [])
    else if p + 1 > maximum then TooLong
    else Line(StripCr(input[..p]), input[p + 1..])
  }

  /** Every line of a stream, or None when one is too long. */
  function ReadAll(input: seq<byte>, maximum: nat): Option<seq<seq<byte>>>
    decreases |input|
  {
    match ReadLine(input, maximum)
    case EndOfInput => Some([])
    case TooLong => None
    case Line(line, rest) =>
      var others := ReadAll(rest, maximum);
      if others.None? then None else Some([line] + others.value)
  }

  function Framed(line: seq<byte>): seq<byte> {
    line + [LF]
  }

  function FramedAll(lines: seq<seq<byte>>): seq<byte> {
    if lines == [] then [] else Framed(lines[0]) + FramedAll(lines[1..])
  }

  function Flatten(chunks: seq<seq<byte>>): seq<byte> {
    if chunks == [] then [] else chunks[0] + Flatten(chunks[1..])
  }

  // ---- Round trip ------------------------------------------------------------------------

  lemma {:induction false} LineEndIs(input: seq<byte>, p: nat)
    requires p <= |input| && (p < |input| ==> input[p] == LF)
    requires forall i :: 0 <= i < p ==> input[i] != LF
    ensures LineEnd(input) == p
  {
    if p > 0 {
      LineEndIs(input[1..], p - 1);
    }
  }

  predicate Framable(line: seq<byte>, maximum: nat) {
    && LF !in line
    && (line != [] ==> line[|line| - 1] != CR)
    && |line| + 1 <= maximum
  }

  /** A written line reads back, whatever follows it, exactly when it holds no LF, ends in no CR and
      fits the limit together with its newline. */
  lemma WrittenLineReadsBack(line: seq<byte>, rest: seq<byte>, maximum: nat)
    ensures ReadLine(Framed(line) + rest, maximum) == Line(line, rest) <==> Framable(line, maximum)
  {
    var input := Framed(line) + rest;
    LineEndFirst(input);
    assert input[|line|] == LF;
    if LF !in line {
      LineEndIs(input, |line|);
      assert input[..|line|] == line && input[|line| + 1..] == rest;
    } else {
      var i :| 0 <= i < |line| && line[i] == LF;
      assert input[i] == LF;
      assert LineEnd(input) <= i;
    }
  }

  /** line is raw without one carriage return at its end, if there is one. */
  predicate WithoutCr(raw: seq<byte>, line: seq<byte>) {
    raw == line + [CR] || (raw == line && (line == [] || line[|line| - 1] != CR))
  }

  /** One call reads the first line up to its newline, without the newline and one carriage return before it; a last line
      without a newline as it is; and the end only where nothing is left. */
  lemma ReadLineExactly(input: seq<byte>, maximum: nat, raw: seq<byte>, rest: seq<byte>)
    ensures ReadLine(input, maximum) == EndOfInput <==> input == []
    ensures input == raw + [LF] + rest && LF !in raw && |raw| < maximum ==>
              ReadLine(input, maximum).Line? && ReadLine(input, maximum).rest == rest && WithoutCr(raw, ReadLine(input, maximum).bytes)
    ensures input == raw && raw != [] && LF !in raw && |raw| <= maximum ==> ReadLine(input, maximum) == Line(raw, [])
  {
    if input == raw + [LF] + rest && LF !in raw {
      assert input[|raw|] == LF && forall i :: 0 <= i < |raw| ==> input[i] == raw[i];
      LineEndIs(input, |raw|);
      assert input[..|raw|] == raw && input[|raw| + 1..] == rest;
      StripCrIs(raw);
    }
    if input == raw && LF !in raw {
      LineEndIs(input, |raw|);
    }
  }

  lemma StripCrIs(raw: seq<byte>)
    ensures WithoutCr(raw, StripCr(raw))
  {
    if raw != [] && raw[|raw| - 1] == CR {
      assert raw == raw[..|raw| - 1] + [CR];
    }
  }

  lemma NothingLeft(maximum: nat)
    ensures ReadLine([], maximum) == EndOfInput
  {
  }

  /** Whatever is written as framable lines reads back as those lines, and then ends. */
  lemma {:induction false} WrittenLinesReadBack(lines: seq<seq<byte>>, maximum: nat)
    requires forall line :: line in lines ==> Framable(line, maximum)
    ensures ReadAll(FramedAll(lines), maximum) == Some(lines)
  {
    hide ReadLine, Framed;
    if lines == [] {
      assert ReadLine([], maximum) == EndOfInput by { NothingLeft(maximum); }
    } else {
      var rest := FramedAll(lines[1..]);
      WrittenLineReadsBack(lines[0], rest, maximum);
      WrittenLinesReadBack(lines[1..], maximum);
      assert ReadLine(FramedAll(lines), maximum) == Line(lines[0], rest);
      assert [lines[0]] + lines[1..] == lines;
    }
  }

  /** A line too long is refused, however it goes on; the newline counts. */
  lemma TooLongExactly(input: seq<byte>, maximum: nat)
    ensures ReadLine(input, maximum) == TooLong
            <==> |input| > maximum && forall i :: 0 <= i < maximum ==> input[i] != LF
  {
    LineEndFirst(input);
  }

  // ---- The reader and the writer ---------------------------------------------------------

  /** A buffered reader: chunks are what successive fills of its buffer bring. */
  class ChunkedReader {
    var chunks: seq<seq<byte>>

    constructor (chunks: seq<seq<byte>>)
      requires forall c :: c in chunks ==> c != []
      ensures Valid() && Stream() == Flatten(chunks)
    {
      this.chunks := chunks;
    }

    ghost predicate Valid()
      reads this
    {
      forall c :: c in chunks ==> c != []
    }

    /** The bytes still to come, without their division into chunks. */
    ghost function Stream(): seq<byte>
      reads this
    {
      Flatten(chunks)
    }

    method FillBuf() returns (buffer: seq<byte>)
      requires Valid()
      ensures buffer <= Stream()
      ensures buffer == [] <==> Stream() == []
      ensures if chunks == [] then buffer == [] else buffer == chunks[0]
    {
      if chunks == [] {
        return [];
      }
      assert chunks[0] in chunks;
      buffer := chunks[0];
    }

    method Consume(n: nat)
      requires Valid() && chunks != [] && n <= |chunks[0]|
      modifies this
      ensures Valid() && Stream() == old(Stream())[n..]
      ensures |Stream()| == |old(Stream())| - n
    {
      var left := chunks[0][n..];
      ghost var others := chunks[1..];
      assert forall c :: c in others ==> c in chunks;
      assert (chunks[0] + Flatten(others))[n..] == left + Flatten(others);
      if left == [] {
        chunks := chunks[1..];
      } else {
        chunks := [left] + chunks[1..];
        assert chunks[1..] == others;
      }
    }

    /** read_bounded_line: what it returns, and what it leaves to be read, depend on the stream and not
        on how the stream was divided. */
    method ReadBoundedLine(maximum: nat) returns (result: ReadResult)
      requires Valid()
      modifies this
      ensures Valid()
      ensures match ReadLine(old(Stream()), maximum)
              case EndOfInput => result == End && Stream() == []
              case Line(bytes, rest) => result == Read(bytes) && Stream() == rest
              case TooLong => result == Over
    {
      hide ReadLine, LineEnd, StripCr, Flatten, NoLf;
      var line: seq<byte> := [];
      ghost var input := Stream();
      NothingRead();
      while true
        invariant Valid() && input == line + Stream()
        invariant |line| <= maximum && NoLf(line)
        decreases |Stream()|
      {
        var buffer := FillBuf();
        ghost var stream := Stream();
        OneBuffer(line, buffer, stream, maximum);
        if buffer == [] {
          return if line == [] then End else Read(line);
        }
        var newline := LineEnd(buffer);
        var take := if newline < |buffer| then newline + 1 else |buffer|;
        if |line| + take > maximum {
          return Over;
        }
        Moved(line, buffer, stream, take);
        Consume(take);
        line := line + buffer[..take];
        if newline < |buffer| {
          line := line[..|line| - 1];
          return Read(StripCr(line));
        }
      }
    }
  }

  predicate NoLf(line: seq<byte>) {
    forall i :: 0 <= i < |line| ==> line[i] != LF
  }

  lemma NothingRead()
    ensures NoLf([])
  {
  }

  /** What one buffer decides about the line that began with line. */
  lemma OneBuffer(line: seq<byte>, buffer: seq<byte>, stream: seq<byte>, maximum: nat)
    requires NoLf(line) && |line| <= maximum && buffer <= stream && (buffer == [] ==> stream == [])
    ensures var newline := LineEnd(buffer);
            var take := if newline < |buffer| then newline + 1 else |buffer|;
            if buffer == [] then ReadLine(line + stream, maximum) == if line == [] then EndOfInput else Line(line, [])
            else if |line| + take > maximum then ReadLine(line + stream, maximum) == TooLong
            else if newline < |buffer| then
              && (line + buffer[..take])[..|line| + take - 1] == line + buffer[..newline]
              && ReadLine(line + stream, maximum) == Line(StripCr(line + buffer[..newline]), stream[take..])
            else NoLf(line + buffer[..take])
  {
    hide LineEnd, ReadLine;
    var newline := LineEnd(buffer);
    if buffer == [] {
      EndOfStream(line, stream, maximum);
    } else if newline < |buffer| {
      LineCompleted(line, buffer, stream, maximum);
      Cut(line, buffer[..newline + 1], newline);
      assert buffer[..newline + 1][..newline] == buffer[..newline];
    } else {
      LineGoesOn(line, buffer, stream, maximum);
    }
  }

  lemma EndOfStream(line: seq<byte>, stream: seq<byte>, maximum: nat)
    requires NoLf(line) && |line| <= maximum && stream == []
    ensures ReadLine(line + stream, maximum) == if line == [] then EndOfInput else Line(line, [])
  {
    assert line + stream == line;
    LineEndIs(line, |line|);
  }

  lemma ReadLineAt(input: seq<byte>, p: nat, line: seq<byte>, rest: seq<byte>, maximum: nat)
    requires p < |input| && LineEnd(input) == p && input[..p] == line && input[p + 1..] == rest
    ensures ReadLine(input, maximum) == if p + 1 > maximum then TooLong else Line(StripCr(line), rest)
  {
    hide LineEnd, StripCr;
  }

  lemma LineCompleted(line: seq<byte>, buffer: seq<byte>, stream: seq<byte>, maximum: nat)
    requires NoLf(line) && buffer <= stream && LineEnd(buffer) < |buffer|
    ensures var q := LineEnd(buffer);
            ReadLine(line + stream, maximum)
            == if |line| + q + 1 > maximum then TooLong else Line(StripCr(line + buffer[..q]), stream[q + 1..])
  {
    hide LineEnd, StripCr, NoLf, ReadLine;
    var q, input := LineEnd(buffer), line + stream;
    PartialLine(line, buffer, stream);
    Joined(line, buffer, stream, q);
    ReadLineAt(input, |line| + q, line + buffer[..q], stream[q + 1..], maximum);
  }

  lemma Joined(line: seq<byte>, buffer: seq<byte>, stream: seq<byte>, q: nat)
    requires buffer <= stream && q < |buffer|
    ensures (line + stream)[..|line| + q] == line + buffer[..q]
    ensures (line + stream)[|line| + q + 1..] == stream[q + 1..]
  {
    Cut(line, stream, q);
    assert stream[..q] == buffer[..q];
  }

  lemma Moved(line: seq<byte>, buffer: seq<byte>, stream: seq<byte>, take: nat)
    requires buffer <= stream && take <= |buffer|
    ensures line + stream == (line + buffer[..take]) + stream[take..]
  {
    assert stream[..take] == buffer[..take];
  }

  lemma Cut(line: seq<byte>, stream: seq<byte>, q: nat)
    requires q < |stream|
    ensures (line + stream)[..|line| + q] == line + stream[..q]
    ensures (line + stream)[|line| + q + 1..] == stream[q + 1..]
  {
  }

  lemma LineGoesOn(line: seq<byte>, buffer: seq<byte>, stream: seq<byte>, maximum: nat)
    requires NoLf(line) && buffer != [] && buffer <= stream && LineEnd(buffer) == |buffer|
    ensures NoLf(line + buffer) && buffer[..|buffer|] == buffer
    ensures |line| + |buffer| > maximum ==> ReadLine(line + stream, maximum) == TooLong
  {
    LineEndFirst(buffer);
    PartialLine(line, buffer, stream);
  }

  /** Where the line ends, as far as one buffer after the bytes of line tells. */
  lemma PartialLine(line: seq<byte>, buffer: seq<byte>, stream: seq<byte>)
    requires NoLf(line) && buffer <= stream
    ensures var p := LineEnd(line + stream);
            if LineEnd(buffer) < |buffer| then p == |line| + LineEnd(buffer) else p >= |line| + |buffer|
  {
    var input, q := line + stream, LineEnd(buffer);
    LineEndFirst(buffer);
    LineEndFirst(input);
    forall i | 0 <= i < |line| + q ensures input[i] != LF {
      if i >= |line| {
        assert input[i] == buffer[i - |line|];
      }
    }
    if q < |buffer| {
      assert input[|line| + q] == buffer[q];
      LineEndIs(input, |line| + q);
    }
  }

  /** A wire that lines are written to. */
  class LineWriter {
    var written: seq<byte>

    constructor ()
      ensures written == []
    {
      written := [];
    }

    method WriteLine(line: seq<byte>)
      modifies this
      ensures written == old(written) + Framed(line)
    {
      written := written + line;
      written := written + [LF];
    }
  }
}
