/** The terminal helper's control framing: a four-byte big-endian length, then
    that many bytes. What a body means is `decode`, which is any function. */
module Framing {
  import opened Wrappers

  const MAX_FRAME := 65_536

  datatype Taken<+T> = Incomplete | Failed | Took(value: T)

  function Header(size: nat): (header: seq<byte>)
    requires size < 0x1_0000_0000
    ensures |header| == 4
  {
    [size / 0x100_0000, size / 0x1_0000 % 256, size / 256 % 256, size % 256]
  }

  function Size(header: seq<byte>): nat
    requires |header| == 4
  {
    var a: int, b: int, c: int, d: int := header[0], header[1], header[2], header[3];
    ((a * 256 + b) * 256 + c) * 256 + d
  }

  lemma HeaderHoldsSize(size: nat)
    requires size < 0x1_0000_0000
    ensures Size(Header(size)) == size
  {
    assert size / 0x1_0000 == size / 256 / 256;
    assert size / 0x100_0000 == size / 256 / 256 / 256;
  }

  lemma SizeMakesHeader(header: seq<byte>)
    requires |header| == 4
    ensures Size(header) < 0x1_0000_0000 && Header(Size(header)) == header
  {
    var a: int, b: int, c: int, d: int := header[0], header[1], header[2], header[3];
    var size := Size(header);
    assert size == 256 * ((a * 256 + b) * 256 + c) + d;
    assert size / 256 == (a * 256 + b) * 256 + c && size % 256 == d;
    assert size / 0x1_0000 == size / 256 / 256 == a * 256 + b;
    assert size / 0x100_0000 == size / 256 / 256 / 256 == a;
  }

  /** The most significant byte comes first: of two headers the first byte in
      which they differ tells which frame is longer. */
  lemma FirstByteDecides(one: seq<byte>, other: seq<byte>, k: nat)
    requires |one| == |other| == 4 && k < 4 && one[..k] == other[..k] && one[k] < other[k]
    ensures Size(one) < Size(other)
    ensures Size([0, 0, 0, 1]) == 1
  {
    assert forall i :: 0 <= i < k ==> one[i] == one[..k][i] == other[i];
    var a: int, b: int, c: int, d: int := one[0], one[1], one[2], one[3];
    var e: int, f: int, g: int, h: int := other[0], other[1], other[2], other[3];
    assert Size(one) == a * 0x100_0000 + b * 0x1_0000 + c * 0x100 + d;
    assert Size(other) == e * 0x100_0000 + f * 0x1_0000 + g * 0x100 + h;
  }

  predicate ValidSize(size: nat) { 0 < size <= MAX_FRAME }

  /** `frame`: nothing for an empty or oversized body. */
  function Frame(body: seq<byte>): Option<seq<byte>> {
    if ValidSize(|body|) then Some(Header(|body|) + body) else None
  }

  /** Less than a whole frame: more bytes are needed to say anything. */
  predicate Partial(bytes: seq<byte>) {
    |bytes| < 4 || (ValidSize(Size(bytes[..4])) && |bytes| < Size(bytes[..4]) + 4)
  }

  /** One `take_command`: its answer and what is left in the buffer. */
  function Take<T>(decode: seq<byte> -> Option<T>, bytes: seq<byte>): (Taken<T>, seq<byte>) {
    if |bytes| < 4 then (Incomplete, bytes)
    else
      var size := Size(bytes[..4]);
      if !ValidSize(size) then (Failed, bytes)
      else if |bytes| < size + 4 then (Incomplete, bytes)
      else
        match decode(bytes[4..size + 4])
        case None => (Failed, bytes)
        case Some(value) => (Took(value), bytes[size + 4..])
  }

  /** What draining a buffer yields: the commands, the bytes left, and whether
      it stopped at a bad frame. */
  datatype Parsed<T> = Parsed(commands: seq<T>, rest: seq<byte>, failed: bool)

  function Parse<T>(decode: seq<byte> -> Option<T>, stream: seq<byte>): Parsed<T>
    decreases |stream|
  {
    match Take(decode, stream)
    case (Incomplete, _) => Parsed([], stream, false)
    case (Failed, _) => Parsed([], stream, true)
    case (Took(value), rest) =>
      var more := Parse(decode, rest);
      Parsed([value] + more.commands, more.rest, more.failed)
  }

  /** One `read_command` on a stream: what it returns, and what it leaves. */
  datatype ReadResult<+T> = Read(value: T) | EndOfStream | BadFrame

  function ReadOne<T>(decode: seq<byte> -> Option<T>, stream: seq<byte>): (ReadResult<T>, seq<byte>) {
    if |stream| < 4 then (EndOfStream, [])
    else
      var size := Size(stream[..4]);
      if !ValidSize(size) then (BadFrame, stream[4..])
      else if |stream| < size + 4 then (EndOfStream, [])
      else
        match decode(stream[4..size + 4])
        case None => (BadFrame, stream[size + 4..])
        case Some(value) => (Read(value), stream[size + 4..])
  }

  class Buffer<T> {
    var bytes: seq<byte>

    constructor ()
      ensures bytes == []
    {
      bytes := [];
    }

    method Append(chunk: seq<byte>)
      modifies this
      ensures bytes == old(bytes) + chunk
    {
      bytes := bytes + chunk;
    }

    method TakeCommand(decode: seq<byte> -> Option<T>) returns (taken: Taken<T>)
      modifies this
      ensures (taken, bytes) == Take(decode, old(bytes))
      ensures taken.Took? ==> |bytes| < |old(bytes)|
    {
      if |bytes| < 4 {
        return Incomplete;
      }
      var size := Size(bytes[..4]);
      if size == 0 || size > MAX_FRAME {
        return Failed;
      }
      if |bytes| < size + 4 {
        return Incomplete;
      }
      var command := decode(bytes[4..size + 4]);
      if command.None? {
        return Failed;
      }
      bytes := bytes[size + 4..];
      taken := Took(command.value);
    }

    /** The loop that takes every command a read completed. */
    method Drain(decode: seq<byte> -> Option<T>) returns (commands: seq<T>, failed: bool)
      modifies this
      ensures Parsed(commands, bytes, failed) == Parse(decode, old(bytes))
    {
      commands, failed := [], false;
      while true
        invariant var p := Parse(decode, bytes);
                  Parse(decode, old(bytes)) == Parsed(commands + p.commands, p.rest, p.failed)
        decreases |bytes|
      {
        var taken := TakeCommand(decode);
        match taken
        case Incomplete =>
          return;
        case Failed =>
          return commands, true;
        case Took(value) =>
          commands := commands + [value];
      }
    }
  }

  class Reader {
    var remaining: seq<byte>

    constructor (stream: seq<byte>)
      ensures remaining == stream
    {
      remaining := stream;
    }

    /** Exactly `n` bytes, or none and the stream is used up. */
    method ReadExact(n: nat) returns (bytes: Option<seq<byte>>)
      modifies this
      ensures bytes.Some? <==> n <= |old(remaining)|
      ensures bytes.Some? ==> bytes.value == old(remaining)[..n] && remaining == old(remaining)[n..]
      ensures bytes.None? ==> remaining == []
    {
      if |remaining| < n {
        remaining := [];
        return None;
      }
      bytes := Some(remaining[..n]);
      remaining := remaining[n..];
    }

    method ReadCommand<T>(decode: seq<byte> -> Option<T>) returns (r: ReadResult<T>)
      modifies this
      ensures (r, remaining) == ReadOne(decode, old(remaining))
    {
      var header := ReadExact(4);
      if header.None? {
        return EndOfStream;
      }
      var size := Size(header.value);
      if size == 0 || size > MAX_FRAME {
        return BadFrame;
      }
      var body := ReadExact(size);
      if body.None? {
        return EndOfStream;
      }
      assert body.value == old(remaining)[4..size + 4];
      assert remaining == old(remaining)[size + 4..];
      var command := decode(body.value);
      r := if command.None? then BadFrame else Read(command.value);
    }
  }

  /** Both ways of reading agree on the first frame and on what follows it. */
  lemma ReadAgreesWithTake<T>(decode: seq<byte> -> Option<T>, stream: seq<byte>)
    ensures var (taken, rest), (read, left) := Take(decode, stream), ReadOne(decode, stream);
            match taken
            case Took(value) => read == Read(value) && left == rest
            case Failed => read == BadFrame && rest == stream
            case Incomplete => read == EndOfStream && rest == stream && Partial(stream)
  {
  }

  lemma TakeMore<T>(decode: seq<byte> -> Option<T>, a: seq<byte>, b: seq<byte>)
    ensures var (taken, rest), (again, left) := Take(decode, a), Take(decode, a + b);
            match taken
            case Took(value) => again == taken && left == rest + b && |rest| < |a|
            case Failed => again == Failed
            case Incomplete => Partial(a) && rest == a
  {
    if |a| >= 4 {
      assert (a + b)[..4] == a[..4];
      var size := Size(a[..4]);
      if |a| >= size + 4 {
        assert (a + b)[4..size + 4] == a[4..size + 4];
        assert (a + b)[size + 4..] == a[size + 4..] + b;
      }
    }
  }

  /** Draining a first part and then the rest of a stream is draining it whole,
      unless the first part already stopped at a bad frame. */
  lemma {:induction false} ParseInTwo<T>(decode: seq<byte> -> Option<T>, a: seq<byte>, b: seq<byte>)
    ensures var p, whole := Parse(decode, a), Parse(decode, a + b);
            if p.failed then whole.failed && whole.commands == p.commands
            else
              var q := Parse(decode, p.rest + b);
              whole == Parsed(p.commands + q.commands, q.rest, q.failed)
    decreases |a|
  {
    TakeMore(decode, a, b);
    var (taken, rest) := Take(decode, a);
    hide Take;
    if taken.Took? {
      ParseInTwo(decode, rest, b);
    }
  }

  function Concat(chunks: seq<seq<byte>>): seq<byte> {
    if chunks == [] then [] else Concat(chunks[..|chunks| - 1]) + chunks[|chunks| - 1]
  }

  /** Appending each chunk and draining, until a bad frame stops it. */
  function Feed<T>(decode: seq<byte> -> Option<T>, chunks: seq<seq<byte>>): Parsed<T> {
    if chunks == [] then Parsed([], [], false)
    else
      var p := Feed(decode, chunks[..|chunks| - 1]);
      if p.failed then p
      else
        var q := Parse(decode, p.rest + chunks[|chunks| - 1]);
        Parsed(p.commands + q.commands, q.rest, q.failed)
  }

  /** However a stream is cut into reads, the same commands come out, and it
      fails at the same one or is left with the same bytes. */
  lemma {:induction false} ChunksDoNotMatter<T>(decode: seq<byte> -> Option<T>, chunks: seq<seq<byte>>)
    ensures var fed, whole := Feed(decode, chunks), Parse(decode, Concat(chunks));
            && fed.commands == whole.commands && fed.failed == whole.failed
            && (!fed.failed ==> fed.rest == whole.rest)
  {
    if chunks != [] {
      var front := chunks[..|chunks| - 1];
      ChunksDoNotMatter(decode, front);
      ParseInTwo(decode, Concat(front), chunks[|chunks| - 1]);
    }
  }

  ghost predicate Framable(bodies: seq<seq<byte>>) {
    forall i :: 0 <= i < |bodies| ==> ValidSize(|bodies[i]|)
  }

  function Frames(bodies: seq<seq<byte>>): seq<byte>
    requires Framable(bodies)
  {
    if bodies == [] then [] else Frame(bodies[0]).value + Frames(bodies[1..])
  }

  ghost predicate DecodesTo<T>(decode: seq<byte> -> Option<T>, bodies: seq<seq<byte>>, commands: seq<T>) {
    |bodies| == |commands| && forall i :: 0 <= i < |bodies| ==> decode(bodies[i]) == Some(commands[i])
  }

  lemma TakeFrame<T>(decode: seq<byte> -> Option<T>, body: seq<byte>, tail: seq<byte>, value: T)
    requires ValidSize(|body|) && decode(body) == Some(value)
    ensures Take(decode, Frame(body).value + tail) == (Took(value), tail)
  {
    var stream := Frame(body).value + tail;
    HeaderHoldsSize(|body|);
    assert stream[..4] == Header(|body|);
    assert stream[4..|body| + 4] == body;
    assert stream[|body| + 4..] == tail;
  }

  lemma FrameOfValid(body: seq<byte>)
    requires ValidSize(|body|)
    ensures Frame(body).Some?
  {
  }

  /** Parsing undoes framing, and goes on with what follows. */
  lemma {:induction false} ParseInvertsFrames<T>(
    decode: seq<byte> -> Option<T>, bodies: seq<seq<byte>>, commands: seq<T>, tail: seq<byte>)
    requires Framable(bodies) && DecodesTo(decode, bodies, commands)
    ensures var rest := Parse(decode, tail);
            Parse(decode, Frames(bodies) + tail) == Parsed(commands + rest.commands, rest.rest, rest.failed)
  {
    hide Take, Frame;
    if bodies == [] {
      assert Frames(bodies) + tail == tail;
    } else {
      assert ValidSize(|bodies[0]|) && Frame(bodies[0]).Some? by { FrameOfValid(bodies[0]); }
      ParseInvertsFrames(decode, bodies[1..], commands[1..], tail);
      var more := Frames(bodies[1..]) + tail;
      TakeFrame(decode, bodies[0], more, commands[0]);
      assert Frames(bodies) + tail == Frame(bodies[0]).value + more;
      assert commands == [commands[0]] + commands[1..];
    }
  }

  /** The bodies of the frames that parsing takes off a stream. */
  function Bodies<T>(decode: seq<byte> -> Option<T>, stream: seq<byte>): seq<seq<byte>>
    decreases |stream|
  {
    match Take(decode, stream)
    case (Took(_), rest) => [stream[4..Size(stream[..4]) + 4]] + Bodies(decode, rest)
    case _ => []
  }

  lemma TookFrame<T>(decode: seq<byte> -> Option<T>, stream: seq<byte>) returns (body: seq<byte>)
    requires Take(decode, stream).0.Took?
    ensures |stream| >= 4 && Size(stream[..4]) + 4 <= |stream| && body == stream[4..Size(stream[..4]) + 4]
    ensures ValidSize(|body|) && decode(body) == Some(Take(decode, stream).0.value)
    ensures stream == Frame(body).value + Take(decode, stream).1
  {
    SizeMakesHeader(stream[..4]);
    body := stream[4..Size(stream[..4]) + 4];
    hide Size;
  }

  /** No byte is lost or invented: a stream is the frames of the commands it
      yields followed by what is left, which is part of one frame or starts
      with a bad one. */
  lemma {:induction false} NoByteLost<T>(decode: seq<byte> -> Option<T>, stream: seq<byte>)
    ensures var p, bodies := Parse(decode, stream), Bodies(decode, stream);
            && Framable(bodies) && DecodesTo(decode, bodies, p.commands)
            && stream == Frames(bodies) + p.rest
            && (p.failed <==> Take(decode, p.rest).0.Failed?)
            && (!p.failed <==> Partial(p.rest))
    decreases |stream|
  {
    hide Size, Header;
    var (taken, rest) := Take(decode, stream);
    if taken.Took? {
      NoByteLost(decode, rest);
      var body := TookFrame(decode, stream);
      hide Take;
      var bodies := Bodies(decode, stream);
      assert bodies[1..] == Bodies(decode, rest);
      assert stream == Frame(body).value + (Frames(bodies[1..]) + Parse(decode, rest).rest);
    }
  }
}
