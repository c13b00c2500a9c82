/** The incremental stream parser: a growable buffer filled by the caller, a
    restart offset left by a stop request or a packet limit, and a mode that
    survives calls for packets larger than any buffer may become. */
module ParserModel {
  import opened Words
  import opened PacketStream
  import opened ParserTrace

  /** `InvalidPacket` stands for the exception of the same name. */
  datatype Outcome = Parsed(rc: int) | InvalidPacket

  lemma AppendedInside(was: seq<Byte>, now: seq<Byte>, from: nat, len: nat, data: seq<Byte>)
    requires from <= len && len + |data| <= |was| == |now|
    requires forall i :: 0 <= i < len ==> now[i] == was[i]
    requires forall i :: 0 <= i < |data| ==> now[len + i] == data[i]
    ensures now[from..len + |data|] == was[from..len] + data
  {
  }

  /** The first doubling of a size that is enough. */
  function Doubled(size: nat, need: nat): (r: nat)
    requires size > 0
    ensures need <= r && (r == 2 * size || r < 2 * need)
    decreases need - size
  {
    if need <= 2 * size then 2 * size else Doubled(2 * size, need)
  }

  function Clipped(size: nat, max: nat): nat {
    if size > max then max else size
  }

  class Parser {
    var buffer: array<Byte>
    const maxSize: nat
    var len: nat
    var restartOffset: nat
    var oversizeLen: nat
    var oversizeOffset: nat

    /** Every callback made since construction or `Reset`. */
    var trace: seq<Callback>
    /** Every byte appended since then, and whether an exception ended parsing. */
    ghost var stream: seq<Byte>
    ghost var aborted: bool

    /** The buffer bounds, which hold whatever the stream contains. */
    ghost predicate Layout()
      reads this
    {
      && HEADER <= buffer.Length <= maxSize <= 0x8000_0000
      && restartOffset <= len <= buffer.Length
      && (restartOffset == len ==> len == 0)
    }

    ghost function Pending(): seq<Byte>
      requires Layout()
      reads this, buffer
    {
      buffer[restartOffset..len]
    }

    ghost predicate Valid()
      reads this, buffer
    {
      && Layout()
      && !aborted
      && (NoWrap(stream) ==> Tracks(maxSize, stream, trace, Pending(), oversizeLen, oversizeOffset))
    }

    constructor (initialSize: nat, maxSize: nat)
      requires HEADER <= initialSize <= maxSize <= 0x8000_0000
      ensures Valid() && fresh(buffer)
      ensures this.maxSize == maxSize && trace == [] && stream == [] && buffer.Length == initialSize
      ensures len == restartOffset == oversizeLen == oversizeOffset == 0
    {
      buffer := new Byte[initialSize](_ => 0);
      this.maxSize := maxSize;
      len, restartOffset, oversizeLen, oversizeOffset := 0, 0, 0, 0;
      trace, stream, aborted := [], [], false;
    }

    method Reset()
      requires Layout()
      modifies this
      ensures Valid() && buffer == old(buffer)
      ensures trace == [] && stream == []
      ensures len == restartOffset == oversizeLen == oversizeOffset == 0
    {
      len, restartOffset, oversizeLen, oversizeOffset := 0, 0, 0, 0;
      trace, stream, aborted := [], [], false;
    }

    function FillLength(): (n: nat)
      requires Layout()
      reads this
      ensures n <= buffer.Length
    {
      buffer.Length - len
    }

    /** The caller writes `data` at the fill address and then reports its length;
        `ok` is false where the source throws `logic_error`. */
    method AppendBytes(data: seq<Byte>) returns (ok: bool)
      requires Valid()
      modifies this, buffer
      ensures Valid() && buffer == old(buffer) && trace == old(trace)
      ensures ok <==> |data| <= old(FillLength())
      ensures Pending() == old(Pending()) + (if ok then data else [])
      ensures stream == old(stream) + (if ok then data else [])
      ensures FillLength() == old(FillLength()) - (if ok then |data| else 0)
    {
      hide NoWrap, Tracks;
      ok := |data| <= FillLength();
      if !ok {
        assert stream == stream + [] && Pending() == Pending() + [];
        return;
      }
      ghost var before, was := Pending(), buffer[..];
      if NoWrap(stream + data) {
        NoWrapPrefix(stream, data);
        TracksAppend(maxSize, stream, trace, before, oversizeLen, oversizeOffset, data);
      }
      forall i | 0 <= i < |data| {
        buffer[len + i] := data[i];
      }
      AppendedInside(was, buffer[..], restartOffset, len, data);
      len := len + |data|;
      stream := stream + data;
      assert Pending() == before + data;
    }

    /** Doubles the buffer until `need` bytes fit, clipped to the maximum, and
        moves the `count` bytes at `from` to the front. */
    method Grow(from: nat, count: nat, need: nat)
      requires Layout() && from + count <= buffer.Length
      requires buffer.Length < need <= maxSize && 0 < count
      modifies this
      ensures Layout() && fresh(buffer) && need <= buffer.Length
      ensures old(buffer.Length) > 0 && buffer.Length == Clipped(Doubled(old(buffer.Length), need), maxSize)
      ensures restartOffset == 0 && len == count && Pending() == old(buffer[from..from + count])
      ensures oversizeLen == old(oversizeLen) && oversizeOffset == old(oversizeOffset)
      ensures trace == old(trace) && stream == old(stream) && aborted == old(aborted)
    {
      var newSize := NewSize(need);
      var newBuffer := new Byte[newSize](_ => 0);
      forall i | 0 <= i < count {
        newBuffer[i] := buffer[from + i];
      }
      assert newBuffer[..count] == buffer[from..from + count];
      buffer := newBuffer;
      restartOffset, len := 0, count;
      assert Pending() == newBuffer[..count];
    }

    method NewSize(need: nat) returns (newSize: nat)
      requires 0 < buffer.Length < need <= maxSize
      ensures newSize == Clipped(Doubled(buffer.Length, need), maxSize)
      ensures need <= newSize <= maxSize
    {
      newSize := 2 * buffer.Length;
      while newSize < need
        invariant buffer.Length < newSize < 2 * need
        invariant Doubled(buffer.Length, need) == if newSize < need then Doubled(newSize, need) else newSize
      {
        newSize := newSize * 2;
      }
      if newSize > maxSize {
        newSize := maxSize;
      }
    }

    /** The end of a round: move the leftover fragment to the front if the data ran
        out, or remember where to restart. */
    method Settle(from: nat, count: nat, ranOut: bool)
      requires Layout() && from + count <= buffer.Length
      requires !ranOut ==> from + count == len
      modifies this, buffer
      ensures Layout() && buffer == old(buffer)
      ensures Pending() == old(buffer[from..from + count])
      ensures ranOut || count == 0 ==> restartOffset == 0 && len == count
      ensures !ranOut && count > 0 ==> restartOffset == from && len == old(len)
      ensures oversizeLen == old(oversizeLen) && oversizeOffset == old(oversizeOffset)
      ensures trace == old(trace) && stream == old(stream) && aborted == old(aborted)
    {
      if count > 0 {
        if ranOut {
          if from != 0 {
            forall i | 0 <= i < count {
              buffer[i] := buffer[from + i];
            }
          }
          len, restartOffset := count, 0;
        } else {
          restartOffset := from;
        }
      } else {
        len, restartOffset := 0, 0;
      }
    }

    /** An oversize packet under way takes what it needs from the front of the data. */
    method ContinueOversize(answer: nat -> bool) returns (p: nat, processed: nat, stopped: bool)
      requires Layout() && restartOffset < len
      requires NoWrap(stream) ==> Tracks(maxSize, stream, trace, Pending(), oversizeLen, oversizeOffset)
      modifies this`trace, this`oversizeLen, this`oversizeOffset
      ensures restartOffset <= p <= len && processed <= 1
      ensures oversizeLen != 0 ==> p == len
      ensures Obeyed(old(trace), trace, answer, stopped)
      ensures NoWrap(stream) ==>
        Round(maxSize, buffer.Length, stream, old(trace), |Pending()|, trace, buffer[p..len],
              oversizeLen, oversizeOffset, processed)
    {
      hide NoWrap, Tracks, Round, Obeyed;
      ghost var pending, size := Pending(), buffer.Length;
      p, processed, stopped := restartOffset, 0, false;
      if NoWrap(stream) {
        RoundStart(maxSize, size, stream, trace, pending, oversizeLen, oversizeOffset);
      }
      ObeyedStart(trace, answer);
      if oversizeLen != 0 {
        var chunkLen := oversizeLen;
        if len - p < chunkLen {
          chunkLen := len - p;
        }
        if NoWrap(stream) {
          RoundNextChunk(maxSize, size, stream, trace, pending, oversizeLen, oversizeOffset, chunkLen);
        }
        assert buffer[p..p + chunkLen] == pending[..chunkLen];
        assert buffer[p + chunkLen..len] == pending[chunkLen..];
        ObeyedNext(trace, trace, answer, Chunk(false, oversizeOffset, pending[..chunkLen]));
        stopped := answer(|trace|);
        trace := trace + [Chunk(false, oversizeOffset, buffer[p..p + chunkLen])];
        oversizeOffset := oversizeOffset + chunkLen;
        oversizeLen := oversizeLen - chunkLen;
        p := p + chunkLen;
        if oversizeLen == 0 {
          processed := processed + 1;
        }
      }
    }

    /** A packet over the maximum takes all of the data as its first chunk. */
    method StartOversize(p: nat, packetLength: nat, answer: nat -> bool,
                         ghost before: seq<Callback>, ghost count: nat, ghost processed: nat)
      returns (stopped: bool)
      requires Layout() && p + HEADER <= len && oversizeLen == 0 && Obeyed(before, trace, answer, false)
      requires maxSize < packetLength == PacketLength(buffer[p..len]) && !Malformed(buffer[p..len])
      requires NoWrap(stream) ==>
        && PacketLength(buffer[p..len]) == WireLength(buffer[p..len])
        && Round(maxSize, buffer.Length, stream, before, count, trace, buffer[p..len], 0, oversizeOffset, processed)
      modifies this`trace, this`oversizeLen, this`oversizeOffset
      ensures Obeyed(before, trace, answer, stopped)
      ensures NoWrap(stream) ==>
        Round(maxSize, buffer.Length, stream, before, count, trace, [], oversizeLen, oversizeOffset, processed)
    {
      hide NoWrap, Round, Obeyed, PacketLength, PayloadLength;
      var chunk := buffer[p..len];
      if NoWrap(stream) {
        RoundFirstChunk(maxSize, buffer.Length, stream, before, count, trace, chunk, oversizeOffset, processed);
      }
      ObeyedNext(before, trace, answer, Chunk(true, 0, chunk));
      stopped := answer(|trace|);
      trace := trace + [Chunk(true, 0, chunk)];
      oversizeLen := packetLength - |chunk|;
      oversizeOffset := |chunk|;
    }

    /** The packet loop, on the data from `p` to the end. */
    method ParsePackets(p0: nat, processed0: nat, stopped0: bool, limit: nat, answer: nat -> bool,
                        ghost before: seq<Callback>, ghost count: nat)
      returns (p: nat, processed: nat, stopped: bool, exit: Exit)
      requires Layout() && p0 <= len && Obeyed(before, trace, answer, stopped0)
      requires oversizeLen != 0 ==> p0 == len
      requires processed0 <= limit
      requires NoWrap(stream) ==> Round(maxSize, buffer.Length, stream, before, count, trace, buffer[p0..len],
                                        oversizeLen, oversizeOffset, processed0)
      modifies this
      ensures Layout() && stream == old(stream) && aborted == old(aborted)
      ensures p <= len && processed <= limit
      ensures exit.Resized? ==> fresh(buffer) && p == restartOffset == 0 && FillLength() > 0 && !stopped
      ensures !exit.Resized? ==> buffer == old(buffer) && len == old(len) && p0 <= p
      ensures Obeyed(before, trace, answer, stopped)
      ensures NoWrap(stream) ==> Round(maxSize, old(buffer.Length), stream, before, count, trace, buffer[p..len],
                                       oversizeLen, oversizeOffset, processed)
      ensures NoWrap(stream) && (exit == OutOfPackets ==> !stopped && processed < limit) ==>
        Delivered(maxSize, trace) == Packets(stream) && (Malformed(Remainder(stream)) <==> exit == Threw)
      ensures exit == OutOfPackets && !stopped && processed < limit ==> len - p < buffer.Length
    {
      hide NoWrap, Packets, Remainder, Reassemble, Delivered, PayloadLength, PacketLength, Round, Tracks, Obeyed;
      p, processed, stopped := p0, processed0, stopped0;
      ghost var size := buffer.Length;
      var validLen: nat := len - p;

      while validLen >= HEADER && processed < limit && !stopped
        invariant Layout() && p0 <= p && p + validLen == len
        invariant buffer == old(buffer) && len == old(len)
        invariant stream == old(stream) && aborted == old(aborted)
        invariant Obeyed(before, trace, answer, stopped)
        invariant oversizeLen != 0 ==> validLen == 0
        invariant processed <= limit
        invariant NoWrap(stream) ==>
          Round(maxSize, size, stream, before, count, trace, buffer[p..len], oversizeLen, oversizeOffset, processed)
        modifies this
        decreases limit - processed, validLen
      {
        var header := buffer[p..p + validLen];
        if NoWrap(stream) {
          RoundPacketLength(maxSize, size, stream, before, count, trace, header, oversizeOffset, processed);
        }

        if PayloadLength(header) % 4 != 0 {
          if NoWrap(stream) {
            RoundDone(maxSize, size, stream, before, count, trace, header, 0, oversizeOffset, processed);
          }
          return p, processed, stopped, Threw;
        }
        var packetLength := PacketLength(header);

        if maxSize < packetLength {
          stopped := StartOversize(p, packetLength, answer, before, count, processed);
          p := p + validLen;
          validLen := 0;
          break;
        }

        if buffer.Length < packetLength {
          if NoWrap(stream) {
            RoundDone(maxSize, size, stream, before, count, trace, header, 0, oversizeOffset, processed);
          }
          Grow(p, validLen, packetLength);
          assert Pending() == header;
          return 0, processed, stopped, Resized;
        }

        if validLen < packetLength {
          break;
        }

        if NoWrap(stream) {
          RoundWhole(maxSize, size, stream, before, count, trace, header, oversizeOffset, processed, packetLength);
        }
        assert header[packetLength..] == buffer[p + packetLength..len];
        ObeyedNext(before, trace, answer, Whole(header[..packetLength]));
        stopped := answer(|trace|);
        trace := trace + [Whole(header[..packetLength])];
        p := p + packetLength;
        validLen := validLen - packetLength;
        processed := processed + 1;
      }

      ghost var rest := buffer[p..len];
      assert oversizeLen != 0 ==> rest == [];
      if NoWrap(stream) && !stopped && processed < limit {
        RoundDone(maxSize, size, stream, before, count, trace, rest, oversizeLen, oversizeOffset, processed);
      }
      exit := OutOfPackets;
    }

    /** `answer(i)` is what the callback `trace[i]` returns: true asks for a stop. */
    method BufferParse(maxPackets: nat, answer: nat -> bool) returns (r: Outcome)
      requires Valid()
      modifies this, buffer
      ensures Layout() && stream == old(stream)
      ensures buffer == old(buffer) || fresh(buffer)
      // A stop request is obeyed at once, and decides the sign of the result.
      ensures Obeyed(old(trace), trace, answer, Stopped(old(trace), trace, answer))
      ensures r.Parsed? ==> Valid() && (if Stopped(old(trace), trace, answer) then r.rc <= 0 else r.rc >= 0)
      ensures r.Parsed? && maxPackets != 0 ==> r.rc <= maxPackets && -r.rc <= maxPackets
      // The result counts the packets completed by this call.
      ensures r.Parsed? && NoWrap(stream) ==>
        |Delivered(maxSize, trace)| - |Delivered(maxSize, old(trace))| == if r.rc < 0 then -r.rc else r.rc
      ensures NoWrap(stream) ==> Reassemble(maxSize, trace).Assembly?
      // A call that was neither stopped nor limited delivers all there is, and leaves room.
      ensures r.Parsed? && !Stopped(old(trace), trace, answer) && RanOut(maxPackets, r.rc) && NoWrap(stream) ==>
        && restartOffset == 0 && FillLength() > 0
        && Delivered(maxSize, trace) == Packets(stream) && !Malformed(Remainder(stream))
      // After a stop, or at its limit, what is left stays where it is.
      ensures
        var halted := Stopped(old(trace), trace, answer) || (maxPackets != 0 && r.Parsed? && r.rc == maxPackets);
        r.Parsed? && halted && buffer == old(buffer) && Pending() != [] ==>
          len == old(len) && old(restartOffset) <= restartOffset
      // Every callback uses up buffered bytes.
      ensures r.Parsed? && NoWrap(stream) && |old(trace)| < |trace| ==> |Pending()| < |old(Pending())|
      ensures r.Parsed? && NoWrap(stream) && |old(trace)| == |trace| ==> |Pending()| == |old(Pending())|
      // An exception comes at the first malformed header, and after every packet before it.
      ensures r.InvalidPacket? && NoWrap(stream) ==>
        Delivered(maxSize, trace) == Packets(stream) && Malformed(Remainder(stream))
      ensures aborted <==> r.InvalidPacket?
    {
      hide NoWrap, Packets, Remainder, Reassemble, Delivered, PayloadLength, Round, Tracks, Obeyed, Stopped;
      ghost var before, count, size := trace, len - restartOffset, buffer.Length;

      if len - restartOffset == 0 {
        if NoWrap(stream) {
          RoundStart(maxSize, size, stream, trace, Pending(), oversizeLen, oversizeOffset);
          RoundEnd(maxSize, size, stream, before, count, trace, Pending(), oversizeLen, oversizeOffset, 0);
          RoundDone(maxSize, size, stream, before, count, trace, Pending(), oversizeLen, oversizeOffset, 0);
        }
        ObeyedStart(trace, answer);
        ObeyedEnd(before, trace, answer, false);
        return Parsed(0);
      }

      var limit: nat := if maxPackets == 0 then buffer.Length else maxPackets;
      var p, processed, stopped := ContinueOversize(answer);
      var exit;
      p, processed, stopped, exit := ParsePackets(p, processed, stopped, limit, answer, before, count);
      if NoWrap(stream) {
        RoundEnd(maxSize, size, stream, before, count, trace, buffer[p..len], oversizeLen, oversizeOffset, processed);
      }

      ObeyedEnd(before, trace, answer, stopped);
      match exit
      case Threw =>
        aborted := true;
        r := InvalidPacket;
      case Resized =>
        r := Parsed(processed);
      case OutOfPackets =>
        Settle(p, len - p, !stopped && processed < limit);
        r := Parsed(if stopped then 0 - processed else processed);
    }
  }

  /** How the packet loop ends: by running out of data or of its limit or on a stop
      request, by enlarging the buffer, or by an exception. */
  datatype Exit = OutOfPackets | Resized | Threw

  /** The last callback made since `before` asked for a stop. */
  predicate Stopped(before: seq<Callback>, now: seq<Callback>, answer: nat -> bool) {
    |before| < |now| && answer(|now| - 1)
  }

  /** From `before` to `now` the parser made callbacks until one asked for a stop. */
  ghost predicate Obeyed(before: seq<Callback>, now: seq<Callback>, answer: nat -> bool, stopped: bool) {
    && before <= now
    && stopped == Stopped(before, now, answer)
    && forall i :: |before| <= i < |now| - 1 ==> !answer(i)
  }

  lemma ObeyedStart(before: seq<Callback>, answer: nat -> bool)
    ensures Obeyed(before, before, answer, false)
  {}

  lemma ObeyedNext(before: seq<Callback>, now: seq<Callback>, answer: nat -> bool, c: Callback)
    requires Obeyed(before, now, answer, false)
    ensures Obeyed(before, now + [c], answer, answer(|now|))
  {}

  lemma ObeyedEnd(before: seq<Callback>, now: seq<Callback>, answer: nat -> bool, stopped: bool)
    requires Obeyed(before, now, answer, stopped)
    ensures stopped == Stopped(before, now, answer) && before <= now
    ensures stopped ==> |before| < |now|
    ensures |before| == |now| ==> before == now
  {}

  predicate RanOut(maxPackets: nat, rc: int) {
    maxPackets == 0 || rc < maxPackets
  }

  /** The 32-bit length the code computes is the true one exactly below 2^32; above
      it is shorter than a header, and a parser that trusts it loses its place. */
  lemma PacketLengthIsExact(s: seq<Byte>)
    requires |s| >= HEADER
    ensures PacketLength(s) == WireLength(s) <==> WireLength(s) < TWO32
    ensures WireLength(s) >= TWO32 ==> PacketLength(s) < HEADER
  {}

  lemma {:induction false} MalformedEnds(s: seq<Byte>, more: seq<Byte>)
    requires Malformed(Remainder(s))
    ensures Packets(s + more) == Packets(s) && Malformed(Remainder(s + more))
    decreases |s|
  {
    hide PayloadLength;
    HeaderDecides(s, more);
    if StartsWithPacket(s) {
      var n := WireLength(s);
      assert (s + more)[n..] == s[n..] + more;
      MalformedEnds(s[n..], more);
      assert (s + more)[..n] == s[..n];
    }
  }

  /** Appends as many of the bytes that have arrived as asked for and as fit. */
  method Feed(parser: Parser, input: seq<Byte>, fed0: nat, wanted: nat) returns (fed: nat)
    requires parser.Valid() && fed0 <= |input| && parser.stream == input[..fed0] && NoWrap(input)
    modifies parser, parser.buffer
    ensures parser.Valid() && parser.buffer == old(parser.buffer) && parser.trace == old(parser.trace)
    ensures fed0 <= fed <= |input| && parser.stream == input[..fed]
    ensures fed0 < |input| && old(parser.FillLength()) > 0 ==> fed0 < fed
    ensures fed == fed0 ==> parser.Pending() == old(parser.Pending()) && parser.FillLength() == old(parser.FillLength())
  {
    hide NoWrap, Tracks;
    fed := fed0;
    if fed < |input| && parser.FillLength() > 0 {
      var room := parser.FillLength();
      var n := if 0 < wanted < room then wanted else room;
      n := if n < |input| - fed then n else |input| - fed;
      var ok := parser.AppendBytes(input[fed..fed + n]);
      assert input[..fed + n] == input[..fed] + input[fed..fed + n];
      fed := fed + n;
    }
  }

  /** Parses once. All has been delivered when the parser throws, or runs out of data after
      the last byte has arrived; otherwise the buffer has less in it, or room for more. */
  method ParseOnce(parser: Parser, input: seq<Byte>, fed: nat, limit: nat, answer: nat -> bool)
    returns (done: bool, invalid: bool)
    requires parser.Valid() && fed <= |input| && parser.stream == input[..fed] && NoWrap(input)
    modifies parser, parser.buffer
    ensures parser.stream == old(parser.stream) && (parser.buffer == old(parser.buffer) || fresh(parser.buffer))
    ensures done ==> Delivered(parser.maxSize, parser.trace) == Packets(input)
                     && Reassemble(parser.maxSize, parser.trace).Assembly?
                     && (invalid <==> Malformed(Remainder(input)))
    ensures !done ==>
      && parser.Valid()
      && (|parser.Pending()| < |old(parser.Pending())|
          || (|parser.Pending()| == |old(parser.Pending())| && fed < |input| && parser.FillLength() > 0))
  {
    hide NoWrap, Packets, Remainder, Reassemble, Delivered, Malformed, Tracks, Obeyed, Stopped;
    assert input == input[..fed] + input[fed..];
    NoWrapPrefix(input[..fed], input[fed..]);
    var before := parser.trace;
    var r := parser.BufferParse(limit, answer);
    ObeyedEnd(before, parser.trace, answer, Stopped(before, parser.trace, answer));
    if r.InvalidPacket? {
      MalformedEnds(input[..fed], input[fed..]);
      return true, true;
    }
    done := fed == |input| && !Stopped(before, parser.trace, answer) && RanOut(limit, r.rc);
    invalid := false;
    assert input[..|input|] == input;
  }

  /** A caller that keeps reading: round `i` appends up to `take(i)` of the bytes that
      have arrived and parses with the limit `limits(i)`, and after a stop request it
      just comes back. However the bytes are split, whatever the limits and whenever
      callbacks stop the parse, the one-shot parse of the input is delivered. */
  method ReadStream(initialSize: nat, maxSize: nat, input: seq<Byte>,
                    take: nat -> nat, limits: nat -> nat, answer: nat -> bool)
    returns (trace: seq<Callback>, invalid: bool)
    requires HEADER <= initialSize <= maxSize <= 0x8000_0000
    requires NoWrap(input)
    ensures Reassemble(maxSize, trace).Assembly?
    ensures Delivered(maxSize, trace) == Packets(input)
    ensures invalid <==> Malformed(Remainder(input))
  {
    hide NoWrap, Packets, Remainder, Reassemble, Delivered, Malformed, Tracks;
    var parser := new Parser(initialSize, maxSize);
    var fed: nat, round: nat, done := 0, 0, false;
    invalid := false;
    while !done
      invariant fresh(parser) && fresh(parser.buffer) && parser.maxSize == maxSize
      invariant fed <= |input| && parser.stream == input[..fed] && (!done ==> parser.Valid())
      invariant done ==> Delivered(maxSize, parser.trace) == Packets(input)
                         && Reassemble(maxSize, parser.trace).Assembly?
                         && (invalid <==> Malformed(Remainder(input)))
      decreases !done, |input| - fed, if done then 0 else |parser.Pending()|, !done && parser.FillLength() == 0
    {
      fed := Feed(parser, input, fed, take(round));
      done, invalid := ParseOnce(parser, input, fed, limits(round), answer);
      round := round + 1;
    }
    trace := parser.trace;
  }

  /** Any frames, and a part of one more, in a stream that arrives in any pieces: exactly
      the whole frames are delivered, byte for byte, and the parser throws if and only if
      it has the header of a frame whose payload is not whole words. */
  method ReadFrames(initialSize: nat, maxSize: nat, frames: seq<Frame>, last: Frame, n: nat,
                    take: nat -> nat, limits: nat -> nat, answer: nat -> bool)
    returns (trace: seq<Callback>, invalid: bool)
    requires HEADER <= initialSize <= maxSize <= 0x8000_0000
    requires AllFit(frames)
    requires last.Fits() && n <= |last.Bytes()| && (last.WholeWords() ==> n < |last.Bytes()|)
    ensures Reassemble(maxSize, trace).Assembly?
    ensures Delivered(maxSize, trace) == FrameBytes(frames)
    ensures invalid <==> n >= 16 && !last.WholeWords()
  {
    hide Frame.Bytes, NoWrap, Packets, Remainder, Reassemble, Delivered, Malformed, Concat;
    FramesParse(frames, last, n);
    trace, invalid := ReadStream(initialSize, maxSize, Concat(FrameBytes(frames)) + last.Bytes()[..n], take, limits, answer);
  }
}
