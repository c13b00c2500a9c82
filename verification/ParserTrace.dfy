/** The parser's callbacks, and what a receiver can rebuild from them. */
module ParserTrace {
  import opened Words
  import opened PacketStream

  /** One virtual call: `rxPacket(pkt)`, or `rxOversizePkt(hdr, chunk, offset, len)`
      with `first` telling whether `hdr` was passed. */
  datatype Callback =
    | Whole(pkt: seq<Byte>)
    | Chunk(first: bool, offset: nat, bytes: seq<Byte>)

  /** Packets rebuilt so far and the bytes of an oversize packet under way. */
  datatype Assembly =
    | Assembly(done: seq<seq<Byte>>, partial: seq<Byte>)
    | Broken

  /** A receiver that accepts only whole packets of at most `max` bytes and, for a
      larger one, a headed chunk followed by chunks at contiguous offsets. */
  function Receive(max: nat, a: Assembly, c: Callback): Assembly {
    if a.Broken? then Broken else
    match c
    case Whole(p) =>
      if a.partial == [] && IsPacket(p) && |p| <= max then Assembly(a.done + [p], []) else Broken
    case Chunk(true, offset, b) =>
      if a.partial == [] && offset == 0 && |b| >= HEADER && !Malformed(b)
         && max < WireLength(b) && |b| < WireLength(b)
      then Assembly(a.done, b) else Broken
    case Chunk(false, offset, b) =>
      if |a.partial| >= HEADER && offset == |a.partial| && b != []
         && |a.partial| + |b| <= WireLength(a.partial)
      then
        if |a.partial| + |b| == WireLength(a.partial)
        then Assembly(a.done + [a.partial + b], [])
        else Assembly(a.done, a.partial + b)
      else Broken
  }

  function Reassemble(max: nat, trace: seq<Callback>): Assembly {
    if trace == [] then Assembly([], [])
    else Receive(max, Reassemble(max, trace[..|trace| - 1]), trace[|trace| - 1])
  }

  function Delivered(max: nat, trace: seq<Callback>): seq<seq<Byte>> {
    var a := Reassemble(max, trace);
    if a.Broken? then [] else a.done
  }

  lemma ReassembleAppend(max: nat, trace: seq<Callback>, c: Callback)
    ensures Reassemble(max, trace + [c]) == Receive(max, Reassemble(max, trace), c)
  {
  }

  /** Nothing is lost, repeated or reordered: the rebuilt packets, the oversize
      packet under way and the bytes still buffered are exactly the stream. */
  predicate Tracks(max: nat, stream: seq<Byte>, trace: seq<Callback>, pending: seq<Byte>,
                   oversizeLen: nat, oversizeOffset: nat)
  {
    var a := Reassemble(max, trace);
    && a.Assembly?
    && AllPackets(a.done)
    && stream == Concat(a.done) + a.partial + pending
    && (if a.partial == [] then oversizeLen == 0
        else
          && |a.partial| >= HEADER && !Malformed(a.partial)
          && oversizeOffset == |a.partial|
          && oversizeLen + |a.partial| == WireLength(a.partial)
          && oversizeLen > 0)
  }

  /** What `Tracks` says about the one-shot parse of the same stream. */
  lemma TracksPackets(max: nat, stream: seq<Byte>, trace: seq<Callback>, pending: seq<Byte>,
                      oversizeLen: nat, oversizeOffset: nat)
    requires Tracks(max, stream, trace, pending, oversizeLen, oversizeOffset)
    ensures var a := Reassemble(max, trace);
            && Packets(stream) == a.done + Packets(a.partial + pending)
            && Remainder(stream) == Remainder(a.partial + pending)
            && (NoWrap(stream) ==> NoWrap(a.partial + pending))
  {
    var a := Reassemble(max, trace);
    assert stream == Concat(a.done) + (a.partial + pending);
    PacketsOfConcat(a.done, a.partial + pending);
  }

  lemma TracksAppend(max: nat, stream: seq<Byte>, trace: seq<Callback>, pending: seq<Byte>,
                     oversizeLen: nat, oversizeOffset: nat, data: seq<Byte>)
    requires Tracks(max, stream, trace, pending, oversizeLen, oversizeOffset)
    ensures Tracks(max, stream + data, trace, pending + data, oversizeLen, oversizeOffset)
  {
  }

  lemma PacketAtFront(s: seq<Byte>)
    requires StartsWithPacket(s)
    ensures IsPacket(s[..WireLength(s)])
  {
  }

  lemma TracksWhole(max: nat, stream: seq<Byte>, trace: seq<Callback>, pending: seq<Byte>,
                    offset: nat, n: nat)
    requires Tracks(max, stream, trace, pending, 0, offset)
    requires StartsWithPacket(pending) && n == WireLength(pending) <= max
    ensures Tracks(max, stream, trace + [Whole(pending[..n])], pending[n..], 0, offset)
    ensures Delivered(max, trace + [Whole(pending[..n])]) == Delivered(max, trace) + [pending[..n]]
  {
    var a := Reassemble(max, trace);
    var p := pending[..n];
    ReassembleAppend(max, trace, Whole(p));
    ConcatAppend(a.done, p);
    PacketAtFront(pending);
    assert stream == Concat(a.done) + p + pending[n..] by {
      assert pending == p + pending[n..];
    }
  }

  lemma TracksFirstChunk(max: nat, stream: seq<Byte>, trace: seq<Callback>, pending: seq<Byte>, offset: nat)
    requires Tracks(max, stream, trace, pending, 0, offset)
    requires |pending| >= HEADER && !Malformed(pending)
    requires |pending| <= max < WireLength(pending)
    ensures Tracks(max, stream, trace + [Chunk(true, 0, pending)], [],
                   WireLength(pending) - |pending|, |pending|)
    ensures Delivered(max, trace + [Chunk(true, 0, pending)]) == Delivered(max, trace)
  {
  }

  lemma TracksNextChunk(max: nat, stream: seq<Byte>, trace: seq<Callback>, pending: seq<Byte>,
                        oversizeLen: nat, offset: nat, n: nat)
    requires Tracks(max, stream, trace, pending, oversizeLen, offset)
    requires 0 < n <= oversizeLen && n <= |pending|
    ensures var c := Chunk(false, offset, pending[..n]);
            && Tracks(max, stream, trace + [c], pending[n..], oversizeLen - n, offset + n)
            && |Delivered(max, trace + [c])| == |Delivered(max, trace)| + (if n == oversizeLen then 1 else 0)
  {
    var a := Reassemble(max, trace);
    var b := pending[..n];
    ReassembleAppend(max, trace, Chunk(false, offset, b));
    assert pending == b + pending[n..];
    if a.partial != [] {
      HeaderDecides(a.partial, b);
    }
    if n == oversizeLen {
      ConcatAppend(a.done, a.partial + b);
      assert IsPacket(a.partial + b);
      assert stream == Concat(a.done) + (a.partial + b) + pending[n..];
    } else {
      assert stream == Concat(a.done) + (a.partial + b) + pending[n..];
    }
  }

  /** What one call of the parser keeps: besides `Tracks`, how many packets it has
      completed and that every callback used up buffered bytes. */
  ghost predicate Round(max: nat, size: nat, stream: seq<Byte>, before: seq<Callback>, countBefore: nat,
                        trace: seq<Callback>, pending: seq<Byte>, oversizeLen: nat, oversizeOffset: nat,
                        processed: nat)
  {
    && before <= trace
    && Tracks(max, stream, trace, pending, oversizeLen, oversizeOffset)
    && |Delivered(max, trace)| == |Delivered(max, before)| + processed
    && (|before| < |trace| ==> |pending| < countBefore)
    && (|before| == |trace| ==> |pending| == countBefore)
    && (processed > 0 ==> HEADER * (processed - 1) + 1 + |pending| <= size)
  }

  lemma RoundStart(max: nat, size: nat, stream: seq<Byte>, trace: seq<Callback>, pending: seq<Byte>,
                   oversizeLen: nat, oversizeOffset: nat)
    requires Tracks(max, stream, trace, pending, oversizeLen, oversizeOffset)
    ensures Round(max, size, stream, trace, |pending|, trace, pending, oversizeLen, oversizeOffset, 0)
  {}

  lemma RoundEnd(max: nat, size: nat, stream: seq<Byte>, before: seq<Callback>, countBefore: nat,
                 trace: seq<Callback>, pending: seq<Byte>, oversizeLen: nat, oversizeOffset: nat,
                 processed: nat)
    requires Round(max, size, stream, before, countBefore, trace, pending, oversizeLen, oversizeOffset, processed)
    requires HEADER <= size
    ensures Tracks(max, stream, trace, pending, oversizeLen, oversizeOffset)
    ensures Reassemble(max, trace).Assembly?
    ensures |Delivered(max, trace)| - |Delivered(max, before)| == processed < size
    ensures |before| < |trace| ==> |pending| < countBefore
    ensures |before| == |trace| ==> |pending| == countBefore
  {}

  /** When no complete packet is left over, the one-shot parse has been delivered, and
      what is left is malformed only if the leftover bytes are. */
  lemma RoundDone(max: nat, size: nat, stream: seq<Byte>, before: seq<Callback>, countBefore: nat,
                  trace: seq<Callback>, pending: seq<Byte>, oversizeLen: nat, oversizeOffset: nat,
                  processed: nat)
    requires Round(max, size, stream, before, countBefore, trace, pending, oversizeLen, oversizeOffset, processed)
    requires !StartsWithPacket(pending) && (oversizeLen != 0 ==> pending == [])
    ensures Delivered(max, trace) == Packets(stream)
    ensures Malformed(Remainder(stream)) <==> Malformed(pending)
  {
    TracksPackets(max, stream, trace, pending, oversizeLen, oversizeOffset);
    var a := Reassemble(max, trace);
    assert a.partial == [] ==> a.partial + pending == pending;
    assert pending == [] ==> a.partial + pending == a.partial;
  }

  lemma RoundPacketLength(max: nat, size: nat, stream: seq<Byte>, before: seq<Callback>, countBefore: nat,
                    trace: seq<Callback>, pending: seq<Byte>, oversizeOffset: nat, processed: nat)
    requires Round(max, size, stream, before, countBefore, trace, pending, 0, oversizeOffset, processed)
    requires NoWrap(stream)
    ensures |pending| >= HEADER && !Malformed(pending) ==> PacketLength(pending) == WireLength(pending)
  {
    TracksPackets(max, stream, trace, pending, 0, oversizeOffset);
    assert [] + pending == pending;
  }

  lemma RoundNextChunk(max: nat, size: nat, stream: seq<Byte>, before: seq<Callback>,
                       pending: seq<Byte>, oversizeLen: nat, offset: nat, n: nat)
    requires Round(max, size, stream, before, |pending|, before, pending, oversizeLen, offset, 0)
    requires 0 < n <= oversizeLen && n <= |pending| <= size
    ensures Round(max, size, stream, before, |pending|, before + [Chunk(false, offset, pending[..n])],
                  pending[n..], oversizeLen - n, offset + n, if n == oversizeLen then 1 else 0)
  {
    TracksNextChunk(max, stream, before, pending, oversizeLen, offset, n);
  }

  lemma RoundWhole(max: nat, size: nat, stream: seq<Byte>, before: seq<Callback>, countBefore: nat,
                   trace: seq<Callback>, pending: seq<Byte>, offset: nat, processed: nat, n: nat)
    requires Round(max, size, stream, before, countBefore, trace, pending, 0, offset, processed)
    requires |pending| <= size
    requires StartsWithPacket(pending) && n == WireLength(pending) <= max
    ensures Round(max, size, stream, before, countBefore, trace + [Whole(pending[..n])], pending[n..],
                  0, offset, processed + 1)
  {
    TracksWhole(max, stream, trace, pending, offset, n);
  }

  lemma RoundFirstChunk(max: nat, size: nat, stream: seq<Byte>, before: seq<Callback>, countBefore: nat,
                        trace: seq<Callback>, pending: seq<Byte>, offset: nat, processed: nat)
    requires Round(max, size, stream, before, countBefore, trace, pending, 0, offset, processed)
    requires |pending| >= HEADER && !Malformed(pending)
    requires |pending| <= max < WireLength(pending)
    ensures Round(max, size, stream, before, countBefore, trace + [Chunk(true, 0, pending)], [],
                  WireLength(pending) - |pending|, |pending|, processed)
  {
    TracksFirstChunk(max, stream, trace, pending, offset);
  }
}
