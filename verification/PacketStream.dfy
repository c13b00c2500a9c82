/** What a byte stream of ADARA packets means, independently of how a parser
    meets it: the reference the incremental parser is proved against. */
module PacketStream {
  import opened Words

  const HEADER: nat := 16

  function PayloadLength(s: seq<Byte>): U32
    requires |s| >= HEADER
  {
    Word(s)
  }

  /** The true size of the packet whose header starts `s`. */
  function WireLength(s: seq<Byte>): nat
    requires |s| >= HEADER
  {
    PayloadLength(s) + HEADER
  }

  /** The size the code computes, in 32 bits. */
  function PacketLength(s: seq<Byte>): U32
    requires |s| >= HEADER
  {
    Wrap32(PayloadLength(s) + HEADER)
  }

  predicate Malformed(s: seq<Byte>) {
    |s| >= HEADER && PayloadLength(s) % 4 != 0
  }

  /** `s` starts with a complete packet. */
  predicate StartsWithPacket(s: seq<Byte>) {
    |s| >= HEADER && !Malformed(s) && WireLength(s) <= |s|
  }

  predicate IsPacket(s: seq<Byte>) {
    StartsWithPacket(s) && |s| == WireLength(s)
  }

  /** The one-shot parse: the complete packets at the front of `s`, up to the
      first header that is incomplete or malformed. */
  function Packets(s: seq<Byte>): seq<seq<Byte>>
    decreases |s|
  {
    if StartsWithPacket(s) then [s[..WireLength(s)]] + Packets(s[WireLength(s)..]) else []
  }

  /** What `Packets` leaves over. */
  function Remainder(s: seq<Byte>): seq<Byte>
    decreases |s|
  {
    if StartsWithPacket(s) then Remainder(s[WireLength(s)..]) else s
  }

  /** No header met at a packet boundary announces 2^32 bytes or more. */
  predicate NoWrap(s: seq<Byte>)
    decreases |s|
  {
    |s| >= HEADER && !Malformed(s) ==>
      WireLength(s) < TWO32 && (WireLength(s) <= |s| ==> NoWrap(s[WireLength(s)..]))
  }

  function Concat(ps: seq<seq<Byte>>): seq<Byte> {
    if ps == [] then [] else ps[0] + Concat(ps[1..])
  }

  predicate AllPackets(ps: seq<seq<Byte>>) {
    forall i :: 0 <= i < |ps| ==> IsPacket(ps[i])
  }

  lemma HeaderDecides(s: seq<Byte>, more: seq<Byte>)
    requires |s| >= HEADER
    ensures PayloadLength(s + more) == PayloadLength(s)
  {}

  lemma PacketInFront(p: seq<Byte>, tail: seq<Byte>)
    requires IsPacket(p)
    ensures StartsWithPacket(p + tail) && WireLength(p + tail) == |p|
    ensures Packets(p + tail) == [p] + Packets(tail)
    ensures Remainder(p + tail) == Remainder(tail)
    ensures NoWrap(p + tail) ==> NoWrap(tail)
  {
  }

  /** The one-shot parse of a stream is the only way to cut it into packets. */
  lemma {:induction false} PacketsOfConcat(ps: seq<seq<Byte>>, tail: seq<Byte>)
    requires AllPackets(ps)
    ensures Packets(Concat(ps) + tail) == ps + Packets(tail)
    ensures Remainder(Concat(ps) + tail) == Remainder(tail)
    ensures NoWrap(Concat(ps) + tail) ==> NoWrap(tail)
  {
    if ps == [] {
      assert Concat(ps) + tail == tail;
    } else {
      assert Concat(ps) + tail == ps[0] + (Concat(ps[1..]) + tail);
      PacketInFront(ps[0], Concat(ps[1..]) + tail);
      PacketsOfConcat(ps[1..], tail);
    }
  }

  lemma {:induction false} NoWrapPrefix(s: seq<Byte>, more: seq<Byte>)
    requires NoWrap(s + more)
    ensures NoWrap(s)
    decreases |s|
  {
    if |s| >= HEADER {
      HeaderDecides(s, more);
    }
    if StartsWithPacket(s) {
      var n := WireLength(s);
      assert (s + more)[n..] == s[n..] + more;
      NoWrapPrefix(s[n..], more);
    }
  }

  lemma {:induction false} ConcatAppend(ps: seq<seq<Byte>>, p: seq<Byte>)
    ensures Concat(ps + [p]) == Concat(ps) + p
  {
    if ps == [] {
      assert ps + [p] == [p];
      assert Concat([p]) == p + Concat([]);
    } else {
      assert (ps + [p])[1..] == ps[1..] + [p];
      ConcatAppend(ps[1..], p);
    }
  }

  // ---- Packets from their fields ----

  /** A packet as its sender knows it: the type, the time and the payload. */
  datatype Frame = Frame(kind: U32, sec: U32, nsec: U32, payload: seq<Byte>)
  {
    /** Its length field and its whole length fit in 32 bits. */
    predicate Fits() {
      |payload| + 16 < TWO32
    }

    predicate WholeWords() {
      |payload| % 4 == 0
    }

    /** The header's four words, the payload's length first, and the payload. */
    function Bytes(): (bytes: seq<Byte>)
      requires Fits()
      ensures |bytes| == 16 + |payload|
    {
      WordBytes(|payload|) + WordBytes(kind) + WordBytes(sec) + WordBytes(nsec) + payload
    }
  }

  predicate AllFit(frames: seq<Frame>) {
    forall i :: 0 <= i < |frames| ==> frames[i].Fits() && frames[i].WholeWords()
  }

  function FrameBytes(frames: seq<Frame>): (ps: seq<seq<Byte>>)
    requires AllFit(frames)
    ensures |ps| == |frames|
  {
    seq(|frames|, i requires 0 <= i < |frames| => frames[i].Bytes())
  }

  /** What the first `n` bytes of a frame say, whatever follows them. */
  lemma FrameHeader(f: Frame, n: nat, more: seq<Byte>)
    requires f.Fits() && HEADER <= n <= |f.Bytes()|
    ensures WireLength(f.Bytes()[..n] + more) == |f.Bytes()|
    ensures Malformed(f.Bytes()[..n] + more) <==> !f.WholeWords()
  {
    var rest := WordBytes(f.kind) + WordBytes(f.sec) + WordBytes(f.nsec) + f.payload;
    assert f.Bytes() == WordBytes(|f.payload|) + rest;
    hide WordBytes;
    WordOfBytes(|f.payload|, rest);
    HeaderDecides(f.Bytes()[..n], more);
    HeaderDecides(f.Bytes()[..n], f.Bytes()[n..]);
    assert f.Bytes() == f.Bytes()[..n] + f.Bytes()[n..];
  }

  /** A frame of whole words is a packet. */
  lemma FrameIsPacket(f: Frame)
    requires f.Fits()
    ensures IsPacket(f.Bytes()) <==> f.WholeWords()
  {
    hide Frame.Bytes;
    FrameHeader(f, |f.Bytes()|, []);
    assert f.Bytes()[..|f.Bytes()|] + [] == f.Bytes();
  }

  /** And every packet below 2^32 bytes is the frame of its fields. */
  lemma PacketIsFrame(p: seq<Byte>) returns (f: Frame)
    requires IsPacket(p) && |p| < TWO32
    ensures f.Fits() && f.WholeWords() && f.Bytes() == p
  {
    f := Frame(Word(p[4..8]), Word(p[8..12]), Word(p[12..16]), p[16..]);
    BytesOfWord(p[..4]);
    BytesOfWord(p[4..8]);
    BytesOfWord(p[8..12]);
    BytesOfWord(p[12..16]);
    hide WordBytes;
    assert p == p[..4] + p[4..8] + p[8..12] + p[12..16] + p[16..];
    assert Word(p[..4]) == Word(p);
  }

  /** Part of a frame is no packet yet, but its header is checked once it is there. */
  lemma PartOfFrame(f: Frame, n: nat)
    requires f.Fits() && n <= |f.Bytes()| && (f.WholeWords() ==> n < |f.Bytes()|)
    ensures var part := f.Bytes()[..n];
            && Packets(part) == [] && Remainder(part) == part && NoWrap(part)
            && (Malformed(part) <==> n >= 16 && !f.WholeWords())
  {
    hide Frame.Bytes;
    if n >= HEADER {
      FrameHeader(f, n, []);
      assert f.Bytes()[..n] + [] == f.Bytes()[..n];
    }
  }

  lemma {:induction false} NoWrapAfter(ps: seq<seq<Byte>>, tail: seq<Byte>)
    requires AllPackets(ps) && NoWrap(tail)
    requires forall i :: 0 <= i < |ps| ==> |ps[i]| < TWO32
    ensures NoWrap(Concat(ps) + tail)
  {
    if ps == [] {
      assert Concat(ps) + tail == tail;
    } else {
      assert Concat(ps) + tail == ps[0] + (Concat(ps[1..]) + tail);
      PacketInFront(ps[0], Concat(ps[1..]) + tail);
      NoWrapAfter(ps[1..], tail);
    }
  }

  /** The one-shot parse of any frames and a part of one more: the whole frames are its
      packets, and only the header of a frame that is not whole words is malformed. */
  lemma FramesParse(frames: seq<Frame>, last: Frame, n: nat)
    requires AllFit(frames)
    requires last.Fits() && n <= |last.Bytes()| && (last.WholeWords() ==> n < |last.Bytes()|)
    ensures var stream := Concat(FrameBytes(frames)) + last.Bytes()[..n];
            && Packets(stream) == FrameBytes(frames) && NoWrap(stream)
            && (Malformed(Remainder(stream)) <==> n >= 16 && !last.WholeWords())
  {
    hide Frame.Bytes, IsPacket, Packets, Remainder, NoWrap, Malformed;
    var ps, part := FrameBytes(frames), last.Bytes()[..n];
    forall i | 0 <= i < |frames| ensures IsPacket(ps[i]) && |ps[i]| < TWO32 {
      FrameIsPacket(frames[i]);
    }
    PartOfFrame(last, n);
    PacketsOfConcat(ps, part);
    NoWrapAfter(ps, part);
  }
}
