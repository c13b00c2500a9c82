/** Fast metadata: updates of one variable, sent one packet each or as one multiple
    packet, and the last value taken out of a multiple packet again. */
module FastMeta {
  import opened Words

  const NANO := 1_000_000_000
  const EPICS_EPOCH_OFFSET := 631152000
  const VAR_VALUE_U32: U32 := 0x8001_00
  const MULT_VAR_VALUE_U32: U32 := 0x8101_00

  /** Status and severity of a value in order. */
  const OK: U32 := 0

  datatype Variable = Variable(devId: U32, varId: U32)

  datatype Pulse = Pulse(sec: U32, nsec: U32)

  datatype Event = Event(pixel: U32, tof: U32)

  /** The variable an event is for, from the upper half of its pixel. */
  function KeyOf(pixel: U32): (key: U32)
    ensures key % 0x1_0000 == 0 && key <= pixel < key + 0x1_0000
  {
    pixel - pixel % 0x1_0000
  }

  /** An event's time of flight in nanoseconds, without its cycle field. */
  function Flight(tof: U32): (nsec: U32)
    ensures nsec < 0x20_0000 * 100 && nsec % 100 == 0 && (tof - nsec / 100) % 0x20_0000 == 0
  {
    tof % 0x20_0000 * 100
  }

  /** An event's value, from the lower half of its pixel. */
  function Value(pixel: U32): (value: U32)
    ensures value < 0x1_0000 && pixel == KeyOf(pixel) + value
  {
    pixel % 0x1_0000
  }

  /** A single update at a time in nanoseconds: the seconds wrap, the nanoseconds are
      less than a second's. */
  function Single(v: Variable, total: nat, state: U32, value: U32): seq<U32> {
    [16, VAR_VALUE_U32, Wrap32(total / NANO), total % NANO, v.devId, v.varId, state, value]
  }

  function Pairs(events: seq<Event>): seq<U32> {
    if events == [] then []
    else Pairs(events[..|events| - 1]) + [Flight(events[|events| - 1].tof), Value(events[|events| - 1].pixel)]
  }

  function Multiple(v: Variable, pulse: Pulse, events: seq<Event>): seq<U32>
    requires |events| < 0x1000_0000
  {
    [16 + 8 * |events|, MULT_VAR_VALUE_U32, pulse.sec, pulse.nsec, v.devId, v.varId, OK, |events|] + Pairs(events)
  }

  /** Carries whole seconds out of the nanoseconds. */
  method Carry(sec: U32, nsec: nat) returns (s: U32, n: U32)
    ensures s == Wrap32((sec * NANO + nsec) / NANO) && n == (sec * NANO + nsec) % NANO
  {
    var carried, rest := 0, nsec;
    s := sec;
    while rest >= NANO
      invariant 0 <= rest == nsec - carried * NANO && s == Wrap32(sec + carried)
    {
      rest := rest - NANO;
      s := Wrap32(s + 1);
      carried := carried + 1;
    }
    n := rest;
    assert sec * NANO + nsec == (sec + carried) * NANO + rest;
  }

  method SendUpdate(vars: map<U32, Variable>, pulse: Pulse, pixel: U32, tof: U32) returns (words: seq<U32>)
    requires KeyOf(pixel) in vars
    ensures words == Single(vars[KeyOf(pixel)], pulse.sec * NANO + Wrap32(pulse.nsec + Flight(tof)), OK, Value(pixel))
  {
    var pkt := new U32[8];
    pkt[0] := 16;
    pkt[1] := VAR_VALUE_U32;
    var ns := Wrap32(Flight(tof) + pulse.nsec);
    pkt[2], pkt[3] := Carry(pulse.sec, ns);
    var variable := vars[KeyOf(pixel)];
    pkt[4] := variable.devId;
    pkt[5] := variable.varId;
    pkt[6] := OK;
    pkt[7] := Value(pixel);
    words := pkt[..];
  }

  lemma PairsLength(events: seq<Event>)
    ensures |Pairs(events)| == 2 * |events|
  {
  }

  method SendMultUpdate(vars: map<U32, Variable>, pulse: Pulse, events: seq<Event>) returns (words: seq<U32>)
    requires 0 < |events| < 0x1000_0000 && KeyOf(events[0].pixel) in vars
    ensures words == Multiple(vars[KeyOf(events[0].pixel)], pulse, events)
  {
    var pkt := new U32[8 + 2 * |events|];
    var variable := vars[KeyOf(events[0].pixel)];
    pkt[0] := 16 + 8 * |events|;
    pkt[1] := MULT_VAR_VALUE_U32;
    pkt[2], pkt[3] := pulse.sec, pulse.nsec;
    pkt[4], pkt[5], pkt[6] := variable.devId, variable.varId, OK;
    pkt[7] := |events|;
    ghost var header := [16 + 8 * |events|, MULT_VAR_VALUE_U32, pulse.sec, pulse.nsec, variable.devId, variable.varId,
                         OK, |events|];
    hide Flight, Value, KeyOf, Pairs;
    for i := 0 to |events|
      invariant pkt[..8] == header
      invariant forall k :: 0 <= k < i ==>
                  pkt[8 + 2 * k] == Flight(events[k].tof) && pkt[9 + 2 * k] == Value(events[k].pixel)
    {
      pkt[8 + 2 * i] := Flight(events[i].tof);
      pkt[8 + 2 * i + 1] := Value(events[i].pixel);
    }
    words := pkt[..];
    PairsBehind(events, words);
    assert words == words[..8] + words[8..];
    assert words[..8] == header;
  }

  lemma PairsBehind(events: seq<Event>, words: seq<U32>)
    requires |words| == 8 + 2 * |events|
    requires forall k :: 0 <= k < |events| ==>
               words[8 + 2 * k] == Flight(events[k].tof) && words[9 + 2 * k] == Value(events[k].pixel)
    ensures words[8..] == Pairs(events)
  {
    hide Flight, Value, Pairs;
    var pairs := words[8..];
    assert forall k :: 0 <= k < |events| ==> pairs[2 * k] == words[8 + 2 * k] && pairs[2 * k + 1] == words[9 + 2 * k];
    PairsAre(events, pairs);
  }

  lemma {:induction false} PairsAre(events: seq<Event>, pairs: seq<U32>)
    requires |pairs| == 2 * |events|
    requires forall k :: 0 <= k < |events| ==>
               pairs[2 * k] == Flight(events[k].tof) && pairs[2 * k + 1] == Value(events[k].pixel)
    ensures pairs == Pairs(events)
  {
    hide Flight, Value;
    if events != [] {
      var n := |events| - 1;
      PairsAre(events[..n], pairs[..2 * n]);
      assert pairs == pairs[..2 * n] + [pairs[2 * n], pairs[2 * n + 1]];
    }
  }

  /** What a multiple packet says, as its reader holds it. */
  datatype MultVariable = MultVariable(
    timestampSec: U32, timestampNsec: U32, devId: U32, varId: U32, status: U32, severity: U32,
    tofs: seq<U32>, vals: seq<U32>)

  method ReadMultiple(words: seq<U32>) returns (m: MultVariable)
    requires |words| >= 8 && |words| >= 8 + 2 * (words[7] as int)
    ensures m.timestampSec == Wrap32(words[2] + EPICS_EPOCH_OFFSET) && m.timestampNsec == words[3]
    ensures m.devId == words[4] && m.varId == words[5]
    ensures m.status == words[6] / 0x1_0000 && m.severity == words[6] % 0x1_0000
    ensures |m.tofs| == |m.vals| == words[7]
    ensures forall i :: 0 <= i < words[7] ==> m.tofs[i] == words[8 + 2 * i] && m.vals[i] == words[9 + 2 * i]
  {
    var tofs: seq<U32>, vals: seq<U32> := [], [];
    for i := 0 to words[7]
      invariant |tofs| == |vals| == i
      invariant forall j :: 0 <= j < i ==> tofs[j] == words[8 + 2 * j] && vals[j] == words[9 + 2 * j]
    {
      tofs := tofs + [words[8 + 2 * i]];
      vals := vals + [words[9 + 2 * i]];
    }
    m := MultVariable(Wrap32(words[2] + EPICS_EPOCH_OFFSET), words[3], words[4], words[5],
                      words[6] / 0x1_0000, words[6] % 0x1_0000, tofs, vals);
  }

  method ExtractLastValue(m: MultVariable) returns (words: seq<U32>)
    requires 0 < |m.tofs| == |m.vals| && m.status < 0x1_0000 && m.severity < 0x1_0000
    ensures var sec := Wrap32(m.timestampSec - EPICS_EPOCH_OFFSET);
            words == Single(Variable(m.devId, m.varId), sec * NANO + m.timestampNsec + m.tofs[|m.tofs| - 1],
                            m.status * 0x1_0000 + m.severity, m.vals[|m.vals| - 1])
  {
    var last := |m.vals| - 1;
    var pkt := new U32[8];
    pkt[0] := 16;
    pkt[1] := VAR_VALUE_U32;
    var sec := m.timestampSec - EPICS_EPOCH_OFFSET;
    pkt[2], pkt[3] := Carry(Wrap32(sec), m.timestampNsec + m.tofs[last]);
    pkt[4] := m.devId;
    pkt[5] := m.varId;
    pkt[6] := m.status * 0x1_0000 + m.severity;
    pkt[7] := m.vals[last];
    words := pkt[..];
  }

  lemma {:induction false} PairsAt(events: seq<Event>, i: nat)
    requires i < |events|
    ensures |Pairs(events)| == 2 * |events|
    ensures Pairs(events)[2 * i] == Flight(events[i].tof) && Pairs(events)[2 * i + 1] == Value(events[i].pixel)
  {
    var n := |events| - 1;
    PairsLength(events[..n]);
    if i < n {
      PairsAt(events[..n], i);
    }
  }

  /** The fields of a multiple packet and its last pair. */
  lemma MultipleSays(v: Variable, pulse: Pulse, events: seq<Event>)
    requires 0 < |events| < 0x1000_0000
    ensures var words, n := Multiple(v, pulse, events), |events|;
            && |words| == 8 + 2 * n && words[7] == n
            && words[2] == pulse.sec && words[3] == pulse.nsec && words[4] == v.devId && words[5] == v.varId
            && words[6] == OK
            && words[8 + 2 * (n - 1)] == Flight(events[n - 1].tof) && words[9 + 2 * (n - 1)] == Value(events[n - 1].pixel)
  {
    hide Flight, Value;
    PairsAt(events, |events| - 1);
  }

  lemma EpochBack(sec: U32)
    ensures Wrap32(Wrap32(sec + EPICS_EPOCH_OFFSET) - EPICS_EPOCH_OFFSET) == sec
  {
  }

  lemma FlightIsShort(tof: U32)
    ensures Flight(tof) < NANO
  {
  }

  /** 2^32 nanoseconds are no whole number of seconds. */
  lemma WrapShows(v: Variable, sec: U32, nsec: nat, value: U32)
    requires nsec < 2 * TWO32
    ensures Single(v, sec * NANO + Wrap32(nsec), OK, value) == Single(v, sec * NANO + nsec, OK, value) <==> nsec < TWO32
  {
    if nsec >= TWO32 {
      var total := sec * NANO + nsec;
      assert Wrap32(nsec) == nsec - TWO32;
      assert total % NANO != (total - TWO32) % NANO;
    }
  }

  /** The last value of a multiple packet is exactly the packet a single update for the
      last event would have been, with the time kept to the nanosecond, if and only if
      the pulse's nanoseconds and the time of flight fit in 32 bits. They always do
      for a pulse of less than a second's nanoseconds. */
  method SingleAndMultipleAgree(vars: map<U32, Variable>, pulse: Pulse, events: seq<Event>)
    returns (single: seq<U32>, extracted: seq<U32>)
    requires 0 < |events| < 0x1000_0000 && KeyOf(events[0].pixel) in vars
    requires forall i :: 0 <= i < |events| ==> KeyOf(events[i].pixel) == KeyOf(events[0].pixel)
    ensures var last := events[|events| - 1];
            && ((single == extracted) <==> pulse.nsec + Flight(last.tof) < TWO32)
            && (pulse.nsec < NANO ==> single == extracted)
            && single == Single(vars[KeyOf(last.pixel)], pulse.sec * NANO + Wrap32(pulse.nsec + Flight(last.tof)),
                                OK, Value(last.pixel))
            && extracted == Single(vars[KeyOf(last.pixel)], pulse.sec * NANO + pulse.nsec + Flight(last.tof),
                                   OK, Value(last.pixel))
  {
    hide Flight, Value, Single, Pairs, Wrap32, Multiple, KeyOf;
    var last := events[|events| - 1];
    var words := SendMultUpdate(vars, pulse, events);
    MultipleSays(vars[KeyOf(last.pixel)], pulse, events);
    EpochBack(pulse.sec);
    FlightIsShort(last.tof);
    var m := ReadMultiple(words);
    extracted := ExtractLastValue(m);
    single := SendUpdate(vars, pulse, last.pixel, last.tof);
    WrapShows(vars[KeyOf(last.pixel)], pulse.sec, pulse.nsec + Flight(last.tof), Value(last.pixel));
  }

  /** A pulse whose nanoseconds nearly fill 32 bits: the single update wraps to 99
      nanoseconds, the extracted one carries four seconds. */
  method WrappingPulse() returns (single: seq<U32>, extracted: seq<U32>)
    ensures |single| == |extracted| == 8
    ensures single[2..4] == [0, 99] && extracted[2..4] == [4, 294_967_395]
  {
    var pulse, event := Pulse(0, 0xffff_ffff), Event(0x1_0007, 1);
    assert KeyOf(event.pixel) == 0x1_0000 && Flight(event.tof) == 100;
    single, extracted := SingleAndMultipleAgree(map[0x1_0000 := Variable(1, 2)], pulse, [event]);
  }
}
