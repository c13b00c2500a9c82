/** A source's pulses as somebody who keeps every arrival would judge them: the
    reference for the tracker, without its list, its dispatch or its running maximum. */
module PulseBook {
  import opened Options
  import opened PulseAudit
  import opened PulseList

  const FACILITY_START_TIME := 512715600

  datatype DataPkt = DataPkt(inv: Invariants, pulseSeq: nat, sourceSeq: nat, endOfPulse: bool)

  /** What the outside world contributes to one packet: the list size read from its PV
      when this call polls it, the latest acceptable time, and the options in force. */
  datatype Env = Env(polledMax: Option<nat>, future: int,
                     checkSourceSeq: bool, checkPulseSeq: bool, ignoreEop: bool)

  /** A pulse time between the facility's start and a week from now. */
  predicate Plausible(pulseId: nat, future: int) {
    FACILITY_START_TIME <= pulseId / 0x1_0000_0000 <= future
  }

  predicate Ends(pkt: DataPkt, env: Env) {
    pkt.endOfPulse && !env.ignoreEop
  }

  function AtLeastOne(n: nat): nat {
    if n < 1 then 1 else n
  }

  function NewLimit(limit: nat, polledMax: Option<nat>): nat {
    if polledMax.None? then limit else AtLeastOne(polledMax.value)
  }

  /** Every pulse entered, oldest first: its place is its arrival number. The last `kept`
      of them are known, at most `limit`; `open` are those good and not yet completed;
      `twins` says how many known pulses of the same time each one met when it arrived. */
  datatype Book = Book(arrived: seq<Invariants>, twins: seq<nat>, kept: nat, limit: nat, open: set<nat>)

  type Packets = seq<(DataPkt, Env)>

  /** The arrival number of a pulse that is among the last `kept`. */
  function Find(arrived: seq<Invariants>, kept: nat, inv: Invariants): (r: Option<nat>)
    requires kept <= |arrived|
    ensures r.Some? ==> |arrived| - kept <= r.value < |arrived| && arrived[r.value] == inv
    ensures r.None? ==> forall s :: |arrived| - kept <= s < |arrived| ==> arrived[s] != inv
  {
    var last := |arrived| - 1;
    if kept == 0 then None
    else if arrived[last] == inv then Some(last)
    else Find(arrived[..last], kept - 1, inv)
  }

  /** How many of the last `kept` pulses have this time. */
  function Twins(arrived: seq<Invariants>, kept: nat, pulseId: nat): nat
    requires kept <= |arrived|
  {
    if kept == 0 then 0
    else Twins(arrived, kept - 1, pulseId) + if arrived[|arrived| - kept].pulseId == pulseId then 1 else 0
  }

  function Serial(b: Book, inv: Invariants): nat
    requires b.kept <= |b.arrived|
  {
    var found := Find(b.arrived, b.kept, inv);
    if found.Some? then found.value else |b.arrived|
  }

  /** A pulse that is not known arrives; the oldest ones beyond the limit are forgotten. */
  function Entered(b: Book, inv: Invariants, env: Env): Book
    requires b.kept <= |b.arrived|
  {
    if Find(b.arrived, b.kept, inv).Some? then b
    else
      var s, limit := |b.arrived|, NewLimit(b.limit, env.polledMax);
      var kept := if b.kept + 1 > limit then limit else b.kept + 1;
      Book(b.arrived + [inv], b.twins + [Twins(b.arrived, b.kept, inv.pulseId)], kept, limit,
           (set x | x in b.open && x + kept > s) + if Plausible(inv.pulseId, env.future) then {s} else {})
  }

  /** The judgement of a packet: its pulse is good when it is open once entered. */
  predicate Good(b: Book, pkt: DataPkt, env: Env)
    requires b.kept <= |b.arrived|
  {
    Serial(b, pkt.inv) in Entered(b, pkt.inv, env).open
  }

  /** An end of pulse closes the pulse and all that arrived before it. */
  function Ended(b: Book, s: nat): Book {
    b.(open := set x | x in b.open && x > s)
  }

  function Turn(b: Book, pkt: DataPkt, env: Env): (b': Book)
    requires b.kept <= |b.arrived|
    ensures b'.kept <= |b'.arrived|
  {
    var entered := Entered(b, pkt.inv, env);
    if Ends(pkt, env) then Ended(entered, Serial(b, pkt.inv)) else entered
  }

  function BookAfter(packets: Packets, limit: nat): (b: Book)
    ensures b.kept <= |b.arrived|
  {
    if packets == [] then Book([], [], 0, AtLeastOne(limit), {})
    else
      var last := packets[|packets| - 1];
      Turn(BookAfter(packets[..|packets| - 1], limit), last.0, last.1)
  }

  /** For each packet, the arrival number of its pulse and whether the pulse is good. */
  function Seen(packets: Packets, limit: nat): (seen: seq<(nat, bool)>)
    ensures |seen| == |packets|
  {
    if packets == [] then []
    else
      var init, last := packets[..|packets| - 1], packets[|packets| - 1];
      var b := BookAfter(init, limit);
      Seen(init, limit) + [(Serial(b, last.0.inv), Good(b, last.0, last.1))]
  }

  /** The arrival numbers of the packets whose pulse is good. */
  function GoodSerials(seen: seq<(nat, bool)>): seq<nat> {
    if seen == [] then []
    else
      var last := seen[|seen| - 1];
      GoodSerials(seen[..|seen| - 1]) + if last.1 then [last.0] else []
  }

  /** The pulses to which events were delivered, in order. */
  function EventsOf(trace: seq<Mark>): seq<nat> {
    if trace == [] then []
    else
      var last := trace[|trace| - 1];
      EventsOf(trace[..|trace| - 1]) + if last.Events? then [last.serial] else []
  }

  lemma {:induction false} EventsStay(trace: seq<Mark>, more: seq<Mark>)
    requires NoEvents(more)
    ensures EventsOf(trace + more) == EventsOf(trace)
  {
    if more == [] {
      assert trace + more == trace;
    } else {
      var last := |more| - 1;
      assert (trace + more)[..|trace + more| - 1] == trace + more[..last];
      EventsStay(trace, more[..last]);
    }
  }

  lemma EventsOfOne(trace: seq<Mark>, m: Mark)
    ensures EventsOf(trace + [m]) == EventsOf(trace) + if m.Events? then [m.serial] else []
  {
  }

  // ---- The calls that a packet should cause ----

  /** The pulses `from` up to `to` are finished, the oldest first, if they are open. */
  function Finished(open: set<nat>, from: nat, to: nat): seq<Mark> {
    if to <= from then []
    else Finished(open, from, to - 1) + if to - 1 in open then [Partial(to - 1), Complete(to - 1)] else []
  }

  /** A pulse that arrives finishes those forgotten for it, and starts if it is good. */
  function EntryCalls(b: Book, pkt: DataPkt, env: Env): seq<Mark>
    requires b.kept <= |b.arrived|
  {
    var entered, s := Entered(b, pkt.inv, env), Serial(b, pkt.inv);
    Finished(b.open, |b.arrived| - b.kept, |entered.arrived| - entered.kept)
    + if s == |b.arrived| && Good(b, pkt, env) then [Start(s)] else []
  }

  /** A good packet's events go to its pulse, and a gap before it is marked right behind. */
  function DeliveryCalls(s: nat, good: bool, gap: bool): seq<Mark> {
    if good then [Events(s)] + (if gap then [Partial(s)] else []) else []
  }

  /** An end of pulse finishes the known pulses that arrived before, and then its own. */
  function EndCalls(b: Book, pkt: DataPkt, env: Env): seq<Mark>
    requires b.kept <= |b.arrived|
  {
    var entered, s := Entered(b, pkt.inv, env), Serial(b, pkt.inv);
    [EndOfPulse(s)] + Finished(entered.open, |entered.arrived| - entered.kept, s)
    + if Good(b, pkt, env) then [Complete(s)] else []
  }

  function Calls(b: Book, pkt: DataPkt, env: Env, gap: bool): seq<Mark>
    requires b.kept <= |b.arrived|
  {
    EntryCalls(b, pkt, env) + DeliveryCalls(Serial(b, pkt.inv), Good(b, pkt, env), gap)
    + if Ends(pkt, env) then EndCalls(b, pkt, env) else []
  }

  /** The 16-bit source sequence that comes next: one more than that of the last packet
      checked. Before any is checked every number will do. */
  function NextSource(packets: Packets): (next: Option<nat>)
    ensures next.Some? ==> next.value < 0x1_0000
  {
    if packets == [] then None
    else
      var last := packets[|packets| - 1];
      if last.1.checkSourceSeq then Some((last.0.sourceSeq + 1) % 0x1_0000)
      else NextSource(packets[..|packets| - 1])
  }

  /** How many packets of pulse `s` were good and had their pulse sequence checked. */
  function Checked(packets: Packets, seen: seq<(nat, bool)>, s: nat): nat
    requires |seen| == |packets|
  {
    if packets == [] then 0
    else
      var last := |packets| - 1;
      Checked(packets[..last], seen[..last], s)
      + if seen[last] == (s, true) && packets[last].1.checkPulseSeq then 1 else 0
  }

  /** A packet that comes after these shows that one was lost: a checked source sequence
      is not the next one, or a checked 15-bit pulse sequence is not the count so far. */
  predicate Gap(before: Packets, limit: nat, pkt: DataPkt, env: Env) {
    var b := BookAfter(before, limit);
    || (env.checkSourceSeq && NextSource(before).Some? && pkt.sourceSeq != NextSource(before).value)
    || (env.checkPulseSeq && pkt.pulseSeq != Checked(before, Seen(before, limit), Serial(b, pkt.inv)) % 0x8000)
  }

  /** All calls for these packets. */
  function AllCalls(packets: Packets, limit: nat): seq<Mark> {
    if packets == [] then []
    else
      var init, last := packets[..|packets| - 1], packets[|packets| - 1];
      AllCalls(init, limit) + Calls(BookAfter(init, limit), last.0, last.1, Gap(init, limit, last.0, last.1))
  }

  /** The calls when the source goes down: all that is still open is finished. */
  function LastCalls(b: Book): seq<Mark>
    requires b.kept <= |b.arrived|
  {
    Finished(b.open, |b.arrived| - b.kept, |b.arrived|)
  }

  /** Where the calls of packet `n` are among all calls; there its events are followed at
      once by a partial mark exactly after a gap. */
  lemma GapIsMarked(packets: Packets, limit: nat, n: nat) returns (k: nat)
    requires n < |packets|
    requires Good(BookAfter(packets[..n], limit), packets[n].0, packets[n].1)
    ensures var calls, s := AllCalls(packets[..n + 1], limit), Serial(BookAfter(packets[..n], limit), packets[n].0.inv);
            && |AllCalls(packets[..n], limit)| <= k < |calls| && calls[k] == Events(s)
            && ((k + 1 < |calls| && calls[k + 1] == Partial(s))
                <==> Gap(packets[..n], limit, packets[n].0, packets[n].1))
  {
    hide EntryCalls, Gap, Good, Serial, Ends, BookAfter, Finished, Find, Entered;
    var init, pkt, env := packets[..n], packets[n].0, packets[n].1;
    assert packets[..n + 1][..n] == init;
    var front := AllCalls(init, limit) + EntryCalls(BookAfter(init, limit), pkt, env);
    k := |front|;
    var calls := AllCalls(packets[..n + 1], limit);
    assert calls == front + calls[k..];
  }

  // ---- The tracker's list against the book ----

  /** The list holds the known pulses, newest first, and says which are open. */
  ghost predicate Keeps(list: seq<Entry>, limit: nat, arrivals: nat, b: Book) {
    && arrivals == |b.arrived| == |b.twins| && |list| == b.kept <= arrivals && limit == b.limit
    && (forall i :: 0 <= i < |list| ==>
          && list[i].serial == arrivals - 1 - i && list[i].inv == b.arrived[arrivals - 1 - i]
          && list[i].dupCount == b.twins[arrivals - 1 - i]
          && (list[i].good <==> list[i].serial in b.open))
    && forall s :: s in b.open ==> arrivals - |list| <= s < arrivals
  }

  /** A pulse that the list holds is found; another is judged and entered in front, and
      the oldest entries beyond the limit go. */
  ghost predicate EntersAs(list0: seq<Entry>, limit0: nat, arrivals0: nat, inv: Invariants, env: Env,
                           list: seq<Entry>, limit: nat, arrivals: nat, i: nat)
  {
    && i < |list| && list[i].inv == inv
    && if exists k :: 0 <= k < |list0| && list0[k].inv == inv then
         list == list0 && limit == limit0 && arrivals == arrivals0
       else
         && i == 0 && limit == NewLimit(limit0, env.polledMax) && arrivals == arrivals0 + 1
         && |list| == (if |list0| + 1 > limit then limit else |list0| + 1)
         && list[0].serial == arrivals0 && list[0].good == Plausible(inv.pulseId, env.future)
         && list[0].dupCount == CountId(list0, inv.pulseId)
         && list[1..] <= list0
  }

  ghost predicate SamePulses(list: seq<Entry>, changed: seq<Entry>) {
    && |changed| == |list|
    && forall k :: 0 <= k < |list| ==>
         && changed[k].inv == list[k].inv && changed[k].serial == list[k].serial && changed[k].good == list[k].good
         && changed[k].dupCount == list[k].dupCount
  }

  /** A packet leaves a list that the book after it describes, and judges its pulse as
      the book does. */
  ghost predicate FollowsBook(list0: seq<Entry>, limit0: nat, arrivals0: nat, b: Book, pkt: DataPkt, env: Env,
                              list: seq<Entry>, limit: nat, arrivals: nat, s: nat, good: bool,
                              gap: bool, calls: seq<Mark>)
  {
    Keeps(list0, limit0, arrivals0, b) ==>
      && Keeps(list, limit, arrivals, Turn(b, pkt, env)) && s == Serial(b, pkt.inv) && good == Good(b, pkt, env)
      && calls == Calls(b, pkt, env, gap)
  }

  /** The calls for a pulse that enters the list: for those that leave it, and its start. */
  ghost function EntryMarks(list0: seq<Entry>, inv: Invariants, kept: nat, e: Entry): seq<Mark>
    requires 1 <= kept <= |list0| + 1
  {
    if exists k :: 0 <= k < |list0| && list0[k].inv == inv then []
    else Sweep(list0, kept - 1) + if e.good then [Start(e.serial)] else []
  }

  function DeliveryMarks(e: Entry, gap: bool): seq<Mark> {
    DeliveryCalls(e.serial, e.good, gap)
  }

  function EndMarks(list: seq<Entry>, i: nat): seq<Mark>
    requires i < |list|
  {
    [EndOfPulse(list[i].serial)] + Sweep(list, i + 1) + (if list[i].good then [Complete(list[i].serial)] else [])
  }

  /** A sweep of the list finishes what the book says is open. */
  lemma {:induction false} SweepFinishes(list: seq<Entry>, limit: nat, arrivals: nat, b: Book, i: nat)
    requires Keeps(list, limit, arrivals, b) && i <= |list|
    ensures Sweep(list, i) == Finished(b.open, arrivals - |list|, arrivals - i)
    decreases |list| - i
  {
    if i < |list| {
      SweepFinishes(list, limit, arrivals, b, i + 1);
    }
  }

  lemma {:induction false} TwinsCounted(list: seq<Entry>, limit: nat, arrivals: nat, b: Book, n: nat, pulseId: nat)
    requires Keeps(list, limit, arrivals, b) && n <= |list|
    ensures CountId(list[..n], pulseId) == Twins(b.arrived, n, pulseId)
  {
    if n > 0 {
      TwinsCounted(list, limit, arrivals, b, n - 1, pulseId);
      assert list[..n][..n - 1] == list[..n - 1];
    }
  }

  lemma TwinsOf(list: seq<Entry>, limit: nat, arrivals: nat, b: Book, pulseId: nat)
    requires Keeps(list, limit, arrivals, b)
    ensures CountId(list, pulseId) == Twins(b.arrived, b.kept, pulseId)
  {
    TwinsCounted(list, limit, arrivals, b, |list|, pulseId);
    assert list[..|list|] == list;
  }

  lemma FoundInBoth(list: seq<Entry>, limit: nat, arrivals: nat, b: Book, inv: Invariants)
    requires Keeps(list, limit, arrivals, b) && Distinct(list)
    ensures Find(b.arrived, b.kept, inv).None? <==> forall k :: 0 <= k < |list| ==> list[k].inv != inv
    ensures forall k :: 0 <= k < |list| && list[k].inv == inv ==> Find(b.arrived, b.kept, inv) == Some(list[k].serial)
  {
    hide Find;
    var found := Find(b.arrived, b.kept, inv);
    if found.Some? {
      assert list[arrivals - 1 - found.value].inv == inv;
    }
  }

  lemma EnterKeeps(list0: seq<Entry>, limit0: nat, arrivals0: nat, b: Book, pkt: DataPkt, env: Env,
                   list: seq<Entry>, limit: nat, arrivals: nat, i: nat)
    requires Keeps(list0, limit0, arrivals0, b) && Distinct(list0)
    requires EntersAs(list0, limit0, arrivals0, pkt.inv, env, list, limit, arrivals, i)
    ensures Keeps(list, limit, arrivals, Entered(b, pkt.inv, env))
    ensures list[i].serial == Serial(b, pkt.inv) && list[i].good == Good(b, pkt, env)
  {
    FoundInBoth(list0, limit0, arrivals0, b, pkt.inv);
    if Find(b.arrived, b.kept, pkt.inv).None? {
      EnterNewKeeps(list0, limit0, arrivals0, b, pkt, env, list, limit, arrivals, i);
      hide Find, Plausible, Keeps, Distinct, NewLimit, CountId, Twins;
    } else {
      hide Find, Plausible, NewLimit, Distinct, CountId, Twins;
    }
  }

  lemma EnterNewKeeps(list0: seq<Entry>, limit0: nat, arrivals0: nat, b: Book, pkt: DataPkt, env: Env,
                      list: seq<Entry>, limit: nat, arrivals: nat, i: nat)
    requires Keeps(list0, limit0, arrivals0, b) && Find(b.arrived, b.kept, pkt.inv).None?
    requires forall k :: 0 <= k < |list0| ==> list0[k].inv != pkt.inv
    requires EntersAs(list0, limit0, arrivals0, pkt.inv, env, list, limit, arrivals, i)
    ensures Keeps(list, limit, arrivals, Entered(b, pkt.inv, env))
  {
    TwinsOf(list0, limit0, arrivals0, b, pkt.inv.pulseId);
    hide Find, Plausible, NewLimit, CountId, Twins;
    forall k | 1 <= k < |list|
      ensures list[k] == list0[k - 1]
    {
      assert list[k] == list[1..][k - 1];
    }
  }

  lemma KeepsSame(list: seq<Entry>, changed: seq<Entry>, limit: nat, arrivals: nat, b: Book)
    requires Keeps(list, limit, arrivals, b) && SamePulses(list, changed)
    ensures Keeps(changed, limit, arrivals, b)
  {
  }

  lemma KeepsEnded(list: seq<Entry>, limit: nat, arrivals: nat, b: Book, i: nat)
    requires Keeps(list, limit, arrivals, b) && i < |list|
    ensures Keeps(Closed(list, i), limit, arrivals, Ended(b, list[i].serial))
  {
  }

  /** The calls for a pulse that enters are those that the book asks for. */
  lemma EntryFollows(list0: seq<Entry>, limit0: nat, arrivals0: nat, b: Book, pkt: DataPkt, env: Env,
                     list: seq<Entry>, limit: nat, arrivals: nat, i: nat)
    requires Keeps(list0, limit0, arrivals0, b) && Distinct(list0)
    requires EntersAs(list0, limit0, arrivals0, pkt.inv, env, list, limit, arrivals, i) && 1 <= |list| <= |list0| + 1
    ensures EntryMarks(list0, pkt.inv, |list|, list[i]) == EntryCalls(b, pkt, env)
  {
    FoundInBoth(list0, limit0, arrivals0, b, pkt.inv);
    EnterKeeps(list0, limit0, arrivals0, b, pkt, env, list, limit, arrivals, i);
    hide Find, Plausible, NewLimit, Distinct, Sweep, CountId, Twins, Good;
    if Find(b.arrived, b.kept, pkt.inv).None? {
      SweepFinishes(list0, limit0, arrivals0, b, |list| - 1);
      hide Finished;
    } else {
      assert Finished(b.open, |b.arrived| - b.kept, |b.arrived| - b.kept) == [];
    }
  }

  lemma ListFollows(list0: seq<Entry>, limit0: nat, arrivals0: nat, b: Book, pkt: DataPkt, env: Env,
                    entered: seq<Entry>, limit: nat, arrivals: nat, i: nat, delivered: seq<Entry>, list: seq<Entry>)
    requires Keeps(list0, limit0, arrivals0, b) && Distinct(list0)
    requires EntersAs(list0, limit0, arrivals0, pkt.inv, env, entered, limit, arrivals, i)
    requires SamePulses(entered, delivered)
    requires list == if Ends(pkt, env) then Closed(delivered, i) else delivered
    ensures Keeps(list, limit, arrivals, Turn(b, pkt, env))
    ensures entered[i].serial == Serial(b, pkt.inv) && entered[i].good == Good(b, pkt, env)
  {
    EnterKeeps(list0, limit0, arrivals0, b, pkt, env, entered, limit, arrivals, i);
    var entered' := Entered(b, pkt.inv, env);
    KeepsSame(entered, delivered, limit, arrivals, entered');
    KeepsEnded(delivered, limit, arrivals, entered', i);
    hide Find, Entered, Serial, Good, Ended, Closed, Distinct, Ends, Keeps;
  }

  /** The calls at the end of a pulse, too. */
  lemma EndFollows(list0: seq<Entry>, limit0: nat, arrivals0: nat, b: Book, pkt: DataPkt, env: Env,
                   entered: seq<Entry>, limit: nat, arrivals: nat, i: nat, delivered: seq<Entry>)
    requires Keeps(list0, limit0, arrivals0, b) && Distinct(list0)
    requires EntersAs(list0, limit0, arrivals0, pkt.inv, env, entered, limit, arrivals, i)
    requires SamePulses(entered, delivered)
    ensures EndMarks(delivered, i) == EndCalls(b, pkt, env)
  {
    EnterKeeps(list0, limit0, arrivals0, b, pkt, env, entered, limit, arrivals, i);
    hide Find, Serial, Good, Distinct, Sweep, Finished, EntersAs;
    var entered' := Entered(b, pkt.inv, env);
    KeepsSame(entered, delivered, limit, arrivals, entered');
    SweepFinishes(delivered, limit, arrivals, entered', i + 1);
    SerialOf(delivered, limit, arrivals, entered', i);
    hide Keeps, Entered;
  }

  lemma PacketFollows(list0: seq<Entry>, limit0: nat, arrivals0: nat, b: Book, pkt: DataPkt, env: Env,
                      entered: seq<Entry>, limit: nat, arrivals: nat, i: nat, delivered: seq<Entry>, list: seq<Entry>,
                      gap: bool, calls: seq<Mark>)
    requires Distinct(list0) && EntersAs(list0, limit0, arrivals0, pkt.inv, env, entered, limit, arrivals, i)
    requires 1 <= |entered| <= |list0| + 1
    requires SamePulses(entered, delivered)
    requires list == if Ends(pkt, env) then Closed(delivered, i) else delivered
    requires calls == EntryMarks(list0, pkt.inv, |entered|, entered[i]) + DeliveryMarks(entered[i], gap)
                      + if Ends(pkt, env) then EndMarks(delivered, i) else []
    ensures FollowsBook(list0, limit0, arrivals0, b, pkt, env,
                        list, limit, arrivals, entered[i].serial, entered[i].good, gap, calls)
  {
    if Keeps(list0, limit0, arrivals0, b) {
      ListFollows(list0, limit0, arrivals0, b, pkt, env, entered, limit, arrivals, i, delivered, list);
      EntryFollows(list0, limit0, arrivals0, b, pkt, env, entered, limit, arrivals, i);
      EndFollows(list0, limit0, arrivals0, b, pkt, env, entered, limit, arrivals, i, delivered);
      hide Find, Entered, Serial, Good, Closed, Distinct, Ends, EntryCalls, EndCalls, DeliveryCalls, EntryMarks, EndMarks,
           Turn, Keeps, EntersAs, SamePulses;
    }
  }

  lemma SerialOf(list: seq<Entry>, limit: nat, arrivals: nat, b: Book, i: nat)
    requires Keeps(list, limit, arrivals, b) && i < |list|
    ensures list[i].serial == arrivals - 1 - i && |list| == b.kept && arrivals == |b.arrived|
  {
  }

  // ---- What the judgement means ----

  /** Packet `i` is the first of the pulse that arrived as number `s`. */
  ghost predicate FirstOf(seen: seq<(nat, bool)>, s: nat, i: nat) {
    i < |seen| && seen[i].0 == s && forall k :: 0 <= k < i ==> seen[k].0 != s
  }

  /** The pulse whose first packet is `i` has a plausible time, and neither it nor a later
      arrival has been ended before packet `j`. */
  ghost predicate StillGood(packets: Packets, seen: seq<(nat, bool)>, i: nat, j: nat)
    requires i < |packets| == |seen| && j <= |packets|
  {
    && Plausible(packets[i].0.inv.pulseId, packets[i].1.future)
    && forall k :: i <= k < j && Ends(packets[k].0, packets[k].1) ==> seen[k].0 < seen[i].0
  }

  /** What the book after `n` packets says of those packets. */
  ghost predicate Tells(packets: Packets, seen: seq<(nat, bool)>, n: nat, b: Book) {
    && n <= |packets| == |seen|
    && b.kept <= |b.arrived| && b.limit >= 1
    && (forall k :: 0 <= k < n ==> seen[k].0 < |b.arrived|)
    && (forall s: nat :: s < |b.arrived| ==> Told(packets, seen, n, b, s))
    && (forall s :: s in b.open ==> |b.arrived| - b.kept <= s < |b.arrived|)
  }

  ghost predicate Told(packets: Packets, seen: seq<(nat, bool)>, n: nat, b: Book, s: nat) {
    s < |b.arrived| && exists i :: ToldBy(packets, seen, n, b, s, i)
  }

  ghost predicate ToldBy(packets: Packets, seen: seq<(nat, bool)>, n: nat, b: Book, s: nat, i: nat) {
    && i < n <= |packets| == |seen| && s < |b.arrived|
    && FirstOf(seen, s, i) && packets[i].0.inv == b.arrived[s]
    && (|b.arrived| - b.kept <= s ==> (s in b.open <==> StillGood(packets, seen, i, n)))
  }

  lemma {:induction false} SeenAt(packets: Packets, limit: nat, n: nat)
    requires n < |packets|
    ensures var b, p := BookAfter(packets[..n], limit), packets[n];
            && Seen(packets, limit)[n] == (Serial(b, p.0.inv), Good(b, p.0, p.1))
            && BookAfter(packets[..n + 1], limit) == Turn(b, p.0, p.1)
  {
    hide Serial, Good, Turn;
    var last := |packets| - 1;
    assert packets[..n + 1][..n] == packets[..n];
    if n < last {
      assert packets[..last][..n] == packets[..n] && packets[..last][..n + 1] == packets[..n + 1];
      SeenAt(packets[..last], limit, n);
    }
  }

  lemma {:induction false} BookTells(packets: Packets, limit: nat, n: nat)
    requires n <= |packets|
    ensures Tells(packets, Seen(packets, limit), n, BookAfter(packets[..n], limit))
  {
    if n > 0 {
      BookTells(packets, limit, n - 1);
      SeenAt(packets, limit, n - 1);
      TellsNext(packets, Seen(packets, limit), n - 1, BookAfter(packets[..n - 1], limit));
    }
  }

  lemma TellsNext(packets: Packets, seen: seq<(nat, bool)>, n: nat, b: Book)
    requires n < |packets| && Tells(packets, seen, n, b)
    requires seen[n] == (Serial(b, packets[n].0.inv), Good(b, packets[n].0, packets[n].1))
    ensures Tells(packets, seen, n + 1, Turn(b, packets[n].0, packets[n].1))
  {
    hide Plausible, Find, FirstOf, StillGood, ToldBy;
    var b', m := Turn(b, packets[n].0, packets[n].1), n + 1;
    forall s: nat | s < |b'.arrived|
      ensures Told(packets, seen, m, b', s)
    {
      ToldNext(packets, seen, n, b, s);
    }
  }

  lemma ToldNext(packets: Packets, seen: seq<(nat, bool)>, n: nat, b: Book, s: nat)
    requires n < |packets| && Tells(packets, seen, n, b)
    requires seen[n] == (Serial(b, packets[n].0.inv), Good(b, packets[n].0, packets[n].1))
    requires s < |Turn(b, packets[n].0, packets[n].1).arrived|
    ensures Told(packets, seen, n + 1, Turn(b, packets[n].0, packets[n].1), s)
  {
    hide Plausible, Ends, Find;
    var b' := Turn(b, packets[n].0, packets[n].1);
    if s < |b.arrived| {
      assert Told(packets, seen, n, b, s);
      var i :| ToldBy(packets, seen, n, b, s, i);
      assert b'.arrived[s] == b.arrived[s];
      assert StillGood(packets, seen, i, n + 1) <==>
          StillGood(packets, seen, i, n) && (Ends(packets[n].0, packets[n].1) ==> seen[n].0 < s);
      assert ToldBy(packets, seen, n + 1, b', s, i);
    } else {
      assert FirstOf(seen, s, n);
      assert ToldBy(packets, seen, n + 1, b', s, n);
    }
  }

  /** A packet's pulse is good exactly when its first packet had a plausible time and no
      end of pulse since then was for it or for a pulse that arrived later. */
  lemma GoodMeans(packets: Packets, limit: nat, j: nat) returns (i: nat)
    requires j < |packets|
    ensures var seen := Seen(packets, limit);
            && i <= j && FirstOf(seen, seen[j].0, i) && packets[i].0.inv == packets[j].0.inv
            && (seen[j].1 <==> StillGood(packets, seen, i, j))
  {
    hide Plausible, Ends, Find;
    BookTells(packets, limit, j);
    SeenAt(packets, limit, j);
    var seen, b := Seen(packets, limit), BookAfter(packets[..j], limit);
    if seen[j].0 < |b.arrived| {
      assert Told(packets, seen, j, b, seen[j].0);
      i :| ToldBy(packets, seen, j, b, seen[j].0, i);
    } else {
      i := j;
    }
  }
}
