/** Slot arithmetic of the beacon chain. */
module Beacons {

  /** Wall-clock instants are in milliseconds. */
  type Instant = nat

  function Seconds(now: Instant): nat {
    now / 1000
  }

  datatype Beacon = Beacon(slotsPerEpoch: nat, genesisTimeSec: nat, secondsPerSlot: nat) {
    predicate Valid() {
      slotsPerEpoch > 0 && secondsPerSlot > 0
    }

    predicate Started(now: Instant) {
      Valid() && genesisTimeSec <= Seconds(now)
    }

    function CurrentSlot(now: Instant): nat
      requires Started(now)
    {
      (Seconds(now) - genesisTimeSec) / secondsPerSlot
    }

    function CurrentEpoch(now: Instant): nat
      requires Started(now)
    {
      CurrentSlot(now) / slotsPerEpoch
    }

    function SlotEpochStart(epoch: nat): nat {
      epoch * slotsPerEpoch
    }

    function TimestampOfSlot(slot: nat): nat {
      genesisTimeSec + slot * secondsPerSlot
    }

    /** Defined only after the genesis second, which is asserted. */
    function SlotForTimestamp(timestamp: nat): nat
      requires Valid() && timestamp > genesisTimeSec
    {
      (timestamp - genesisTimeSec) / secondsPerSlot
    }

    /** Slots are exactly the intervals between their timestamps. */
    lemma SlotBefore(now: Instant, slot: nat)
      requires Started(now)
      ensures CurrentSlot(now) < slot <==> now < 1000 * TimestampOfSlot(slot)
    {
      var since := Seconds(now) - genesisTimeSec;
      DivLess(since, secondsPerSlot, slot);
      assert Seconds(now) < TimestampOfSlot(slot) <==> now < 1000 * TimestampOfSlot(slot);
    }

    /** Epochs are exactly the intervals between their first slots. */
    lemma EpochBefore(now: Instant, epoch: nat)
      requires Started(now)
      ensures CurrentEpoch(now) < epoch <==> now < 1000 * TimestampOfSlot(SlotEpochStart(epoch))
    {
      DivLess(CurrentSlot(now), slotsPerEpoch, epoch);
      SlotBefore(now, SlotEpochStart(epoch));
    }

    /** A slot's timestamp belongs to that slot; slot 0 starts at genesis, which the assertion refuses. */
    lemma TimestampRoundTrip(slot: nat)
      requires Valid()
      ensures TimestampOfSlot(slot) > genesisTimeSec <==> slot > 0
      ensures slot > 0 ==> SlotForTimestamp(TimestampOfSlot(slot)) == slot
    {
      if slot > 0 {
        MulLe(1, slot, secondsPerSlot);
        DivLess(slot * secondsPerSlot, secondsPerSlot, slot);
        DivLess(slot * secondsPerSlot, secondsPerSlot, slot + 1);
        assert (slot + 1) * secondsPerSlot == slot * secondsPerSlot + secondsPerSlot;
      }
    }
  }

  lemma DivLess(a: nat, b: nat, k: nat)
    requires b > 0
    ensures a / b < k <==> a < k * b
  {
    var q := a / b;
    assert a == q * b + a % b;
    if q < k {
      MulLe(q + 1, k, b);
      assert (q + 1) * b == q * b + b;
    } else {
      MulLe(k, q, b);
    }
  }

  lemma {:induction false} MulLe(x: nat, y: nat, b: nat)
    requires x <= y
    ensures x * b <= y * b
  {
    assert y * b == x * b + (y - x) * b;
  }
}

/** Which operator may sequence, and which may propose, by a node's view of the operator schedule. */
module Lookaheads {
  import opened GatewayTypes
  import opened Beacons

  datatype Lookahead = Lookahead(curr: Address, next: Address, updatedEpoch: nat)

  /** Parameters every node shares: the beacon chain, the contract's handover window in slots, and the
      configured pause before the next operator starts. */
  datatype Schedule = Schedule(beacon: Beacon, windowSlots: nat, bufferMs: nat) {
    predicate Valid() {
      beacon.Valid() && windowSlots <= beacon.slotsPerEpoch
    }

    /** First slot of an epoch in which its own operator has to stop. */
    function CutoffSlot(epoch: nat): nat
      requires Valid()
    {
      beacon.SlotEpochStart(epoch) + beacon.slotsPerEpoch - windowSlots
    }

    /** Second from which on, exclusively, the following epoch's operator may start early. */
    function CutoffTime(epoch: nat): nat
      requires Valid()
    {
      beacon.TimestampOfSlot(CutoffSlot(epoch)) + bufferMs / 1000
    }
  }

  // ---- decisions on a view ----

  /** Current and next operator; update epoch 0 means the view is taken as it is. */
  function Effective(l: Lookahead, epoch: nat): (Address, Address) {
    if l.updatedEpoch == 0 || epoch == l.updatedEpoch then (l.curr, l.next) else (l.next, ZERO_ADDRESS)
  }

  predicate CanSequence(s: Schedule, l: Lookahead, now: Instant, operator: Address)
    requires s.Valid() && s.beacon.Started(now)
  {
    var epoch := s.beacon.CurrentEpoch(now);
    var (current, next) := Effective(l, epoch);
    if operator == current && operator == next then true
    else if operator == current then s.beacon.CurrentSlot(now) < s.CutoffSlot(epoch)
    else if operator == next then Seconds(now) > s.CutoffTime(epoch)
    else false
  }

  predicate CanPropose(s: Schedule, l: Lookahead, now: Instant, operator: Address)
    requires s.Valid() && s.beacon.Started(now)
  {
    if s.beacon.CurrentEpoch(now) != l.updatedEpoch then operator == l.next else operator == l.curr
  }

  predicate ShouldClearProposal(s: Schedule, l: Lookahead, now: Instant, operator: Address)
    requires s.Valid() && s.beacon.Started(now)
  {
    if s.beacon.CurrentEpoch(now) != l.updatedEpoch then false
    else if operator != l.curr then false
    else if operator == l.next then false
    else s.beacon.CurrentSlot(now) >= s.CutoffSlot(l.updatedEpoch)
  }

  /** A node's handle on the shared view, which it rereads when its copy is over 500 ms old. */
  class LookaheadHandle {
    const schedule: Schedule
    var checked: Instant
    var last: Lookahead

    constructor (schedule: Schedule, shared: Lookahead, now: Instant)
      ensures this.schedule == schedule && last == shared && checked == now
    {
      this.schedule := schedule;
      last, checked := shared, now;
    }

    twostate predicate RefreshedTo(shared: Lookahead, now: Instant)
      reads this
    {
      if now - old(checked) > 500 then last == shared && checked == now
      else last == old(last) && checked == old(checked)
    }

    method MaybeRefresh(shared: Lookahead, now: Instant)
      modifies this
      ensures RefreshedTo(shared, now)
      ensures now - checked <= 500
      ensures now > old(checked) + 500 ==> last == shared && checked == now
      ensures now <= old(checked) + 500 ==> last == old(last) && checked == old(checked)
    {
      if now - checked > 500 {
        last := shared;
        checked := now;
      }
    }

    method MaySequence(enabled: bool, shared: Lookahead, now: Instant, operator: Address) returns (can: bool)
      requires schedule.Valid() && schedule.beacon.Started(now)
      modifies this
      ensures if enabled then RefreshedTo(shared, now) else unchanged(this)
      ensures can <==> enabled && CanSequence(schedule, last, now, operator)
    {
      if !enabled {
        return false;
      }
      MaybeRefresh(shared, now);
      var beacon, epoch := schedule.beacon, schedule.beacon.CurrentEpoch(now);
      var cutoffSlot := beacon.SlotEpochStart(epoch) + beacon.slotsPerEpoch - schedule.windowSlots;
      var cutoffTime := beacon.TimestampOfSlot(cutoffSlot) + schedule.bufferMs / 1000;
      var current, next := last.next, ZERO_ADDRESS;
      if last.updatedEpoch == 0 || epoch == last.updatedEpoch {
        current, next := last.curr, last.next;
      }
      match (operator == current, operator == next)
      case (true, true) => return true;
      case (true, false) => return beacon.CurrentSlot(now) < cutoffSlot;
      case (false, true) => return Seconds(now) > cutoffTime;
      case (false, false) => return false;
    }

    method MayPropose(enabled: bool, shared: Lookahead, now: Instant, operator: Address) returns (can: bool)
      requires schedule.Valid() && schedule.beacon.Started(now)
      modifies this
      ensures if enabled then RefreshedTo(shared, now) else unchanged(this)
      ensures can <==> enabled && CanPropose(schedule, last, now, operator)
    {
      if !enabled {
        return false;
      }
      MaybeRefresh(shared, now);
      if schedule.beacon.CurrentEpoch(now) != last.updatedEpoch {
        return operator == last.next;
      }
      return operator == last.curr;
    }

    method MustClearProposal(enabled: bool, shared: Lookahead, now: Instant, operator: Address) returns (clear: bool)
      requires schedule.Valid() && schedule.beacon.Started(now)
      modifies this
      ensures if enabled then RefreshedTo(shared, now) else unchanged(this)
      ensures clear <==> enabled && ShouldClearProposal(schedule, last, now, operator)
    {
      if !enabled {
        return false;
      }
      MaybeRefresh(shared, now);
      if schedule.beacon.CurrentEpoch(now) != last.updatedEpoch || operator != last.curr || operator == last.next {
        return false;
      }
      var cutoffSlot :=
        schedule.beacon.SlotEpochStart(last.updatedEpoch) + schedule.beacon.slotsPerEpoch - schedule.windowSlots;
      return schedule.beacon.CurrentSlot(now) >= cutoffSlot;
    }
  }

  // ---- mutual exclusion ----

  /** The whitelist contract's choice of operator for every epoch. */
  type Oracle = nat -> Address

  /** The view holds the contract's answers for its own epoch and the next, or misses them. */
  ghost predicate Truthful(op: Oracle, l: Lookahead) {
    && (l.curr == op(l.updatedEpoch) || l.curr == ZERO_ADDRESS)
    && (l.next == op(l.updatedEpoch + 1) || l.next == ZERO_ADDRESS)
  }

  /** What a view may be in `epoch`: truthful, and read in this epoch or the one before. */
  ghost predicate Honest(op: Oracle, l: Lookahead, epoch: nat) {
    l.updatedEpoch <= epoch <= l.updatedEpoch + 1 && Truthful(op, l)
  }

  /** Update epoch 0 is also the mark of a view never updated, and is never taken as stale. */
  ghost predicate Fresh(l: Lookahead, epoch: nat) {
    l.updatedEpoch == 0 ==> epoch == 0
  }

  /** A node allowed to sequence at some instant. */
  datatype Turn = Turn(now: Instant, view: Lookahead, operator: Address) {
    ghost predicate Allowed(s: Schedule, op: Oracle) {
      && s.Valid() && s.beacon.Started(now)
      && operator != ZERO_ADDRESS
      && Honest(op, view, s.beacon.CurrentEpoch(now))
      && CanSequence(s, view, now, operator)
    }
  }

  /** In terms of the contract alone: the epoch's operator until the cutoff, or throughout if it also has
      the next epoch; the next epoch's operator once the pause after the cutoff is over. */
  ghost predicate Scheduled(s: Schedule, op: Oracle, now: Instant, operator: Address)
    requires s.Valid() && s.beacon.Started(now)
  {
    var epoch := s.beacon.CurrentEpoch(now);
    || (operator == op(epoch) && (s.beacon.CurrentSlot(now) < s.CutoffSlot(epoch) || operator == op(epoch + 1)))
    || (operator == op(epoch + 1) && Seconds(now) > s.CutoffTime(epoch))
  }

  /** Views that miss or lag never allow more than the schedule, and a complete view read in this epoch
      allows exactly the schedule. */
  lemma TurnsAreScheduled(s: Schedule, op: Oracle, now: Instant, l: Lookahead, operator: Address)
    requires s.Valid() && s.beacon.Started(now) && operator != ZERO_ADDRESS
    requires Honest(op, l, s.beacon.CurrentEpoch(now)) && Fresh(l, s.beacon.CurrentEpoch(now))
    ensures CanSequence(s, l, now, operator) ==> Scheduled(s, op, now, operator)
    ensures
      var epoch := s.beacon.CurrentEpoch(now);
      l == Lookahead(op(epoch), op(epoch + 1), epoch) ==>
        (Scheduled(s, op, now, operator) <==> CanSequence(s, l, now, operator))
  {
  }

  lemma CutoffOrder(s: Schedule, now: Instant)
    requires s.Valid() && s.beacon.Started(now)
    ensures
      var epoch := s.beacon.CurrentEpoch(now);
      var cutoff := 1000 * s.beacon.TimestampOfSlot(s.CutoffSlot(epoch));
      && (s.beacon.CurrentSlot(now) < s.CutoffSlot(epoch) <==> now < cutoff)
      && (Seconds(now) > s.CutoffTime(epoch) ==> now > cutoff + s.bufferMs)
  {
    s.beacon.SlotBefore(now, s.CutoffSlot(s.beacon.CurrentEpoch(now)));
  }

  /** No two operators are allowed to sequence at the same instant. */
  lemma OneSequencer(s: Schedule, op: Oracle, a: Turn, b: Turn)
    requires a.Allowed(s, op) && b.Allowed(s, op) && a.now == b.now
    requires Fresh(a.view, s.beacon.CurrentEpoch(a.now)) && Fresh(b.view, s.beacon.CurrentEpoch(b.now))
    ensures a.operator == b.operator
  {
    TurnsAreScheduled(s, op, a.now, a.view, a.operator);
    TurnsAreScheduled(s, op, b.now, b.view, b.operator);
    CutoffOrder(s, a.now);
  }

  ghost predicate BothAllowed(s: Schedule, op: Oracle, now: Instant, a: Turn, b: Turn) {
    a.Allowed(s, op) && b.Allowed(s, op) && a.now == b.now == now
  }

  ghost predicate Exclusive(s: Schedule, now: Instant) {
    forall op, a, b | BothAllowed(s, op, now, a, b) :: a.operator == b.operator
  }

  /** Epoch 0 is also the mark of a view never updated. Exactly in epoch 1, outside the pause, that lets two
      operators sequence at once; at all other instants truthful views at most one epoch old exclude it. */
  lemma ExclusiveIff(s: Schedule, now: Instant)
    requires s.Valid() && s.beacon.Started(now)
    ensures
      var epoch := s.beacon.CurrentEpoch(now);
      Exclusive(s, now)
      <==> epoch != 1 || (s.CutoffSlot(1) <= s.beacon.CurrentSlot(now) && Seconds(now) <= s.CutoffTime(1))
  {
    var epoch := s.beacon.CurrentEpoch(now);
    if epoch != 1 {
      forall op, a, b | BothAllowed(s, op, now, a, b)
        ensures a.operator == b.operator
      {
        OneSequencer(s, op, a, b);
      }
    } else {
      var op: Oracle := e => e + 1;
      var early := s.beacon.CurrentSlot(now) < s.CutoffSlot(1);
      var a := Turn(now, Lookahead(1, 2, 0), if early then 1 else 2);
      var b := Turn(now, Lookahead(2, 3, 1), if early then 2 else 3);
      CutoffOrder(s, now);
      if early || Seconds(now) > s.CutoffTime(1) {
        assert BothAllowed(s, op, now, a, b);
      }
    }
  }

  /** Views of that epoch allow no operator beyond the schedule, whatever the contract chooses. */
  ghost predicate ViewSafe(s: Schedule, now: Instant, updatedEpoch: nat)
    requires s.Valid() && s.beacon.Started(now)
  {
    forall op, l: Lookahead, operator |
      && Truthful(op, l) && l.updatedEpoch == updatedEpoch
      && operator != ZERO_ADDRESS && CanSequence(s, l, now, operator) :: Scheduled(s, op, now, operator)
  }

  /** How old a view may be: of this epoch; of the one before, but not of epoch 0; or of any other epoch but
      0 once the cutoff has passed, when an outdated view allows nobody. */
  lemma ViewSafeIff(s: Schedule, now: Instant, updatedEpoch: nat)
    requires s.Valid() && s.beacon.Started(now) && updatedEpoch <= s.beacon.CurrentEpoch(now)
    ensures
      var epoch := s.beacon.CurrentEpoch(now);
      ViewSafe(s, now, updatedEpoch)
      <==> || updatedEpoch == epoch
           || (updatedEpoch != 0
               && (updatedEpoch + 1 == epoch || s.CutoffSlot(epoch) <= s.beacon.CurrentSlot(now)))
  {
    var epoch, u := s.beacon.CurrentEpoch(now), updatedEpoch;
    CutoffOrder(s, now);
    var early := s.beacon.CurrentSlot(now) < s.CutoffSlot(epoch);
    if u == 0 < epoch {
      var op: Oracle := if early then e => e + 1 else e => if e <= 1 then 1 else 2;
      assert Truthful(op, Lookahead(op(0), op(1), 0)) && CanSequence(s, Lookahead(op(0), op(1), 0), now, op(0));
      assert !Scheduled(s, op, now, op(0));
    } else if u + 1 < epoch && early {
      var op: Oracle := e => e + 1;
      var l := Lookahead(op(u), op(u + 1), u);
      assert Truthful(op, l) && CanSequence(s, l, now, op(u + 1)) && !Scheduled(s, op, now, op(u + 1));
    }
  }

  /** The handover window's length in milliseconds. */
  function WindowMs(s: Schedule): nat {
    1000 * (s.windowSlots * s.beacon.secondsPerSlot)
  }

  lemma EpochLayout(s: Schedule, epoch: nat)
    requires s.Valid()
    ensures
      var start, cutoff, end := s.beacon.SlotEpochStart(epoch), s.CutoffSlot(epoch), s.beacon.SlotEpochStart(epoch + 1);
      && s.beacon.TimestampOfSlot(start) <= s.beacon.TimestampOfSlot(cutoff)
      && 1000 * s.beacon.TimestampOfSlot(end) == 1000 * s.beacon.TimestampOfSlot(cutoff) + WindowMs(s)
  {
    var start, cutoff, end := s.beacon.SlotEpochStart(epoch), s.CutoffSlot(epoch), s.beacon.SlotEpochStart(epoch + 1);
    assert end == start + s.beacon.slotsPerEpoch == cutoff + s.windowSlots;
    MulLe(start, cutoff, s.beacon.secondsPerSlot);
    assert end * s.beacon.secondsPerSlot == cutoff * s.beacon.secondsPerSlot + s.windowSlots * s.beacon.secondsPerSlot;
  }

  lemma LaterEpochStart(s: Schedule, early: nat, late: nat)
    requires s.Valid() && early <= late
    ensures s.beacon.TimestampOfSlot(s.beacon.SlotEpochStart(early)) <= s.beacon.TimestampOfSlot(s.beacon.SlotEpochStart(late))
  {
    MulLe(early, late, s.beacon.slotsPerEpoch);
    MulLe(s.beacon.SlotEpochStart(early), s.beacon.SlotEpochStart(late), s.beacon.secondsPerSlot);
  }

  lemma ScheduledApart(s: Schedule, op: Oracle, t1: Instant, o1: Address, t2: Instant, o2: Address)
    requires s.Valid() && s.beacon.Started(t1) && s.beacon.Started(t2)
    requires Scheduled(s, op, t1, o1) && Scheduled(s, op, t2, o2)
    requires t1 <= t2 && o1 != o2
    ensures t2 - t1 > Min(s.bufferMs, WindowMs(s))
  {
    var e1, e2 := s.beacon.CurrentEpoch(t1), s.beacon.CurrentEpoch(t2);
    s.beacon.EpochBefore(t1, e2);
    s.beacon.EpochBefore(t2, e1);
    LaterEpochStart(s, e2, e2);
    if e2 < e1 {
      s.beacon.EpochBefore(t2, e2 + 1);
      LaterEpochStart(s, e2 + 1, e1);
      s.beacon.EpochBefore(t1, e1);
      assert false;
    }
    CutoffOrder(s, t1);
    CutoffOrder(s, t2);
    EpochLayout(s, e1);
    EpochLayout(s, e2);
    s.beacon.EpochBefore(t1, e1 + 1);
    s.beacon.EpochBefore(t2, e2);
    if e1 + 2 <= e2 {
      EpochLayout(s, e1 + 1);
      LaterEpochStart(s, e1 + 2, e2);
    }
  }

  /** Turns of different operators are more than the pause or the handover window apart, whichever is
      shorter. */
  lemma TurnsApart(s: Schedule, op: Oracle, a: Turn, b: Turn)
    requires a.Allowed(s, op) && b.Allowed(s, op) && a.now <= b.now && a.operator != b.operator
    requires Fresh(a.view, s.beacon.CurrentEpoch(a.now)) && Fresh(b.view, s.beacon.CurrentEpoch(b.now))
    ensures b.now - a.now > Min(s.bufferMs, WindowMs(s))
  {
    TurnsAreScheduled(s, op, a.now, a.view, a.operator);
    TurnsAreScheduled(s, op, b.now, b.view, b.operator);
    ScheduledApart(s, op, a.now, a.operator, b.now, b.operator);
  }

  ghost predicate Handover(s: Schedule, op: Oracle, a: Turn, b: Turn) {
    && a.Allowed(s, op) && b.Allowed(s, op) && a.now <= b.now && a.operator != b.operator
    && Fresh(a.view, s.beacon.CurrentEpoch(a.now)) && Fresh(b.view, s.beacon.CurrentEpoch(b.now))
  }

  /** The configured pause separates the turns of any two operators, under every operator choice, exactly
      when the pause fits into the handover window. */
  lemma PauseKeptIff(s: Schedule)
    requires s.Valid() && s.windowSlots < s.beacon.slotsPerEpoch
    ensures (forall op, a, b | Handover(s, op, a, b) :: b.now - a.now > s.bufferMs) <==> s.bufferMs <= WindowMs(s)
  {
    if s.bufferMs <= WindowMs(s) {
      forall op, a, b | Handover(s, op, a, b)
        ensures b.now - a.now > s.bufferMs
      {
        TurnsApart(s, op, a, b);
      }
    } else {
      var op, a, b := WindowHandover(s);
    }
  }

  /** The last instant before the cutoff of epoch 0, and the first of epoch 1. */
  lemma HandoverInstants(s: Schedule) returns (t1: Instant, t2: Instant)
    requires s.Valid() && s.windowSlots < s.beacon.slotsPerEpoch
    ensures s.beacon.Started(t1) && s.beacon.Started(t2) && t2 == t1 + WindowMs(s) + 1
    ensures s.beacon.CurrentEpoch(t1) == 0 && s.beacon.CurrentSlot(t1) < s.CutoffSlot(0)
    ensures s.beacon.CurrentEpoch(t2) == 1 && s.beacon.CurrentSlot(t2) < s.CutoffSlot(1)
  {
    var cutoff, end := s.CutoffSlot(0), s.beacon.SlotEpochStart(1);
    MulLe(1, cutoff, s.beacon.secondsPerSlot);
    MulLe(end + 1, s.CutoffSlot(1), s.beacon.secondsPerSlot);
    assert (end + 1) * s.beacon.secondsPerSlot == end * s.beacon.secondsPerSlot + s.beacon.secondsPerSlot;
    t1 := 1000 * s.beacon.TimestampOfSlot(cutoff) - 1;
    t2 := 1000 * s.beacon.TimestampOfSlot(end);
    EpochLayout(s, 0);
    EpochLayout(s, 1);
    hide Beacon.CurrentEpoch, Beacon.CurrentSlot;
    s.beacon.EpochBefore(t1, 1);
    s.beacon.EpochBefore(t2, 1);
    s.beacon.EpochBefore(t2, 2);
    s.beacon.SlotBefore(t1, cutoff);
    s.beacon.SlotBefore(t2, s.CutoffSlot(1));
  }

  lemma WindowHandover(s: Schedule) returns (op: Oracle, a: Turn, b: Turn)
    requires s.Valid() && s.windowSlots < s.beacon.slotsPerEpoch
    ensures Handover(s, op, a, b) && b.now - a.now == WindowMs(s) + 1
  {
    op := e => e + 1;
    var t1, t2 := HandoverInstants(s);
    a := Turn(t1, Lookahead(1, 2, 0), 1);
    b := Turn(t2, Lookahead(2, 3, 1), 2);
    hide Beacon.CurrentEpoch, Beacon.CurrentSlot, WindowMs, Schedule.CutoffSlot, Schedule.CutoffTime;
  }

  /** The operator allowed to propose is the contract's for this epoch. */
  lemma OneProposer(s: Schedule, op: Oracle, now: Instant, l: Lookahead, operator: Address)
    requires s.Valid() && s.beacon.Started(now) && operator != ZERO_ADDRESS
    requires Honest(op, l, s.beacon.CurrentEpoch(now))
    ensures CanPropose(s, l, now, operator) ==> operator == op(s.beacon.CurrentEpoch(now))
    ensures ZERO_ADDRESS !in {l.curr, l.next} ==>
      (CanPropose(s, l, now, operator) <==> operator == op(s.beacon.CurrentEpoch(now)))
  {
  }

  /** Batches are cleared exactly when, by a view read in this epoch, the operator may still propose but
      may no longer sequence. */
  lemma ClearsIff(s: Schedule, now: Instant, l: Lookahead, operator: Address)
    requires s.Valid() && s.beacon.Started(now)
    ensures
      ShouldClearProposal(s, l, now, operator)
      <==> && l.updatedEpoch == s.beacon.CurrentEpoch(now)
           && CanPropose(s, l, now, operator)
           && !CanSequence(s, l, now, operator)
  {
  }

  // ---- turns on the clock ----

  /** The second at which an epoch begins. */
  function EpochBegins(s: Schedule, epoch: nat): nat {
    s.beacon.genesisTimeSec + (epoch * s.beacon.slotsPerEpoch) * s.beacon.secondsPerSlot
  }

  /** The second at which the handover window of an epoch begins. */
  function WindowBegins(s: Schedule, epoch: nat): nat
    requires s.Valid()
  {
    var slot := epoch * s.beacon.slotsPerEpoch + s.beacon.slotsPerEpoch - s.windowSlots;
    s.beacon.genesisTimeSec + slot * s.beacon.secondsPerSlot
  }

  /** The instants of an epoch, on the clock. */
  ghost predicate DuringEpoch(s: Schedule, epoch: nat, now: Instant) {
    1000 * EpochBegins(s, epoch) <= now < 1000 * EpochBegins(s, epoch + 1)
  }

  lemma ClockSlots(s: Schedule, epoch: nat)
    requires s.Valid()
    ensures EpochBegins(s, epoch) == s.beacon.TimestampOfSlot(s.beacon.SlotEpochStart(epoch))
    ensures s.beacon.genesisTimeSec <= EpochBegins(s, epoch)
    ensures WindowBegins(s, epoch) == s.beacon.TimestampOfSlot(s.CutoffSlot(epoch))
    ensures s.CutoffTime(epoch) == WindowBegins(s, epoch) + s.bufferMs / 1000
  {
  }

  lemma EpochDuring(s: Schedule, epoch: nat, now: Instant)
    requires s.Valid() && DuringEpoch(s, epoch, now)
    ensures s.beacon.Started(now) && s.beacon.CurrentEpoch(now) == epoch
    ensures s.beacon.CurrentSlot(now) < s.CutoffSlot(epoch) <==> now < 1000 * WindowBegins(s, epoch)
    ensures s.CutoffTime(epoch) == WindowBegins(s, epoch) + s.bufferMs / 1000
  {
    ClockSlots(s, epoch);
    ClockSlots(s, epoch + 1);
    hide EpochBegins, WindowBegins, Schedule.CutoffSlot, Schedule.CutoffTime, Beacon.CurrentEpoch, Beacon.CurrentSlot,
         Beacon.TimestampOfSlot, Beacon.SlotEpochStart;
    assert s.beacon.genesisTimeSec <= Seconds(now);
    s.beacon.EpochBefore(now, epoch);
    s.beacon.EpochBefore(now, epoch + 1);
    s.beacon.SlotBefore(now, s.CutoffSlot(epoch));
  }

  /** What a view read in this epoch, or never updated, allows: its first operator sequences up to the handover
      window, and on through it if it is also the next; the next one sequences in the window once the pause is over. */
  predicate SequencesNow(s: Schedule, l: Lookahead, epoch: nat, now: Instant, operator: Address)
    requires s.Valid()
  {
    || (operator == l.curr && (now < 1000 * WindowBegins(s, epoch) || operator == l.next))
    || (operator == l.next && now / 1000 > WindowBegins(s, epoch) + s.bufferMs / 1000)
  }

  /** The decisions on any view whatsoever, on the clock. A view of another epoch allows only its next operator: to
      propose throughout, and to sequence up to the handover window. */
  lemma ViewTurns(s: Schedule, l: Lookahead, epoch: nat, now: Instant, operator: Address)
    requires s.Valid() && DuringEpoch(s, epoch, now) && operator != ZERO_ADDRESS
    ensures s.beacon.Started(now)
    ensures
      CanSequence(s, l, now, operator)
      <==> if l.updatedEpoch == 0 || l.updatedEpoch == epoch then SequencesNow(s, l, epoch, now, operator)
           else operator == l.next && now < 1000 * WindowBegins(s, epoch)
    ensures CanPropose(s, l, now, operator) <==> operator == if l.updatedEpoch == epoch then l.curr else l.next
    ensures
      ShouldClearProposal(s, l, now, operator)
      <==> && l.updatedEpoch == epoch && operator == l.curr && operator != l.next
           && now >= 1000 * WindowBegins(s, epoch)
  {
    EpochDuring(s, epoch, now);
    CutoffOrder(s, now);
    hide Beacon.CurrentEpoch, Beacon.CurrentSlot, Beacon.Started, EpochBegins, WindowBegins;
  }

  /** In terms of the contract, a complete view read in the same epoch: this epoch's operator sequences up to the
      window or into its own next epoch, the next one after the pause; this epoch's proposes, and clears in the
      window if another follows. */
  lemma CurrentViewTurns(s: Schedule, op: Oracle, epoch: nat, now: Instant, operator: Address)
    requires s.Valid() && DuringEpoch(s, epoch, now) && operator != ZERO_ADDRESS
    ensures s.beacon.Started(now)
    ensures
      var l, window := Lookahead(op(epoch), op(epoch + 1), epoch), WindowBegins(s, epoch);
      && (CanSequence(s, l, now, operator)
          <==> || (operator == op(epoch) && (now < 1000 * window || operator == op(epoch + 1)))
               || (operator == op(epoch + 1) && now / 1000 > window + s.bufferMs / 1000))
      && (CanPropose(s, l, now, operator) <==> operator == op(epoch))
      && (ShouldClearProposal(s, l, now, operator)
          <==> operator == op(epoch) && operator != op(epoch + 1) && now >= 1000 * window)
  {
    ViewTurns(s, Lookahead(op(epoch), op(epoch + 1), epoch), epoch, now, operator);
    hide CanSequence, CanPropose, ShouldClearProposal, Beacon.Started, WindowBegins;
  }

  /** A complete view of the epoch before, which is what nodes have until the operators are read again, allows exactly
      this epoch's operator. Epoch 0 is also the mark of a view never updated, and does not count as the one before. */
  lemma LaggingViewTurns(s: Schedule, op: Oracle, epoch: nat, now: Instant, operator: Address)
    requires s.Valid() && DuringEpoch(s, epoch + 1, now) && operator != ZERO_ADDRESS
    ensures s.beacon.Started(now)
    ensures
      var l := Lookahead(op(epoch), op(epoch + 1), epoch);
      && (epoch > 0 ==>
            (CanSequence(s, l, now, operator)
             <==> operator == op(epoch + 1) && s.beacon.CurrentSlot(now) < s.CutoffSlot(epoch + 1)))
      && (CanPropose(s, l, now, operator) <==> operator == op(epoch + 1))
      && !ShouldClearProposal(s, l, now, operator)
  {
    ViewTurns(s, Lookahead(op(epoch), op(epoch + 1), epoch), epoch + 1, now, operator);
    EpochDuring(s, epoch + 1, now);
    hide CanSequence, CanPropose, ShouldClearProposal, Beacon.Started, Beacon.CurrentEpoch, Beacon.CurrentSlot;
    hide EpochBegins, WindowBegins;
  }

  // ---- what the hypotheses exclude ----

  /** Epochs of two 12-second slots, a window of one slot, and no pause. */
  const SMALL: Schedule := Schedule(Beacon(2, 0, 12), 1, 0)

  /** A view read in epoch 0 is not taken as stale in epoch 1: two operators sequence at once. */
  lemma SentinelBreaksExclusion() returns (op: Oracle, a: Turn, b: Turn)
    ensures a.Allowed(SMALL, op) && b.Allowed(SMALL, op) && a.now == b.now && a.operator != b.operator
    ensures !Fresh(a.view, SMALL.beacon.CurrentEpoch(a.now)) && Fresh(b.view, SMALL.beacon.CurrentEpoch(b.now))
  {
    op := e => e + 1;
    a := Turn(24_000, Lookahead(1, 2, 0), 1);
    b := Turn(24_000, Lookahead(2, 3, 1), 2);
  }

  /** So do they when one of the views is two epochs old. */
  lemma StaleViewBreaksExclusion() returns (op: Oracle, now: Instant, stale: Lookahead, b: Turn)
    ensures b.Allowed(SMALL, op) && b.now == now && Fresh(b.view, SMALL.beacon.CurrentEpoch(now))
    ensures stale.updatedEpoch + 2 == SMALL.beacon.CurrentEpoch(now) && Honest(op, stale, stale.updatedEpoch)
    ensures exists operator :: operator != b.operator && operator != ZERO_ADDRESS
             && CanSequence(SMALL, stale, now, operator)
  {
    op := e => e + 1;
    now := 72_000;
    stale := Lookahead(2, 3, 1);
    b := Turn(now, Lookahead(4, 5, 3), 4);
    assert CanSequence(SMALL, stale, now, 3);
  }
}
