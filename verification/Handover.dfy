/** The handover promise: when the next operator may start, nothing of the outgoing one is still pending. */
module Handovers {
  import opened GatewayTypes
  import opened Beacons
  import opened Batches
  import opened Lookaheads
  import opened SequencerLoop
  import opened SequencerRuns

  /** The operator of `epoch` at the end of its turn, knowing that another one follows. */
  datatype Outgoing = Outgoing(schedule: Schedule, op: Oracle, epoch: nat) {
    function View(): Lookahead {
      Lookahead(op(epoch), op(epoch + 1), epoch)
    }

    ghost predicate Valid() {
      schedule.Valid() && op(epoch) != op(epoch + 1) && op(epoch) != ZERO_ADDRESS
    }

    /** In the epoch, from the cutoff on. */
    ghost predicate Late(now: Instant) {
      && schedule.Valid() && schedule.beacon.Started(now)
      && schedule.beacon.CurrentEpoch(now) == epoch
      && schedule.beacon.CurrentSlot(now) >= schedule.CutoffSlot(epoch)
    }

    /** What a pass at `now` observes follows the lookahead's decisions for this operator. */
    ghost predicate Follows(now: Instant, o: Observed)
      requires schedule.Valid() && schedule.beacon.Started(now)
    {
      && o.now == Seconds(now)
      && (o.canSequence ==> CanSequence(schedule, View(), now, op(epoch)))
      && (o.clearProposal <==> ShouldClearProposal(schedule, View(), now, op(epoch)))
    }
  }

  /** The passes of the loop at these instants are all late in the outgoing operator's turn. */
  ghost predicate LatePasses(out: Outgoing, rest: seq<Pass>, at: seq<Instant>) {
    && |at| == |rest|
    && forall i | 0 <= i < |rest| :: out.Late(at[i]) && out.Follows(at[i], rest[i].observed)
  }

  /** Late in its turn an operator clears and does not sequence. */
  lemma LateDecisions(out: Outgoing, now: Instant, o: Observed)
    requires out.Valid() && out.Late(now) && out.Follows(now, o)
    ensures !o.canSequence && o.clearProposal
  {
    ClearsIff(out.schedule, now, out.View(), out.op(out.epoch));
  }

  ghost predicate Idle(s: Sequencer) {
    s.mode.Sync? && s.request.None?
  }

  lemma LatePass(cfg: Config, s: Sequencer, sealed: seq<Sealed>, p: Pass)
    requires !p.observed.canSequence && p.observed.clearProposal
    requires Allowed(cfg, Tick(cfg, s, p.observed), p.observed, p.action)
    ensures
      var w := Act(cfg, Tick(cfg, s, p.observed), sealed, p.observed, p.action);
      w.crash.None? ==> w.s.mode.Sync? && (s.mode.Sync? ==> Idle(w.s))
  {
    TickFlushes(cfg, s, p.observed);
  }

  /** One late pass ends the block being built; from the second on nothing is pending. */
  lemma {:induction false} LatePassesSettle(out: Outgoing, cfg: Config, before: seq<Pass>, rest: seq<Pass>,
                                            at: seq<Instant>)
    requires out.Valid() && LatePasses(out, rest, at) && rest != []
    requires Run(cfg, before + rest).Some? && Run(cfg, before + rest).value.crash.None?
    ensures
      var s := Run(cfg, before + rest).value.s;
      s.mode.Sync? && (|rest| >= 2 ==> Idle(s))
  {
    var n := |rest| - 1;
    var all, prefix := before + rest, before + rest[..n];
    assert all[..|all| - 1] == prefix && all[|all| - 1] == rest[n];
    var w := Run(cfg, prefix).value;
    assert Run(cfg, all).value == Act(cfg, Tick(cfg, w.s, rest[n].observed), w.sealed, rest[n].observed, rest[n].action);
    assert Allowed(cfg, Tick(cfg, w.s, rest[n].observed), rest[n].observed, rest[n].action);
    assert out.Late(at[n]) && out.Follows(at[n], rest[n].observed);
    LateDecisions(out, at[n], rest[n].observed);
    if n > 0 {
      assert LatePasses(out, rest[..n], at[..n]);
      hide Run, Tick, Act, Allowed;
      LatePassesSettle(out, cfg, before, rest[..n], at[..n]);
    }
    LatePass(cfg, w.s, w.sealed, rest[n]);
  }

  /** The instant until which nobody sequences after the cutoff. */
  function PauseEnd(out: Outgoing): Instant
    requires out.schedule.Valid()
  {
    1000 * out.schedule.beacon.TimestampOfSlot(out.schedule.CutoffSlot(out.epoch)) + out.schedule.bufferMs
  }

  /** Another operator is allowed to sequence in the outgoing operator's epoch. */
  ghost predicate NextTurn(out: Outgoing, turn: Turn) {
    && turn.Allowed(out.schedule, out.op) && turn.operator != out.op(out.epoch)
    && out.schedule.beacon.CurrentEpoch(turn.now) == out.epoch && Fresh(turn.view, out.epoch)
  }

  /** The following operator's turn begins after the pause. */
  lemma NextStartsAfterPause(out: Outgoing, turn: Turn)
    requires out.Valid() && NextTurn(out, turn)
    ensures out.Late(turn.now) && turn.now > PauseEnd(out)
  {
    TurnsAreScheduled(out.schedule, out.op, turn.now, turn.view, turn.operator);
    CutoffOrder(out.schedule, turn.now);
  }

  /** After two late passes the outgoing operator has sent every block it sealed and builds none; and if they
      fall inside the pause, that is before any other operator may sequence in that epoch. */
  lemma NothingPendingAtHandover(out: Outgoing, cfg: Config, before: seq<Pass>, rest: seq<Pass>, at: seq<Instant>)
    returns (runs: seq<seq<Sealed>>)
    requires out.Valid() && LatePasses(out, rest, at) && |rest| >= 2
    requires Run(cfg, before + rest).Some? && Run(cfg, before + rest).value.crash.None?
    requires SealsOrders(before + rest)
    ensures
      var w := Run(cfg, before + rest).value;
      && Idle(w.s)
      && Flatten(runs) == w.sealed && |runs| == |w.s.sent|
      && forall k | 0 <= k < |runs| :: BatchOf(cfg, w.s.sent[k], runs[k])
    ensures at[1] <= PauseEnd(out) ==> forall turn | NextTurn(out, turn) :: at[1] < turn.now
  {
    LatePassesSettle(out, cfg, before, rest, at);
    runs := EverySealedBlockOnce(cfg, before + rest);
    var w := Run(cfg, before + rest).value;
    hide Run, Flatten, BatchOf;
    assert AllBatches(w.s) == w.s.sent;
    forall turn | NextTurn(out, turn)
      ensures turn.now > PauseEnd(out)
    {
      NextStartsAfterPause(out, turn);
    }
  }
}
