/** How a proposal reacts to every event, and what its fees and retries say about the failures so far. */
module ProposalRetrySteps {
  import opened GatewayTypes
  import opened ProposalRetry

  // ---- one failure ----

  /** Proposing was too late for this operator, or an earlier proposal already covers the blocks: no more retries. */
  predicate GivesUp(f: Failure) {
    f.NotPreconferOrFallback? || (f.InvalidLastBlockId? && f.actual > f.expected)
  }

  /** Failures without a known remedy. */
  predicate Counts(f: Failure) {
    f.Other? || (f.InvalidLastBlockId? && f.actual <= f.expected)
  }

  /** What a failure changes: the fee it is about and no other, one retry if it counts, and never the nonce. The
      loop gives up on two kinds, panics at the third failure that counts, and tries again otherwise. */
  lemma FailureMeaning(r: Retry, f: Failure)
    ensures
      var (r', verdict) := AfterFailure(r, f);
      && r'.lastUsedNonce == r.lastUsedNonce
      && r'.retries == r.retries + (if Counts(f) then 1 else 0)
      && (r'.fees.bump <==> r.fees.bump || f.NotIncludedInNextBlocks?)
      && r'.fees.tipCap == (if f.UnderpricedTipCap? then Some(2 * f.queued) else r.fees.tipCap)
      && r'.fees.blobFeeCap == (if f.UnderpricedBlobFeeCap? then Some(2 * f.queued) else r.fees.blobFeeCap)
      && r'.fees.gasFeeCap == (if f.UnderpricedGasFeeCap? then Some(2 * f.queued) else r.fees.gasFeeCap)
      && (verdict.Stop? <==> GivesUp(f))
      && (verdict.Panic? <==> Counts(f) && r.retries + 1 == 3)
  {
  }

  // ---- over whole runs ----

  /** The failure an event reports to the loop, unless the proposal returns on it. */
  function Reported(w: World, e: Event): Option<Failure> {
    match e
    case AttemptFails(nonce, f) => if nonce > w.retry.lastUsedNonce then None else Some(f)
    case ReadFails(f) => Some(f)
    case Fails(f) => Some(f)
    case Receipt(f) =>
      if w.phase.Waiting? && Mined(w, w.phase.attempt) && w.consumed[w.sent[w.phase.attempt]].success then None
      else Some(f)
    case _ => None
  }

  /** The failures reported in a run, in their order. */
  function Failures(k: nat, events: seq<Event>): seq<Failure>
    requires Run(k, events).Some?
  {
    if events == [] then []
    else
      var before, e := events[..|events| - 1], events[|events| - 1];
      Failures(k, before) + match Reported(Run(k, before).value, e) case Some(f) => [f] case None => []
  }

  function Counted(failures: seq<Failure>): nat {
    if failures == [] then 0
    else Counted(failures[..|failures| - 1]) + if Counts(failures[|failures| - 1]) then 1 else 0
  }

  /** The last value in the list that `cap` reads from a failure, doubled. */
  function LastDoubled(failures: seq<Failure>, cap: Failure -> Option<nat>): Option<nat> {
    if failures == [] then None
    else
      match cap(failures[|failures| - 1])
      case Some(queued) => Some(2 * queued)
      case None => LastDoubled(failures[..|failures| - 1], cap)
  }

  function TipCap(f: Failure): Option<nat> {
    if f.UnderpricedTipCap? then Some(f.queued) else None
  }

  function BlobFeeCap(f: Failure): Option<nat> {
    if f.UnderpricedBlobFeeCap? then Some(f.queued) else None
  }

  function GasFeeCap(f: Failure): Option<nat> {
    if f.UnderpricedGasFeeCap? then Some(f.queued) else None
  }

  /** What fees, retries and outcome say about the failures reported. */
  ghost predicate Follows(w: World, failures: seq<Failure>) {
    && w.retry.retries == Counted(failures)
    && (w.retry.fees.bump <==> NotIncludedInNextBlocks in failures)
    && w.retry.fees.tipCap == LastDoubled(failures, TipCap)
    && w.retry.fees.blobFeeCap == LastDoubled(failures, BlobFeeCap)
    && w.retry.fees.gasFeeCap == LastDoubled(failures, GasFeeCap)
    && (w.phase.StoppedRetrying? <==> failures != [] && GivesUp(failures[|failures| - 1]))
    && (w.phase.Panicked? <==> Counted(failures) == 3)
  }

  /** A loop that gave up or panicked goes no further. */
  predicate Ended(w: World) {
    w.phase.StoppedRetrying? || w.phase.Panicked?
  }

  lemma FailureFollows(w: World, failures: seq<Failure>, r: Retry, f: Failure)
    requires Follows(w, failures) && !Ended(w) && r == w.retry.(lastUsedNonce := r.lastUsedNonce)
    requires Counted(failures) < 3
    ensures Follows(Judge(w, r, f), failures + [f])
  {
    FailureMeaning(r, f);
    var more := failures + [f];
    assert more[..|failures|] == failures && more[|failures|] == f;
    assert NotIncludedInNextBlocks in more <==> NotIncludedInNextBlocks in failures || f.NotIncludedInNextBlocks?;
    hide AfterFailure;
  }

  lemma StepFollows(w: World, failures: seq<Failure>, e: Event)
    requires Follows(w, failures) && Bounded(w) && Enabled(w, e)
    ensures
      var more := match Reported(w, e) case Some(f) => [f] case None => [];
      Follows(Step(w, e), failures + more)
  {
    if Reported(w, e).Some? {
      var r := match e case AttemptFails(nonce, _) => w.retry.(lastUsedNonce := nonce)
                       case Receipt(_) => w.retry.(lastUsedNonce := U64_MAX)
                       case _ => w.retry;
      FailureFollows(w, failures, r, Reported(w, e).value);
      hide Follows, Judge;
    } else {
      assert failures + [] == failures;
      hide Counted, LastDoubled;
    }
  }

  /** In every run: the bump is set exactly if some attempt was not included in time; each cap is twice the value
      of the last failure about it; the retries are the failures that count; the loop has given up exactly if the
      last failure asks for that, and has panicked exactly at three that count. */
  lemma {:induction false} FeesFollowFailures(k: nat, events: seq<Event>)
    requires Run(k, events).Some?
    ensures Follows(Run(k, events).value, Failures(k, events))
  {
    if events != [] {
      var before, e := events[..|events| - 1], events[|events| - 1];
      FeesFollowFailures(k, before);
      RetriesAreBounded(k, before);
      hide Follows, Bounded, Step, Enabled, Reported;
      StepFollows(Run(k, before).value, Failures(k, before), e);
    }
  }

  // ---- when the proposal returns, and when it sends ----

  /** In every run an event makes the proposal return exactly if it reads a nonce above the last used one, or is
      the receipt of a success. */
  lemma ReturnsIff(k: nat, events: seq<Event>, e: Event)
    requires Run(k, events).Some? && Run(k, events + [e]).Some? && !Run(k, events).value.phase.Returned?
    ensures
      var w := Run(k, events).value;
      Run(k, events + [e]).value.phase.Returned?
      <==> match e
           case Attempt(nonce) => nonce > w.retry.lastUsedNonce
           case AttemptFails(nonce, _) => nonce > w.retry.lastUsedNonce
           case Receipt(_) => w.phase.Waiting? && Succeeded(w, w.retry.lastUsedNonce)
           case _ => false
  {
    assert (events + [e])[..|events|] == events;
    RunKeeps(k, events);
    hide OneNonce, AfterFailure, Run;
  }

  /** After a receipt that shows a revert and is retried, the next attempt is sent with whatever nonce is read. */
  lemma RevertedIsResent(k: nat, events: seq<Event>, f: Failure, nonce: nat)
    requires
      && Run(k, events).Some? && Run(k, events).value.phase.Waiting?
      && Mined(Run(k, events).value, Run(k, events).value.phase.attempt)
      && !Succeeded(Run(k, events).value, Run(k, events).value.sent[Run(k, events).value.phase.attempt])
    requires !GivesUp(f) && (Counts(f) ==> Run(k, events).value.retry.retries < 2)
    requires nonce <= |Run(k, events).value.consumed| && nonce < U64_MAX
    ensures
      var w, after := Run(k, events).value, Run(k, events + [Receipt(f)] + [Attempt(nonce)]);
      && after.Some? && after.value.phase == Waiting(|w.sent|) && after.value.sent == w.sent + [nonce]
      && after.value.retry.lastUsedNonce == nonce
  {
    var w := Run(k, events).value;
    FailureMeaning(w.retry.(lastUsedNonce := U64_MAX), f);
    hide AfterFailure, Run;
    RunMore(k, events, w, Receipt(f));
    RunMore(k, events + [Receipt(f)], Step(w, Receipt(f)), Attempt(nonce));
  }
}
