/** Proposing one batch on L1: attempts, retries, and the account nonces they use. */
module ProposalRetry {
  import opened GatewayTypes

  /** No nonce is reserved; as a bound on nonces it excludes none. */
  const U64_MAX: nat := U64 - 1
  const MAX_RETRIES: nat := 3

  datatype Failure =
    | NotIncludedInNextBlocks
    | TimestampTooLarge
    | NotPreconferOrFallback
    | InvalidLastBlockId(actual: nat, expected: nat)
    | UnderpricedTipCap(queued: nat)
    | UnderpricedBlobFeeCap(queued: nat)
    | UnderpricedGasFeeCap(queued: nat)
    | UnderpricedUnknown
    | Other

  datatype Fees = Fees(bump: bool, tipCap: Option<nat>, blobFeeCap: Option<nat>, gasFeeCap: Option<nat>)

  datatype Verdict = Again | Stop | Panic

  datatype Retry = Retry(lastUsedNonce: nat, retries: nat, fees: Fees)

  const FIRST: Retry := Retry(U64_MAX, 0, Fees(false, None, None, None))

  /** The nonce was used up since the last attempt. */
  predicate Confirmed(r: Retry, nonce: nat) {
    nonce > r.lastUsedNonce
  }

  function AfterFailure(r: Retry, f: Failure): (Retry, Verdict) {
    match f
    case NotIncludedInNextBlocks => (r.(fees := r.fees.(bump := true)), Again)
    case TimestampTooLarge => (r, Again)
    case NotPreconferOrFallback => (r, Stop)
    case UnderpricedTipCap(queued) => (r.(fees := r.fees.(tipCap := Some(2 * queued))), Again)
    case UnderpricedBlobFeeCap(queued) => (r.(fees := r.fees.(blobFeeCap := Some(2 * queued))), Again)
    case UnderpricedGasFeeCap(queued) => (r.(fees := r.fees.(gasFeeCap := Some(2 * queued))), Again)
    case UnderpricedUnknown => (r, Again)
    case InvalidLastBlockId(actual, expected) => if actual > expected then (r, Stop) else CountRetry(r)
    case Other => CountRetry(r)
  }

  function CountRetry(r: Retry): (Retry, Verdict) {
    var r' := r.(retries := r.retries + 1);
    (r', if r'.retries == MAX_RETRIES then Panic else Again)
  }

  /** The mutable locals of the retry loop. */
  class Proposal {
    var lastUsedNonce: nat
    var retries: nat
    var fees: Fees

    function View(): Retry
      reads this
    {
      Retry(lastUsedNonce, retries, fees)
    }

    constructor ()
      ensures View() == Retry(U64_MAX, 0, Fees(false, None, None, None))
    {
      lastUsedNonce, retries, fees := U64_MAX, 0, Fees(false, None, None, None);
    }

    /** Takes the account nonce just read, unless it shows that the last attempt was confirmed. */
    method BeginAttempt(nonce: nat) returns (confirmed: bool)
      modifies `lastUsedNonce
      ensures confirmed <==> Confirmed(old(View()), nonce)
      ensures View() == if confirmed then old(View()) else old(View()).(lastUsedNonce := nonce)
    {
      if nonce > lastUsedNonce {
        return true;
      }
      lastUsedNonce := nonce;
      return false;
    }

    /** A mined but reverted attempt frees the nonce. */
    method ReceiptFailed()
      modifies `lastUsedNonce
      ensures View() == old(View()).(lastUsedNonce := U64_MAX)
    {
      lastUsedNonce := U64_MAX;
    }

    method Failed(f: Failure) returns (verdict: Verdict)
      modifies `retries, `fees
      ensures (View(), verdict) == AfterFailure(old(View()), f)
    {
      match f {
        case NotIncludedInNextBlocks =>
          fees := fees.(bump := true);
          return Again;
        case TimestampTooLarge =>
          return Again;
        case NotPreconferOrFallback =>
          return Stop;
        case InvalidLastBlockId(actual, expected) =>
          if actual > expected {
            return Stop;
          }
        case UnderpricedTipCap(queued) =>
          fees := fees.(tipCap := Some(2 * queued));
          return Again;
        case UnderpricedBlobFeeCap(queued) =>
          fees := fees.(blobFeeCap := Some(2 * queued));
          return Again;
        case UnderpricedGasFeeCap(queued) =>
          fees := fees.(gasFeeCap := Some(2 * queued));
          return Again;
        case UnderpricedUnknown =>
          return Again;
        case Other =>
      }
      retries := retries + 1;
      if retries == MAX_RETRIES {
        return Panic;
      }
      return Again;
    }
  }

  // ---- the proposer and the chain ----

  /** What used up a nonce of the proposer's account: some other transaction, or an attempt at this batch. */
  datatype Inclusion = Foreign | Ours(attempt: nat, success: bool)

  datatype Phase = Ready | Waiting(attempt: nat) | Returned | StoppedRetrying | Panicked

  /** `consumed[n]` used up nonce `n`, so the account nonce is its length; `sent[a]` is the nonce of attempt
      `a`, which may be included at any time from when it was built. */
  datatype World = World(retry: Retry, phase: Phase, sent: seq<nat>, consumed: seq<Inclusion>)

  /** A proposal starts on an account that has used up `k` nonces, for earlier batches or anything else. */
  function StartAt(k: nat): World {
    World(FIRST, Ready, [], seq(k, _ => Foreign))
  }

  datatype Event =
    | Attempt(nonce: nat)          // reads the account nonce and builds a transaction with it
    | AttemptFails(nonce: nat, failure: Failure)  // reads the account nonce and fails before building
    | ReadFails(failure: Failure)
    | Fails(failure: Failure)      // sending failed, or waiting did, or took too long
    | Receipt(failure: Failure)    // the attempt is mined; the failure is reported if it reverted
    | Include(attempt: nat, success: bool)
    | IncludeForeign

  /** Nonce reads may lag, so they give any nonce up to the account's. */
  predicate Enabled(w: World, e: Event) {
    match e
    case Attempt(nonce) => w.phase == Ready && nonce <= |w.consumed| && nonce < U64_MAX
    case AttemptFails(nonce, _) => w.phase == Ready && nonce <= |w.consumed| && nonce < U64_MAX
    case ReadFails(_) => w.phase == Ready
    case Fails(_) => w.phase.Waiting?
    case Receipt(_) => w.phase.Waiting? && Mined(w, w.phase.attempt)
    case Include(a, _) => a < |w.sent| && w.sent[a] == |w.consumed|
    case IncludeForeign => true
  }

  predicate Mined(w: World, a: nat) {
    a < |w.sent| && w.sent[a] < |w.consumed| && w.consumed[w.sent[a]].Ours? && w.consumed[w.sent[a]].attempt == a
  }

  function Judge(w: World, r: Retry, f: Failure): World {
    var (r', verdict) := AfterFailure(r, f);
    w.(retry := r', phase := match verdict case Again => Ready case Stop => StoppedRetrying case Panic => Panicked)
  }

  function Step(w: World, e: Event): World
    requires Enabled(w, e)
  {
    match e
    case Attempt(nonce) =>
      if Confirmed(w.retry, nonce) then w.(phase := Returned)
      else World(w.retry.(lastUsedNonce := nonce), Waiting(|w.sent|), w.sent + [nonce], w.consumed)
    case AttemptFails(nonce, f) =>
      if Confirmed(w.retry, nonce) then w.(phase := Returned)
      else Judge(w, w.retry.(lastUsedNonce := nonce), f)
    case ReadFails(f) => Judge(w, w.retry, f)
    case Fails(f) => Judge(w, w.retry, f)
    case Receipt(f) =>
      if w.consumed[w.sent[w.phase.attempt]].success then w.(phase := Returned)
      else Judge(w, w.retry.(lastUsedNonce := U64_MAX), f)
    case Include(a, success) => w.(consumed := w.consumed + [Ours(a, success)])
    case IncludeForeign => w.(consumed := w.consumed + [Foreign])
  }

  /** The state after a sequence of events from `StartAt(k)`, if each was enabled in its turn. */
  function Run(k: nat, events: seq<Event>): Option<World> {
    if events == [] then Some(StartAt(k))
    else
      match Run(k, events[..|events| - 1])
      case None => None
      case Some(w) => if Enabled(w, events[|events| - 1]) then Some(Step(w, events[|events| - 1])) else None
  }

  // ---- at most one success ----

  predicate Succeeded(w: World, n: nat) {
    n < |w.consumed| && w.consumed[n].Ours? && w.consumed[n].success
  }

  /** An attempt with this nonce succeeded or still can. */
  predicate Live(w: World, n: nat) {
    n >= |w.consumed| || Succeeded(w, n)
  }

  ghost predicate Consistent(w: World) {
    && (forall a | 0 <= a < |w.sent| :: w.sent[a] <= |w.consumed| && w.sent[a] < U64_MAX)
    && (forall n | 0 <= n < |w.consumed| && w.consumed[n].Ours? ::
          w.consumed[n].attempt < |w.sent| && w.sent[w.consumed[n].attempt] == n)
    && (w.phase.Waiting? ==>
          w.phase.attempt < |w.sent| && w.retry.lastUsedNonce == w.sent[w.phase.attempt])
  }

  /** All attempts with a chance share one nonce, the last used one is not above it, and after a reset
      there are none. An attempt below that nonce was too late to be mined. */
  ghost predicate OneNonce(w: World) {
    && (forall a, b | 0 <= a < |w.sent| && 0 <= b < |w.sent| && Live(w, w.sent[a]) && Live(w, w.sent[b]) ::
          w.sent[a] == w.sent[b])
    && (forall a | 0 <= a < |w.sent| && Live(w, w.sent[a]) ::
          && w.retry.lastUsedNonce <= w.sent[a]
          && (w.phase.Waiting? && w.retry.lastUsedNonce < w.sent[a] ==> !Mined(w, w.phase.attempt)))
  }

  lemma SendKeeps(w: World, nonce: nat)
    requires Consistent(w) && OneNonce(w) && Enabled(w, Attempt(nonce)) && !Confirmed(w.retry, nonce)
    ensures Consistent(Step(w, Attempt(nonce))) && OneNonce(Step(w, Attempt(nonce)))
  {
    var w' := Step(w, Attempt(nonce));
    var n := |w.sent|;
    assert forall a | 0 <= a < n :: w'.sent[a] == w.sent[a];
    assert !Mined(w', n);
    forall a | 0 <= a < n && Live(w, w.sent[a]) && Live(w, nonce)
      ensures w.sent[a] == nonce
    {
      if nonce < |w.consumed| {
        var b := w.consumed[nonce].attempt;
        assert w.sent[b] == nonce;
      }
    }
  }

  /** Using up the next nonce leaves every other nonce's chances as they were. */
  lemma ConsumeKeeps(w: World, e: Event)
    requires Consistent(w) && OneNonce(w) && Enabled(w, e) && (e.Include? || e.IncludeForeign?)
    ensures Consistent(Step(w, e)) && OneNonce(Step(w, e))
  {
    var w' := Step(w, e);
    forall a | 0 <= a < |w.sent| && Live(w', w.sent[a])
      ensures Live(w, w.sent[a])
    {
    }
    forall a | 0 <= a < |w.sent| && Live(w', w.sent[a]) && w.phase.Waiting? && w.retry.lastUsedNonce < w.sent[a]
      ensures !Mined(w', w.phase.attempt)
    {
      assert !Mined(w, w.phase.attempt);
    }
  }

  /** No attempt has a chance once the receipt of the last one shows a revert. */
  lemma RevertLeavesNone(w: World)
    requires Consistent(w) && OneNonce(w) && w.phase.Waiting? && Mined(w, w.phase.attempt)
    requires !Succeeded(w, w.sent[w.phase.attempt])
    ensures forall a | 0 <= a < |w.sent| :: !Live(w, w.sent[a])
  {
  }

  lemma NotWaitingKeeps(w: World, w': World)
    requires Consistent(w) && OneNonce(w) && !w'.phase.Waiting?
    requires w'.sent == w.sent && w'.consumed == w.consumed
    requires w'.retry.lastUsedNonce <= w.retry.lastUsedNonce || forall a | 0 <= a < |w.sent| :: !Live(w, w.sent[a])
    ensures Consistent(w') && OneNonce(w')
  {
  }

  lemma StepKeeps(w: World, e: Event)
    requires Consistent(w) && OneNonce(w) && Enabled(w, e)
    ensures Consistent(Step(w, e)) && OneNonce(Step(w, e))
  {
    match e
    case Attempt(nonce) =>
      if Confirmed(w.retry, nonce) {
        NotWaitingKeeps(w, Step(w, e));
      } else {
        SendKeeps(w, nonce);
      }
    case Include(_, _) => ConsumeKeeps(w, e);
    case IncludeForeign => ConsumeKeeps(w, e);
    case Receipt(_) =>
      if !Succeeded(w, w.sent[w.phase.attempt]) {
        RevertLeavesNone(w);
      }
      var w' := Step(w, e);
      hide Live, Mined, Consistent, OneNonce, AfterFailure;
      NotWaitingKeeps(w, w');
    case _ =>
      var w' := Step(w, e);
      assert w'.retry.lastUsedNonce <= w.retry.lastUsedNonce;
      hide Live, Mined, Consistent, OneNonce, AfterFailure;
      NotWaitingKeeps(w, w');
  }

  lemma {:induction false} RunKeeps(k: nat, events: seq<Event>)
    requires Run(k, events).Some?
    ensures Consistent(Run(k, events).value) && OneNonce(Run(k, events).value)
  {
    if events != [] {
      RunKeeps(k, events[..|events| - 1]);
      StepKeeps(Run(k, events[..|events| - 1]).value, events[|events| - 1]);
    }
  }

  /** However reads lag, sends fail, waits run out and receipts revert, at most one attempt at a batch is
      ever included successfully. */
  lemma AtMostOneSuccess(k: nat, events: seq<Event>, i: nat, j: nat)
    requires Run(k, events).Some? && Succeeded(Run(k, events).value, i) && Succeeded(Run(k, events).value, j)
    ensures i == j
  {
    RunKeeps(k, events);
    var w := Run(k, events).value;
    assert w.sent[w.consumed[i].attempt] == i && w.sent[w.consumed[j].attempt] == j;
  }

  predicate Bounded(w: World) {
    w.retry.retries <= MAX_RETRIES && (w.phase.Panicked? <==> w.retry.retries == MAX_RETRIES)
  }

  lemma StepBounded(w: World, e: Event)
    requires Bounded(w) && Enabled(w, e)
    ensures Bounded(Step(w, e))
  {
    hide Confirmed, Mined;
  }

  /** The loop panics exactly at the third failure that counts, and never counts beyond it. */
  lemma {:induction false} RetriesAreBounded(k: nat, events: seq<Event>)
    requires Run(k, events).Some?
    ensures Bounded(Run(k, events).value)
  {
    if events != [] {
      RetriesAreBounded(k, events[..|events| - 1]);
      StepBounded(Run(k, events[..|events| - 1]).value, events[|events| - 1]);
      hide Bounded, Step, Enabled;
    }
  }

  // ---- what returning means ----

  predicate Landed(w: World) {
    exists n :: 0 <= n < |w.consumed| && Succeeded(w, n)
  }

  /** Nonce reads that never lag. */
  ghost predicate ExactReads(k: nat, events: seq<Event>) {
    forall i | 0 <= i < |events| ::
      match events[i]
      case Attempt(nonce) => Run(k, events[..i]).Some? && nonce == |Run(k, events[..i]).value.consumed|
      case AttemptFails(nonce, _) => Run(k, events[..i]).Some? && nonce == |Run(k, events[..i]).value.consumed|
      case _ => true
  }

  /** With exact reads, only the last used nonce has a chance. */
  ghost predicate OnlyLast(w: World) {
    forall a | 0 <= a < |w.sent| && Live(w, w.sent[a]) :: w.sent[a] == w.retry.lastUsedNonce
  }

  lemma StepKeepsOnlyLast(w: World, e: Event)
    requires Consistent(w) && OneNonce(w) && OnlyLast(w) && Enabled(w, e)
    requires e.Attempt? || e.AttemptFails? ==> e.nonce == |w.consumed|
    ensures OnlyLast(Step(w, e))
  {
    match e
    case Attempt(nonce) =>
      if !Confirmed(w.retry, nonce) {
        SendKeeps(w, nonce);
        assert Live(w, nonce);
      }
    case Receipt(_) =>
      if !Succeeded(w, w.sent[w.phase.attempt]) {
        RevertLeavesNone(w);
      }
    case Include(_, _) => ConsumeKeeps(w, e);
    case IncludeForeign => ConsumeKeeps(w, e);
    case _ =>
  }

  lemma {:induction false} RunKeepsOnlyLast(k: nat, events: seq<Event>)
    requires Run(k, events).Some? && ExactReads(k, events)
    ensures OnlyLast(Run(k, events).value)
  {
    if events != [] {
      var n := |events| - 1;
      assert forall i | 0 <= i < n :: events[..n][..i] == events[..i];
      assert ExactReads(k, events[..n]);
      RunKeepsOnlyLast(k, events[..n]);
      RunKeeps(k, events[..n]);
      StepKeepsOnlyLast(Run(k, events[..n]).value, events[n]);
    }
  }

  /** Returning without an error because the nonce was used up means that the batch landed exactly when
      one of its attempts used up that nonce and succeeded. */
  lemma ReturnMeansLandedIff(k: nat, events: seq<Event>, nonce: nat)
    requires Run(k, events).Some? && ExactReads(k, events + [Attempt(nonce)]) && Run(k, events + [Attempt(nonce)]).Some?
    requires Confirmed(Run(k, events).value.retry, nonce)
    ensures
      var w := Run(k, events + [Attempt(nonce)]).value;
      w.phase == Returned && (Landed(w) <==> Succeeded(w, w.retry.lastUsedNonce))
  {
    var all := events + [Attempt(nonce)];
    assert all[..|events|] == events;
    RunKeeps(k, all);
    RunKeepsOnlyLast(k, all);
    var w := Run(k, all).value;
    forall n | 0 <= n < |w.consumed| && Succeeded(w, n)
      ensures n == w.retry.lastUsedNonce
    {
      assert w.sent[w.consumed[n].attempt] == n;
    }
  }

  // ---- when returning is landing ----

  /** What besides landing the batch happens to the account: other transactions, reverted attempts, and reads
      that lag behind the nonces used up before the start. */
  datatype Mishaps = Mishaps(foreign: bool, reverts: bool, behind: bool)

  /** The events show no other mishaps. */
  ghost predicate Within(k: nat, events: seq<Event>, m: Mishaps) {
    forall i | 0 <= i < |events| :: Suffers(k, events[i], m)
  }

  predicate Suffers(k: nat, e: Event, m: Mishaps) {
    match e
    case IncludeForeign => m.foreign
    case Include(_, success) => success || m.reverts
    case Attempt(nonce) => nonce >= k || m.behind
    case AttemptFails(nonce, _) => nonce >= k || m.behind
    case _ => true
  }

  /** Every nonce used up since the start was used up by landing the batch, and a return has seen one. */
  ghost predicate OnlyLandings(k: nat, w: World) {
    && |w.consumed| >= k && w.retry.lastUsedNonce >= k
    && (forall a | 0 <= a < |w.sent| :: w.sent[a] >= k)
    && (forall n | k <= n < |w.consumed| :: Succeeded(w, n))
    && (w.phase.Returned? ==> |w.consumed| > k)
  }

  lemma StepOnlyLands(k: nat, w: World, e: Event)
    requires OnlyLandings(k, w) && Enabled(w, e) && k < U64_MAX
    requires Suffers(k, e, Mishaps(false, false, k == 0))
    ensures OnlyLandings(k, Step(w, e))
  {
    forall n | k <= n < |Step(w, e).consumed|
      ensures Succeeded(Step(w, e), n)
    {
      assert n < |w.consumed| ==> Succeeded(w, n);
    }
  }

  lemma {:induction false} RunOnlyLands(k: nat, events: seq<Event>)
    requires Run(k, events).Some? && k < U64_MAX && Within(k, events, Mishaps(false, false, k == 0))
    ensures OnlyLandings(k, Run(k, events).value)
  {
    if events != [] {
      var n := |events| - 1;
      assert Suffers(k, events[n], Mishaps(false, false, k == 0));
      RunOnlyLands(k, events[..n]);
      StepOnlyLands(k, Run(k, events[..n]).value, events[n]);
      hide OnlyLandings, Step, Enabled, Suffers;
    }
  }

  ghost predicate Returns(k: nat, events: seq<Event>, m: Mishaps) {
    Run(k, events).Some? && Run(k, events).value.phase.Returned? && Within(k, events, m)
  }

  ghost predicate ReturnIsLanding(k: nat, m: Mishaps) {
    forall events | Returns(k, events, m) :: Landed(Run(k, events).value)
  }

  /** Returning without an error means that the batch landed, in all runs on an account with `k` nonces used up
      and with reads that lag, exactly if no other transaction uses the account during the proposal, no attempt
      can revert, and no read lags behind the nonces used up before, of which a fresh account has none. */
  lemma ReturnIsLandingIff(k: nat, m: Mishaps)
    requires k + 1 < U64_MAX
    ensures ReturnIsLanding(k, m) <==> !m.foreign && !m.reverts && (k == 0 || !m.behind)
  {
    if m.foreign || m.reverts {
      var events := UsedUpRun(k, if m.foreign then IncludeForeign else Include(0, false));
      assert Returns(k, events, m);
    } else if k > 0 && m.behind {
      var events := BehindRun(k);
      assert Returns(k, events, m);
    } else {
      forall events | Returns(k, events, m)
        ensures Landed(Run(k, events).value)
      {
        assert Within(k, events, Mishaps(false, false, k == 0)) by {
          assert forall i | 0 <= i < |events| :: Suffers(k, events[i], m);
        }
        RunOnlyLands(k, events);
        assert Succeeded(Run(k, events).value, k);
      }
    }
  }

  lemma RunMore(k: nat, events: seq<Event>, w: World, e: Event)
    requires Run(k, events) == Some(w) && Enabled(w, e)
    ensures Run(k, events + [e]) == Some(Step(w, e))
  {
    assert (events + [e])[..|events|] == events;
  }

  /** After the first attempt, with any nonce read. */
  function Attempted(k: nat, nonce: nat): World {
    World(FIRST.(lastUsedNonce := nonce), Waiting(0), [nonce], StartAt(k).consumed)
  }

  lemma FirstAttempt(k: nat, nonce: nat)
    requires nonce <= k && nonce < U64_MAX
    ensures Run(k, [Attempt(nonce)]) == Some(Attempted(k, nonce))
  {
    assert StartAt(k).sent + [nonce] == [nonce] && [] + [Attempt(nonce)] == [Attempt(nonce)];
    RunMore(k, [], StartAt(k), Attempt(nonce));
  }

  /** The attempt's wait runs out, its nonce is used up without a landing, and the next read returns. */
  lemma UsedUpRun(k: nat, used: Event) returns (events: seq<Event>)
    requires k + 1 < U64_MAX && (used == IncludeForeign || used == Include(0, false))
    ensures events == [Attempt(k), Fails(NotIncludedInNextBlocks), used, Attempt(k + 1)]
    ensures Run(k, events).Some? && Run(k, events).value.phase == Returned && !Landed(Run(k, events).value)
    ensures ExactReads(k, events)
  {
    var e0, e1, e3 := Attempt(k), Fails(NotIncludedInNextBlocks), Attempt(k + 1);
    events := [e0, e1, used, e3];
    var w1 := Attempted(k, k);
    var w2 := Step(w1, e1);
    var w3 := Step(w2, used);
    assert events[..1] == [e0] && events[..1] + [e1] == events[..2] && events[..2] + [used] == events[..3];
    assert events[..0] == [] && events[..3] + [e3] == events;
    FirstAttempt(k, k);
    RunMore(k, events[..1], w1, e1);
    RunMore(k, events[..2], w2, used);
    RunMore(k, events[..3], w3, e3);
    assert |w3.consumed| == k + 1 && Run(k, events[..0]) == Some(StartAt(k));
    hide Run;
  }

  /** On an account that was used before: a read lags, sending is refused, and the next read returns. Nothing
      but reading happened to the account. */
  lemma BehindRun(k: nat) returns (events: seq<Event>)
    requires 0 < k < U64_MAX
    ensures events == [Attempt(k - 1), Fails(Other), Attempt(k)]
    ensures Run(k, events).Some? && Run(k, events).value.phase == Returned && !Landed(Run(k, events).value)
    ensures Run(k, events).value.consumed == StartAt(k).consumed
  {
    var e0, e1, e2 := Attempt(k - 1), Fails(Other), Attempt(k);
    events := [e0, e1, e2];
    var w1 := Attempted(k, k - 1);
    var w2 := Step(w1, e1);
    assert events[..1] == [e0] && events[..1] + [e1] == events[..2] && events[..2] + [e2] == events;
    FirstAttempt(k, k - 1);
    RunMore(k, events[..1], w1, e1);
    RunMore(k, events[..2], w2, e2);
    hide Run;
  }

  /** In particular when the attempt itself used the nonce up, and reverted, though no read lagged. */
  lemma ReturnedWithoutLanding(k: nat) returns (events: seq<Event>)
    requires k + 1 < U64_MAX
    ensures Run(k, events).Some? && ExactReads(k, events) && Include(0, false) in events && IncludeForeign !in events
    ensures Run(k, events).value.phase == Returned && !Landed(Run(k, events).value)
  {
    events := UsedUpRun(k, Include(0, false));
    hide *;
    assert events[2] == Include(0, false);
  }
}
