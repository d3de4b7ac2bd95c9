/** Waiting for INIT: a loop that broadcasts once funds are spendable, waits for
    the wallet to show its own transaction, and tries again when it never does.
    Everything it sees (clock, sync, replayed state, balance, broadcast result) is
    chosen by the environment. */
module InitPoll {
  import opened Wrappers
  import Overlay

  const MIN_INIT_ZATS: nat := 10_000
  const REBROADCAST_AFTER_POLLS: nat := 6

  datatype Balance = Balance(spendable: nat, pending: nat)

  /** What one iteration would see. `None` is an error of that call. */
  datatype Obs = Obs(elapsed: nat, synced: bool, init: Option<Overlay.InitState>,
                     balance: Option<Balance>, sent: Option<string>)

  datatype Phase =
    | WaitingForFunds
    | WaitingForMaturity(pending: nat)
    | WaitingForIndex(txid: string)
    | InInit(done: nat, required: nat)

  datatype Act =
    | SawInitializing(phase: Phase)
    | PendingPoll(phase: Phase)
    | GaveUp(txid: string)
    | LowFunds(phase: Phase)
    | Broadcast(txid: string, spendable: nat)
    | BroadcastFailed(spendable: nat)

  /** One completed iteration: what it did, and whether it printed its phase. */
  datatype Record = Record(act: Act, printed: bool)

  datatype Outcome = Running | Confirmed | TimedOut | SyncFailed | StateUnreadable | BalanceUnreadable

  // ----- One iteration -----

  datatype Memory = Memory(pendingTxid: Option<string>, polls: nat, last: Option<Phase>)

  const START := Memory(None, 0, None)

  function FundsPhase(b: Balance): Phase {
    if b.pending > 0 then WaitingForMaturity(b.pending) else WaitingForFunds
  }

  /** Why the loop would leave on this observation, if it would. */
  function Leaves(m: Memory, timeout: nat, o: Obs): Outcome {
    if o.elapsed > timeout then TimedOut
    else if !o.synced then SyncFailed
    else match o.init
      case None => StateUnreadable
      case Some(Initialized) => Confirmed
      case Some(Initializing(_, _)) => Running
      case Some(Uninitialized) =>
        if m.pendingTxid.None? && o.balance.None? then BalanceUnreadable else Running
  }

  /** The iteration relation: from memory `m`, observing `o`, to memory `n`. */
  predicate Turn(m: Memory, o: Obs, r: Record, n: Memory) {
    match r.act
    case SawInitializing(phase) =>
      && o.init.Some? && o.init.value.Initializing?
      && phase == InInit(o.init.value.done, o.init.value.required)
      && r.printed == (m.last != Some(phase)) && n == Memory(None, 0, Some(phase))
    case PendingPoll(phase) =>
      && o.init == Some(Overlay.Uninitialized) && m.pendingTxid.Some? && m.polls + 1 < REBROADCAST_AFTER_POLLS
      && phase == WaitingForIndex(m.pendingTxid.value)
      && r.printed == (m.last != Some(phase)) && n == Memory(m.pendingTxid, m.polls + 1, Some(phase))
    case GaveUp(txid) =>
      && o.init == Some(Overlay.Uninitialized) && m.pendingTxid == Some(txid)
      && m.polls + 1 >= REBROADCAST_AFTER_POLLS && r.printed && n == START
    case LowFunds(phase) =>
      && o.init == Some(Overlay.Uninitialized) && m.pendingTxid.None? && o.balance.Some?
      && o.balance.value.spendable < MIN_INIT_ZATS && phase == FundsPhase(o.balance.value)
      && r.printed == (m.last != Some(phase)) && n == m.(last := Some(phase))
    case Broadcast(txid, spendable) =>
      && o.init == Some(Overlay.Uninitialized) && m.pendingTxid.None? && o.balance.Some?
      && spendable == o.balance.value.spendable >= MIN_INIT_ZATS
      && o.sent == Some(txid) && r.printed && n == Memory(Some(txid), 0, None)
    case BroadcastFailed(spendable) =>
      && o.init == Some(Overlay.Uninitialized) && m.pendingTxid.None? && o.balance.Some?
      && spendable == o.balance.value.spendable >= MIN_INIT_ZATS
      && o.sent.None? && r.printed && n == m.(last := None)
  }

  ghost predicate Run(ms: seq<Memory>, trace: seq<Record>, obs: seq<Obs>, timeout: nat) {
    && |ms| == |trace| + 1 && |trace| <= |obs| && ms[0] == START
    && forall i | 0 <= i < |trace| ::
         Leaves(ms[i], timeout, obs[i]) == Running && Turn(ms[i], obs[i], trace[i], ms[i + 1])
  }

  // ----- Counting over a run -----

  function Broadcasts(trace: seq<Record>, n: nat): nat
    requires n <= |trace|
  {
    if n == 0 then 0 else Broadcasts(trace, n - 1) + if trace[n - 1].act.Broadcast? then 1 else 0
  }

  function Uninits(obs: seq<Obs>, n: nat): nat
    requires n <= |obs|
  {
    if n == 0 then 0 else Uninits(obs, n - 1) + if obs[n - 1].init == Some(Overlay.Uninitialized) then 1 else 0
  }

  function Sightings(obs: seq<Obs>, n: nat): nat
    requires n <= |obs|
  {
    if n == 0 then 0
    else Sightings(obs, n - 1) + if obs[n - 1].init.Some? && obs[n - 1].init.value.Initializing? then 1 else 0
  }

  /** Every broadcast is paid for by seven `Uninitialized` polls, an `Initializing`
      sighting standing in for six of them. */
  lemma {:induction false} Credit(ms: seq<Memory>, trace: seq<Record>, obs: seq<Obs>, timeout: nat, n: nat)
    requires Run(ms, trace, obs, timeout) && n <= |trace|
    ensures ms[n].polls < REBROADCAST_AFTER_POLLS && (ms[n].pendingTxid.None? ==> ms[n].polls == 0)
    ensures 7 * Broadcasts(trace, n) + ms[n].polls
         <= Uninits(obs, n) + 6 * Sightings(obs, n) + if ms[n].pendingTxid.Some? then 6 else 0
  {
    if n > 0 {
      Credit(ms, trace, obs, timeout, n - 1);
      assert Turn(ms[n - 1], obs[n - 1], trace[n - 1], ms[n - 1 + 1]);
    }
  }

  lemma BroadcastBudget(ms: seq<Memory>, trace: seq<Record>, obs: seq<Obs>, timeout: nat)
    requires Run(ms, trace, obs, timeout)
    ensures 7 * Broadcasts(trace, |trace|) <= Uninits(obs, |trace|) + 6 * Sightings(obs, |trace|) + 6
  {
    Credit(ms, trace, obs, timeout, |trace|);
  }

  // ----- Between two broadcasts -----

  predicate IsPendingPoll(r: Record) {
    r.act.PendingPoll? || r.act.GaveUp?
  }

  function PendingPolls(trace: seq<Record>, i: nat, n: nat): nat
    requires i <= n <= |trace|
    decreases n
  {
    if n == i then 0 else PendingPolls(trace, i, n - 1) + if IsPendingPoll(trace[n - 1]) then 1 else 0
  }

  predicate SightedBetween(trace: seq<Record>, i: nat, n: nat)
    requires n <= |trace|
  {
    exists m | i < m < n :: trace[m].act.SawInitializing?
  }

  /** What a broadcast leaves behind while nothing else happens: either its txid is
      still outstanding and every poll since was a pending one, or six of them
      passed and it was given up. */
  lemma {:induction false} AfterBroadcast(ms: seq<Memory>, trace: seq<Record>, obs: seq<Obs>, timeout: nat,
                                          i: nat, n: nat)
    requires Run(ms, trace, obs, timeout) && i < n <= |trace| && trace[i].act.Broadcast?
    requires forall m | i < m < n :: !trace[m].act.Broadcast? && !trace[m].act.SawInitializing?
    ensures ms[n].pendingTxid.Some? ==>
              && ms[n].pendingTxid.value == trace[i].act.txid
              && ms[n].polls == n - 1 - i == PendingPolls(trace, i + 1, n)
    ensures ms[n].pendingTxid.None? ==> PendingPolls(trace, i + 1, n) == REBROADCAST_AFTER_POLLS
  {
    assert Turn(ms[n - 1], obs[n - 1], trace[n - 1], ms[n - 1 + 1]);
    if i + 1 < n {
      AfterBroadcast(ms, trace, obs, timeout, i, n - 1);
      Credit(ms, trace, obs, timeout, n - 1);
    }
  }

  /** A broadcast spends only spendable funds, and follows the one before it either
      across an `Initializing` sighting or after exactly six pending polls. */
  lemma BroadcastsAreSeparated(ms: seq<Memory>, trace: seq<Record>, obs: seq<Obs>, timeout: nat, i: nat, j: nat)
    requires Run(ms, trace, obs, timeout) && i < j < |trace|
    requires trace[i].act.Broadcast? && trace[j].act.Broadcast?
    requires forall m | i < m < j :: !trace[m].act.Broadcast?
    ensures SightedBetween(trace, i, j) || PendingPolls(trace, i + 1, j) == 6
    ensures trace[j].act.spendable >= 10_000
  {
    assert Turn(ms[j], obs[j], trace[j], ms[j + 1]);
    if !SightedBetween(trace, i, j) {
      AfterBroadcast(ms, trace, obs, timeout, i, j);
    }
  }

  /** The txid still unaccounted for after `n` iterations, read off the trace. */
  function Outstanding(trace: seq<Record>, n: nat): Option<string>
    requires n <= |trace|
  {
    if n == 0 then None
    else match trace[n - 1].act
      case Broadcast(txid, _) => Some(txid)
      case GaveUp(_) => None
      case SawInitializing(_) => None
      case PendingPoll(_) => Outstanding(trace, n - 1)
      case LowFunds(_) => Outstanding(trace, n - 1)
      case BroadcastFailed(_) => Outstanding(trace, n - 1)
  }

  /** The phase a reader was last told, forgotten at each broadcast attempt or
      give-up, read off the trace. */
  function LastShown(trace: seq<Record>, n: nat): Option<Phase>
    requires n <= |trace|
  {
    if n == 0 then None
    else match trace[n - 1].act
      case Broadcast(_, _) => None
      case BroadcastFailed(_) => None
      case GaveUp(_) => None
      case SawInitializing(phase) => if trace[n - 1].printed then Some(phase) else LastShown(trace, n - 1)
      case PendingPoll(phase) => if trace[n - 1].printed then Some(phase) else LastShown(trace, n - 1)
      case LowFunds(phase) => if trace[n - 1].printed then Some(phase) else LastShown(trace, n - 1)
  }

  /** Pending polls since the latest broadcast. */
  function PollsSince(trace: seq<Record>, n: nat): nat
    requires n <= |trace|
  {
    if n == 0 then 0
    else match trace[n - 1].act
      case Broadcast(_, _) => 0
      case GaveUp(_) => 0
      case SawInitializing(_) => 0
      case PendingPoll(_) => PollsSince(trace, n - 1) + 1
      case LowFunds(_) => PollsSince(trace, n - 1)
      case BroadcastFailed(_) => PollsSince(trace, n - 1)
  }

  lemma {:induction false} MemoryIsHistory(ms: seq<Memory>, trace: seq<Record>, obs: seq<Obs>, timeout: nat, n: nat)
    requires Run(ms, trace, obs, timeout) && n <= |trace|
    ensures ms[n].pendingTxid == Outstanding(trace, n)
    ensures ms[n].polls == PollsSince(trace, n)
    ensures ms[n].last == LastShown(trace, n)
  {
    if n > 0 {
      MemoryIsHistory(ms, trace, obs, timeout, n - 1);
      assert Turn(ms[n - 1], obs[n - 1], trace[n - 1], ms[n - 1 + 1]);
    }
  }

  /** No attempt, successful or not, is made while a txid is outstanding. */
  lemma AttemptsOnlyWhenClear(ms: seq<Memory>, trace: seq<Record>, obs: seq<Obs>, timeout: nat, n: nat)
    requires Run(ms, trace, obs, timeout) && n < |trace|
    ensures trace[n].act.Broadcast? || trace[n].act.BroadcastFailed? ==>
              Outstanding(trace, n).None? && trace[n].act.spendable >= MIN_INIT_ZATS
    ensures Outstanding(trace, n).Some? && obs[n].init == Some(Overlay.Uninitialized) ==> IsPendingPoll(trace[n])
  {
    MemoryIsHistory(ms, trace, obs, timeout, n);
    assert Turn(ms[n], obs[n], trace[n], ms[n + 1]);
  }

  /** A phase is printed exactly when it is not what the reader was last told. */
  lemma StatusPrintedIffNew(ms: seq<Memory>, trace: seq<Record>, obs: seq<Obs>, timeout: nat, n: nat)
    requires Run(ms, trace, obs, timeout) && n < |trace|
    requires trace[n].act.SawInitializing? || trace[n].act.PendingPoll? || trace[n].act.LowFunds?
    ensures trace[n].printed <==> LastShown(trace, n) != Some(trace[n].act.phase)
  {
    MemoryIsHistory(ms, trace, obs, timeout, n);
    assert Turn(ms[n], obs[n], trace[n], ms[n + 1]);
  }

  /** What each iteration does, read off what it saw and what was done before: an INIT
      under way is noted, an outstanding transaction is waited for and the sixth poll in
      vain gives it up, and with neither the funds decide. */
  lemma ActIs(ms: seq<Memory>, trace: seq<Record>, obs: seq<Obs>, timeout: nat, n: nat)
    requires Run(ms, trace, obs, timeout) && n < |trace|
    ensures var o, out := obs[n], Outstanding(trace, n);
            && o.elapsed <= timeout && o.synced && o.init.Some? && !o.init.value.Initialized?
            && (o.init.value.Uninitialized? && out.None? ==> o.balance.Some?)
            && trace[n].act == (
                 if o.init.value.Initializing? then SawInitializing(InInit(o.init.value.done, o.init.value.required))
                 else if out.Some? then
                   if PollsSince(trace, n) >= 5 then GaveUp(out.value) else PendingPoll(WaitingForIndex(out.value))
                 else if o.balance.value.spendable < 10_000 then
                   LowFunds(if o.balance.value.pending > 0 then WaitingForMaturity(o.balance.value.pending)
                            else WaitingForFunds)
                 else if o.sent.Some? then Broadcast(o.sent.value, o.balance.value.spendable)
                 else BroadcastFailed(o.balance.value.spendable))
  {
    MemoryIsHistory(ms, trace, obs, timeout, n);
    assert Turn(ms[n], obs[n], trace[n], ms[n + 1]);
  }

  /** No run goes past an initialized database. */
  lemma NeverPastInitialized(ms: seq<Memory>, trace: seq<Record>, obs: seq<Obs>, timeout: nat, n: nat)
    requires Run(ms, trace, obs, timeout) && n < |obs| && obs[n].init == Some(Overlay.Initialized)
    ensures |trace| <= n
  {
    if n < |trace| { ActIs(ms, trace, obs, timeout, n); }
  }

  // ----- Over merged reads -----

  /** What a merged read gives while the file holds an INIT. */
  predicate SeenMerged(o: Obs, replayed: Overlay.InitState, file: seq<Overlay.Entry>, minConfs: nat) {
    && o.init == Some(Overlay.SurfacedInit(replayed, file, minConfs))
    && exists e :: e in file && e.op == "INIT"
  }

  /** Were the loop to read as other callers do, through the overlay, an INIT in the
      pending file would keep it from attempting another for as long as it is there. */
  lemma MergedReadsNeverBroadcast(ms: seq<Memory>, trace: seq<Record>, obs: seq<Obs>, timeout: nat,
                                  replayed: seq<Overlay.InitState>, files: seq<seq<Overlay.Entry>>, minConfs: nat)
    requires Run(ms, trace, obs, timeout) && |replayed| == |files| == |obs|
    requires forall n | 0 <= n < |obs| :: SeenMerged(obs[n], replayed[n], files[n], minConfs)
    ensures forall n | 0 <= n < |trace| :: trace[n].act.SawInitializing?
  {
    forall n | 0 <= n < |trace| ensures trace[n].act.SawInitializing? {
      assert SeenMerged(obs[n], replayed[n], files[n], minConfs);
      ActIs(ms, trace, obs, timeout, n);
    }
  }

  // ----- The bound is reached -----

  /** Funded, never visible: the wallet that loses every broadcast. */
  function Lost(): Obs {
    Obs(0, true, Some(Overlay.Uninitialized), Some(Balance(MIN_INIT_ZATS, 0)), Some("tx"))
  }

  function WorstMemory(i: nat): Memory {
    if i % 7 == 0 then START
    else if i % 7 == 1 then Memory(Some("tx"), 0, None)
    else Memory(Some("tx"), i % 7 - 1, Some(WaitingForIndex("tx")))
  }

  function WorstRecord(i: nat): Record {
    if i % 7 == 0 then Record(Broadcast("tx", MIN_INIT_ZATS), true)
    else if i % 7 == 6 then Record(GaveUp("tx"), true)
    else Record(PendingPoll(WaitingForIndex("tx")), i % 7 == 1)
  }

  lemma WorstTurn(i: nat)
    ensures Turn(WorstMemory(i), Lost(), WorstRecord(i), WorstMemory(i + 1))
  {
    assert (i + 1) % 7 == if i % 7 == 6 then 0 else i % 7 + 1;
  }

  lemma {:induction false} WorstCounts(trace: seq<Record>, obs: seq<Obs>, n: nat)
    requires n <= |trace| <= |obs|
    requires forall i | 0 <= i < n :: trace[i] == WorstRecord(i) && obs[i] == Lost()
    ensures Uninits(obs, n) == n && Sightings(obs, n) == 0
    ensures Broadcasts(trace, n) == (n + 6) / 7
  {
    if n > 0 {
      WorstCounts(trace, obs, n - 1);
      assert trace[n - 1] == WorstRecord(n - 1);
      assert (n + 6) / 7 == (n + 5) / 7 + if (n - 1) % 7 == 0 then 1 else 0;
    }
  }

  /** For every number of broadcasts there is a run that spends no poll too many. */
  lemma BudgetIsTight(b: nat) returns (ms: seq<Memory>, trace: seq<Record>, obs: seq<Obs>)
    requires b > 0
    ensures Run(ms, trace, obs, 0) && Broadcasts(trace, |trace|) == b
    ensures 7 * b == Uninits(obs, |trace|) + 6 * Sightings(obs, |trace|) + 6
  {
    var n := 7 * b - 6;
    ms := seq(n + 1, i requires 0 <= i => WorstMemory(i));
    trace := seq(n, i requires 0 <= i => WorstRecord(i));
    obs := seq(n, i requires 0 <= i => Lost());
    forall i | 0 <= i < n
      ensures Leaves(ms[i], 0, obs[i]) == Running && Turn(ms[i], obs[i], trace[i], ms[i + 1])
    {
      WorstTurn(i);
    }
    WorstCounts(trace, obs, n);
  }

  // ----- The loop -----

  /** `poll_for_init`, run on as many iterations as `obs` offers. */
  method PollForInit(obs: seq<Obs>, timeout: nat)
    returns (outcome: Outcome, trace: seq<Record>, ghost ms: seq<Memory>)
    ensures Run(ms, trace, obs, timeout)
    ensures outcome == Running <==> |trace| == |obs|
    ensures |trace| < |obs| ==>
              var o := obs[|trace|];
              var inTime := o.elapsed <= timeout && o.synced;
              && (outcome == TimedOut <==> o.elapsed > timeout)
              && (outcome == SyncFailed <==> o.elapsed <= timeout && !o.synced)
              && (outcome == StateUnreadable <==> inTime && o.init.None?)
              && (outcome == Confirmed <==> inTime && o.init == Some(Overlay.Initialized))
              && (outcome == BalanceUnreadable <==>
                    && inTime && o.init == Some(Overlay.Uninitialized)
                    && Outstanding(trace, |trace|).None? && o.balance.None?)
    ensures 7 * Broadcasts(trace, |trace|) <= Uninits(obs, |trace|) + 6 * Sightings(obs, |trace|) + 6
  {
    var lastPhase: Option<Phase> := None;
    var pendingInitTxid: Option<string> := None;
    var waitingForIndexPolls := 0;
    outcome, trace, ms := Running, [], [START];
    while |trace| < |obs|
      invariant outcome == Running && |trace| <= |obs| && Run(ms, trace, obs, timeout)
      invariant ms[|trace|] == Memory(pendingInitTxid, waitingForIndexPolls, lastPhase)
      decreases |obs| - |trace|
    {
      var o := obs[|trace|];
      var act: Act;
      var printed := true;
      if o.elapsed > timeout { outcome := TimedOut; break; }
      if !o.synced { outcome := SyncFailed; break; }
      match o.init {
        case None => outcome := StateUnreadable; break;
        case Some(Initialized) => outcome := Confirmed; break;
        case Some(Initializing(done, required)) =>
          pendingInitTxid := None;
          waitingForIndexPolls := 0;
          var phase := InInit(done, required);
          printed := lastPhase != Some(phase);
          if printed { lastPhase := Some(phase); }
          act := SawInitializing(phase);
        case Some(Uninitialized) =>
          if pendingInitTxid.Some? {
            var txid := pendingInitTxid.value;
            waitingForIndexPolls := waitingForIndexPolls + 1;
            if waitingForIndexPolls >= REBROADCAST_AFTER_POLLS {
              pendingInitTxid := None;
              waitingForIndexPolls := 0;
              lastPhase := None;
              act := GaveUp(txid);
            } else {
              var phase := WaitingForIndex(txid);
              printed := lastPhase != Some(phase);
              if printed { lastPhase := Some(phase); }
              act := PendingPoll(phase);
            }
          } else if o.balance.None? {
            outcome := BalanceUnreadable;
            break;
          } else if o.balance.value.spendable < MIN_INIT_ZATS {
            var phase := FundsPhase(o.balance.value);
            printed := lastPhase != Some(phase);
            if printed { lastPhase := Some(phase); }
            act := LowFunds(phase);
          } else {
            lastPhase := None;
            match o.sent {
              case Some(txid) =>
                pendingInitTxid := Some(txid);
                waitingForIndexPolls := 0;
                act := Broadcast(txid, o.balance.value.spendable);
              case None =>
                act := BroadcastFailed(o.balance.value.spendable);
            }
          }
      }
      trace := trace + [Record(act, printed)];
      ms := ms + [Memory(pendingInitTxid, waitingForIndexPolls, lastPhase)];
    }
    BroadcastBudget(ms, trace, obs, timeout);
    MemoryIsHistory(ms, trace, obs, timeout, |trace|);
  }
}
