/** Whole runs of the version oracle: when it pays again for a version it has paid
    for. A run is ticks and whatever happens to the oracle's writes in between. */
module OracleRuns {
  import opened Wrappers
  import opened Overlay
  import opened OverlayTwice
  import opened VersionOracle

  datatype Event =
    | Tick(key: string, want: string, dryRun: bool, outcome: Outcome)
    | Index(txid: string)
    | Settle(txid: string)
    | GoStale(txid: string)
    | Expire(txid: string)
    | Other  // anything else, in runs that assume nothing of it

  /** The transaction is neither recorded nor shown. */
  predicate Absent(w: World, t: string) {
    t !in Seen(w.chain) && forall e | e in w.local :: e.txid != t
  }

  predicate TickPays(w: World, ev: Event) {
    ev.Tick? && Pays(w, ev.key, ev.want, ev.dryRun, ev.outcome)
  }

  predicate PaidFor(w: World, ev: Event, key: string) {
    ev.Tick? && ev.key == key && Pays(w, key, ev.want, ev.dryRun, ev.outcome)
  }

  /** A tick that would pay unless the wanted version is what it reads. */
  predicate WouldPay(ev: Event, key: string, want: string) {
    ev.Tick? && ev.key == key && ev.want == want && !ev.dryRun && ev.outcome.Sent?
  }

  /** A tick records what it pays for, under a transaction that is new. */
  predicate TickStep(w: World, ev: Event, v: World)
    requires ev.Tick?
  {
    && v == AfterTick(w, ev.key, ev.want, ev.dryRun, ev.outcome)
    && (TickPays(w, ev) ==> Absent(w, ev.outcome.txid))
  }

  // ----- Whatever happens between ticks -----

  /** Ticks are the oracle's; everything else about the worlds is arbitrary. */
  ghost predicate Ticking(ws: seq<World>, evs: seq<Event>) {
    |ws| == |evs| + 1 && forall i | 0 <= i < |evs| :: TickAt(ws, evs, i)
  }

  predicate TickAt(ws: seq<World>, evs: seq<Event>, i: nat)
    requires i < |evs| < |ws|
  {
    evs[i].Tick? ==> TickStep(ws[i], evs[i], ws[i + 1])
  }

  lemma TickReads(w: World, ev: Event, v: World, key: string)
    requires ev.Tick? && TickStep(w, ev, v)
    ensures EffectiveValue(v, key) == if PaidFor(w, ev, key) then Some(ev.want) else EffectiveValue(w, key)
  {
    if TickPays(w, ev) {
      ReadYourWrites(w, Entry(ev.outcome.txid, SetOpcode(ev.want), ev.key, Some(ev.want)), key);
    }
  }

  /** One event as seen from a key: what it read before and after, and what was paid. */
  datatype Beat = Beat(before: Option<string>, after: Option<string>, tick: bool, paid: Option<string>)

  predicate Sound(b: Beat) {
    && (b.paid.Some? ==> b.tick && b.before != b.paid && b.after == b.paid)
    && (b.tick && b.paid.None? ==> b.after == b.before)
  }

  predicate Beating(bs: seq<Beat>) {
    && (forall m | 0 <= m < |bs| :: Sound(bs[m]))
    && (forall m | 0 < m < |bs| :: bs[m - 1].after == bs[m].before)
  }

  function BeatOf(w: World, ev: Event, v: World, key: string): Beat {
    Beat(EffectiveValue(w, key), EffectiveValue(v, key), ev.Tick?,
         if PaidFor(w, ev, key) then Some(ev.want) else None)
  }

  function Beats(ws: seq<World>, evs: seq<Event>, key: string): seq<Beat>
    requires |ws| == |evs| + 1
  {
    seq(|evs|, i requires 0 <= i < |evs| => BeatOf(ws[i], evs[i], ws[i + 1], key))
  }

  lemma BeatSound(w: World, ev: Event, v: World, key: string)
    requires ev.Tick? ==> TickStep(w, ev, v)
    ensures Sound(BeatOf(w, ev, v, key))
  {
    if ev.Tick? { TickReads(w, ev, v, key); }
  }

  lemma BeatAt(ws: seq<World>, evs: seq<Event>, key: string, m: nat)
    requires Ticking(ws, evs) && m < |evs|
    ensures var bs := Beats(ws, evs, key); Sound(bs[m]) && (m > 0 ==> bs[m - 1].after == bs[m].before)
  {
    assert TickAt(ws, evs, m);
    BeatSound(ws[m], evs[m], ws[m + 1], key);
  }

  lemma RunBeats(ws: seq<World>, evs: seq<Event>, key: string) returns (bs: seq<Beat>)
    requires Ticking(ws, evs)
    ensures bs == Beats(ws, evs, key) && Beating(bs)
  {
    bs := Beats(ws, evs, key);
    forall m | 0 <= m < |bs| ensures Sound(bs[m]) && (m > 0 ==> bs[m - 1].after == bs[m].before) {
      BeatAt(ws, evs, key, m);
    }
  }

  /** The reading moved away from `want`, and no tick did it. */
  predicate Drops(b: Beat, want: string) {
    !b.tick && b.before == Some(want) && b.after != Some(want)
  }

  lemma {:induction false} HeldUntilDrop(bs: seq<Beat>, want: string, i: nat, j: nat)
    requires Beating(bs) && i < j < |bs| && bs[i].paid == Some(want)
    requires forall m | i < m < j :: bs[m].paid.None? && !Drops(bs[m], want)
    ensures bs[j].before == Some(want)
  {
    if i + 1 < j { HeldUntilDrop(bs, want, i, j - 1); }
    assert Sound(bs[j - 1]) && bs[j - 1].after == bs[j].before;
  }

  /** Payment `j` repeats payment `i`: the same version, and none between them. */
  predicate Repeats(bs: seq<Beat>, i: nat, j: nat) {
    && i < j < |bs| && bs[i].paid.Some? && bs[j].paid == bs[i].paid
    && forall m | i < m < j :: bs[m].paid.None?
  }

  lemma BeatsRepeatAfterDrop(bs: seq<Beat>, i: nat, j: nat)
    requires Beating(bs) && Repeats(bs, i, j)
    ensures exists m | i < m < j :: Drops(bs[m], bs[i].paid.value)
  {
    if forall m | i < m < j :: !Drops(bs[m], bs[i].paid.value) { HeldUntilDrop(bs, bs[i].paid.value, i, j); }
    assert Sound(bs[j]);
  }

  /** Whatever happens between ticks, the oracle pays twice in a row for one version
      only if something in between took that version away from what the key reads. */
  lemma RepeatNeedsADrop(ws: seq<World>, evs: seq<Event>, key: string, i: nat, j: nat)
    requires Ticking(ws, evs)
    ensures var bs := Beats(ws, evs, key);
            Repeats(bs, i, j) ==> exists m | i < m < j :: Drops(bs[m], bs[i].paid.value)
  {
    var bs := RunBeats(ws, evs, key);
    if Repeats(bs, i, j) { BeatsRepeatAfterDrop(bs, i, j); }
  }

  function Payments(bs: seq<Beat>, n: nat): nat
    requires n <= |bs|
  {
    if n == 0 then 0 else Payments(bs, n - 1) + if bs[n - 1].paid.Some? then 1 else 0
  }

  function DropCount(bs: seq<Beat>, want: string, n: nat): nat
    requires n <= |bs|
  {
    if n == 0 then 0 else DropCount(bs, want, n - 1) + if Drops(bs[n - 1], want) then 1 else 0
  }

  /** What a key reads at the end of the first `n` beats. */
  function ReadAfter(bs: seq<Beat>, n: nat): Option<string>
    requires n <= |bs| && bs != []
  {
    if n == 0 then bs[0].before else bs[n - 1].after
  }

  lemma {:induction false} BeatBudget(bs: seq<Beat>, want: string, n: nat)
    requires Beating(bs) && bs != [] && n <= |bs|
    requires forall m | 0 <= m < n && bs[m].paid.Some? :: bs[m].paid == Some(want)
    ensures Payments(bs, n) + (if ReadAfter(bs, n) == Some(want) then 0 else 1)
         <= DropCount(bs, want, n) + if bs[0].before == Some(want) then 0 else 1
  {
    if n > 0 {
      BeatBudget(bs, want, n - 1);
      assert Sound(bs[n - 1]);
      assert n > 1 ==> bs[n - 1 - 1].after == bs[n - 1].before;
    }
  }

  predicate SteadyWant(evs: seq<Event>, key: string, want: string) {
    forall i | 0 <= i < |evs| && evs[i].Tick? && evs[i].key == key :: evs[i].want == want
  }

  lemma PaidIsWanted(ws: seq<World>, evs: seq<Event>, key: string, want: string, m: nat)
    requires |ws| == |evs| + 1 && SteadyWant(evs, key, want) && m < |evs|
    ensures Beats(ws, evs, key)[m].paid.Some? ==> Beats(ws, evs, key)[m].paid == Some(want)
  {
  }

  lemma PaidAreWanted(ws: seq<World>, evs: seq<Event>, key: string, want: string, bs: seq<Beat>)
    requires |ws| == |evs| + 1 && SteadyWant(evs, key, want) && bs == Beats(ws, evs, key)
    ensures forall m | 0 <= m < |bs| && bs[m].paid.Some? :: bs[m].paid == Some(want)
  {
    forall m | 0 <= m < |bs| && bs[m].paid.Some? ensures bs[m].paid == Some(want) {
      PaidIsWanted(ws, evs, key, want, m);
    }
  }

  /** While the wanted version stays the same, every payment but one is preceded by the
      reading being taken away, whatever happens between ticks; that one is not needed
      if the version was readable at the start. */
  lemma SteadyWantBudget(ws: seq<World>, evs: seq<Event>, key: string, want: string)
    requires Ticking(ws, evs) && evs != [] && SteadyWant(evs, key, want)
    ensures var bs := Beats(ws, evs, key);
            Payments(bs, |bs|) <= DropCount(bs, want, |bs|) + if bs[0].before == Some(want) then 0 else 1
  {
    var bs := RunBeats(ws, evs, key);
    PaidAreWanted(ws, evs, key, want, bs);
    BeatBudget(bs, want, |bs|);
  }

  // ----- What happens to the oracle's own writes -----

  ghost predicate Next(w: World, ev: Event, v: World) {
    match ev
    case Tick(_, _, _, _) => TickStep(w, ev, v)
    case Index(t) => Indexed(w, t, v)
    case Settle(t) => Settled(w, t, v)
    case GoStale(t) => Stale(w, t, v)
    case Expire(t) => Expired(w, t, v)
    case Other => false
  }

  /** Every broadcast has a transaction of its own. */
  predicate OwnTxids(evs: seq<Event>) {
    forall a, b | 0 <= a < b < |evs| :: OwnTxid(evs, a, b)
  }

  predicate OwnTxid(evs: seq<Event>, a: nat, b: nat)
    requires a < |evs| && b < |evs|
  {
    evs[a].Tick? && evs[b].Tick? && evs[a].outcome.Sent? && evs[b].outcome.Sent? ==>
      evs[a].outcome.txid != evs[b].outcome.txid
  }

  /** The oracle is the only writer of its keys. */
  ghost predicate Run(ws: seq<World>, evs: seq<Event>) {
    |ws| == |evs| + 1 && OwnTxids(evs) && forall i | 0 <= i < |evs| :: NextAt(ws, evs, i)
  }

  ghost predicate NextAt(ws: seq<World>, evs: seq<Event>, i: nat)
    requires i < |evs| < |ws|
  {
    Next(ws[i], evs[i], ws[i + 1])
  }

  predicate DropIsLoss(b: Beat, ev: Event, want: string) {
    Drops(b, want) ==> ev.GoStale? || ev.Expire?
  }

  /** Only a write going stale or expiring takes a version away from a key. */
  lemma OnlyLossesDrop(w: World, ev: Event, v: World, key: string, want: string)
    requires Next(w, ev, v)
    ensures DropIsLoss(BeatOf(w, ev, v, key), ev, want)
  {
    if ev.Index? || ev.Settle? { CatchingUpIsInvisible(w, ev.txid, v, key); }
  }

  predicate Unrecorded(local: seq<Entry>, t: string) {
    forall e | e in local :: e.txid != t
  }

  /** As far as it is not seen, `t` is the last to have recorded a write of the key. */
  ghost predicate EndsWith(local: seq<Entry>, key: string, t: string, val: string) {
    forall seen: set<string> :: EndsUnseen(local, key, t, val, seen)
  }

  predicate EndsUnseen(local: seq<Entry>, key: string, t: string, val: string, seen: set<string>) {
    t !in seen ==> EndsIn(Recorded(local, key, seen), t, val)
  }

  predicate EndsIn(q: seq<Write>, t: string, val: string) {
    q != [] && q[|q| - 1] == Write(Some(val), t)
  }

  /** The write of `t` is what the key reads, unconfirmed ... */
  ghost predicate Alive(w: World, key: string, t: string, val: string) {
    EndsIn(Queue(w, key), t, val) && (EndsWith(w.local, key, t, val) || Unrecorded(w.local, t))
  }

  /** ... or confirmed. */
  predicate Kept(w: World, key: string, t: string, val: string) {
    Queue(w, key) == [] && At(w.chain, key).confirmed == Some(val) && Unrecorded(w.local, t)
  }

  ghost predicate Safe(w: World, key: string, t: string, val: string) {
    Alive(w, key, t, val) || Kept(w, key, t, val)
  }

  lemma SafeReads(w: World, key: string, t: string, val: string)
    requires Safe(w, key, t, val)
    ensures EffectiveValue(w, key) == Some(val)
  {
    EffectiveIsQueueEnd(w, key);
  }

  /** An expiring write of another transaction, still recorded, comes back last. */
  predicate Overtakes(w: World, ev: Event, key: string, t: string) {
    ev.Expire? && ev.txid != t && RecordedFor(w.local, ev.txid, key)
  }

  lemma RestUnrecorded(local: seq<Entry>, u: string, t: string)
    ensures Unrecorded(Rest(local, t), t)
    ensures Unrecorded(local, t) ==> Unrecorded(Rest(local, u), t)
  {
    forall e | e in Rest(local, t) ensures e.txid != t { MineMember(local, t, e); }
    forall e | e in Rest(local, u) ensures e in local { MineMember(local, u, e); }
  }

  lemma RestEndsWith(local: seq<Entry>, key: string, t: string, val: string, u: string)
    requires EndsWith(local, key, t, val) && u != t
    ensures EndsWith(Rest(local, u), key, t, val)
  {
    forall seen: set<string> ensures EndsUnseen(Rest(local, u), key, t, val, seen) {
      RecordedRest(local, key, seen, u);
      assert EndsUnseen(local, key, t, val, seen);
      if t !in seen { WithoutKeepsLast(Recorded(local, key, seen), u); }
    }
  }

  lemma WithoutEndsIn(q: seq<Write>, t: string, val: string, u: string)
    requires EndsIn(q, t, val) && u != t
    ensures EndsIn(Without(q, u), t, val)
  {
    WithoutKeepsLast(q, u);
  }

  lemma RecordedGrows(local: seq<Entry>, e: Entry, key: string, seen: set<string>)
    ensures Recorded(local + [e], key, seen)
         == if e.key == key && Fresh(e, seen) then Recorded(local, key, seen) + Strip([OpOf(e, 0).value])
            else Recorded(local, key, seen)
  {
    SynthAppend(local, [e], key, seen, 0);
    SynthOne(e, key, seen, 0);
    if e.key == key && Fresh(e, seen) {
      StripAppend(Synth(local, key, seen, 0), [OpOf(e, 0).value]);
    } else {
      assert Synth(local, key, seen, 0) + [] == Synth(local, key, seen, 0);
    }
  }

  /** What paying does to the queues. */
  lemma PaidQueue(w: World, ev: Event, v: World, key: string)
    requires ev.Tick? && TickStep(w, ev, v)
    ensures Queue(v, key) == if PaidFor(w, ev, key) then Queue(w, key) + [Write(Some(ev.want), ev.outcome.txid)]
                             else Queue(w, key)
    ensures v.chain == w.chain
  {
    if TickPays(w, ev) {
      var e := Entry(ev.outcome.txid, SetOpcode(ev.want), ev.key, Some(ev.want));
      RecordedGrows(w.local, e, key, Seen(w.chain));
    }
  }

  /** A payment is what its key reads from then on. */
  lemma PaidIsAlive(w: World, ev: Event, v: World, key: string)
    requires ev.Tick? && TickStep(w, ev, v) && PaidFor(w, ev, key)
    ensures Alive(v, key, ev.outcome.txid, ev.want)
  {
    PaidQueue(w, ev, v, key);
    var e := Entry(ev.outcome.txid, SetOpcode(ev.want), ev.key, Some(ev.want));
    forall seen: set<string> ensures EndsUnseen(v.local, key, ev.outcome.txid, ev.want, seen) {
      RecordedGrows(w.local, e, key, seen);
    }
  }

  lemma TickKeepsSafe(w: World, ev: Event, v: World, key: string, t: string, val: string)
    requires ev.Tick? && TickStep(w, ev, v) && !PaidFor(w, ev, key) && Safe(w, key, t, val)
    requires TickPays(w, ev) ==> ev.outcome.txid != t
    ensures Safe(v, key, t, val)
    ensures Kept(w, key, t, val) ==> Kept(v, key, t, val)
  {
    PaidQueue(w, ev, v, key);
    if TickPays(w, ev) {
      var e := Entry(ev.outcome.txid, SetOpcode(ev.want), ev.key, Some(ev.want));
      if EndsWith(w.local, key, t, val) {
        forall seen: set<string> ensures EndsUnseen(v.local, key, t, val, seen) {
          RecordedGrows(w.local, e, key, seen);
          assert EndsUnseen(w.local, key, t, val, seen);
        }
      }
    }
  }

  lemma AllOfOne(q: seq<Write>, t: string, confirmed: Option<string>)
    requires q != [] && Leads(q, t) && q[|q| - 1].txid == t
    ensures Without(q, t) == [] && ConfirmedAfter(q, t, confirmed) == q[|q| - 1].value
  {
    AllRetired(q, t);
  }

  lemma SettleKeepsSafe(w: World, u: string, v: World, key: string, t: string, val: string)
    requires Settled(w, u, v) && Safe(w, key, t, val)
    ensures Safe(v, key, t, val)
    ensures Kept(w, key, t, val) ==> Kept(v, key, t, val)
    ensures u == t ==> Kept(v, key, t, val)
  {
    SettledQueue(w, u, v, key);
    RestUnrecorded(w.local, u, t);
    if Alive(w, key, t, val) {
      if u == t {
        AllOfOne(Queue(w, key), t, At(w.chain, key).confirmed);
      } else {
        WithoutEndsIn(Queue(w, key), t, val, u);
        if EndsWith(w.local, key, t, val) { RestEndsWith(w.local, key, t, val, u); }
      }
    }
  }

  lemma StaleKeepsSafe(w: World, u: string, v: World, key: string, t: string, val: string)
    requires Stale(w, u, v) && Safe(w, key, t, val)
    ensures Safe(v, key, t, val) || Absent(v, t)
    ensures Kept(w, key, t, val) ==> Kept(v, key, t, val)
  {
    StaleQueue(w, u, v, key);
    RestUnrecorded(w.local, u, t);
    if Alive(w, key, t, val) && u != t {
      WithoutEndsIn(Queue(w, key), t, val, u);
      if EndsWith(w.local, key, t, val) { RestEndsWith(w.local, key, t, val, u); }
    }
  }

  lemma ExpireKeepsSafe(w: World, u: string, v: World, key: string, t: string, val: string)
    requires Expired(w, u, v) && Safe(w, key, t, val) && (u != t ==> !RecordedFor(w.local, u, key))
    ensures Safe(v, key, t, val) || Absent(v, t)
    ensures Kept(w, key, t, val) ==> Kept(v, key, t, val)
  {
    ExpiredQueue(w, u, v, key);
    ExpiredSeen(w, u, v);
    if Alive(w, key, t, val) {
      if u != t {
        WithoutEndsIn(Queue(w, key), t, val, u);
      } else if EndsWith(w.local, key, t, val) {
        assert EndsUnseen(w.local, key, t, val, Seen(w.chain) - {t});
      }
    }
  }

  /** One event: the paid version stays readable, or its transaction is nowhere. */
  lemma StepKeepsSafe(w: World, ev: Event, v: World, key: string, t: string, val: string)
    requires Next(w, ev, v) && Safe(w, key, t, val)
    requires !PaidFor(w, ev, key) && !Overtakes(w, ev, key, t)
    requires TickPays(w, ev) ==> ev.outcome.txid != t
    ensures Safe(v, key, t, val) || Absent(v, t)
    ensures Kept(w, key, t, val) || ev == Settle(t) ==> Kept(v, key, t, val)
  {
    match ev
    case Tick(_, _, _, _) => TickKeepsSafe(w, ev, v, key, t, val);
    case Index(u) => IndexedKeepsQueue(w, u, v, key);
    case Settle(u) => SettleKeepsSafe(w, u, v, key, t, val);
    case GoStale(u) => StaleKeepsSafe(w, u, v, key, t, val);
    case Expire(u) => ExpireKeepsSafe(w, u, v, key, t, val);
  }

  // ----- Paying twice for one version -----

  /** A payment for the key, then none until a tick that would pay for the same again. */
  ghost predicate Stretch(ws: seq<World>, evs: seq<Event>, key: string, i: nat, j: nat) {
    && Run(ws, evs) && i < j < |evs|
    && PaidAt(ws, evs, key, i) && WouldPay(evs[j], key, evs[i].want)
    && forall m | i < m < j :: !PaidAt(ws, evs, key, m)
  }

  predicate PaidAt(ws: seq<World>, evs: seq<Event>, key: string, m: nat)
    requires m < |evs| && m < |ws|
  {
    PaidFor(ws[m], evs[m], key)
  }

  /** After event `i` the transaction came to be nowhere without having settled. */
  ghost predicate Lost(ws: seq<World>, evs: seq<Event>, t: string, i: nat, j: nat)
    requires j < |ws| && j <= |evs|
  {
    exists m :: i < m <= j && LostAt(ws, evs, t, i, m)
  }

  ghost predicate LostAt(ws: seq<World>, evs: seq<Event>, t: string, i: nat, m: nat)
    requires m < |ws| && m <= |evs|
  {
    Absent(ws[m], t) && !Settling(evs, t, i, m)
  }

  ghost predicate Settling(evs: seq<Event>, t: string, i: nat, m: nat)
    requires m <= |evs|
  {
    exists n | i < n < m :: SettlesAt(evs, t, n)
  }

  predicate SettlesAt(evs: seq<Event>, t: string, n: nat)
    requires n < |evs|
  {
    evs[n] == Settle(t)
  }

  ghost predicate InLine(ws: seq<World>, evs: seq<Event>, key: string, t: string, i: nat, j: nat)
    requires j <= |ws| && j <= |evs|
  {
    forall m | i < m < j :: !OvertakenAt(ws, evs, key, t, m)
  }

  predicate OvertakenAt(ws: seq<World>, evs: seq<Event>, key: string, t: string, m: nat)
    requires m < |evs| && m < |ws|
  {
    Overtakes(ws[m], evs[m], key, t)
  }

  lemma OthersTxid(evs: seq<Event>, i: nat, m: nat)
    requires OwnTxids(evs) && i < m < |evs| && evs[i].Tick? && evs[i].outcome.Sent?
    ensures evs[m].Tick? && evs[m].outcome.Sent? ==> evs[m].outcome.txid != evs[i].outcome.txid
  {
    assert OwnTxid(evs, i, m);
  }

  /** Up to a loss the paid version is what the key reads, for good once it settled. */
  ghost predicate SafeSoFar(ws: seq<World>, evs: seq<Event>, key: string, i: nat, n: nat)
    requires i < |evs| && evs[i].Tick? && evs[i].outcome.Sent? && n < |ws| && n <= |evs|
  {
    var t := evs[i].outcome.txid;
    || Lost(ws, evs, t, i, n)
    || (Safe(ws[n], key, t, evs[i].want) && (Settling(evs, t, i, n) ==> Kept(ws[n], key, t, evs[i].want)))
  }

  lemma SafeSoFarStep(ws: seq<World>, evs: seq<Event>, key: string, i: nat, n: nat)
    requires i < n < |evs| && |ws| == |evs| + 1 && evs[i].Tick? && evs[i].outcome.Sent?
    requires Next(ws[n], evs[n], ws[n + 1]) && SafeSoFar(ws, evs, key, i, n)
    requires !PaidFor(ws[n], evs[n], key) && !Overtakes(ws[n], evs[n], key, evs[i].outcome.txid)
    requires TickPays(ws[n], evs[n]) ==> evs[n].outcome.txid != evs[i].outcome.txid
    ensures SafeSoFar(ws, evs, key, i, n + 1)
  {
    var t, val := evs[i].outcome.txid, evs[i].want;
    if Lost(ws, evs, t, i, n) {
      LostStays(ws, evs, t, i, n);
    } else {
      StepKeepsSafe(ws[n], evs[n], ws[n + 1], key, t, val);
      SettlingStep(evs, t, i, n);
      if !Safe(ws[n + 1], key, t, val) { assert LostAt(ws, evs, t, i, n + 1); }
    }
  }

  lemma LostStays(ws: seq<World>, evs: seq<Event>, t: string, i: nat, n: nat)
    requires n < |evs| && |ws| == |evs| + 1 && Lost(ws, evs, t, i, n)
    ensures Lost(ws, evs, t, i, n + 1)
  {
    var m :| i < m <= n && LostAt(ws, evs, t, i, m);
    assert m <= n + 1;
  }

  lemma SettlingStep(evs: seq<Event>, t: string, i: nat, n: nat)
    requires i < n < |evs|
    ensures Settling(evs, t, i, n + 1) <==> Settling(evs, t, i, n) || SettlesAt(evs, t, n)
  {
  }

  lemma RunAt(ws: seq<World>, evs: seq<Event>, i: nat, n: nat)
    requires Run(ws, evs) && i < n < |evs| && evs[i].Tick? && evs[i].outcome.Sent?
    ensures Next(ws[n], evs[n], ws[n + 1])
    ensures TickPays(ws[n], evs[n]) ==> evs[n].outcome.txid != evs[i].outcome.txid
  {
    assert NextAt(ws, evs, n);
    OthersTxid(evs, i, n);
  }

  lemma StretchStart(ws: seq<World>, evs: seq<Event>, key: string, i: nat, j: nat)
    requires Stretch(ws, evs, key, i, j)
    ensures SafeSoFar(ws, evs, key, i, i + 1)
  {
    assert NextAt(ws, evs, i);
    PaidIsAlive(ws[i], evs[i], ws[i + 1], key);
  }

  ghost predicate StepsSafely(ws: seq<World>, evs: seq<Event>, key: string, i: nat, n: nat)
    requires i < n < |evs| < |ws| && evs[i].Tick? && evs[i].outcome.Sent?
  {
    SafeSoFar(ws, evs, key, i, n) ==> SafeSoFar(ws, evs, key, i, n + 1)
  }

  lemma StretchAt(ws: seq<World>, evs: seq<Event>, key: string, i: nat, j: nat, n: nat)
    requires Stretch(ws, evs, key, i, j) && InLine(ws, evs, key, evs[i].outcome.txid, i, j) && i < n < j
    ensures StepsSafely(ws, evs, key, i, n)
  {
    RunAt(ws, evs, i, n);
    assert !PaidAt(ws, evs, key, n) && !OvertakenAt(ws, evs, key, evs[i].outcome.txid, n);
    if SafeSoFar(ws, evs, key, i, n) { SafeSoFarStep(ws, evs, key, i, n); }
  }

  predicate Advances(holds: nat -> bool, n: nat) {
    holds(n) ==> holds(n + 1)
  }

  lemma {:induction false} Carried(holds: nat -> bool, a: nat, b: nat)
    requires a <= b && holds(a) && forall n | a <= n < b :: Advances(holds, n)
    ensures holds(b)
    decreases b
  {
    if a < b {
      Carried(holds, a, b - 1);
      assert Advances(holds, b - 1);
    }
  }

  lemma Onwards(ws: seq<World>, evs: seq<Event>, key: string, i: nat, j: nat)
    requires i < j <= |evs| < |ws| && evs[i].Tick? && evs[i].outcome.Sent?
    requires SafeSoFar(ws, evs, key, i, i + 1) && forall n | i < n < j :: StepsSafely(ws, evs, key, i, n)
    ensures SafeSoFar(ws, evs, key, i, j)
  {
    var holds := (n: nat) => n <= j && SafeSoFar(ws, evs, key, i, n);
    forall n | i + 1 <= n < j ensures Advances(holds, n) { assert StepsSafely(ws, evs, key, i, n); }
    Carried(holds, i + 1, j);
  }

  lemma SafeUntilLost(ws: seq<World>, evs: seq<Event>, key: string, i: nat, j: nat)
    requires Stretch(ws, evs, key, i, j) && InLine(ws, evs, key, evs[i].outcome.txid, i, j)
    ensures SafeSoFar(ws, evs, key, i, j)
  {
    StretchStart(ws, evs, key, i, j);
    forall n | i < n < j ensures StepsSafely(ws, evs, key, i, n) { StretchAt(ws, evs, key, i, j, n); }
    Onwards(ws, evs, key, i, j);
  }

  lemma AbsentStep(w: World, ev: Event, v: World, t: string)
    requires Next(w, ev, v) && Absent(w, t) && (TickPays(w, ev) ==> ev.outcome.txid != t)
    ensures Absent(v, t)
  {
    match ev
    case Tick(_, _, _, _) =>
    case Index(u) =>
      if t in Seen(v.chain) {
        JoinedSeesNoMore(w.chain, Mine(w.local, u), v.chain, t);
        var e :| e in Mine(w.local, u) && e.txid == t;
        MineMember(w.local, u, e);
      }
    case Settle(u) => SettledSees(w, u, v, t); RestUnrecorded(w.local, u, t);
    case GoStale(u) => RestUnrecorded(w.local, u, t);
    case Expire(u) => ExpiredSeen(w, u, v);
  }

  lemma {:induction false} AbsentForGood(ws: seq<World>, evs: seq<Event>, i: nat, m: nat, n: nat)
    requires Run(ws, evs) && i < m <= n <= |evs| && evs[i].Tick? && evs[i].outcome.Sent?
    requires Absent(ws[m], evs[i].outcome.txid)
    ensures Absent(ws[n], evs[i].outcome.txid)
    decreases n
  {
    if m < n {
      AbsentForGood(ws, evs, i, m, n - 1);
      RunAt(ws, evs, i, n - 1);
      AbsentStep(ws[n - 1], evs[n - 1], ws[n], evs[i].outcome.txid);
    }
  }

  lemma AbsentReads(w: World, key: string, t: string)
    requires Absent(w, t)
    ensures Without(Queue(w, key), t) == Queue(w, key)
    ensures EffectiveValue(w, key) == LeftBehind(w, key, t)
  {
    UnseenNotDisplayed(w.chain, t, key);
    WithoutNone(Displayed(w.chain, key), t);
    assert !RecordedFor(w.local, t, key);
    RecordedNotSeen(w.local, key, Seen(w.chain), t);
    WithoutAppend(Displayed(w.chain, key), Recorded(w.local, key, Seen(w.chain)), t);
    EffectiveIsQueueEnd(w, key);
  }

  /** The oracle is the only writer of its keys and no other write comes back last:
      then it pays again for a version it paid for exactly when that transaction was
      lost unsettled and the value left behind is another one. */
  lemma PaysAgainIff(ws: seq<World>, evs: seq<Event>, key: string, i: nat, j: nat)
    requires Stretch(ws, evs, key, i, j) && InLine(ws, evs, key, evs[i].outcome.txid, i, j)
    ensures PaidAt(ws, evs, key, j) <==>
              && Lost(ws, evs, evs[i].outcome.txid, i, j)
              && LeftBehind(ws[j], key, evs[i].outcome.txid) != Some(evs[i].want)
  {
    var t := evs[i].outcome.txid;
    SafeUntilLost(ws, evs, key, i, j);
    if Lost(ws, evs, t, i, j) {
      var m :| i < m <= j && LostAt(ws, evs, t, i, m);
      AbsentForGood(ws, evs, i, m, j);
      AbsentReads(ws[j], key, t);
    } else {
      SafeReads(ws[j], key, t, evs[i].want);
    }
  }

  // ----- What is left behind -----

  /** The transaction has a write of the key, shown or recorded. */
  ghost predicate Touches(w: World, t: string, key: string) {
    || RecordedFor(w.local, t, key)
    || exists n :: 0 <= n < |Displayed(w.chain, key)| && Displayed(w.chain, key)[n].txid == t
  }

  /** No other transaction loses a write of the key in between. */
  ghost predicate Alone(ws: seq<World>, evs: seq<Event>, key: string, t: string, i: nat, j: nat)
    requires j <= |ws| && j <= |evs|
  {
    forall m | i < m < j :: AloneAt(ws[m], evs[m], key, t)
  }

  ghost predicate AloneAt(w: World, ev: Event, key: string, t: string) {
    (ev.GoStale? || ev.Expire?) && ev.txid != t ==> !Touches(w, ev.txid, key)
  }

  lemma {:induction false} WithoutCommutes(q: seq<Write>, t: string, u: string)
    ensures Without(Without(q, t), u) == Without(Without(q, u), t)
  {
    if q != [] {
      WithoutCommutes(q[1..], t, u);
      var a, b := Without(q[1..], t), Without(q[1..], u);
      assert q[0].txid != t ==> Without(q, t) == [q[0]] + a && ([q[0]] + a)[1..] == a;
      assert q[0].txid == t ==> Without(q, t) == a;
      assert q[0].txid != u ==> Without(q, u) == [q[0]] + b && ([q[0]] + b)[1..] == b;
      assert q[0].txid == u ==> Without(q, u) == b;
    }
  }

  /** Taking writes of another transaction out of line keeps who leads it. */
  lemma {:induction false} WithoutLeads(q: seq<Write>, t: string, u: string)
    requires Leads(q, u) && t != u
    ensures Leads(Without(q, t), u)
  {
    if q != [] {
      var tail := Without(q[1..], t);
      assert forall a | 0 <= a < |q[1..]| :: q[1..][a] == q[a + 1];
      WithoutLeads(q[1..], t, u);
      if q[0].txid != t && q[0].txid != u {
        forall a | 0 <= a < |tail| ensures tail[a].txid != u {
          WithoutMember(q[1..], t, tail[a]);
          var b :| 0 <= b < |q[1..]| && q[1..][b] == tail[a];
          assert q[b + 1] == tail[a];
        }
      }
    }
  }

  lemma WithoutSnoc(init: seq<Write>, last: Write, t: string)
    ensures Without(init + [last], t) == if last.txid == t then Without(init, t) else Without(init, t) + [last]
  {
    WithoutAppend(init, [last], t);
    assert [last][1..] == [];
    assert Without([last], t) == if last.txid == t then [] else [last];
  }

  lemma {:induction false} ConfirmedWithout(q: seq<Write>, t: string, u: string, confirmed: Option<string>)
    requires t != u
    ensures ConfirmedAfter(Without(q, t), u, confirmed) == ConfirmedAfter(q, u, confirmed)
  {
    if q != [] {
      var init, last := q[..|q| - 1], q[|q| - 1];
      ConfirmedWithout(init, t, u, confirmed);
      assert q == init + [last];
      WithoutSnoc(init, last, t);
      assert (Without(init, t) + [last])[..|Without(init, t)|] == Without(init, t);
    }
  }

  lemma {:induction false} ConfirmedNone(q: seq<Write>, t: string, confirmed: Option<string>)
    requires forall n | 0 <= n < |q| :: q[n].txid != t
    ensures ConfirmedAfter(q, t, confirmed) == confirmed
  {
    if q != [] { ConfirmedNone(q[..|q| - 1], t, confirmed); }
  }

  lemma UntouchedQueue(w: World, u: string, key: string)
    requires !Touches(w, u, key)
    ensures Without(Queue(w, key), u) == Queue(w, key)
  {
    WithoutNone(Displayed(w.chain, key), u);
    RecordedNotSeen(w.local, key, Seen(w.chain), u);
    WithoutAppend(Displayed(w.chain, key), Recorded(w.local, key, Seen(w.chain)), u);
  }

  lemma WithoutTwice(q: seq<Write>, t: string)
    ensures Without(Without(q, t), t) == Without(q, t)
  {
    var r := Without(q, t);
    forall n | 0 <= n < |r| ensures r[n].txid != t { WithoutMember(q, t, r[n]); }
    WithoutNone(r, t);
  }

  lemma SettleLeaves(w: World, u: string, v: World, key: string, t: string)
    requires Settled(w, u, v) && (u == t ==> Absent(w, t))
    ensures LeftBehind(v, key, t) == LeftBehind(w, key, t)
  {
    var q, c := Queue(w, key), At(w.chain, key).confirmed;
    SettledQueue(w, u, v, key);
    if u == t {
      AbsentReads(w, key, t);
      forall n | 0 <= n < |q| ensures q[n].txid != t { WithoutMember(q, t, q[n]); }
      ConfirmedNone(q, t, c);
    } else {
      WithoutCommutes(q, t, u);
      WithoutLeads(q, t, u);
      ConfirmedWithout(q, t, u, c);
      RetireKeepsEnd(Without(q, t), u, c);
    }
  }

  lemma StaleLeaves(w: World, u: string, v: World, key: string, t: string)
    requires Stale(w, u, v) && (u != t ==> !Touches(w, u, key))
    ensures LeftBehind(v, key, t) == LeftBehind(w, key, t)
  {
    StaleQueue(w, u, v, key);
    if u == t { WithoutTwice(Queue(w, key), t); } else { UntouchedQueue(w, u, key); }
  }

  lemma ExpireLeaves(w: World, u: string, v: World, key: string, t: string)
    requires Expired(w, u, v) && (u != t ==> !Touches(w, u, key))
    ensures LeftBehind(v, key, t) == LeftBehind(w, key, t)
  {
    ExpiredQueue(w, u, v, key);
    if u == t {
      var d, seen := Displayed(w.chain, key), Seen(w.chain);
      SynthRest(w.local, key, seen, seen - {t}, t);
      SynthRest(w.local, key, seen - {t}, seen - {t}, t);
      WithoutAppend(d, Recorded(w.local, key, seen), t);
      WithoutAppend(Without(d, t), Recorded(w.local, key, seen - {t}), t);
      WithoutTwice(d, t);
    } else {
      UntouchedQueue(w, u, key);
    }
  }

  /** One event leaves what lies behind the writes of `t` as it was. */
  lemma StepLeaves(w: World, ev: Event, v: World, key: string, t: string)
    requires Next(w, ev, v) && !PaidFor(w, ev, key) && AloneAt(w, ev, key, t)
    requires ev == Settle(t) ==> Absent(w, t)
    ensures LeftBehind(v, key, t) == LeftBehind(w, key, t)
  {
    match ev
    case Tick(_, _, _, _) => PaidQueue(w, ev, v, key);
    case Index(u) => IndexedKeepsQueue(w, u, v, key);
    case Settle(u) => SettleLeaves(w, u, v, key, t);
    case GoStale(u) => StaleLeaves(w, u, v, key, t);
    case Expire(u) => ExpireLeaves(w, u, v, key, t);
  }

  /** Until it settles, what lies behind a payment is what its key read before. */
  ghost predicate LeftSoFar(ws: seq<World>, evs: seq<Event>, key: string, i: nat, n: nat)
    requires i < |evs| && evs[i].Tick? && evs[i].outcome.Sent? && i < n < |ws| && n <= |evs|
  {
    var t := evs[i].outcome.txid;
    || (Settling(evs, t, i, n) && !Lost(ws, evs, t, i, n))
    || LeftBehind(ws[n], key, t) == EffectiveValue(ws[i], key)
  }

  lemma LeftSoFarStep(ws: seq<World>, evs: seq<Event>, key: string, i: nat, n: nat)
    requires Run(ws, evs) && i < n < |evs| && evs[i].Tick? && evs[i].outcome.Sent?
    requires LeftSoFar(ws, evs, key, i, n)
    requires !PaidAt(ws, evs, key, n) && AloneAt(ws[n], evs[n], key, evs[i].outcome.txid)
    ensures LeftSoFar(ws, evs, key, i, n + 1)
  {
    var t := evs[i].outcome.txid;
    RunAt(ws, evs, i, n);
    SettlingStep(evs, t, i, n);
    if Lost(ws, evs, t, i, n) {
      LostStays(ws, evs, t, i, n);
      var m :| i < m <= n && LostAt(ws, evs, t, i, m);
      AbsentForGood(ws, evs, i, m, n);
    } else if Settling(evs, t, i, n + 1) {
      NotLostLater(ws, evs, t, i, n);
    }
    if !(Settling(evs, t, i, n + 1) && !Lost(ws, evs, t, i, n + 1)) {
      StepLeaves(ws[n], evs[n], ws[n + 1], key, t);
    }
  }

  lemma NotLostLater(ws: seq<World>, evs: seq<Event>, t: string, i: nat, n: nat)
    requires n < |evs| < |ws| && !Lost(ws, evs, t, i, n) && Settling(evs, t, i, n + 1)
    ensures !Lost(ws, evs, t, i, n + 1)
  {
    assert forall m | i < m <= n :: !LostAt(ws, evs, t, i, m);
  }

  ghost predicate LeavesOn(ws: seq<World>, evs: seq<Event>, key: string, i: nat, n: nat)
    requires i < n < |evs| < |ws| && evs[i].Tick? && evs[i].outcome.Sent?
  {
    LeftSoFar(ws, evs, key, i, n) ==> LeftSoFar(ws, evs, key, i, n + 1)
  }

  lemma LeavesAt(ws: seq<World>, evs: seq<Event>, key: string, i: nat, j: nat, n: nat)
    requires Stretch(ws, evs, key, i, j) && Alone(ws, evs, key, evs[i].outcome.txid, i, j) && i < n < j
    ensures LeavesOn(ws, evs, key, i, n)
  {
    assert !PaidAt(ws, evs, key, n) && AloneAt(ws[n], evs[n], key, evs[i].outcome.txid);
    if LeftSoFar(ws, evs, key, i, n) { LeftSoFarStep(ws, evs, key, i, n); }
  }

  lemma LeavesFirst(ws: seq<World>, evs: seq<Event>, key: string, i: nat, j: nat)
    requires Stretch(ws, evs, key, i, j)
    ensures LeftSoFar(ws, evs, key, i, i + 1)
  {
    var t := evs[i].outcome.txid;
    assert NextAt(ws, evs, i);
    PaidQueue(ws[i], evs[i], ws[i + 1], key);
    AbsentReads(ws[i], key, t);
    WithoutSnoc(Queue(ws[i], key), Write(Some(evs[i].want), t), t);
  }

  lemma LeavesOnwards(ws: seq<World>, evs: seq<Event>, key: string, i: nat, j: nat)
    requires i < j <= |evs| < |ws| && evs[i].Tick? && evs[i].outcome.Sent?
    requires LeftSoFar(ws, evs, key, i, i + 1) && forall n | i < n < j :: LeavesOn(ws, evs, key, i, n)
    ensures LeftSoFar(ws, evs, key, i, j)
  {
    var holds := (n: nat) => i < n <= j && LeftSoFar(ws, evs, key, i, n);
    forall n | i + 1 <= n < j ensures Advances(holds, n) { assert LeavesOn(ws, evs, key, i, n); }
    Carried(holds, i + 1, j);
  }

  lemma LeftAtLast(ws: seq<World>, evs: seq<Event>, key: string, i: nat, j: nat)
    requires Stretch(ws, evs, key, i, j) && Alone(ws, evs, key, evs[i].outcome.txid, i, j)
    ensures LeftSoFar(ws, evs, key, i, j)
  {
    LeavesFirst(ws, evs, key, i, j);
    forall n | i < n < j ensures LeavesOn(ws, evs, key, i, n) { LeavesAt(ws, evs, key, i, j, n); }
    LeavesOnwards(ws, evs, key, i, j);
  }

  lemma AloneInLine(ws: seq<World>, evs: seq<Event>, key: string, t: string, i: nat, j: nat)
    requires j <= |ws| && j <= |evs| && Alone(ws, evs, key, t, i, j)
    ensures InLine(ws, evs, key, t, i, j)
  {
    forall m | i < m < j ensures !OvertakenAt(ws, evs, key, t, m) { assert AloneAt(ws[m], evs[m], key, t); }
  }

  /** When no other transaction loses a write of the key meanwhile, the oracle pays
      again for a version exactly when its payment was lost before it settled. */
  lemma PaysAgainIffLost(ws: seq<World>, evs: seq<Event>, key: string, i: nat, j: nat)
    requires Stretch(ws, evs, key, i, j) && Alone(ws, evs, key, evs[i].outcome.txid, i, j)
    ensures PaidAt(ws, evs, key, j) <==> Lost(ws, evs, evs[i].outcome.txid, i, j)
  {
    AloneInLine(ws, evs, key, evs[i].outcome.txid, i, j);
    PaysAgainIff(ws, evs, key, i, j);
    LeftAtLast(ws, evs, key, i, j);
  }

  /** So two payments for one key in a row are for different versions, unless the
      first one's transaction was lost or another one's expired write was read. */
  lemma PaysOncePerChange(ws: seq<World>, evs: seq<Event>, key: string, i: nat, j: nat)
    requires Run(ws, evs) && i < j < |evs|
    requires PaidAt(ws, evs, key, i) && PaidAt(ws, evs, key, j)
    requires forall m | i < m < j :: !PaidAt(ws, evs, key, m)
    ensures var t := evs[i].outcome.txid;
            evs[i].want == evs[j].want ==> Lost(ws, evs, t, i, j) || !InLine(ws, evs, key, t, i, j)
  {
    var t := evs[i].outcome.txid;
    if evs[i].want == evs[j].want && InLine(ws, evs, key, t, i, j) { PaysAgainIff(ws, evs, key, i, j); }
  }

  // ----- Steady wants -----

  function Losses(evs: seq<Event>, n: nat): nat
    requires n <= |evs|
  {
    if n == 0 then 0 else Losses(evs, n - 1) + if evs[n - 1].GoStale? || evs[n - 1].Expire? then 1 else 0
  }

  lemma RunTicks(ws: seq<World>, evs: seq<Event>)
    requires Run(ws, evs)
    ensures Ticking(ws, evs)
  {
    forall n | 0 <= n < |evs| ensures TickAt(ws, evs, n) { assert NextAt(ws, evs, n); }
  }

  lemma BeatIs(ws: seq<World>, evs: seq<Event>, key: string, n: nat)
    requires |ws| == |evs| + 1 && n < |evs|
    ensures Beats(ws, evs, key)[n] == BeatOf(ws[n], evs[n], ws[n + 1], key)
  {
  }

  lemma DropAt(ws: seq<World>, evs: seq<Event>, key: string, want: string, n: nat)
    requires |ws| == |evs| + 1 && n < |evs| && NextAt(ws, evs, n)
    ensures DropIsLoss(Beats(ws, evs, key)[n], evs[n], want)
  {
    OnlyLossesDrop(ws[n], evs[n], ws[n + 1], key, want);
    BeatIs(ws, evs, key, n);
  }

  lemma {:induction false} DropsAreLosses(bs: seq<Beat>, evs: seq<Event>, want: string, n: nat)
    requires |bs| == |evs| && n <= |evs| && forall m | 0 <= m < |evs| :: DropIsLoss(bs[m], evs[m], want)
    ensures DropCount(bs, want, n) <= Losses(evs, n)
  {
    if n > 0 {
      DropsAreLosses(bs, evs, want, n - 1);
      assert DropIsLoss(bs[n - 1], evs[n - 1], want);
    }
  }

  /** While the wanted version stays the same, a run pays at most once, and once more
      for each time a write goes stale or expires; not at all without such losses if
      the version was readable at the start. */
  lemma SteadyWantPaysAtMostOnce(ws: seq<World>, evs: seq<Event>, key: string, want: string)
    requires Run(ws, evs) && evs != [] && SteadyWant(evs, key, want)
    ensures var bs := Beats(ws, evs, key);
            Payments(bs, |bs|) <= Losses(evs, |evs|) + if bs[0].before == Some(want) then 0 else 1
  {
    var bs := Beats(ws, evs, key);
    RunTicks(ws, evs);
    SteadyWantBudget(ws, evs, key, want);
    forall n | 0 <= n < |evs| ensures DropIsLoss(bs[n], evs[n], want) { DropAt(ws, evs, key, want, n); }
    DropsAreLosses(bs, evs, want, |evs|);
  }

  // ----- A lost payment is repeated -----

  /** An empty database, one payment, its record an hour old with nothing on chain: the
      next tick pays for the same version again. */
  lemma LostPaymentIsRepeated(key: string, want: string) returns (ws: seq<World>, evs: seq<Event>)
    ensures Run(ws, evs) && |evs| == 3 && evs[1] == GoStale("t1")
    ensures evs[0].Tick? && evs[2].Tick? && evs[0].want == evs[2].want == want
    ensures PaidAt(ws, evs, key, 0) && PaidAt(ws, evs, key, 2)
  {
    var e1, e2 := Entry("t1", SetOpcode(want), key, Some(want)), Entry("t2", SetOpcode(want), key, Some(want));
    var none := World(map[], []);
    evs := [Tick(key, want, false, Sent("t1")), GoStale("t1"), Tick(key, want, false, Sent("t2"))];
    ws := [none, World(map[], [e1]), none, World(map[], [e2])];
    EmptyReadsNothing(key);
    assert Rest([e1], "t1") == [] by { assert Rest([e1][1..], "t1") == []; }
    assert none.local + [e1] == [e1] && none.local + [e2] == [e2];
    assert NextAt(ws, evs, 0) && NextAt(ws, evs, 1) && NextAt(ws, evs, 2);
  }

  lemma EmptyReadsNothing(key: string)
    ensures EffectiveValue(World(map[], []), key) == None
    ensures Seen(map[]) == {}
  {
    EffectiveIs(World(map[], []), key);
  }

  // ----- One that is mined is not -----

  /** The state showing one write of `t`, still in the mempool. */
  function Showing(key: string, want: string, t: string): State {
    map[key := KeyState(None, [Set(want, 0, 1, t)], None, None)]
  }

  lemma ShowingIsIndexed(key: string, want: string, t: string)
    ensures var e := Entry(t, SetOpcode(want), key, Some(want));
            Indexed(World(map[], [e]), t, World(Showing(key, want, t), [e]))
  {
    var e := Entry(t, SetOpcode(want), key, Some(want));
    var none: seq<Entry> := [];
    EmptyReadsNothing(key);
    assert [e] == [e] + none;
    MineStep(e, none, t);
    forall k ensures Displayed(Showing(key, want, t), k) == Recorded([e], k, {}) { SynthOne(e, k, {}, 0); }
  }

  lemma ShowingQueue(key: string, want: string, t: string, k: string)
    ensures var w := World(Showing(key, want, t), [Entry(t, SetOpcode(want), key, Some(want))]);
            && Displayed(w.chain, k) == (if k == key then [Write(Some(want), t)] else [])
            && Queue(w, k) == Displayed(w.chain, k) && Without(Displayed(w.chain, k), t) == []
  {
    var e := Entry(t, SetOpcode(want), key, Some(want));
    var w := World(Showing(key, want, t), [e]);
    SeenBy(w.chain, key, w.chain[key].pending[0]);
    SynthOne(e, k, Seen(w.chain), 0);
    var q := Displayed(w.chain, k);
    assert q == if k == key then [Write(Some(want), t)] else [];
    assert [Write(Some(want), t)][1..] == [];
  }

  function Holding(key: string, want: string): World {
    World(map[key := KeyState(Some(want), [], None, None)], [])
  }

  lemma ShowingSettles(key: string, want: string, t: string)
    ensures Settled(World(Showing(key, want, t), [Entry(t, SetOpcode(want), key, Some(want))]), t, Holding(key, want))
  {
    var e := Entry(t, SetOpcode(want), key, Some(want));
    assert Rest([e], t) == [] by { assert Rest([e][1..], t) == []; }
    forall k { ShowingQueue(key, want, t, k); }
  }

  lemma FirstTick(key: string, want: string, t: string)
    ensures var w, ev := World(map[], []), Tick(key, want, false, Sent(t));
            && TickStep(w, ev, World(map[], [Entry(t, SetOpcode(want), key, Some(want))])) && PaidFor(w, ev, key)
  {
    EmptyReadsNothing(key);
    var e := Entry(t, SetOpcode(want), key, Some(want));
    assert [] + [e] == [e];
  }

  lemma LaterTick(key: string, want: string, t: string)
    ensures var ev := Tick(key, want, false, Sent(t));
            TickStep(Holding(key, want), ev, Holding(key, want)) && !PaidFor(Holding(key, want), ev, key)
  {
    AllSeenReads(Holding(key, want), key);
  }

  lemma FirstFour(holds: nat -> bool, n: nat)
    requires holds(0) && holds(1) && holds(2) && holds(3) && n < 4
    ensures holds(n)
  {
    assert n == 0 || n == 1 || n == 2 || n == 3;
  }

  lemma RunOfFour(ws: seq<World>, evs: seq<Event>)
    requires |ws| == 5 && |evs| == 4 && OwnTxids(evs)
    requires NextAt(ws, evs, 0) && NextAt(ws, evs, 1) && NextAt(ws, evs, 2) && NextAt(ws, evs, 3)
    ensures Run(ws, evs)
  {
    var holds := (n: nat) => n < 4 && NextAt(ws, evs, n);
    forall n | 0 <= n < |evs| ensures NextAt(ws, evs, n) { FirstFour(holds, n); }
  }

  lemma TwoTicks(a: Event, b: Event, t: string, u: string)
    requires a.Tick? && b.Tick? && a.outcome == Sent("t1") && b.outcome == Sent("t2")
    ensures OwnTxids([a, Index(t), Settle(u), b])
  {
  }

  /** A payment that is shown and then mined is read from the chain, and the next tick
      leaves it at that. */
  lemma MinedPaymentIsKept(key: string, want: string) returns (ws: seq<World>, evs: seq<Event>)
    ensures Run(ws, evs) && |evs| == 4 && evs[1] == Index("t1") && evs[2] == Settle("t1")
    ensures evs[0].Tick? && evs[0].want == want && WouldPay(evs[3], key, want)
    ensures PaidAt(ws, evs, key, 0) && !PaidAt(ws, evs, key, 3)
  {
    var e := Entry("t1", SetOpcode(want), key, Some(want));
    var first, later := Tick(key, want, false, Sent("t1")), Tick(key, want, false, Sent("t2"));
    evs := [first, Index("t1"), Settle("t1"), later];
    ws := [World(map[], []), World(map[], [e]), World(Showing(key, want, "t1"), [e]), Holding(key, want),
           Holding(key, want)];
    assert NextAt(ws, evs, 0) && PaidAt(ws, evs, key, 0) by { FirstTick(key, want, "t1"); }
    assert NextAt(ws, evs, 1) by { ShowingIsIndexed(key, want, "t1"); }
    assert NextAt(ws, evs, 2) by { ShowingSettles(key, want, "t1"); }
    assert NextAt(ws, evs, 3) && !PaidAt(ws, evs, key, 3) by { LaterTick(key, want, "t2"); }
    TwoTicks(first, later, "t1", "t1");
    RunOfFour(ws, evs);
  }
}
