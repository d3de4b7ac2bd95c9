/** The pending-write overlay: what a read shows between broadcasting a write and
    the wallet indexing it. `merge_pending` and the copy inside `zkv get` edit
    the replayed state in place; `Overlaid` says per key what both compute. */
module Overlay {
  import opened Wrappers

  datatype PendingOp =
    | Set(value: string, done: nat, required: nat, txid: string)
    | Del(done: nat, required: nat, txid: string)

  datatype KeyState = KeyState(
    confirmed: Option<string>, pending: seq<PendingOp>,
    updatedAt: Option<nat>, lastTxid: Option<string>)

  const NOTHING := KeyState(None, [], None, None)

  type State = map<string, KeyState>

  datatype InitState = Uninitialized | Initializing(done: nat, required: nat) | Initialized

  /** One line of the local pending file; `op` is the memo's opcode as text. */
  datatype Entry = Entry(txid: string, op: string, key: string, value: Option<string>)

  // ----- The specification, key by key -----

  function LocalTxids(local: seq<Entry>): set<string> {
    set e | e in local :: e.txid
  }

  predicate Visible(op: PendingOp, txids: set<string>) {
    op.done >= 1 || op.txid in txids
  }

  function KeepVisible(ops: seq<PendingOp>, txids: set<string>): seq<PendingOp> {
    if ops == [] then []
    else (if Visible(ops[0], txids) then [ops[0]] else []) + KeepVisible(ops[1..], txids)
  }

  predicate HasSet(ops: seq<PendingOp>) {
    exists i | 0 <= i < |ops| :: ops[i].Set?
  }

  predicate Shown(ks: KeyState) {
    ks.confirmed.Some? || HasSet(ks.pending)
  }

  function Hushed(ks: KeyState, txids: set<string>): KeyState {
    ks.(pending := KeepVisible(ks.pending, txids))
  }

  /** The replayed state once foreign mempool ops are dropped: at depth zero
      nothing is. */
  function Retained(s: State, local: seq<Entry>, minConfs: nat): State {
    if minConfs == 0 then s
    else
      var txids := LocalTxids(local);
      map k | k in s && Shown(Hushed(s[k], txids)) :: Hushed(s[k], txids)
  }

  function Seen(s: State): set<string> {
    set k, op | k in s && op in s[k].pending :: op.txid
  }

  function Max1(n: nat): nat {
    if n == 0 then 1 else n
  }

  /** The op a data entry stands for; INIT and management entries have none. */
  function OpOf(e: Entry, minConfs: nat): Option<PendingOp> {
    if e.op == "SET" || e.op == "SETL" then
      Some(Set(if e.value.Some? then e.value.value else "", 0, Max1(minConfs), e.txid))
    else if e.op == "DEL" then Some(Del(0, Max1(minConfs), e.txid))
    else None
  }

  predicate IsData(e: Entry) {
    OpOf(e, 0).Some?
  }

  predicate Fresh(e: Entry, seen: set<string>) {
    IsData(e) && e.txid !in seen
  }

  /** The local ops for one key the state does not show yet, in file order. */
  function Synth(local: seq<Entry>, key: string, seen: set<string>, minConfs: nat): seq<PendingOp> {
    if local == [] then []
    else
      var e := local[0];
      (if e.key == key && Fresh(e, seen) then [OpOf(e, minConfs).value] else [])
      + Synth(local[1..], key, seen, minConfs)
  }

  function FreshKeys(local: seq<Entry>, seen: set<string>): set<string> {
    set e | e in local && Fresh(e, seen) :: e.key
  }

  function At(s: State, k: string): KeyState {
    if k in s then s[k] else NOTHING
  }

  function Appended(r: State, local: seq<Entry>, seen: set<string>, minConfs: nat): State {
    map k | k in r.Keys + FreshKeys(local, seen) ::
      At(r, k).(pending := At(r, k).pending + Synth(local, k, seen, minConfs))
  }

  /** What a read at this depth shows. */
  function Overlaid(s: State, local: seq<Entry>, minConfs: nat): State {
    var r := Retained(s, local, minConfs);
    Appended(r, local, Seen(r), minConfs)
  }

  /** The status a read gives: an INIT in the file counts as one under way. */
  function SurfacedInit(init: InitState, local: seq<Entry>, minConfs: nat): (r: InitState)
    ensures r.Initialized? <==> init.Initialized?
    ensures r.Uninitialized? <==> init.Uninitialized? && forall e | e in local :: e.op != "INIT"
    ensures r == init || (init.Uninitialized? && r == Initializing(0, if minConfs > 1 then minConfs else 1))
  {
    if init.Uninitialized? && (exists e | e in local :: e.op == "INIT")
    then Initializing(0, Max1(minConfs)) else init
  }

  // ----- The loops -----

  lemma {:induction false} SynthAppend(a: seq<Entry>, b: seq<Entry>, k: string, seen: set<string>, minConfs: nat)
    ensures Synth(a + b, k, seen, minConfs) == Synth(a, k, seen, minConfs) + Synth(b, k, seen, minConfs)
  {
    if a == [] {
      assert a + b == b;
    } else {
      assert (a + b)[1..] == a[1..] + b;
      SynthAppend(a[1..], b, k, seen, minConfs);
    }
  }

  lemma SynthOne(e: Entry, k: string, seen: set<string>, minConfs: nat)
    ensures Synth([e], k, seen, minConfs)
         == if e.key == k && Fresh(e, seen) then [OpOf(e, minConfs).value] else []
  {
    assert [e][1..] == [];
  }

  lemma AppendedNone(r: State, seen: set<string>, minConfs: nat)
    ensures Appended(r, [], seen, minConfs) == r
  {
    var none: seq<Entry> := [];
    assert FreshKeys(none, seen) == {};
    forall k | k in r ensures Appended(r, none, seen, minConfs)[k] == r[k] {
      assert r[k].pending + Synth(none, k, seen, minConfs) == r[k].pending;
    }
  }

  function Pushed(a: State, k: string, op: PendingOp): State {
    a[k := At(a, k).(pending := At(a, k).pending + [op])]
  }

  lemma PendingGrows(p: seq<PendingOp>, local: seq<Entry>, e: Entry, k: string, seen: set<string>, minConfs: nat)
    ensures p + Synth(local + [e], k, seen, minConfs)
         == if e.key == k && Fresh(e, seen) then p + Synth(local, k, seen, minConfs) + [OpOf(e, minConfs).value]
            else p + Synth(local, k, seen, minConfs)
  {
    SynthAppend(local, [e], k, seen, minConfs);
    SynthOne(e, k, seen, minConfs);
  }

  lemma FreshKeysGrow(local: seq<Entry>, e: Entry, seen: set<string>)
    ensures FreshKeys(local + [e], seen) == FreshKeys(local, seen) + if Fresh(e, seen) then {e.key} else {}
  {
    assert forall x :: x in local + [e] <==> x in local || x == e;
  }

  lemma PendingAt(r: State, local: seq<Entry>, seen: set<string>, minConfs: nat, k: string)
    ensures At(Appended(r, local, seen, minConfs), k)
         == At(r, k).(pending := At(r, k).pending + Synth(local, k, seen, minConfs))
  {
    NoFreshNoSynth(local, k, seen, minConfs);
    assert NOTHING.pending + [] == NOTHING.pending;
  }

  lemma AppendedAt(r: State, local: seq<Entry>, e: Entry, seen: set<string>, minConfs: nat, k: string)
    ensures var was := At(Appended(r, local, seen, minConfs), k);
            At(Appended(r, local + [e], seen, minConfs), k)
            == if e.key == k && Fresh(e, seen) then was.(pending := was.pending + [OpOf(e, minConfs).value]) else was
  {
    PendingAt(r, local, seen, minConfs, k);
    PendingAt(r, local + [e], seen, minConfs, k);
    PendingGrows(At(r, k).pending, local, e, k, seen, minConfs);
  }

  lemma SameStates(m: State, n: State)
    requires m.Keys == n.Keys && forall k :: At(m, k) == At(n, k)
    ensures m == n
  {
    forall k | k in m ensures m[k] == n[k] { assert At(m, k) == At(n, k); }
  }

  /** One turn of the append loop: the next entry pushes its op or does nothing. */
  lemma AppendNext(r: State, local: seq<Entry>, e: Entry, seen: set<string>, minConfs: nat)
    ensures var a := Appended(r, local, seen, minConfs);
            Appended(r, local + [e], seen, minConfs)
            == if Fresh(e, seen) then Pushed(a, e.key, OpOf(e, minConfs).value) else a
  {
    var a, b := Appended(r, local, seen, minConfs), Appended(r, local + [e], seen, minConfs);
    var want := if Fresh(e, seen) then Pushed(a, e.key, OpOf(e, minConfs).value) else a;
    FreshKeysGrow(local, e, seen);
    forall k ensures At(b, k) == At(want, k) { AppendedAt(r, local, e, seen, minConfs, k); }
    SameStates(b, want);
  }

  lemma {:induction false} NoFreshNoSynth(local: seq<Entry>, k: string, seen: set<string>, minConfs: nat)
    ensures k !in FreshKeys(local, seen) <==> Synth(local, k, seen, minConfs) == []
  {
    if local != [] {
      NoFreshNoSynth(local[1..], k, seen, minConfs);
      assert forall x :: x in local <==> x == local[0] || x in local[1..];
    }
  }

  class ReplayResult {
    var state: State
    var init: InitState

    constructor (state: State, init: InitState)
      ensures this.state == state && this.init == init
    {
      this.state, this.init := state, init;
    }

    /** Drop mempool ops that came off the wire, then keys left with nothing to
        show. */
    method DropForeign(local: seq<Entry>, minConfs: nat)
      requires minConfs >= 1
      modifies this`state
      ensures state == Retained(old(state), local, minConfs)
    {
      var txids := LocalTxids(local);
      var todo := state.Keys;
      while todo != {}
        invariant todo <= state.Keys == old(state).Keys
        invariant forall k | k in state ::
                    state[k] == if k in todo then old(state)[k] else Hushed(old(state)[k], txids)
        decreases todo
      {
        var k :| k in todo;
        state := state[k := Hushed(state[k], txids)];
        todo := todo - {k};
      }
      state := map k | k in state && Shown(state[k]) :: state[k];
    }

    /** Push an op for every local data entry whose transaction is not visible;
        the set of visible transactions is fixed before the first push. */
    method AppendLocal(local: seq<Entry>, minConfs: nat)
      modifies this`state
      ensures state == Appended(old(state), local, Seen(old(state)), minConfs)
    {
      var seen := Seen(state);
      ghost var start := state;
      AppendedNone(state, seen, minConfs);
      for i := 0 to |local|
        invariant state == Appended(start, local[..i], seen, minConfs)
      {
        var e := local[i];
        assert local[..i + 1] == local[..i] + [e];
        AppendNext(start, local[..i], e, seen, minConfs);
        if e.op == "INIT" || e.txid in seen { continue; }
        var op := OpOf(e, minConfs);
        if op.None? { continue; }
        state := Pushed(state, e.key, op.value);
      }
      assert local[..|local|] == local;
    }

    /** `merge_pending`: nothing at all when the pending file cannot be loaded. */
    method MergePending(loaded: Option<seq<Entry>>, minConfs: nat)
      modifies this
      ensures loaded.None? ==> state == old(state) && init == old(init)
      ensures loaded.Some? ==>
                && state == Overlaid(old(state), loaded.value, minConfs)
                && init == SurfacedInit(old(init), loaded.value, minConfs)
      ensures init.Initialized? <==> old(init).Initialized?
      ensures init == (if old(init).Uninitialized? && loaded.Some? && exists e :: e in loaded.value && e.op == "INIT"
                       then Initializing(0, if minConfs > 1 then minConfs else 1) else old(init))
    {
      if loaded.None? { return; }
      var local := loaded.value;
      if init.Uninitialized? && exists e | e in local :: e.op == "INIT" {
        init := Initializing(0, Max1(minConfs));
      }
      if minConfs >= 1 { DropForeign(local, minConfs); }
      AppendLocal(local, minConfs);
    }

    /** The copy inside `zkv get`. Its two loops are, line for line, those of
        `merge_pending`; an unloadable file counts as an empty one, and
        the init status was dealt with before. */
    method OverlayForGet(loaded: Option<seq<Entry>>, minConfs: nat)
      modifies this
      ensures state == Overlaid(old(state), if loaded.Some? then loaded.value else [], minConfs)
      ensures init == old(init)
    {
      var local := if loaded.Some? then loaded.value else [];
      if minConfs >= 1 { DropForeign(local, minConfs); }
      AppendLocal(local, minConfs);
    }
  }

  // ----- What the overlay can and cannot change -----

  /** Confirmed facts are never touched. A key can only go when it has no
      confirmed value, and only a local SET or DEL makes one appear; a key that
      went and came back carries no record of its last write. */
  lemma ConfirmedUntouched(s: State, local: seq<Entry>, minConfs: nat, k: string)
    ensures var m, r := Overlaid(s, local, minConfs), Retained(s, local, minConfs);
            && At(m, k).confirmed == At(s, k).confirmed
            && (k in s && k !in m ==> s[k].confirmed.None?)
            && (k in r ==> k in s && k in m && m[k] == s[k].(pending := m[k].pending))
            && (k in m && k !in r ==>
                  && m[k] == NOTHING.(pending := m[k].pending)
                  && exists e :: e in local && IsData(e) && e.key == k)
  {
  }

  predicate AllMined(ops: seq<PendingOp>) {
    forall op | op in ops :: op.done >= 1
  }

  /** The two callers differ only on an unloadable file, and then exactly when the
      state holds something a read at this depth hides. */
  lemma UnloadableFileDiffersIff(s: State, minConfs: nat)
    ensures Overlaid(s, [], minConfs) == s
       <==> minConfs == 0 || forall k | k in s :: Shown(s[k]) && AllMined(s[k].pending)
  {
    var none: seq<Entry> := [];
    assert LocalTxids(none) == {};
    var r := Retained(s, none, minConfs);
    AppendedNone(r, Seen(r), minConfs);
    forall k | k in s ensures Hushed(s[k], {}) == s[k] <==> AllMined(s[k].pending) {
      KeepAllIff(s[k].pending, {});
    }
    if minConfs > 0 && r == s {
      assert forall k | k in s :: k in r && r[k] == Hushed(s[k], {});
    }
  }

  lemma {:induction false} KeepShrinks(ops: seq<PendingOp>, txids: set<string>)
    ensures |KeepVisible(ops, txids)| <= |ops|
  {
    if ops != [] { KeepShrinks(ops[1..], txids); }
  }

  lemma {:induction false} KeepAllIff(ops: seq<PendingOp>, txids: set<string>)
    ensures KeepVisible(ops, txids) == ops <==> forall op | op in ops :: Visible(op, txids)
  {
    if ops != [] {
      var rest := KeepVisible(ops[1..], txids);
      KeepAllIff(ops[1..], txids);
      KeepShrinks(ops[1..], txids);
      assert forall op :: op in ops <==> op == ops[0] || op in ops[1..];
      if Visible(ops[0], txids) {
        assert ([ops[0]] + rest)[1..] == rest;
        assert [ops[0]] + ops[1..] == ops;
      } else {
        assert KeepVisible(ops, txids) == rest;
      }
    }
  }

  // ----- What a merged key shows, op by op -----

  lemma {:induction false} SynthMember(local: seq<Entry>, k: string, seen: set<string>, minConfs: nat, op: PendingOp)
    ensures op in Synth(local, k, seen, minConfs)
       <==> exists e :: e in local && e.key == k && Fresh(e, seen) && OpOf(e, minConfs) == Some(op)
  {
    if local != [] {
      SynthMember(local[1..], k, seen, minConfs, op);
      assert forall x :: x in local <==> x == local[0] || x in local[1..];
    }
  }

  lemma {:induction false} KeepMember(ops: seq<PendingOp>, txids: set<string>, op: PendingOp)
    ensures op in KeepVisible(ops, txids) <==> op in ops && Visible(op, txids)
  {
    if ops != [] {
      KeepMember(ops[1..], txids, op);
      assert op in ops <==> op == ops[0] || op in ops[1..];
    }
  }

  /** The op is mined, or was sent from here. */
  ghost predicate Trusted(op: PendingOp, local: seq<Entry>) {
    op.done >= 1 || exists e :: e in local && e.txid == op.txid
  }

  /** At depth zero every key stays; deeper, those with a confirmed value or a trusted SET. */
  ghost predicate KeyStays(s: State, local: seq<Entry>, minConfs: nat, k: string) {
    k in s && (minConfs == 0 || s[k].confirmed.Some?
               || exists op :: op in s[k].pending && op.Set? && Trusted(op, local))
  }

  ghost predicate OpStays(s: State, local: seq<Entry>, minConfs: nat, k: string, op: PendingOp) {
    KeyStays(s, local, minConfs, k) && op in s[k].pending && (minConfs == 0 || Trusted(op, local))
  }

  /** The op an entry of the file reads as. */
  predicate ReadsAs(e: Entry, minConfs: nat, op: PendingOp) {
    var required := if minConfs > 1 then minConfs else 1;
    || (e.op in {"SET", "SETL"} && op == Set(if e.value.Some? then e.value.value else "", 0, required, e.txid))
    || (e.op == "DEL" && op == Del(0, required, e.txid))
  }

  /** An entry of the file joins its key unless its transaction is shown already. */
  ghost predicate OpJoins(s: State, local: seq<Entry>, minConfs: nat, k: string, op: PendingOp) {
    && (exists e :: e in local && e.key == k && ReadsAs(e, minConfs, op))
    && (forall j, x | OpStays(s, local, minConfs, j, x) :: x.txid != op.txid)
  }

  lemma TrustedIff(op: PendingOp, local: seq<Entry>)
    ensures Trusted(op, local) <==> Visible(op, LocalTxids(local))
  {
  }

  lemma RetainedKeys(s: State, local: seq<Entry>, minConfs: nat, k: string)
    ensures k in Retained(s, local, minConfs) <==> KeyStays(s, local, minConfs, k)
  {
    var txids := LocalTxids(local);
    if minConfs > 0 && k in s {
      var kept := KeepVisible(s[k].pending, txids);
      forall op ensures op in kept <==> op in s[k].pending && Trusted(op, local) {
        KeepMember(s[k].pending, txids, op);
        TrustedIff(op, local);
      }
      if i :| 0 <= i < |kept| && kept[i].Set? { assert kept[i] in s[k].pending; }
      if op :| op in s[k].pending && op.Set? && Trusted(op, local) { assert op in kept; }
    }
  }

  lemma RetainedOps(s: State, local: seq<Entry>, minConfs: nat, k: string, op: PendingOp)
    ensures (k in Retained(s, local, minConfs) && op in Retained(s, local, minConfs)[k].pending)
       <==> OpStays(s, local, minConfs, k, op)
  {
    RetainedKeys(s, local, minConfs, k);
    if minConfs > 0 && k in s {
      KeepMember(s[k].pending, LocalTxids(local), op);
      TrustedIff(op, local);
    }
  }

  lemma SynthIsJoins(s: State, local: seq<Entry>, minConfs: nat, k: string, op: PendingOp)
    ensures op in Synth(local, k, Seen(Retained(s, local, minConfs)), minConfs)
       <==> OpJoins(s, local, minConfs, k, op)
  {
    var r := Retained(s, local, minConfs);
    forall j, x ensures OpStays(s, local, minConfs, j, x) <==> j in r && x in r[j].pending {
      RetainedOps(s, local, minConfs, j, x);
    }
    SynthMember(local, k, Seen(r), minConfs, op);
    assert forall e: Entry :: ReadsAs(e, minConfs, op) <==> OpOf(e, minConfs) == Some(op);
    assert forall e: Entry :: OpOf(e, minConfs) == Some(op) ==> IsData(e) && e.txid == op.txid;
  }

  /** What a read shows of a key: the ops that stay, then those that join. */
  lemma MergedShows(s: State, local: seq<Entry>, minConfs: nat, k: string, op: PendingOp)
    ensures var m := Overlaid(s, local, minConfs);
            && ((k in m && op in m[k].pending) <==>
                  OpStays(s, local, minConfs, k, op) || OpJoins(s, local, minConfs, k, op))
            && (k in m <==> KeyStays(s, local, minConfs, k) || exists x :: OpJoins(s, local, minConfs, k, x))
  {
    var r := Retained(s, local, minConfs);
    var mine := Synth(local, k, Seen(r), minConfs);
    RetainedKeys(s, local, minConfs, k);
    RetainedOps(s, local, minConfs, k, op);
    NoFreshNoSynth(local, k, Seen(r), minConfs);
    forall x ensures x in mine <==> OpJoins(s, local, minConfs, k, x) { SynthIsJoins(s, local, minConfs, k, x); }
    assert mine != [] ==> mine[0] in mine;
    PendingAt(r, local, Seen(r), minConfs, k);
  }
}
