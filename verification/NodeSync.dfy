/** Waiting for a node to catch up: what a successful sync certifies. */
module NodeSync {
  import opened Wrappers

  /** RPC_WALLET_NOT_FOUND in Bitcoin Core's dialect. */
  const UNKNOWN_WALLET: int := -18

  /** One reply of the sync barrier. `imported` is absent on nodes that predate it. */
  datatype Reply =
    | Refused(code: int)
    | State(importError: Option<string>, imported: Option<bool>, height: nat, tip: Option<nat>, synced: bool)

  /** One turn of the loop: the cancel flag as it was checked, then the reply. */
  datatype Turn = Turn(cancelled: bool, reply: Reply)

  datatype Outcome = Outcome(scanned: nat, tip: nat)

  datatype SyncError = Cancelled | Rpc(code: int) | ImportFailed(reason: string) | NotImported | LoadFailed

  /** The node vouches for this member at this height: its account is in the shard,
      the scan is at the tip and the memos are complete. */
  predicate Certifies(t: Turn, o: Outcome) {
    && !t.cancelled && t.reply.State? && t.reply.importError.None? && t.reply.imported != Some(false)
    && t.reply.synced && o.scanned == t.reply.height
    && (if t.reply.tip.Some? then o.tip == t.reply.tip.value else o.tip == o.scanned)
  }

  /** Why the loop would stop with an error at this turn. */
  predicate Fails(t: Turn, e: SyncError) {
    match e
    case Cancelled => t.cancelled
    case Rpc(code) => !t.cancelled && t.reply == Refused(code)
    case ImportFailed(reason) => !t.cancelled && t.reply.State? && t.reply.importError == Some(reason)
    case NotImported =>
      !t.cancelled && t.reply.State? && t.reply.importError.None? && t.reply.imported == Some(false)
    case LoadFailed => false
  }

  predicate Undecided(t: Turn) {
    && !t.cancelled && t.reply.State? && t.reply.importError.None?
    && t.reply.imported != Some(false) && !t.reply.synced
  }

  /** A turn is exactly one of: undecided, certifying one outcome, failing one way. */
  lemma TurnsAreExclusive(t: Turn, o: Outcome, p: Outcome, e: SyncError, f: SyncError)
    ensures !(Undecided(t) && (Certifies(t, o) || Fails(t, e))) && !(Certifies(t, o) && Fails(t, e))
    ensures Certifies(t, o) && Certifies(t, p) ==> o == p
    ensures Fails(t, e) && Fails(t, f) ==> e == f
    ensures Undecided(t) || (exists x :: Certifies(t, x)) || (exists x :: Fails(t, x))
  {
    if !Undecided(t) {
      if t.cancelled {
        assert Fails(t, Cancelled);
      } else if t.reply.Refused? {
        assert Fails(t, Rpc(t.reply.code));
      } else if t.reply.importError.Some? {
        assert Fails(t, ImportFailed(t.reply.importError.value));
      } else if t.reply.imported == Some(false) {
        assert Fails(t, NotImported);
      } else {
        assert Certifies(t, Outcome(t.reply.height, if t.reply.tip.Some? then t.reply.tip.value else t.reply.height));
      }
    }
  }

  /** `sync_wallet_once` on the turns it would see: `r` is absent if they all leave it
      waiting, and `n` is how many it consumed without deciding. */
  method SyncOnce(turns: seq<Turn>)
    returns (r: Option<Result<Outcome, SyncError>>, n: nat, progress: seq<(nat, Option<nat>)>)
    ensures n <= |turns| && forall k | 0 <= k < n :: Undecided(turns[k])
    ensures r.None? <==> n == |turns|
    ensures r.Some? && r.value.Ok? ==> Certifies(turns[n], r.value.value)
    ensures r.Some? && r.value.Err? ==> Fails(turns[n], r.value.error)
    ensures forall k | 0 <= k < n ::
              !turns[k].cancelled && turns[k].reply.State? && turns[k].reply.importError.None?
              && turns[k].reply.imported != Some(false) && !turns[k].reply.synced
    ensures r.Some? ==>
              var cancelled, reply := turns[n].cancelled, turns[n].reply;
              && (r.value == Err(Cancelled) <==> cancelled)
              && (!cancelled && reply.Refused? ==> r.value == Err(Rpc(reply.code)))
              && (!cancelled && reply.State? ==>
                    r.value == if reply.importError.Some? then Err(ImportFailed(reply.importError.value))
                               else if reply.imported == Some(false) then Err(NotImported)
                               else Ok(Outcome(reply.height,
                                               if reply.tip.Some? then reply.tip.value else reply.height)))
              && (r.value.Ok? ==> reply.synced)
    ensures |progress| == if r.Some? && r.value.Ok? then n + 1 else n
    ensures forall k | 0 <= k < |progress| ::
              k < |turns| && turns[k].reply.State? && progress[k] == (turns[k].reply.height, turns[k].reply.tip)
  {
    progress := [];
    n := 0;
    while n < |turns|
      invariant n <= |turns| && |progress| == n
      invariant forall k | 0 <= k < n :: Undecided(turns[k])
      invariant forall k | 0 <= k < n :: progress[k] == (turns[k].reply.height, turns[k].reply.tip)
    {
      if turns[n].cancelled { return Some(Err(Cancelled)), n, progress; }
      match turns[n].reply {
        case Refused(code) => return Some(Err(Rpc(code))), n, progress;
        case State(importError, imported, height, tip, synced) =>
          if importError.Some? { return Some(Err(ImportFailed(importError.value))), n, progress; }
          if imported == Some(false) { return Some(Err(NotImported)), n, progress; }
          progress := progress + [(height, tip)];
          if synced {
            return Some(Ok(Outcome(height, if tip.Some? then tip.value else height))), n, progress;
          }
      }
      n := n + 1;
    }
    return None, n, progress;
  }

  /** What this turn decides. */
  predicate Decides(t: Turn, r: Option<Result<Outcome, SyncError>>) {
    r.Some? && match r.value case Ok(o) => Certifies(t, o) case Err(e) => Fails(t, e)
  }

  /** The first turn that decides, or the end of them. */
  predicate FirstDeciding(turns: seq<Turn>, n: nat) {
    n <= |turns| && (forall k | 0 <= k < n :: Undecided(turns[k])) && (n < |turns| ==> !Undecided(turns[n]))
  }

  /** `sync_wallet`: a shared-scan node that does not know the member is asked once
      to load it, and what the turns after that decide stands. Whatever succeeds was
      certified by the node. */
  method SyncWallet(isFleet: bool, turns: seq<Turn>, loads: bool, retry: seq<Turn>)
    returns (r: Option<Result<Outcome, SyncError>>, reloaded: bool, ghost n: nat, ghost m: nat)
    ensures FirstDeciding(turns, n) && (reloaded ==> FirstDeciding(retry, m))
    ensures reloaded <==> isFleet && loads && n < |turns| && !turns[n].cancelled && turns[n].reply == Refused(-18)
    ensures reloaded ==> if m == |retry| then r.None? else Decides(retry[m], r)
    ensures r == Some(Err(LoadFailed)) <==>
              isFleet && !loads && n < |turns| && !turns[n].cancelled && turns[n].reply == Refused(-18)
    ensures !reloaded && r != Some(Err(LoadFailed)) ==> if n == |turns| then r.None? else Decides(turns[n], r)
    ensures r.Some? && r.value.Ok? ==>
              exists t :: t in (if reloaded then retry else turns) && Certifies(t, r.value.value)
  {
    var waited: nat, progress;
    r, waited, progress := SyncOnce(turns);
    n, m, reloaded := waited, 0, false;
    assert n < |turns| ==> turns[n] in turns;
    if r == Some(Err(Rpc(UNKNOWN_WALLET))) && isFleet {
      if !loads { return Some(Err(LoadFailed)), false, n, m; }
      r, waited, progress := SyncOnce(retry);
      m, reloaded := waited, true;
      assert m < |retry| ==> retry[m] in retry;
    }
  }
}
