/** Merging the same pending file twice: when it equals merging once.

    The set of visible transactions is computed once, before the first push, and
    a batch puts several entries under one transaction, so plain idempotence
    fails at depth one and above. */
module OverlayTwice {
  import opened Wrappers
  import opened Overlay

  /** A key the first merge shows only as a pending deletion of nothing: it has no
      retained state, and every fresh entry for it is a DEL. */
  predicate Tombstone(s: State, local: seq<Entry>, minConfs: nat, k: string) {
    var r := Retained(s, local, minConfs);
    && k !in r
    && forall e | e in local && Fresh(e, Seen(r)) && e.key == k :: e.op == "DEL"
  }

  /** One transaction deletes nothing under one key and is kept alive by another:
      checkable from the state and the file before merging. */
  predicate SplitBatch(s: State, local: seq<Entry>, minConfs: nat) {
    var seen := Seen(Retained(s, local, minConfs));
    exists d, e | d in local && e in local ::
      && Fresh(d, seen) && Fresh(e, seen) && d.txid == e.txid
      && Tombstone(s, local, minConfs, d.key) && !Tombstone(s, local, minConfs, e.key)
  }

  // ----- Facts about the synthesized ops -----

  /** More visible transactions drop exactly the entries that became visible. */
  lemma {:induction false} SynthSame(local: seq<Entry>, k: string, seen: set<string>, more: set<string>, minConfs: nat)
    requires seen <= more
    ensures |Synth(local, k, more, minConfs)| <= |Synth(local, k, seen, minConfs)|
    ensures Synth(local, k, more, minConfs) == Synth(local, k, seen, minConfs)
       <==> forall e | e in local && e.key == k && Fresh(e, seen) :: e.txid !in more
  {
    if local != [] {
      var a, b := Synth(local[1..], k, more, minConfs), Synth(local[1..], k, seen, minConfs);
      SynthSame(local[1..], k, seen, more, minConfs);
      var e := local[0];
      assert forall x :: x in local <==> x == e || x in local[1..];
      var x, y := Synth(local, k, more, minConfs), Synth(local, k, seen, minConfs);
      if e.key == k && Fresh(e, seen) {
        assert y[1..] == b && |y| == |b| + 1;
        if e.txid !in more { assert x[1..] == a; } else { assert x == a; }
      } else {
        assert x == a && y == b;
      }
    }
  }

  lemma SynthNone(local: seq<Entry>, k: string, seen: set<string>, minConfs: nat)
    requires forall e | e in local && e.key == k && IsData(e) :: e.txid in seen
    ensures Synth(local, k, seen, minConfs) == []
  {
    var ops := Synth(local, k, seen, minConfs);
    if ops != [] {
      SynthMember(local, k, seen, minConfs, ops[0]);
    }
  }

  lemma SynthHasSetIff(local: seq<Entry>, k: string, seen: set<string>, minConfs: nat)
    ensures HasSet(Synth(local, k, seen, minConfs))
       <==> exists e :: e in local && Fresh(e, seen) && e.key == k && e.op != "DEL"
  {
    var ops := Synth(local, k, seen, minConfs);
    if i :| 0 <= i < |ops| && ops[i].Set? {
      SynthMember(local, k, seen, minConfs, ops[i]);
    }
    if e :| e in local && Fresh(e, seen) && e.key == k && e.op != "DEL" {
      var op := OpOf(e, minConfs).value;
      SynthMember(local, k, seen, minConfs, op);
      var i :| 0 <= i < |ops| && ops[i] == op;
    }
  }

  // ----- The second pass, seen from the first -----

  lemma {:induction false} KeepOnlyVisible(ops: seq<PendingOp>, txids: set<string>)
    ensures forall op | op in KeepVisible(ops, txids) :: Visible(op, txids) && op in ops
    ensures KeepVisible(KeepVisible(ops, txids), txids) == KeepVisible(ops, txids)
  {
    if ops != [] {
      KeepOnlyVisible(ops[1..], txids);
      KeepAllIff(KeepVisible(ops, txids), txids);
    }
  }

  /** Everything a merge shows is visible to a second one. */
  lemma MergedVisible(s: State, local: seq<Entry>, minConfs: nat, k: string)
    requires minConfs >= 1 && k in Overlaid(s, local, minConfs)
    ensures Hushed(Overlaid(s, local, minConfs)[k], LocalTxids(local)) == Overlaid(s, local, minConfs)[k]
  {
    var r, txids := Retained(s, local, minConfs), LocalTxids(local);
    var seen := Seen(r);
    if k in r { KeepOnlyVisible(s[k].pending, txids); }
    forall op | op in Synth(local, k, seen, minConfs) ensures Visible(op, txids) {
      SynthMember(local, k, seen, minConfs, op);
    }
    var ops := At(r, k).pending + Synth(local, k, seen, minConfs);
    assert forall op | op in ops :: op in At(r, k).pending || op in Synth(local, k, seen, minConfs);
    KeepAllIff(ops, txids);
  }

  lemma HasSetAppend(a: seq<PendingOp>, b: seq<PendingOp>)
    ensures HasSet(a + b) <==> HasSet(a) || HasSet(b)
  {
    if i :| 0 <= i < |a| && a[i].Set? { assert (a + b)[i].Set?; }
    if i :| 0 <= i < |b| && b[i].Set? { assert (a + b)[|a| + i].Set?; }
    if i :| 0 <= i < |a + b| && (a + b)[i].Set? {
      assert if i < |a| then a[i].Set? else b[i - |a|].Set?;
    }
  }

  function Survivors(s: State, local: seq<Entry>, minConfs: nat): State {
    var m := Overlaid(s, local, minConfs);
    map k | k in m && !Tombstone(s, local, minConfs, k) :: m[k]
  }

  /** The second pass first drops the tombstones and nothing else. */
  lemma SecondRetains(s: State, local: seq<Entry>, minConfs: nat)
    requires minConfs >= 1
    ensures Retained(Overlaid(s, local, minConfs), local, minConfs) == Survivors(s, local, minConfs)
  {
    var m, r := Overlaid(s, local, minConfs), Retained(s, local, minConfs);
    var seen := Seen(r);
    forall k | k in m
      ensures Hushed(m[k], LocalTxids(local)) == m[k]
      ensures Shown(m[k]) <==> !Tombstone(s, local, minConfs, k)
    {
      MergedVisible(s, local, minConfs, k);
      SynthHasSetIff(local, k, seen, minConfs);
      HasSetAppend(At(r, k).pending, Synth(local, k, seen, minConfs));
    }
  }

  /** `e` is a fresh entry for a key that survives the second pass. */
  ghost predicate Survives(s: State, local: seq<Entry>, minConfs: nat, e: Entry) {
    && e in local && Fresh(e, Seen(Retained(s, local, minConfs)))
    && !Tombstone(s, local, minConfs, e.key)
  }

  function SecondSeen(s: State, local: seq<Entry>, minConfs: nat): set<string> {
    Seen(Survivors(s, local, minConfs))
  }

  lemma SeenBy(s: State, k: string, op: PendingOp)
    requires k in s && op in s[k].pending
    ensures op.txid in Seen(s)
  {
  }

  lemma SeenWhere(s: State, t: string) returns (k: string, op: PendingOp)
    requires t in Seen(s)
    ensures k in s && op in s[k].pending && op.txid == t
  {
    k, op :| k in s && op in s[k].pending && op.txid == t;
  }

  /** What one key shows after a merge. */
  lemma ShownAt(s: State, local: seq<Entry>, minConfs: nat, k: string)
    requires k in Overlaid(s, local, minConfs)
    ensures var r := Retained(s, local, minConfs);
            Overlaid(s, local, minConfs)[k].pending == At(r, k).pending + Synth(local, k, Seen(r), minConfs)
  {
  }

  lemma RetainedSurvives(s: State, local: seq<Entry>, minConfs: nat)
    ensures Seen(Retained(s, local, minConfs)) <= SecondSeen(s, local, minConfs)
  {
    var r := Retained(s, local, minConfs);
    forall t | t in Seen(r) ensures t in SecondSeen(s, local, minConfs) {
      var k, op := SeenWhere(r, t);
      ShownAt(s, local, minConfs, k);
      SeenBy(Survivors(s, local, minConfs), k, op);
    }
  }

  lemma PushedSurvives(s: State, local: seq<Entry>, minConfs: nat, e: Entry)
    requires Survives(s, local, minConfs, e)
    ensures e.txid in SecondSeen(s, local, minConfs)
  {
    var seen, op := Seen(Retained(s, local, minConfs)), OpOf(e, minConfs).value;
    SynthMember(local, e.key, seen, minConfs, op);
    assert e.key in Overlaid(s, local, minConfs);
    ShownAt(s, local, minConfs, e.key);
    SeenBy(Survivors(s, local, minConfs), e.key, op);
  }

  lemma SeenComesFrom(s: State, local: seq<Entry>, minConfs: nat, t: string)
    requires t in SecondSeen(s, local, minConfs)
    ensures t in Seen(Retained(s, local, minConfs))
            || exists e :: Survives(s, local, minConfs, e) && e.txid == t
  {
    var r := Retained(s, local, minConfs);
    var k, op := SeenWhere(Survivors(s, local, minConfs), t);
    ShownAt(s, local, minConfs, k);
    if op in Synth(local, k, Seen(r), minConfs) {
      SynthMember(local, k, Seen(r), minConfs, op);
      var e :| e in local && e.key == k && Fresh(e, Seen(r)) && OpOf(e, minConfs) == Some(op);
      assert Survives(s, local, minConfs, e);
    } else {
      SeenBy(r, k, op);
    }
  }

  /** `d` is fresh for `k`, and its transaction is kept visible elsewhere. */
  ghost predicate Straddles(s: State, local: seq<Entry>, minConfs: nat, k: string, d: Entry, e: Entry) {
    && d in local && Fresh(d, Seen(Retained(s, local, minConfs))) && d.key == k
    && Survives(s, local, minConfs, e) && d.txid == e.txid
  }

  ghost predicate SameAt(m: State, n: State, k: string) {
    (k in m <==> k in n) && (k in m ==> m[k] == n[k])
  }

  lemma EqualIffSameEverywhere(m: State, n: State)
    ensures m == n <==> forall k :: SameAt(m, n, k)
  {
    if forall k :: SameAt(m, n, k) {
      forall k ensures (k in m <==> k in n) && (k in m ==> m[k] == n[k]) {
        assert SameAt(m, n, k);
      }
    }
  }

  /** Appending nothing new leaves a key as it is. */
  lemma UnpushedSame(r: State, local: seq<Entry>, seen: set<string>, minConfs: nat, k: string)
    requires Synth(local, k, seen, minConfs) == []
    ensures SameAt(Appended(r, local, seen, minConfs), r, k)
  {
    NoFreshNoSynth(local, k, seen, minConfs);
    assert At(r, k).pending + [] == At(r, k).pending;
  }

  lemma SurvivorUntouched(s: State, local: seq<Entry>, minConfs: nat, k: string)
    requires minConfs >= 1 && !Tombstone(s, local, minConfs, k)
    ensures SameAt(Overlaid(s, local, minConfs), Overlaid(Overlaid(s, local, minConfs), local, minConfs), k)
  {
    var seen2 := SecondSeen(s, local, minConfs);
    SecondRetains(s, local, minConfs);
    RetainedSurvives(s, local, minConfs);
    forall e | e in local && e.key == k && IsData(e) ensures e.txid in seen2 {
      if Fresh(e, Seen(Retained(s, local, minConfs))) { PushedSurvives(s, local, minConfs, e); }
    }
    SynthNone(local, k, seen2, minConfs);
    UnpushedSame(Survivors(s, local, minConfs), local, seen2, minConfs, k);
  }

  /** What a key without retained state shows. */
  lemma PushedOnly(r: State, local: seq<Entry>, seen: set<string>, minConfs: nat, k: string)
    requires k !in r
    ensures var a := Appended(r, local, seen, minConfs);
            && (k in a <==> Synth(local, k, seen, minConfs) != [])
            && (k in a ==> a[k] == NOTHING.(pending := Synth(local, k, seen, minConfs)))
  {
    NoFreshNoSynth(local, k, seen, minConfs);
    BlankPush(local, k, seen, minConfs);
  }

  /** A tombstone comes back as it was unless one of its transactions became
      visible under a key that survives. */
  lemma TombstoneReturnsIff(s: State, local: seq<Entry>, minConfs: nat, k: string)
    requires minConfs >= 1 && Tombstone(s, local, minConfs, k)
    ensures SameAt(Overlaid(s, local, minConfs), Overlaid(Overlaid(s, local, minConfs), local, minConfs), k)
       <==> !exists d, e :: Straddles(s, local, minConfs, k, d, e)
  {
    var r := Retained(s, local, minConfs);
    var seen, seen2 := Seen(r), SecondSeen(s, local, minConfs);
    SecondRetains(s, local, minConfs);
    RetainedSurvives(s, local, minConfs);
    SynthSame(local, k, seen, seen2, minConfs);
    PushedOnly(r, local, seen, minConfs, k);
    PushedOnly(Survivors(s, local, minConfs), local, seen2, minConfs, k);
    if d, e :| Straddles(s, local, minConfs, k, d, e) {
      PushedSurvives(s, local, minConfs, e);
    }
    if d :| d in local && d.key == k && Fresh(d, seen) && d.txid in seen2 {
      SeenComesFrom(s, local, minConfs, d.txid);
      var e :| Survives(s, local, minConfs, e) && e.txid == d.txid;
      assert Straddles(s, local, minConfs, k, d, e);
    }
  }

  lemma BlankPush(local: seq<Entry>, k: string, seen: set<string>, minConfs: nat)
    ensures NOTHING.pending + Synth(local, k, seen, minConfs) == Synth(local, k, seen, minConfs)
  {
  }

  lemma AllSeenAtZero(s: State, local: seq<Entry>, e: Entry)
    requires e in local && IsData(e)
    ensures e.txid in Seen(Overlaid(s, local, 0))
  {
    var m := Overlaid(s, local, 0);
    if e.txid in Seen(s) {
      var k, op := SeenWhere(s, e.txid);
      ShownAt(s, local, 0, k);
      SeenBy(m, k, op);
    } else {
      SynthMember(local, e.key, Seen(s), 0, OpOf(e, 0).value);
      assert e.key in m;
      ShownAt(s, local, 0, e.key);
      SeenBy(m, e.key, OpOf(e, 0).value);
    }
  }

  /** At depth zero nothing is ever dropped, so the second merge finds every
      transaction visible. */
  lemma TwiceAtDepthZero(s: State, local: seq<Entry>)
    ensures Overlaid(Overlaid(s, local, 0), local, 0) == Overlaid(s, local, 0)
  {
    var m := Overlaid(s, local, 0);
    forall e | e in local && IsData(e) ensures e.txid in Seen(m) {
      AllSeenAtZero(s, local, e);
    }
    forall k ensures SameAt(Overlaid(m, local, 0), m, k) {
      SynthNone(local, k, Seen(m), 0);
      UnpushedSame(m, local, Seen(m), 0, k);
    }
    EqualIffSameEverywhere(Overlaid(m, local, 0), m);
  }

  /** Merging twice equals merging once exactly at depth zero, or when no batch
      is split between a tombstone and a key that survives. */
  lemma MergeTwiceIff(s: State, local: seq<Entry>, minConfs: nat)
    ensures Overlaid(Overlaid(s, local, minConfs), local, minConfs) == Overlaid(s, local, minConfs)
       <==> minConfs == 0 || !SplitBatch(s, local, minConfs)
  {
    if minConfs == 0 {
      TwiceAtDepthZero(s, local);
    } else {
      var m := Overlaid(s, local, minConfs);
      var n := Overlaid(m, local, minConfs);
      EqualIffSameEverywhere(m, n);
      forall k
        ensures SameAt(m, n, k) <==>
                !(Tombstone(s, local, minConfs, k) && exists d, e :: Straddles(s, local, minConfs, k, d, e))
      {
        if Tombstone(s, local, minConfs, k) {
          TombstoneReturnsIff(s, local, minConfs, k);
        } else {
          SurvivorUntouched(s, local, minConfs, k);
        }
      }
      SplitIffStraddles(s, local, minConfs);
    }
  }

  lemma SplitIffStraddles(s: State, local: seq<Entry>, minConfs: nat)
    ensures SplitBatch(s, local, minConfs)
       <==> exists k :: Tombstone(s, local, minConfs, k)
                        && exists d, e :: Straddles(s, local, minConfs, k, d, e)
  {
    var seen := Seen(Retained(s, local, minConfs));
    if SplitBatch(s, local, minConfs) {
      var d, e :| d in local && e in local && Fresh(d, seen) && Fresh(e, seen) && d.txid == e.txid
                  && Tombstone(s, local, minConfs, d.key) && !Tombstone(s, local, minConfs, e.key);
      assert Straddles(s, local, minConfs, d.key, d, e);
    }
  }

  /** In particular when no two data entries share a transaction. */
  lemma DistinctTxidsMergeTwice(s: State, local: seq<Entry>, minConfs: nat)
    requires forall i, j | 0 <= i < j < |local| && IsData(local[i]) && IsData(local[j]) ::
               local[i].txid != local[j].txid
    ensures Overlaid(Overlaid(s, local, minConfs), local, minConfs) == Overlaid(s, local, minConfs)
  {
    assert !SplitBatch(s, local, minConfs);
    MergeTwiceIff(s, local, minConfs);
  }

  lemma BatchFacts(put: Entry, del: Entry)
    requires put == Entry("t", "SET", "a", Some("1")) && del == Entry("t", "DEL", "b", None)
    ensures var s: State := map[];
            var local := [put, del];
            && Retained(s, local, 1) == s && Seen(s) == {}
            && put in local && del in local && Fresh(put, {}) && Fresh(del, {})
            && Tombstone(s, local, 1, "b") && !Tombstone(s, local, 1, "a") && "b" in FreshKeys(local, {})
  {
    var s: State := map[];
    assert Retained(s, [put, del], 1) == s && Seen(s) == {};
    assert del in [put, del];
  }

  /** A tombstone whose transactions all become visible is gone after the second merge. */
  lemma TombstoneLost(s: State, local: seq<Entry>, minConfs: nat, k: string)
    requires minConfs >= 1 && Tombstone(s, local, minConfs, k)
    requires k in FreshKeys(local, Seen(Retained(s, local, minConfs)))
    requires forall e | e in local && e.key == k && IsData(e) :: e.txid in SecondSeen(s, local, minConfs)
    ensures k in Overlaid(s, local, minConfs)
    ensures k !in Overlaid(Overlaid(s, local, minConfs), local, minConfs)
  {
    SecondRetains(s, local, minConfs);
    SynthNone(local, k, SecondSeen(s, local, minConfs), minConfs);
    PushedOnly(Survivors(s, local, minConfs), local, SecondSeen(s, local, minConfs), minConfs, k);
  }

  /** One batch that sets `a` and deletes the absent `b` is enough to show the
      hypothesis is needed: the second merge loses the pending deletion. */
  lemma BatchLosesItsTombstone()
    ensures var local := [Entry("t", "SET", "a", Some("1")), Entry("t", "DEL", "b", None)];
            && "b" in Overlaid(map[], local, 1)
            && "b" !in Overlaid(Overlaid(map[], local, 1), local, 1)
  {
    var put, del := Entry("t", "SET", "a", Some("1")), Entry("t", "DEL", "b", None);
    BatchFacts(put, del);
    PushedSurvives(map[], [put, del], 1, put);
    TombstoneLost(map[], [put, del], 1, "b");
  }
}
