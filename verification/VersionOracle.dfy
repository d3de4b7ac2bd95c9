/** The version oracle pays for a write only when the value it reads differs from
    the one it wants, and it reads its own unconfirmed writes. */
module VersionOracle {
  import opened Wrappers
  import opened Overlay
  import opened OverlayTwice
  import Select
  import Semver

  /** What the oracle reads from: the replayed state and the pending file. */
  datatype World = World(chain: State, local: seq<Entry>)

  function EndOf(ops: seq<PendingOp>, confirmed: Option<string>): Option<string> {
    if ops == [] then confirmed
    else match ops[|ops| - 1]
      case Set(value, _, _, _) => Some(value)
      case Del(_, _, _) => None
  }

  /** `effective_value`, read at mempool depth: the last pending op wins. */
  function EffectiveValue(w: World, key: string): Option<string> {
    var m := Overlaid(w.chain, w.local, 0);
    if key in m then EndOf(m[key].pending, m[key].confirmed) else None
  }

  // ----- Read your writes -----

  lemma RetainedAtZero(s: State, local: seq<Entry>)
    ensures Overlaid(s, local, 0) == Appended(s, local, Seen(s), 0)
  {
  }

  lemma EndOfOverlaid(w: World, key: string)
    ensures EffectiveValue(w, key)
         == EndOf(At(w.chain, key).pending + Synth(w.local, key, Seen(w.chain), 0), At(w.chain, key).confirmed)
  {
    RetainedAtZero(w.chain, w.local);
    PendingAt(w.chain, w.local, Seen(w.chain), 0, key);
  }

  /** What is read, spelled out: the last local data entry whose transaction the
      state does not show, or failing that the state's own answer. */
  lemma EffectiveIs(w: World, key: string)
    ensures var mine := Synth(w.local, key, Seen(w.chain), 0);
            EffectiveValue(w, key)
            == if mine != [] then EndOf(mine, None)
               else EndOf(At(w.chain, key).pending, At(w.chain, key).confirmed)
    ensures (forall e | e in w.local && e.key == key && e.op in {"SET", "SETL", "DEL"} :: e.txid in Seen(w.chain)) ==>
              var ks := At(w.chain, key);
              EffectiveValue(w, key)
              == if ks.pending == [] then ks.confirmed
                 else match ks.pending[|ks.pending| - 1]
                   case Set(value, _, _, _) => Some(value)
                   case Del(_, _, _) => None
  {
    if forall e | e in w.local && e.key == key && e.op in {"SET", "SETL", "DEL"} :: e.txid in Seen(w.chain) {
      SynthNone(w.local, key, Seen(w.chain), 0);
    }
    EndOfOverlaid(w, key);
    EndOfAppend(At(w.chain, key).pending, Synth(w.local, key, Seen(w.chain), 0), At(w.chain, key).confirmed);
  }

  lemma EndOfAppend(p: seq<PendingOp>, mine: seq<PendingOp>, confirmed: Option<string>)
    ensures EndOf(p + mine, confirmed) == if mine != [] then EndOf(mine, None) else EndOf(p, confirmed)
  {
    if mine == [] { assert p + mine == p; }
  }

  /** A recorded write under a transaction the wallet does not show yet is what
      the next read returns: its value for a SET, absence for a DEL. Other keys
      read as before. */
  lemma ReadYourWrites(w: World, e: Entry, key: string)
    requires Fresh(e, Seen(w.chain))
    ensures EffectiveValue(w.(local := w.local + [e]), key)
         == if key != e.key then EffectiveValue(w, key)
            else if e.op == "DEL" then None
            else Some(if e.value.Some? then e.value.value else "")
  {
    EffectiveIs(w, key);
    EffectiveIs(w.(local := w.local + [e]), key);
    SynthAppend(w.local, [e], key, Seen(w.chain), 0);
    SynthOne(e, key, Seen(w.chain), 0);
    if key != e.key {
      assert Synth(w.local, key, Seen(w.chain), 0) + [] == Synth(w.local, key, Seen(w.chain), 0);
    }
  }

  // ----- The wallet catching up -----

  datatype Write = Write(value: Option<string>, txid: string)

  function Strip(ops: seq<PendingOp>): (r: seq<Write>)
    ensures |r| == |ops|
    ensures forall i | 0 <= i < |ops| :: r[i].txid == ops[i].txid
  {
    seq(|ops|, i requires 0 <= i < |ops| => Write(EndOf([ops[i]], None), ops[i].txid))
  }

  function Displayed(s: State, key: string): seq<Write> {
    Strip(At(s, key).pending)
  }

  function Recorded(local: seq<Entry>, key: string, seen: set<string>): seq<Write> {
    Strip(Synth(local, key, seen, 0))
  }

  /** A key's unconfirmed writes in order: shown ones, then local ones. */
  function Queue(w: World, key: string): seq<Write> {
    Displayed(w.chain, key) + Recorded(w.local, key, Seen(w.chain))
  }

  function LastOr(q: seq<Write>, confirmed: Option<string>): Option<string> {
    if q == [] then confirmed else q[|q| - 1].value
  }

  lemma StripEnd(a: seq<PendingOp>, b: seq<PendingOp>, confirmed: Option<string>)
    ensures LastOr(Strip(a) + Strip(b), confirmed) == if b != [] then EndOf(b, None) else EndOf(a, confirmed)
  {
    if b == [] { assert Strip(a) + Strip(b) == Strip(a); }
  }

  lemma EffectiveIsQueueEnd(w: World, key: string)
    ensures EffectiveValue(w, key) == LastOr(Queue(w, key), At(w.chain, key).confirmed)
  {
    EffectiveIs(w, key);
    StripEnd(At(w.chain, key).pending, Synth(w.local, key, Seen(w.chain), 0), At(w.chain, key).confirmed);
  }

  function Mine(local: seq<Entry>, t: string): seq<Entry> {
    if local == [] then [] else (if local[0].txid == t then [local[0]] else []) + Mine(local[1..], t)
  }

  function Rest(local: seq<Entry>, t: string): seq<Entry> {
    if local == [] then [] else (if local[0].txid == t then [] else [local[0]]) + Rest(local[1..], t)
  }

  function Without(q: seq<Write>, t: string): seq<Write> {
    if q == [] then [] else (if q[0].txid == t then [] else [q[0]]) + Without(q[1..], t)
  }

  /** No unseen data entry of another transaction precedes one of `t` on its key. */
  ghost predicate FirstInLine(local: seq<Entry>, seen: set<string>, t: string) {
    forall i, j | 0 <= i < j < |local| ::
      (&& Fresh(local[i], seen) && Fresh(local[j], seen)
       && local[i].key == local[j].key && local[j].txid == t) ==> local[i].txid == t
  }

  /** Every key's shown writes grow by what `mine` wrote to it. */
  ghost predicate Joined(s: State, mine: seq<Entry>, r: State) {
    forall k ::
      At(r, k).confirmed == At(s, k).confirmed && Displayed(r, k) == Displayed(s, k) + Recorded(mine, k, {})
  }

  /** The wallet starts showing a local transaction: its writes join the shown
      ones of their keys. */
  ghost predicate Indexed(w: World, t: string, v: World) {
    && v.local == w.local && t !in Seen(w.chain) && FirstInLine(w.local, Seen(w.chain), t)
    && Joined(w.chain, Mine(w.local, t), v.chain)
  }

  /** The writes of `t` lead the queue. */
  ghost predicate Leads(q: seq<Write>, t: string) {
    forall i, j | 0 <= i < j < |q| && q[j].txid == t :: q[i].txid == t
  }

  /** A transaction confirms and its pending entries are pruned, in one sync. */
  ghost predicate Settled(w: World, t: string, v: World) {
    && v.local == Rest(w.local, t)
    && forall k ::
         && Leads(Queue(w, k), t)
         && Displayed(v.chain, k) == Without(Displayed(w.chain, k), t)
         && At(v.chain, k).confirmed == ConfirmedAfter(Queue(w, k), t, At(w.chain, k).confirmed)
  }

  /** The value of the last write of `t` in the queue, if it has one. */
  function ConfirmedAfter(q: seq<Write>, t: string, confirmed: Option<string>): Option<string> {
    if q == [] then confirmed
    else if q[|q| - 1].txid == t then q[|q| - 1].value
    else ConfirmedAfter(q[..|q| - 1], t, confirmed)
  }

  /** `t` is seen exactly when some key shows a write of it. */
  lemma SeenIff(s: State, t: string)
    ensures t in Seen(s) <==> exists k, i :: 0 <= i < |Displayed(s, k)| && Displayed(s, k)[i].txid == t
  {
    if t in Seen(s) {
      var k, op := SeenWhere(s, t);
      var i :| 0 <= i < |s[k].pending| && s[k].pending[i] == op;
      assert Displayed(s, k)[i].txid == t;
    }
    if k, i :| 0 <= i < |Displayed(s, k)| && Displayed(s, k)[i].txid == t {
      SeenBy(s, k, s[k].pending[i]);
    }
  }

  lemma StripAppend(a: seq<PendingOp>, b: seq<PendingOp>)
    ensures Strip(a + b) == Strip(a) + Strip(b)
  {
  }

  lemma {:induction false} MineMember(local: seq<Entry>, t: string, e: Entry)
    ensures e in Mine(local, t) <==> e in local && e.txid == t
    ensures e in Rest(local, t) <==> e in local && e.txid != t
  {
    if local != [] {
      MineMember(local[1..], t, e);
      assert forall x :: x in local <==> x == local[0] || x in local[1..];
    }
  }

  lemma RecordedMember(local: seq<Entry>, k: string, seen: set<string>, i: nat) returns (e: Entry)
    requires i < |Recorded(local, k, seen)|
    ensures e in local && IsData(e) && e.txid == Recorded(local, k, seen)[i].txid && e.txid !in seen
  {
    var op := Synth(local, k, seen, 0)[i];
    SynthMember(local, k, seen, 0, op);
    e :| e in local && e.key == k && Fresh(e, seen) && OpOf(e, 0) == Some(op);
  }

  lemma RecordedHas(local: seq<Entry>, e: Entry) returns (i: nat)
    requires e in local && IsData(e)
    ensures i < |Recorded(local, e.key, {})| && Recorded(local, e.key, {})[i].txid == e.txid
  {
    var op := OpOf(e, 0).value;
    SynthMember(local, e.key, {}, 0, op);
    i :| 0 <= i < |Synth(local, e.key, {}, 0)| && Synth(local, e.key, {}, 0)[i] == op;
  }

  lemma JoinedKeepsSeen(s: State, mine: seq<Entry>, r: State, u: string)
    requires Joined(s, mine, r) && u in Seen(s)
    ensures u in Seen(r)
  {
    SeenIff(s, u);
    SeenIff(r, u);
    var k, i :| 0 <= i < |Displayed(s, k)| && Displayed(s, k)[i].txid == u;
    assert Displayed(r, k)[i].txid == u;
  }

  lemma JoinedShows(s: State, mine: seq<Entry>, r: State, e: Entry)
    requires Joined(s, mine, r) && e in mine && IsData(e)
    ensures e.txid in Seen(r)
  {
    SeenIff(r, e.txid);
    var i := RecordedHas(mine, e);
    assert Displayed(r, e.key)[|Displayed(s, e.key)| + i].txid == e.txid;
  }

  /** A write on display after joining was on display or was joined. */
  lemma JoinedComesFrom(s: State, mine: seq<Entry>, r: State, k: string, i: nat)
    requires Joined(s, mine, r) && i < |Displayed(r, k)|
    ensures || (i < |Displayed(s, k)| && Displayed(s, k)[i] == Displayed(r, k)[i])
            || exists e :: e in mine && e.txid == Displayed(r, k)[i].txid
  {
    var n := |Displayed(s, k)|;
    if n <= i { var e := RecordedMember(mine, k, {}, i - n); }
  }

  lemma JoinedSeesNoMore(s: State, mine: seq<Entry>, r: State, u: string)
    requires Joined(s, mine, r) && u in Seen(r)
    ensures u in Seen(s) || exists e :: e in mine && e.txid == u
  {
    SeenIff(s, u);
    SeenIff(r, u);
    var k, i :| 0 <= i < |Displayed(r, k)| && Displayed(r, k)[i].txid == u;
    JoinedComesFrom(s, mine, r, k, i);
  }

  /** For what is recorded locally, becoming visible adds `t` to the seen transactions. */
  lemma IndexedSees(w: World, t: string, v: World, e: Entry)
    requires Indexed(w, t, v) && e in w.local && IsData(e)
    ensures e.txid in Seen(v.chain) <==> e.txid in Seen(w.chain) + {t}
  {
    var mine := Mine(w.local, t);
    if e.txid in Seen(w.chain) {
      JoinedKeepsSeen(w.chain, mine, v.chain, e.txid);
    } else if e.txid == t {
      MineMember(w.local, t, e);
      JoinedShows(w.chain, mine, v.chain, e);
    } else if e.txid in Seen(v.chain) {
      JoinedSeesNoMore(w.chain, mine, v.chain, e.txid);
      var x :| x in mine && x.txid == e.txid;
      MineMember(w.local, t, x);
    }
  }

  lemma {:induction false} SynthNoMine(local: seq<Entry>, k: string, seen: set<string>, t: string)
    requires forall e | e in local && e.key == k && Fresh(e, seen) :: e.txid != t
    requires t !in seen
    ensures Synth(Mine(local, t), k, {}, 0) == []
  {
    if local != [] {
      SynthNoMine(local[1..], k, seen, t);
      var tail := Mine(local[1..], t);
      assert local[0].txid == t ==> Mine(local, t)[1..] == tail;
      assert local[0].txid != t ==> Mine(local, t) == tail;
    }
  }

  lemma FirstInLineTail(local: seq<Entry>, seen: set<string>, t: string)
    requires local != [] && FirstInLine(local, seen, t)
    ensures FirstInLine(local[1..], seen, t)
    ensures Fresh(local[0], seen) && local[0].txid != t ==>
              forall e | e in local[1..] && e.key == local[0].key && Fresh(e, seen) :: e.txid != t
  {
    var tail := local[1..];
    assert forall j | 0 <= j < |tail| :: tail[j] == local[j + 1];
    if Fresh(local[0], seen) && local[0].txid != t {
      forall e | e in tail && e.key == local[0].key && Fresh(e, seen) ensures e.txid != t {
        var j :| 0 <= j < |tail| && tail[j] == e;
        assert local[j + 1] == e;
      }
    }
  }

  lemma SynthStep(e: Entry, tail: seq<Entry>, k: string, seen: set<string>)
    ensures Synth([e] + tail, k, seen, 0)
         == if e.key == k && Fresh(e, seen) then [OpOf(e, 0).value] + Synth(tail, k, seen, 0)
            else Synth(tail, k, seen, 0)
  {
    SynthAppend([e], tail, k, seen, 0);
    SynthOne(e, k, seen, 0);
    assert [] + Synth(tail, k, seen, 0) == Synth(tail, k, seen, 0);
  }

  lemma MineStep(e: Entry, tail: seq<Entry>, t: string)
    ensures Mine([e] + tail, t) == if e.txid == t then [e] + Mine(tail, t) else Mine(tail, t)
  {
    assert ([e] + tail)[1..] == tail;
  }

  /** The entry in front belongs to `t`. */
  lemma SplitMine(e: Entry, tail: seq<Entry>, k: string, seen: set<string>, t: string)
    requires t !in seen && e.txid == t
    requires Synth(tail, k, seen, 0) == Synth(Mine(tail, t), k, {}, 0) + Synth(tail, k, seen + {t}, 0)
    ensures Synth([e] + tail, k, seen, 0)
         == Synth(Mine([e] + tail, t), k, {}, 0) + Synth([e] + tail, k, seen + {t}, 0)
  {
    SynthStep(e, tail, k, seen);
    SynthStep(e, tail, k, seen + {t});
    MineStep(e, tail, t);
    SynthStep(e, Mine(tail, t), k, {});
    if e.key == k && IsData(e) {
      Regroup([OpOf(e, 0).value], Synth(Mine(tail, t), k, {}, 0), Synth(tail, k, seen + {t}, 0));
    }
  }

  lemma Regroup<T>(a: seq<T>, b: seq<T>, c: seq<T>)
    ensures a + (b + c) == (a + b) + c
  {
  }

  /** It belongs to another transaction. */
  lemma SplitOther(e: Entry, tail: seq<Entry>, k: string, seen: set<string>, t: string)
    requires t !in seen && e.txid != t
    requires Synth(tail, k, seen, 0) == Synth(Mine(tail, t), k, {}, 0) + Synth(tail, k, seen + {t}, 0)
    requires e.key == k && Fresh(e, seen) ==> Synth(Mine(tail, t), k, {}, 0) == []
    ensures Synth([e] + tail, k, seen, 0)
         == Synth(Mine([e] + tail, t), k, {}, 0) + Synth([e] + tail, k, seen + {t}, 0)
  {
    SynthStep(e, tail, k, seen);
    SynthStep(e, tail, k, seen + {t});
    MineStep(e, tail, t);
  }

  /** With `t` first in line, the unseen ops are those of `t`, then the others. */
  lemma {:induction false} SynthSplits(local: seq<Entry>, k: string, seen: set<string>, t: string)
    requires t !in seen && FirstInLine(local, seen, t)
    ensures Synth(local, k, seen, 0) == Synth(Mine(local, t), k, {}, 0) + Synth(local, k, seen + {t}, 0)
  {
    if local != [] {
      var e, tail := local[0], local[1..];
      assert local == [e] + tail;
      FirstInLineTail(local, seen, t);
      SynthSplits(tail, k, seen, t);
      if e.txid == t {
        SplitMine(e, tail, k, seen, t);
      } else {
        if e.key == k && Fresh(e, seen) { SynthNoMine(tail, k, seen, t); }
        SplitOther(e, tail, k, seen, t);
      }
    }
  }

  lemma {:induction false} SynthSeenAgree(local: seq<Entry>, k: string, a: set<string>, b: set<string>)
    requires forall e | e in local && IsData(e) :: e.txid in a <==> e.txid in b
    ensures Synth(local, k, a, 0) == Synth(local, k, b, 0)
  {
    if local != [] { SynthSeenAgree(local[1..], k, a, b); }
  }

  lemma IndexedRecorded(w: World, t: string, v: World, k: string)
    requires Indexed(w, t, v)
    ensures Recorded(w.local, k, Seen(v.chain)) == Recorded(w.local, k, Seen(w.chain) + {t})
  {
    forall e | e in w.local && IsData(e) ensures e.txid in Seen(w.chain) + {t} <==> e.txid in Seen(v.chain) {
      IndexedSees(w, t, v, e);
    }
    SynthSeenAgree(w.local, k, Seen(w.chain) + {t}, Seen(v.chain));
  }

  lemma RecordedSplits(local: seq<Entry>, k: string, seen: set<string>, t: string)
    requires t !in seen && FirstInLine(local, seen, t)
    ensures Recorded(local, k, seen) == Recorded(Mine(local, t), k, {}) + Recorded(local, k, seen + {t})
  {
    SynthSplits(local, k, seen, t);
    StripAppend(Synth(Mine(local, t), k, {}, 0), Synth(local, k, seen + {t}, 0));
  }

  /** Being indexed moves writes between the two halves of a queue, not along it. */
  lemma IndexedKeepsQueue(w: World, t: string, v: World, k: string)
    requires Indexed(w, t, v)
    ensures Queue(v, k) == Queue(w, k)
  {
    IndexedRecorded(w, t, v, k);
    RecordedSplits(w.local, k, Seen(w.chain), t);
  }

  // ----- Settling -----

  lemma {:induction false} WithoutMember(q: seq<Write>, t: string, x: Write)
    ensures x in Without(q, t) <==> x in q && x.txid != t
  {
    if q != [] {
      WithoutMember(q[1..], t, x);
      assert forall y :: y in q <==> y == q[0] || y in q[1..];
    }
  }

  lemma {:induction false} WithoutAppend(a: seq<Write>, b: seq<Write>, t: string)
    ensures Without(a + b, t) == Without(a, t) + Without(b, t)
  {
    if a == [] {
      assert a + b == b;
    } else {
      assert (a + b)[1..] == a[1..] + b;
      WithoutAppend(a[1..], b, t);
    }
  }

  lemma SettledSees(w: World, t: string, v: World, u: string)
    requires forall k :: Displayed(v.chain, k) == Without(Displayed(w.chain, k), t)
    ensures u in Seen(v.chain) <==> u in Seen(w.chain) && u != t
  {
    SeenIff(w.chain, u);
    SeenIff(v.chain, u);
    if u in Seen(w.chain) && u != t {
      var k, i :| 0 <= i < |Displayed(w.chain, k)| && Displayed(w.chain, k)[i].txid == u;
      WithoutMember(Displayed(w.chain, k), t, Displayed(w.chain, k)[i]);
      var j :| 0 <= j < |Displayed(v.chain, k)| && Displayed(v.chain, k)[j] == Displayed(w.chain, k)[i];
    }
    if u in Seen(v.chain) {
      var k, i :| 0 <= i < |Displayed(v.chain, k)| && Displayed(v.chain, k)[i].txid == u;
      WithoutMember(Displayed(w.chain, k), t, Displayed(v.chain, k)[i]);
      var j :| 0 <= j < |Displayed(w.chain, k)| && Displayed(w.chain, k)[j] == Displayed(v.chain, k)[i];
    }
  }

  /** One entry in front, with what it adds on both sides. */
  lemma RestStep(local: seq<Entry>, t: string)
    requires local != []
    ensures Rest(local, t) == if local[0].txid == t then Rest(local[1..], t) else [local[0]] + Rest(local[1..], t)
  {
  }

  lemma RecordedStep(e: Entry, tail: seq<Entry>, k: string, seen: set<string>)
    ensures Recorded([e] + tail, k, seen)
         == if e.key == k && Fresh(e, seen) then Strip([OpOf(e, 0).value]) + Recorded(tail, k, seen)
            else Recorded(tail, k, seen)
  {
    SynthStep(e, tail, k, seen);
    if e.key == k && Fresh(e, seen) { StripAppend([OpOf(e, 0).value], Synth(tail, k, seen, 0)); }
  }

  /** Pruning `t` from the file removes exactly its synthesized writes. */
  lemma {:induction false} SynthRest(local: seq<Entry>, k: string, a: set<string>, b: set<string>, t: string)
    requires forall u :: u in b <==> u in a && u != t
    ensures Recorded(Rest(local, t), k, b) == Without(Recorded(local, k, a), t)
  {
    if local != [] {
      var e, tail := local[0], local[1..];
      assert local == [e] + tail;
      SynthRest(tail, k, a, b, t);
      RestStep(local, t);
      RecordedStep(e, tail, k, a);
      RecordedStep(e, Rest(tail, t), k, b);
      if e.key == k && Fresh(e, a) {
        var head := Strip([OpOf(e, 0).value]);
        WithoutAppend(head, Recorded(tail, k, a), t);
        assert head[1..] == [];
        assert Without(head, t) == if e.txid == t then [] else head;
      }
    }
  }

  lemma SettledQueue(w: World, t: string, v: World, k: string)
    requires v.local == Rest(w.local, t)
    requires forall x :: Displayed(v.chain, x) == Without(Displayed(w.chain, x), t)
    ensures Queue(v, k) == Without(Queue(w, k), t)
  {
    forall u { SettledSees(w, t, v, u); }
    SynthRest(w.local, k, Seen(w.chain), Seen(v.chain), t);
    WithoutAppend(Displayed(w.chain, k), Recorded(w.local, k, Seen(w.chain)), t);
  }

  lemma {:induction false} AllRetired(q: seq<Write>, t: string)
    requires forall i | 0 <= i < |q| :: q[i].txid == t
    ensures Without(q, t) == []
  {
    if q != [] { AllRetired(q[1..], t); }
  }

  /** When the writes of `t` lead, retiring them keeps the end of the queue. */
  lemma {:induction false} RetireKeepsEnd(q: seq<Write>, t: string, confirmed: Option<string>)
    requires Leads(q, t)
    ensures LastOr(Without(q, t), ConfirmedAfter(q, t, confirmed)) == LastOr(q, confirmed)
  {
    if q != [] {
      var n := |q| - 1;
      var last := q[n];
      assert q == q[..n] + [last];
      WithoutAppend(q[..n], [last], t);
      if last.txid == t {
        AllRetired(q, t);
      } else {
        assert [last][1..] == [];
        assert Without([last], t) == [last];
      }
    }
  }

  /** Indexing, mining and pruning never change what any key reads as. */
  lemma CatchingUpIsInvisible(w: World, t: string, v: World, key: string)
    requires Indexed(w, t, v) || Settled(w, t, v)
    ensures EffectiveValue(v, key) == EffectiveValue(w, key)
  {
    EffectiveIsQueueEnd(w, key);
    EffectiveIsQueueEnd(v, key);
    if Indexed(w, t, v) {
      IndexedKeepsQueue(w, t, v, key);
      assert At(v.chain, key).confirmed == At(w.chain, key).confirmed;
    } else {
      SettledQueue(w, t, v, key);
      RetireKeepsEnd(Queue(w, key), t, At(w.chain, key).confirmed);
    }
  }

  /** Two entries of a key, the first unseen and the second seen: the first is read. */
  lemma SeenBehindUnseen(chain: State, first: Entry, second: Entry)
    requires Fresh(first, Seen(chain)) && second.txid in Seen(chain)
    ensures EffectiveValue(World(chain, [first, second]), first.key) == EndOf([OpOf(first, 0).value], None)
  {
    EffectiveIs(World(chain, [first, second]), first.key);
    SynthAppend([first], [second], first.key, Seen(chain), 0);
    SynthOne(first, first.key, Seen(chain), 0);
    SynthOne(second, first.key, Seen(chain), 0);
    assert [first] + [second] == [first, second];
  }

  /** Pruning has to come with confirming: a confirmed transaction still in the
      file, with a later write already shown, reads as the stale value. */
  lemma UnprunedEntryReadsStale()
    ensures var first, second := Entry("t1", "SET", "k", Some("old")), Entry("t2", "SET", "k", Some("new"));
            var chain: State := map["k" := KeyState(Some("old"), [Set("new", 0, 1, "t2")], None, None)];
            && EffectiveValue(World(chain, [first, second]), "k") == Some("old")
            && EffectiveValue(World(chain, []), "k") == Some("new")
  {
    var first, second := Entry("t1", "SET", "k", Some("old")), Entry("t2", "SET", "k", Some("new"));
    var chain: State := map["k" := KeyState(Some("old"), [Set("new", 0, 1, "t2")], None, None)];
    SeenBy(chain, "k", chain["k"].pending[0]);
    assert "t1" !in Seen(chain);
    SeenBehindUnseen(chain, first, second);
    EffectiveIs(World(chain, []), "k");
  }

  // ----- Writes that are lost -----

  /** The entries of a transaction are an hour old: the pending file reads without them. */
  ghost predicate Stale(w: World, t: string, v: World) {
    v.chain == w.chain && v.local == Rest(w.local, t)
  }

  /** An unmined transaction is past its expiry height: the state stops showing it. */
  ghost predicate Expired(w: World, t: string, v: World) {
    && v.local == w.local
    && forall k ::
         && Displayed(v.chain, k) == Without(Displayed(w.chain, k), t)
         && At(v.chain, k).confirmed == At(w.chain, k).confirmed
  }

  /** Both, in either order: the transaction is nowhere any more. */
  ghost predicate Lapsed(w: World, t: string, v: World) {
    && v.local == Rest(w.local, t)
    && forall k ::
         && Displayed(v.chain, k) == Without(Displayed(w.chain, k), t)
         && At(v.chain, k).confirmed == At(w.chain, k).confirmed
  }

  lemma LapseIsBoth(w: World, t: string, x: World, v: World)
    requires (Stale(w, t, x) && Expired(x, t, v)) || (Expired(w, t, x) && Stale(x, t, v))
    ensures Lapsed(w, t, v)
  {
  }

  lemma {:induction false} WithoutNone(q: seq<Write>, t: string)
    requires forall i | 0 <= i < |q| :: q[i].txid != t
    ensures Without(q, t) == q
  {
    if q != [] {
      WithoutNone(q[1..], t);
      assert [q[0]] + q[1..] == q;
    }
  }

  /** Recorded writes of a transaction that is seen are not in the queue anyway. */
  lemma {:induction false} RecordedRest(local: seq<Entry>, k: string, seen: set<string>, t: string)
    ensures t in seen ==> Recorded(Rest(local, t), k, seen) == Recorded(local, k, seen)
    ensures t !in seen ==> Recorded(Rest(local, t), k, seen) == Without(Recorded(local, k, seen), t)
  {
    if t !in seen {
      SynthRest(local, k, seen, seen, t);
    } else {
      SynthRestSeen(local, k, seen, t);
    }
  }

  lemma {:induction false} SynthRestSeen(local: seq<Entry>, k: string, seen: set<string>, t: string)
    requires t in seen
    ensures Synth(Rest(local, t), k, seen, 0) == Synth(local, k, seen, 0)
  {
    if local != [] {
      SynthRestSeen(local[1..], k, seen, t);
      assert local[0].txid != t ==> Rest(local, t)[1..] == Rest(local[1..], t);
      assert local[0].txid == t ==> Rest(local, t) == Rest(local[1..], t);
    }
  }

  lemma UnseenNotDisplayed(s: State, t: string, k: string)
    requires t !in Seen(s)
    ensures forall i | 0 <= i < |Displayed(s, k)| :: Displayed(s, k)[i].txid != t
  {
    SeenIff(s, t);
  }

  /** A stale record takes its writes out of the queues, unless they are shown. */
  lemma StaleQueue(w: World, t: string, v: World, k: string)
    requires Stale(w, t, v)
    ensures Queue(v, k) == if t in Seen(w.chain) then Queue(w, k) else Without(Queue(w, k), t)
  {
    RecordedRest(w.local, k, Seen(w.chain), t);
    if t !in Seen(w.chain) {
      UnseenNotDisplayed(w.chain, t, k);
      WithoutNone(Displayed(w.chain, k), t);
      WithoutAppend(Displayed(w.chain, k), Recorded(w.local, k, Seen(w.chain)), t);
    }
  }

  lemma ExpiredSeen(w: World, t: string, v: World)
    requires Expired(w, t, v)
    ensures Seen(v.chain) == Seen(w.chain) - {t}
  {
    forall u ensures u in Seen(v.chain) <==> u in Seen(w.chain) - {t} { SettledSees(w, t, v, u); }
  }

  /** `t` has recorded a write of this key. */
  predicate RecordedFor(local: seq<Entry>, t: string, k: string) {
    exists e | e in local :: e.txid == t && e.key == k && IsData(e)
  }

  lemma {:induction false} SynthUnrecorded(local: seq<Entry>, k: string, seen: set<string>, t: string)
    requires !RecordedFor(local, t, k)
    ensures Synth(local, k, seen - {t}, 0) == Synth(local, k, seen, 0)
  {
    if local != [] {
      assert forall e | e in local[1..] :: e in local;
      SynthUnrecorded(local[1..], k, seen, t);
      assert local[0] in local;
    }
  }

  lemma RecordedNotSeen(local: seq<Entry>, k: string, seen: set<string>, t: string)
    requires t in seen || !RecordedFor(local, t, k)
    ensures Without(Recorded(local, k, seen), t) == Recorded(local, k, seen)
  {
    forall i | 0 <= i < |Recorded(local, k, seen)| ensures Recorded(local, k, seen)[i].txid != t {
      SynthMember(local, k, seen, 0, Synth(local, k, seen, 0)[i]);
    }
    WithoutNone(Recorded(local, k, seen), t);
  }

  /** An expired write leaves its queue, but one that is still recorded comes back
      behind whatever is shown. */
  lemma ExpiredQueue(w: World, t: string, v: World, k: string)
    requires Expired(w, t, v)
    ensures Queue(v, k) == Without(Displayed(w.chain, k), t) + Recorded(w.local, k, Seen(w.chain) - {t})
    ensures !RecordedFor(w.local, t, k) ==> Queue(v, k) == Without(Queue(w, k), t)
  {
    ExpiredSeen(w, t, v);
    if !RecordedFor(w.local, t, k) {
      SynthUnrecorded(w.local, k, Seen(w.chain), t);
      RecordedNotSeen(w.local, k, Seen(w.chain), t);
      WithoutAppend(Displayed(w.chain, k), Recorded(w.local, k, Seen(w.chain)), t);
    }
  }

  /** What a key would read without the writes of `t`. */
  function LeftBehind(w: World, key: string, t: string): Option<string> {
    LastOr(Without(Queue(w, key), t), At(w.chain, key).confirmed)
  }

  lemma WithoutKeepsLast(q: seq<Write>, t: string)
    requires q != [] && q[|q| - 1].txid != t
    ensures Without(q, t) != [] && Without(q, t)[|Without(q, t)| - 1] == q[|q| - 1]
  {
    var n := |q| - 1;
    assert q == q[..n] + [q[n]];
    WithoutAppend(q[..n], [q[n]], t);
    assert [q[n]][1..] == [];
    assert Without([q[n]], t) == [q[n]];
  }

  lemma EndWithoutIff(q: seq<Write>, t: string, confirmed: Option<string>)
    ensures LastOr(Without(q, t), confirmed) != LastOr(q, confirmed) <==>
              q != [] && q[|q| - 1].txid == t && LastOr(Without(q, t), confirmed) != q[|q| - 1].value
  {
    if q != [] && q[|q| - 1].txid != t { WithoutKeepsLast(q, t); }
  }

  lemma LapseReads(w: World, t: string, v: World, key: string)
    requires Lapsed(w, t, v)
    ensures EffectiveValue(v, key) == LeftBehind(w, key, t)
  {
    EffectiveIsQueueEnd(v, key);
    SettledQueue(w, t, v, key);
  }

  /** A lapse changes what a key reads exactly when the last write of its queue is
      the lapsed transaction's and the value left behind is another one. */
  lemma LapseChangesIff(w: World, t: string, v: World, key: string)
    requires Lapsed(w, t, v)
    ensures EffectiveValue(v, key) != EffectiveValue(w, key) <==>
              && Queue(w, key) != [] && Queue(w, key)[|Queue(w, key)| - 1].txid == t
              && LeftBehind(w, key, t) != Queue(w, key)[|Queue(w, key)| - 1].value
  {
    EffectiveIsQueueEnd(w, key);
    LapseReads(w, t, v, key);
    EndWithoutIff(Queue(w, key), t, At(w.chain, key).confirmed);
  }

  /** With every recorded transaction seen, the state's own answer is read. */
  lemma AllSeenReads(w: World, key: string)
    requires forall e | e in w.local :: e.txid in Seen(w.chain)
    ensures EffectiveValue(w, key) == EndOf(At(w.chain, key).pending, At(w.chain, key).confirmed)
  {
    EffectiveIs(w, key);
    SynthNone(w.local, key, Seen(w.chain), 0);
  }

  lemma BothShownReadNew(both: State, local: seq<Entry>)
    requires both == map["k" := KeyState(None, [Set("old", 0, 1, "t1"), Set("new", 0, 1, "t2")], None, None)]
    requires forall e | e in local :: e.txid == "t1" || e.txid == "t2"
    ensures EffectiveValue(World(both, local), "k") == Some("new")
  {
    SeenBy(both, "k", both["k"].pending[0]);
    SeenBy(both, "k", both["k"].pending[1]);
    AllSeenReads(World(both, local), "k");
  }

  lemma OneShownReadsOld(one: State, first: Entry, second: Entry)
    requires one == map["k" := KeyState(None, [Set("new", 0, 1, "t2")], None, None)]
    requires first == Entry("t1", "SET", "k", Some("old")) && second.txid == "t2"
    ensures EffectiveValue(World(one, [first, second]), "k") == Some("old")
  {
    SeenBy(one, "k", one["k"].pending[0]);
    assert "t1" !in Seen(one);
    SeenBehindUnseen(one, first, second);
  }

  /** Expiry is not so simple while the record is fresh: an older write that expires
      is read again, over a later one the state shows. */
  lemma ExpiredEntryOvertakes()
    ensures var first, second := Entry("t1", "SET", "k", Some("old")), Entry("t2", "SET", "k", Some("new"));
            var both: State := map["k" := KeyState(None, [Set("old", 0, 1, "t1"), Set("new", 0, 1, "t2")], None, None)];
            var one: State := map["k" := KeyState(None, [Set("new", 0, 1, "t2")], None, None)];
            var w, v := World(both, [first, second]), World(one, [first, second]);
            && Expired(w, "t1", v)
            && EffectiveValue(w, "k") == Some("new") && EffectiveValue(v, "k") == Some("old")
  {
    var first, second := Entry("t1", "SET", "k", Some("old")), Entry("t2", "SET", "k", Some("new"));
    var both: State := map["k" := KeyState(None, [Set("old", 0, 1, "t1"), Set("new", 0, 1, "t2")], None, None)];
    var one: State := map["k" := KeyState(None, [Set("new", 0, 1, "t2")], None, None)];
    OvertakenShown(both, one);
    BothShownReadNew(both, [first, second]);
    OneShownReadsOld(one, first, second);
  }

  lemma OvertakenShown(both: State, one: State)
    requires both == map["k" := KeyState(None, [Set("old", 0, 1, "t1"), Set("new", 0, 1, "t2")], None, None)]
    requires one == map["k" := KeyState(None, [Set("new", 0, 1, "t2")], None, None)]
    ensures forall k :: Displayed(one, k) == Without(Displayed(both, k), "t1")
  {
    forall k ensures Displayed(one, k) == Without(Displayed(both, k), "t1") {
      var q := Displayed(both, k);
      if k == "k" {
        assert q[1..] == [q[1]] && [q[1]][1..] == [];
        assert Without([q[1]], "t1") == [q[1]];
        assert Displayed(one, k) == [q[1]];
      }
    }
  }

  // ----- The oracle's ticks -----

  datatype Outcome = Sent(txid: string) | InsufficientFunds | StillInitializing | Failed

  datatype Report = Skipped | Unchanged | DryRun | Published(txid: string) | RetryNextTick | Error

  /** `Op::set_for_value`: the opcode recorded for a SET of this value. */
  function SetOpcode(value: string): string {
    if value == "" || '\n' in value then "SETL" else "SET"
  }

  /** The text the oracle wants published for these tags. */
  function Wanted(tags: seq<string>, channel: Select.Channel, ignore: seq<string>): Option<string> {
    var v := Select.Select(tags, channel, ignore);
    if v.Some? then Some(Semver.ValueString(v.value)) else None
  }

  predicate Pays(w: World, key: string, want: string, dryRun: bool, outcome: Outcome) {
    EffectiveValue(w, key) != Some(want) && !dryRun && outcome.Sent?
  }

  function AfterTick(w: World, key: string, want: string, dryRun: bool, outcome: Outcome): World {
    if Pays(w, key, want, dryRun, outcome)
    then w.(local := w.local + [Entry(outcome.txid, SetOpcode(want), key, Some(want))])
    else w
  }

  class Database {
    var chain: State
    var local: seq<Entry>

    ghost function View(): World
      reads this
    {
      World(chain, local)
    }

    method Effective(key: string) returns (r: Option<string>)
      ensures r == EffectiveValue(View(), key)
    {
      var replay := new ReplayResult(chain, Initialized);
      replay.MergePending(Some(local), 0);
      if key !in replay.state { return None; }
      var ks := replay.state[key];
      if ks.pending != [] {
        match ks.pending[|ks.pending| - 1]
        case Set(value, _, _, _) => return Some(value);
        case Del(_, _, _) => return None;
      }
      return ks.confirmed;
    }

    /** `set_no_sync`: broadcast, and on success record the write. */
    method SetNoSync(key: string, value: string, outcome: Outcome)
      modifies this`local
      ensures local == old(local)
                       + if outcome.Sent? then [Entry(outcome.txid, SetOpcode(value), key, Some(value))] else []
      ensures outcome.Sent? ==>
                && |local| == |old(local)| + 1
                && local[|old(local)|].op == if value == "" || '\n' in value then "SETL" else "SET"
    {
      if outcome.Sent? {
        local := local + [Entry(outcome.txid, SetOpcode(value), key, Some(value))];
      } else {
        assert local + [] == local;
      }
    }

    /** `reconcile` for one key, given a project's tags. */
    method Reconcile(key: string, tags: seq<string>, channel: Select.Channel, ignore: seq<string>,
                     dryRun: bool, outcome: Outcome)
      returns (report: Report)
      modifies this`local
      ensures var desired := Wanted(tags, channel, ignore);
              var differs := desired.Some? && old(EffectiveValue(View(), key)) != desired;
              && (desired.Some? ==> Select.ParseTag(desired.value) == Select.Select(tags, channel, ignore))
              && chain == old(chain)
              && local == old(local) + (if differs && !dryRun && outcome.Sent?
                                        then [Entry(outcome.txid, SetOpcode(desired.value), key, desired)] else [])
              && (report == Skipped <==> forall v :: !Select.Qualifies(v, tags, channel, ignore))
              && (report == Unchanged <==> desired.Some? && !differs)
              && (report == DryRun <==> differs && dryRun)
              && (report.Published? <==> differs && !dryRun && outcome.Sent?)
              && (report.Published? ==> report.txid == outcome.txid)
              && (report == RetryNextTick <==>
                    differs && !dryRun && (outcome == InsufficientFunds || outcome == StillInitializing))
              && (report == Error <==> differs && !dryRun && outcome == Failed)
      ensures var desired := Wanted(tags, channel, ignore);
              && View() == (if desired.Some? then AfterTick(old(View()), key, desired.value, dryRun, outcome)
                            else old(View()))
              && (report.Published? <==> desired.Some? && Pays(old(View()), key, desired.value, dryRun, outcome))
    {
      var desired := Select.Select(tags, channel, ignore);
      Select.SelectQualifies(tags, channel, ignore);
      assert local + [] == local;
      if desired.None? { return Skipped; }
      Select.PublishedTextIsTheChoice(tags, channel, ignore);
      var want := Semver.ValueString(desired.value);
      var current := Effective(key);
      if current == Some(want) { return Unchanged; }
      if dryRun { return DryRun; }
      SetNoSync(key, want, outcome);
      match outcome {
        case Sent(txid) => return Published(txid);
        case InsufficientFunds => return RetryNextTick;
        case StillInitializing => return RetryNextTick;
        case Failed => return Error;
      }
    }
  }
}
