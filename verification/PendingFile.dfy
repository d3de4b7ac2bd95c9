/** `pending.toml`: what a client recorded of its own broadcasts, each with the time
    of the broadcast. Entries an hour old are left out whenever the file is read, and
    for good whenever it is next rewritten. */
module PendingFile {
  import opened Overlay
  import opened VersionOracle

  const STALE_AFTER_SECS: nat := 3600

  datatype Stamped = Stamped(entry: Entry, at: nat)

  function Cutoff(now: nat): nat {
    if now < STALE_AFTER_SECS then 0 else now - STALE_AFTER_SECS
  }

  /** `load`: the entries young enough at this moment, in order. */
  function Load(file: seq<Stamped>, now: nat): seq<Stamped> {
    if file == [] then []
    else if file[0].at >= Cutoff(now) then [file[0]] + Load(file[1..], now)
    else Load(file[1..], now)
  }

  function Entries(file: seq<Stamped>): seq<Entry> {
    if file == [] then [] else [file[0].entry] + Entries(file[1..])
  }

  function Pruned(file: seq<Stamped>, seen: set<string>): seq<Stamped> {
    if file == [] then []
    else if file[0].entry.txid in seen then Pruned(file[1..], seen)
    else [file[0]] + Pruned(file[1..], seen)
  }

  class Store {
    var file: seq<Stamped>

    /** `append`: rewrites the file with what it just read and the new entry. */
    method Append(e: Stamped, now: nat)
      modifies this
      ensures file == Load(old(file), now) + [e]
    {
      var entries := Load(file, now);
      entries := entries + [e];
      file := entries;
    }

    /** `prune`: drops the entries the wallet has indexed; an empty file is left alone. */
    method Prune(seen: set<string>, now: nat)
      modifies this
      ensures file == if Load(old(file), now) == [] then old(file) else Pruned(Load(old(file), now), seen)
    {
      var entries := Load(file, now);
      if entries == [] { return; }
      file := Pruned(entries, seen);
    }
  }

  lemma {:induction false} LoadAppend(a: seq<Stamped>, b: seq<Stamped>, now: nat)
    ensures Load(a + b, now) == Load(a, now) + Load(b, now)
  {
    if a == [] {
      assert a + b == b;
    } else {
      var rest := Load(a[1..], now);
      assert (a + b)[1..] == a[1..] + b;
      LoadAppend(a[1..], b, now);
      assert [a[0]] + (rest + Load(b, now)) == [a[0]] + rest + Load(b, now);
    }
  }

  /** Reading earlier changes nothing for a later reader: what was left out stays out. */
  lemma {:induction false} LoadLater(file: seq<Stamped>, now: nat, later: nat)
    requires now <= later
    ensures Load(Load(file, now), later) == Load(file, later)
  {
    if file != [] {
      LoadLater(file[1..], now, later);
      assert file[0].at >= Cutoff(now) ==> Load(file, now)[1..] == Load(file[1..], now);
    }
  }

  lemma {:induction false} PrunedLoad(file: seq<Stamped>, seen: set<string>, now: nat)
    ensures Load(Pruned(file, seen), now) == Pruned(Load(file, now), seen)
  {
    if file != [] {
      PrunedLoad(file[1..], seen, now);
      assert file[0].at >= Cutoff(now) ==> Load(file, now)[1..] == Load(file[1..], now);
      assert file[0].entry.txid !in seen ==> Pruned(file, seen)[1..] == Pruned(file[1..], seen);
    }
  }

  /** Rewriting loses nothing a later reader would have seen: appending adds the entry,
      pruning takes the indexed transactions out, and that is all. */
  lemma RewritesAreInvisible(file: seq<Stamped>, e: Stamped, seen: set<string>, now: nat, later: nat)
    requires now <= later
    ensures Load(Load(file, now) + [e], later) == Load(file, later) + Load([e], later)
    ensures Load(if Load(file, now) == [] then file else Pruned(Load(file, now), seen), later)
         == Pruned(Load(file, later), seen)
  {
    LoadLater(file, now, later);
    LoadAppend(Load(file, now), [e], later);
    PrunedLoad(Load(file, now), seen, later);
    if Load(file, now) == [] { assert Load(file, later) == []; }
  }

  /** An entry is read for an hour from its broadcast and not a second longer. */
  lemma {:induction false} ReadForAnHour(file: seq<Stamped>, e: Stamped, now: nat)
    ensures e in Load(file, now) <==> e in file && now <= e.at + 3600
  {
    if file != [] {
      ReadForAnHour(file[1..], e, now);
      assert e in file <==> e == file[0] || e in file[1..];
    }
  }

  /** As time passes over one transaction's entries, the list read loses exactly them:
      the step `VersionOracle.Stale` takes. */
  lemma {:induction false} AgeingIsStale(file: seq<Stamped>, t: string, now: nat, later: nat)
    requires now <= later
    requires forall s | s in Load(file, now) :: s.at < Cutoff(later) <==> s.entry.txid == t
    ensures Entries(Load(file, later)) == Rest(Entries(Load(file, now)), t)
  {
    LoadLater(file, now, later);
    AgeingDrops(Load(file, now), t, later);
  }

  lemma {:induction false} AgeingDrops(file: seq<Stamped>, t: string, later: nat)
    requires forall s | s in file :: s.at < Cutoff(later) <==> s.entry.txid == t
    ensures Entries(Load(file, later)) == Rest(Entries(file), t)
  {
    if file != [] {
      assert file[0] in file && forall s | s in file[1..] :: s in file;
      AgeingDrops(file[1..], t, later);
      assert Entries(file)[1..] == Entries(file[1..]);
      if file[0].entry.txid != t {
        assert Load(file, later)[1..] == Load(file[1..], later);
      } else {
        assert Rest(Entries(file), t) == Rest(Entries(file[1..]), t);
      }
    }
  }

  /** Pruning takes out exactly the entries of indexed transactions. */
  lemma {:induction false} PrunedMember(file: seq<Stamped>, seen: set<string>, e: Stamped)
    ensures e in Pruned(file, seen) <==> e in file && e.entry.txid !in seen
  {
    if file != [] {
      PrunedMember(file[1..], seen, e);
      assert e in file <==> e == file[0] || e in file[1..];
    }
  }

  /** Pruning one transaction is what settling it does to the recorded entries. */
  lemma {:induction false} PruningIsSettling(file: seq<Stamped>, t: string)
    ensures Entries(Pruned(file, {t})) == Rest(Entries(file), t)
  {
    if file != [] {
      PruningIsSettling(file[1..], t);
      assert Entries(file)[1..] == Entries(file[1..]);
      if file[0].entry.txid != t {
        assert Pruned(file, {t})[1..] == Pruned(file[1..], {t});
      } else {
        assert Rest(Entries(file), t) == Rest(Entries(file[1..]), t);
      }
    }
  }
}
