/** Shard directories of the shared scan: their names, which of them exist, and
    the search for the shard that holds a viewing key. */
module Shards {
  import opened Wrappers
  import opened Decimal

  // ----- Names -----

  const PREFIX: string := "shard-"

  function ShardDirName(index: nat): string {
    PREFIX + Padded(index, 4)
  }

  /** The index a shard directory is named for. */
  function ShardIndex(name: string): Option<nat> {
    if !(PREFIX <= name) then None
    else
      var digits := name[|PREFIX|..];
      if |digits| < 4 || exists i | 0 <= i < |digits| :: !IsDigit(digits[i]) then None
      else Some(Value(digits))
  }

  /** The number, in at least four digits. */
  lemma NameIs(index: nat)
    ensures |Print(index)| >= 4 ==> ShardDirName(index) == "shard-" + Print(index)
    ensures |Print(index)| < 4 ==>
              ShardDirName(index) == "shard-" + (Zeros(4 - |Print(index)|) + Print(index))
  {
    PaddedIs(index, 4);
  }

  lemma PaddedIs(n: nat, width: nat)
    ensures |Print(n)| >= width ==> Padded(n, width) == Print(n)
    ensures |Print(n)| < width ==> Padded(n, width) == Zeros(width - |Print(n)|) + Print(n)
  {
  }

  /** The name determines the index at every width, padded or not. */
  lemma NameReadsBack(index: nat)
    ensures ShardIndex(ShardDirName(index)) == Some(index)
  {
    ValueOfPadded(index, 4);
    assert ShardDirName(index)[|PREFIX|..] == Padded(index, 4);
  }

  lemma NamesDistinct(a: nat, b: nat)
    requires ShardDirName(a) == ShardDirName(b)
    ensures a == b
  {
    NameReadsBack(a);
    NameReadsBack(b);
  }

  // ----- Enumeration -----

  function Names(n: nat): seq<string> {
    seq(n, (i: nat) => ShardDirName(i))
  }

  /** `n` is where the gap-free run of existing shards ends. */
  ghost predicate RunEnds(dirs: set<string>, n: nat) {
    (forall i: nat | i < n :: ShardDirName(i) in dirs) && ShardDirName(n) !in dirs
  }

  lemma {:induction false} RunFits(dirs: set<string>, n: nat)
    requires forall i: nat | i < n :: ShardDirName(i) in dirs
    ensures n <= |dirs|
  {
    if n > 0 {
      var last := ShardDirName(n - 1);
      forall i: nat | i < n - 1 ensures ShardDirName(i) in dirs - {last} {
        if ShardDirName(i) == last { NamesDistinct(i, n - 1); }
      }
      RunFits(dirs - {last}, n - 1);
    }
  }

  /** There is exactly one such run, whatever else lies in the directory. */
  lemma RunIsUnique(dirs: set<string>, m: nat, n: nat)
    requires RunEnds(dirs, m) && RunEnds(dirs, n)
    ensures m == n
  {
    assert m < n ==> ShardDirName(m) in dirs;
    assert n < m ==> ShardDirName(n) in dirs;
  }

  /** `existing_shard_dirs_in`: every directory of the longest gap-free run from
      index zero, in order, and nothing past the first gap. */
  method ExistingShardDirs(dirs: set<string>) returns (found: seq<string>)
    ensures found == Names(|found|) && RunEnds(dirs, |found|)
  {
    found := [];
    var index := 0;
    while ShardDirName(index) in dirs
      invariant |found| == index && found == Names(index)
      invariant forall i: nat | i < index :: ShardDirName(i) in dirs
      decreases |dirs| - index
    {
      RunFits(dirs, index + 1);
      found := found + [ShardDirName(index)];
      index := index + 1;
    }
  }

  // ----- Search -----

  type Uuid = nat

  datatype Account = Account(uuid: Uuid, ufvk: Option<string>)

  /** A shard's wallet database, as opening and listing it goes. */
  datatype ShardFile = Unreadable | Readable(accounts: seq<Account>)

  type Hit = Option<(string, Uuid)>

  ghost predicate Holds(accounts: seq<Account>, want: string) {
    exists i | 0 <= i < |accounts| :: accounts[i].ufvk == Some(want)
  }

  /** The first account whose key is the wanted one. */
  function FirstAccount(accounts: seq<Account>, want: string): Option<Uuid> {
    if accounts == [] then None
    else if accounts[0].ufvk == Some(want) then Some(accounts[0].uuid)
    else FirstAccount(accounts[1..], want)
  }

  method AccountInShard(accounts: seq<Account>, want: string) returns (r: Option<Uuid>)
    ensures r == FirstAccount(accounts, want)
    ensures r.None? <==> forall i | 0 <= i < |accounts| :: accounts[i].ufvk != Some(want)
    ensures r.Some? ==> exists i :: 0 <= i < |accounts| && accounts[i] == Account(r.value, Some(want))
                                    && forall j | 0 <= j < i :: accounts[j].ufvk != Some(want)
  {
    var i := 0;
    while i < |accounts|
      invariant i <= |accounts|
      invariant FirstAccount(accounts, want) == FirstAccount(accounts[i..], want)
      invariant forall j | 0 <= j < i :: accounts[j].ufvk != Some(want)
    {
      if accounts[i].ufvk == Some(want) { assert accounts[i] == Account(accounts[i].uuid, Some(want)); }
      if accounts[i].ufvk == Some(want) { return Some(accounts[i].uuid); }
      assert accounts[i..][1..] == accounts[i + 1..];
      i := i + 1;
    }
    return None;
  }

  /** The remembered shard moved to the front, the set unchanged. */
  function Hinted(shards: seq<string>, cached: Option<string>): seq<string> {
    if cached.None? || cached.value !in shards then shards
    else
      var pos := Position(shards, cached.value);
      shards[0 := shards[pos]][pos := shards[0]]
  }

  function Position(shards: seq<string>, name: string): (i: nat)
    requires name in shards
    ensures i < |shards| && shards[i] == name
  {
    if shards[0] == name then 0 else Position(shards[1..], name) + 1
  }

  /** Shards opened in turn: the first hit, or the first shard that will not open. */
  function FirstHit(order: seq<string>, files: map<string, ShardFile>, want: string): Result<Hit, string> {
    if order == [] then Ok(None)
    else if order[0] !in files || files[order[0]].Unreadable? then Err(order[0])
    else match FirstAccount(files[order[0]].accounts, want)
      case Some(uuid) => Ok(Some((order[0], uuid)))
      case None => FirstHit(order[1..], files, want)
  }

  method SearchShards(shards: seq<string>, files: map<string, ShardFile>, want: string,
                      cached: Option<string>) returns (r: Result<Hit, string>)
    ensures r == FirstHit(Hinted(shards, cached), files, want)
  {
    var candidates := shards;
    if cached.Some? && cached.value in shards {
      var pos := Position(shards, cached.value);
      candidates := candidates[0 := shards[pos]][pos := shards[0]];
    }
    var i := 0;
    while i < |candidates|
      invariant i <= |candidates|
      invariant FirstHit(candidates, files, want) == FirstHit(candidates[i..], files, want)
    {
      var dir := candidates[i];
      if dir !in files || files[dir].Unreadable? { return Err(dir); }
      var uuid := AccountInShard(files[dir].accounts, want);
      if uuid.Some? { return Ok(Some((dir, uuid.value))); }
      assert candidates[i..][1..] == candidates[i + 1..];
      i := i + 1;
    }
    return Ok(None);
  }

  ghost predicate Opens(files: map<string, ShardFile>, dir: string) {
    dir in files && files[dir].Readable?
  }

  ghost predicate HeldBy(files: map<string, ShardFile>, dir: string, want: string) {
    Opens(files, dir) && Holds(files[dir].accounts, want)
  }

  /** The shards in front of the `n`th all opened and did not hold the key. */
  ghost predicate PassedOver(order: seq<string>, files: map<string, ShardFile>, want: string, n: nat) {
    n <= |order| && forall i | 0 <= i < n :: Opens(files, order[i]) && !HeldBy(files, order[i], want)
  }

  /** Where the search ends: at the first shard that does not open or holds the key. */
  lemma {:induction false} HitIsFirst(order: seq<string>, files: map<string, ShardFile>, want: string) returns (n: nat)
    ensures PassedOver(order, files, want, n)
    ensures match FirstHit(order, files, want)
            case Err(dir) => n < |order| && order[n] == dir && !Opens(files, dir)
            case Ok(None) => n == |order|
            case Ok(Some((dir, uuid))) => n < |order| && order[n] == dir && HeldBy(files, dir, want)
  {
    n := 0;
    if order != [] && Opens(files, order[0]) {
      FirstAccountFinds(files[order[0]].accounts, want);
      if !HeldBy(files, order[0], want) {
        n := HitIsFirst(order[1..], files, want);
        n := n + 1;
        assert forall i | 0 < i < n :: order[i] == order[1..][i - 1];
      }
    }
  }

  lemma {:induction false} FirstAccountFinds(accounts: seq<Account>, want: string)
    ensures FirstAccount(accounts, want).Some? <==> Holds(accounts, want)
    ensures FirstAccount(accounts, want).Some? ==>
              Account(FirstAccount(accounts, want).value, Some(want)) in accounts
  {
    if accounts != [] {
      FirstAccountFinds(accounts[1..], want);
      assert Holds(accounts, want) <==> accounts[0].ufvk == Some(want) || Holds(accounts[1..], want) by {
        if Holds(accounts[1..], want) {
          var i :| 0 <= i < |accounts[1..]| && accounts[1..][i].ufvk == Some(want);
          assert accounts[i + 1].ufvk == Some(want);
        }
        if i :| 0 <= i < |accounts| && accounts[i].ufvk == Some(want) {
          assert i == 0 || accounts[1..][i - 1].ufvk == Some(want);
        }
      }
    }
  }

  /** What an answer of the search means for the shards it went through. */
  lemma {:induction false} HitMeans(order: seq<string>, files: map<string, ShardFile>, want: string)
    ensures match FirstHit(order, files, want)
            case Err(dir) => dir in order && !Opens(files, dir)
            case Ok(None) => forall dir | dir in order :: Opens(files, dir) && !HeldBy(files, dir, want)
            case Ok(Some((dir, uuid))) =>
              dir in order && HeldBy(files, dir, want) && Account(uuid, Some(want)) in files[dir].accounts
  {
    if order != [] && Opens(files, order[0]) {
      FirstAccountFinds(files[order[0]].accounts, want);
      HitMeans(order[1..], files, want);
    }
  }

  lemma HintKeepsShards(shards: seq<string>, cached: Option<string>)
    ensures forall dir :: dir in Hinted(shards, cached) <==> dir in shards
    ensures multiset(Hinted(shards, cached)) == multiset(shards)
  {
    if cached.Some? && cached.value in shards {
      var pos := Position(shards, cached.value);
      var h := Hinted(shards, cached);
      forall dir | dir in shards ensures dir in h {
        var i :| 0 <= i < |shards| && shards[i] == dir;
        assert h[if i == 0 then pos else if i == pos then 0 else i] == dir;
      }
    }
  }

  /** Over shards that open, the search finds the key exactly when some shard
      holds it, and the shard it names does, whatever the hint says. */
  lemma SearchFindsExactly(shards: seq<string>, files: map<string, ShardFile>, want: string,
                           cached: Option<string>)
    requires forall dir | dir in shards :: Opens(files, dir)
    ensures var r := FirstHit(Hinted(shards, cached), files, want);
            && r.Ok?
            && (r.value.Some? <==> exists dir :: dir in shards && HeldBy(files, dir, want))
            && (r.value.Some? ==> r.value.value.0 in shards && HeldBy(files, r.value.value.0, want)
                                  && Account(r.value.value.1, Some(want)) in files[r.value.value.0].accounts)
  {
    HitMeans(Hinted(shards, cached), files, want);
    HintKeepsShards(shards, cached);
  }

  lemma {:induction false} HitIsFirstAccount(order: seq<string>, files: map<string, ShardFile>, want: string)
    ensures var r := FirstHit(order, files, want);
            r.Ok? && r.value.Some? ==>
              && r.value.value.0 in files && files[r.value.value.0].Readable?
              && FirstAccount(files[r.value.value.0].accounts, want) == Some(r.value.value.1)
  {
    if order != [] { HitIsFirstAccount(order[1..], files, want); }
  }

  /** A key held by one shard is found there with the same account under every
      hint: right, stale, or absent. */
  lemma HintNeverChangesTheAnswer(shards: seq<string>, files: map<string, ShardFile>, want: string,
                                  home: string, a: Option<string>, b: Option<string>)
    requires forall dir | dir in shards :: Opens(files, dir)
    requires forall dir | dir in shards && HeldBy(files, dir, want) :: dir == home
    ensures FirstHit(Hinted(shards, a), files, want) == FirstHit(Hinted(shards, b), files, want)
  {
    SearchFindsExactly(shards, files, want, a);
    SearchFindsExactly(shards, files, want, b);
    HitIsFirstAccount(Hinted(shards, a), files, want);
    HitIsFirstAccount(Hinted(shards, b), files, want);
  }

  /** A shard that will not open is the one thing a hint can expose: the search
      answers under every hint exactly when every shard opens. */
  lemma AnswersUnderEveryHintIff(shards: seq<string>, files: map<string, ShardFile>, want: string)
    ensures (forall cached :: FirstHit(Hinted(shards, cached), files, want).Ok?)
       <==> (forall dir | dir in shards :: Opens(files, dir))
  {
    if dir :| dir in shards && !Opens(files, dir) {
      assert Hinted(shards, Some(dir))[0] == dir;
      assert FirstHit(Hinted(shards, Some(dir)), files, want).Err?;
    } else {
      forall cached ensures FirstHit(Hinted(shards, cached), files, want).Ok? {
        SearchFindsExactly(shards, files, want, cached);
      }
    }
  }

  /** The search reaches a shard that holds the key over any shards that open and do
      not, whatever the shards behind it are like. */
  lemma {:induction false} HitIsHome(order: seq<string>, files: map<string, ShardFile>, want: string, p: nat)
    requires p < |order| && HeldBy(files, order[p], want)
    requires forall i | 0 <= i < p :: Opens(files, order[i]) && !HeldBy(files, order[i], want)
    ensures var r := FirstHit(order, files, want);
            && r.Ok? && r.value.Some? && r.value.value.0 == order[p]
            && Account(r.value.value.1, Some(want)) in files[order[p]].accounts
  {
    assert Opens(files, order[0]);
    FirstAccountFinds(files[order[0]].accounts, want);
    if p > 0 {
      assert forall i | 0 <= i < p - 1 :: order[1..][i] == order[i + 1];
      HitIsHome(order[1..], files, want, p - 1);
    }
  }

  /** A remembered shard is opened first; the one it changes places with is the only
      other that moves. */
  lemma HintComesFirst(shards: seq<string>, cached: string)
    requires cached in shards
    ensures var h := Hinted(shards, Some(cached));
            && |h| == |shards| && h[0] == cached
            && exists pos :: 0 <= pos < |shards| && shards[pos] == cached && (pos > 0 ==> h[pos] == shards[0])
                             && forall i | 0 < i < |shards| && i != pos :: h[i] == shards[i]
  {
    var pos := Position(shards, cached);
    assert shards[pos] == cached;
  }
}
