/** Redundant oracle nodes that agree through the chain alone: a node posts only
    when the newest authorized post it finds is older than its own threshold. */
module OracleGate {
  import opened Wrappers

  /** How many newest history rows the probe skims. */
  const PROBE_DEPTH: nat := 16

  /** A history row: `verified == Some(false)` is a failed signature check,
      `timestamp` the block time in seconds, absent while unmined. */
  datatype Row = Row(key: string, verified: Option<bool>, timestamp: Option<nat>)

  predicate Genuine(row: Row, key: string) {
    row.key == key && row.verified != Some(false)
  }

  function Age(row: Row, now: nat): nat {
    match row.timestamp
    case None => 0
    case Some(ts) => if ts <= now then now - ts else 0
  }

  function FirstGenuine(rows: seq<Row>, key: string): (r: nat)
    ensures r <= |rows|
    ensures r < |rows| ==> Genuine(rows[r], key)
    ensures forall i | 0 <= i < r :: !Genuine(rows[i], key)
  {
    if rows == [] || Genuine(rows[0], key) then 0 else 1 + FirstGenuine(rows[1..], key)
  }

  /** What the probe should answer on a whole history. */
  function Probe(rows: seq<Row>, key: string, now: nat): Option<nat> {
    var f := FirstGenuine(rows, key);
    if f < |rows| && f < PROBE_DEPTH then Some(Age(rows[f], now)) else None
  }

  /** `last_post_age`: the store hands over at most `PROBE_DEPTH` rows. */
  method LastPostAge(rows: seq<Row>, key: string, now: nat) returns (age: Option<nat>)
    ensures age == Probe(rows, key, now)
    ensures age.None? <==> forall i | 0 <= i < |rows| && i < PROBE_DEPTH :: !Genuine(rows[i], key)
  {
    var page := rows[..if |rows| < PROBE_DEPTH then |rows| else PROBE_DEPTH];
    for n := 0 to |page|
      invariant forall i | 0 <= i < n :: !Genuine(rows[i], key)
    {
      var entry := page[n];
      if entry.key != key || entry.verified == Some(false) { continue; }
      assert FirstGenuine(rows, key) == n;
      if entry.timestamp.None? { return Some(0); }
      var ts := entry.timestamp.value;
      return Some(if ts <= now then now - ts else 0);
    }
    assert forall i | 0 <= i < |rows| && i < PROBE_DEPTH :: !Genuine(rows[i], key);
    return None;
  }

  // ----- Forged and foreign rows -----

  /** `noisy` is `rows` with any number of rows that are unverified or for another
      key inserted anywhere. */
  predicate NoiseAdded(rows: seq<Row>, noisy: seq<Row>, key: string)
    decreases |noisy|
  {
    if noisy == [] then rows == []
    else
      || (rows != [] && noisy[0] == rows[0] && NoiseAdded(rows[1..], noisy[1..], key))
      || (!Genuine(noisy[0], key) && NoiseAdded(rows, noisy[1..], key))
  }

  lemma {:induction false} NoiseOnlyPushesDown(rows: seq<Row>, noisy: seq<Row>, key: string)
    requires NoiseAdded(rows, noisy, key)
    ensures FirstGenuine(rows, key) <= FirstGenuine(noisy, key)
    ensures FirstGenuine(rows, key) < |rows| <==> FirstGenuine(noisy, key) < |noisy|
    ensures FirstGenuine(rows, key) < |rows| ==>
              noisy[FirstGenuine(noisy, key)] == rows[FirstGenuine(rows, key)]
    decreases |noisy|
  {
    if noisy != [] {
      if rows != [] && noisy[0] == rows[0] && NoiseAdded(rows[1..], noisy[1..], key) {
        NoiseOnlyPushesDown(rows[1..], noisy[1..], key);
      } else {
        NoiseOnlyPushesDown(rows, noisy[1..], key);
      }
    }
  }

  /** Noise can hide a post, by pushing it past the probe, but never age or invent one. */
  lemma NoiseHidesOrKeeps(rows: seq<Row>, noisy: seq<Row>, key: string, now: nat)
    requires NoiseAdded(rows, noisy, key)
    ensures Probe(noisy, key, now)
         == if FirstGenuine(noisy, key) < PROBE_DEPTH then Probe(rows, key, now) else None
  {
    NoiseOnlyPushesDown(rows, noisy, key);
  }

  // ----- The tick -----

  datatype Action = SkipTick | StandBy | Publish

  /** The gate lets a node with this threshold publish. */
  predicate Open(rows: seq<Row>, key: string, now: nat, threshold: nat) {
    var age := Probe(rows, key, now);
    age.Some? ==> age.value >= threshold
  }

  /** The newest authorized row for the key, if the sixteen newest rows hold one. */
  ghost predicate Newest(rows: seq<Row>, key: string, i: int) {
    && 0 <= i < |rows| && i < 16 && rows[i].key == key && rows[i].verified != Some(false)
    && forall j | 0 <= j < i :: rows[j].key != key || rows[j].verified == Some(false)
  }

  /** What keeps a node standing by: that row is unmined, or younger than its threshold. */
  lemma StandsByIff(rows: seq<Row>, key: string, now: nat, threshold: nat)
    ensures Open(rows, key, now, threshold) <==>
              !exists i :: Newest(rows, key, i) && threshold > 0
                           && (rows[i].timestamp.None? || rows[i].timestamp.value + threshold > now)
  {
    var f := FirstGenuine(rows, key);
    if f < |rows| && f < PROBE_DEPTH { assert Newest(rows, key, f); }
    assert forall i | Newest(rows, key, i) :: Genuine(rows[i], key) && i == f;
  }

  /** One tick up to the broadcast. `rows` is `None` when the history read fails. */
  method Gate(staleAfter: Option<nat>, synced: bool, rows: Option<seq<Row>>, key: string, now: nat)
    returns (action: Action)
    ensures action == Publish <==>
              (staleAfter.Some? ==> synced && rows.Some? && Open(rows.value, key, now, staleAfter.value))
    ensures action == SkipTick <==> staleAfter.Some? && !(synced && rows.Some?)
    ensures action == StandBy <==>
              && staleAfter.Some? && staleAfter.value > 0 && synced && rows.Some?
              && exists i :: Newest(rows.value, key, i)
                             && (rows.value[i].timestamp.None?
                                 || rows.value[i].timestamp.value + staleAfter.value > now)
  {
    if staleAfter.Some? {
      if !synced { return SkipTick; }
      if rows.None? { return SkipTick; }
      StandsByIff(rows.value, key, now, staleAfter.value);
      var age := LastPostAge(rows.value, key, now);
      if age.Some? && age.value < staleAfter.value { return StandBy; }
    }
    return Publish;
  }

  /** No noise can silence a node: whatever is inserted, an open gate stays open. */
  lemma NoiseNeverSilences(rows: seq<Row>, noisy: seq<Row>, key: string, now: nat, threshold: nat)
    requires NoiseAdded(rows, noisy, key)
    ensures Open(rows, key, now, threshold) ==> Open(noisy, key, now, threshold)
    ensures Open(noisy, key, now, threshold) <==>
              Open(rows, key, now, threshold) || FirstGenuine(noisy, key) >= PROBE_DEPTH
  {
    NoiseHidesOrKeeps(rows, noisy, key, now);
  }

  // ----- Many nodes -----

  /** A tick of some node: its clock, its threshold, the history it reads, which
      earlier post each genuine row records, and whether it posted. */
  datatype Tick = Tick(now: nat, threshold: nat, rows: seq<Row>, who: seq<Option<nat>>, sent: bool)

  /** Times of the posts made by the first `n` ticks. */
  function Posts(ticks: seq<Tick>, n: nat): seq<nat>
    requires n <= |ticks|
  {
    if n == 0 then []
    else Posts(ticks, n - 1) + if ticks[n - 1].sent then [ticks[n - 1].now] else []
  }

  /** The chain is honest about authorized posts: each genuine row records one of
      them, mined no earlier than it was made, and rows come newest first. */
  ghost predicate Faithful(t: Tick, key: string, posts: seq<nat>) {
    && |t.who| == |t.rows|
    && (forall i | 0 <= i < |t.rows| :: t.who[i].Some? <==> Genuine(t.rows[i], key))
    && (forall i | 0 <= i < |t.rows| && t.who[i].Some? ::
          t.who[i].value < |posts|
          && (t.rows[i].timestamp.Some? ==> t.rows[i].timestamp.value >= posts[t.who[i].value]))
    && (forall i, j | 0 <= i < j < |t.rows| && t.who[i].Some? && t.who[j].Some? && t.rows[i].timestamp.Some? ::
          t.rows[j].timestamp.Some? && t.rows[j].timestamp.value <= t.rows[i].timestamp.value)
  }

  /** A node that posts found its gate open on a faithful history. */
  ghost predicate Honest(t: Tick, key: string, posts: seq<nat>) {
    Faithful(t, key, posts) && (t.sent ==> Open(t.rows, key, t.now, t.threshold))
  }

  ghost predicate Run(ticks: seq<Tick>, key: string) {
    forall n | 0 <= n < |ticks| :: Honest(ticks[n], key, Posts(ticks, n))
  }

  /** Post `p` is within reach of this tick's probe. */
  ghost predicate Visible(t: Tick, p: nat)
    requires |t.who| == |t.rows|
  {
    exists i :: 0 <= i < |t.rows| && i < PROBE_DEPTH && t.who[i] == Some(p)
  }

  lemma {:induction false} PostAt(ticks: seq<Tick>, i: nat, n: nat)
    requires i < n <= |ticks| && ticks[i].sent
    ensures |Posts(ticks, i)| < |Posts(ticks, n)| && Posts(ticks, n)[|Posts(ticks, i)|] == ticks[i].now
  {
    if i + 1 < n { PostAt(ticks, i, n - 1); }
  }

  /** Posting with an earlier post in reach means that post has aged past the
      poster's threshold. */
  lemma OpenMeansAged(t: Tick, key: string, posts: seq<nat>, p: nat)
    requires Faithful(t, key, posts) && p < |posts| && Visible(t, p)
    requires Open(t.rows, key, t.now, t.threshold) && t.threshold > 0
    ensures t.now >= posts[p] + t.threshold
  {
    var i :| 0 <= i < |t.rows| && i < PROBE_DEPTH && t.who[i] == Some(p);
    var f := FirstGenuine(t.rows, key);
    assert Genuine(t.rows[i], key);
    assert f <= i;
    assert t.who[f].Some?;
  }

  /** The smallest threshold any node of the run uses. */
  ghost predicate AtLeast(ticks: seq<Tick>, least: nat) {
    least > 0 && forall n | 0 <= n < |ticks| :: ticks[n].threshold >= least
  }

  /** Over every run, two posts are at least the smallest threshold apart, unless
      the earlier one is out of the later poster's reach. */
  lemma PostsKeepTheirDistance(ticks: seq<Tick>, key: string, least: nat)
    requires Run(ticks, key)
    ensures forall i, j | 0 <= i < j < |ticks| && ticks[i].sent && ticks[j].sent && AtLeast(ticks, least) ::
              |ticks[j].who| == |ticks[j].rows|
              && (Visible(ticks[j], |Posts(ticks, i)|) ==>
                    ticks[j].now >= ticks[i].now + ticks[j].threshold >= ticks[i].now + least)
  {
    forall i, j | 0 <= i < j < |ticks| && ticks[i].sent && ticks[j].sent && AtLeast(ticks, least)
      ensures |ticks[j].who| == |ticks[j].rows|
              && (Visible(ticks[j], |Posts(ticks, i)|) ==>
                    ticks[j].now >= ticks[i].now + ticks[j].threshold >= ticks[i].now + least)
    {
      PostAt(ticks, i, j);
      assert Honest(ticks[j], key, Posts(ticks, j));
      if Visible(ticks[j], |Posts(ticks, i)|) {
        OpenMeansAged(ticks[j], key, Posts(ticks, j), |Posts(ticks, i)|);
      }
    }
  }

  // ----- Out of reach -----

  function Forged(key: string): Row {
    Row(key, Some(false), Some(0))
  }

  /** A tick that finds the probe's depth in forged rows above the one real post. */
  function BuriedTick(key: string, threshold: nat): (t: Tick)
    ensures |t.rows| == |t.who| == PROBE_DEPTH + 1
    ensures forall i | 0 <= i < PROBE_DEPTH :: t.rows[i] == Forged(key) && t.who[i] == None
    ensures t.rows[PROBE_DEPTH] == Row(key, Some(true), None) && t.who[PROBE_DEPTH] == Some(0)
  {
    var forged := seq(PROBE_DEPTH, _ => Forged(key));
    var nobody: seq<Option<nat>> := seq(PROBE_DEPTH, _ => None);
    Tick(0, threshold, forged + [Row(key, Some(true), None)], nobody + [Some(0)], true)
  }

  lemma BuriedIsHonest(key: string, threshold: nat)
    ensures Honest(BuriedTick(key, threshold), key, [0])
  {
    var t := BuriedTick(key, threshold);
    forall i | 0 <= i < |t.rows| ensures t.who[i].Some? <==> Genuine(t.rows[i], key) {
      assert i < PROBE_DEPTH || i == PROBE_DEPTH;
    }
    assert forall i | 0 <= i < PROBE_DEPTH :: !Genuine(t.rows[i], key);
  }

  lemma FirstIsHonest(key: string, threshold: nat)
    ensures Honest(Tick(0, threshold, [], [], true), key, [])
  {
  }

  /** Reach matters: with the probe's depth in forged rows on top, two nodes post
      in the same second whatever their thresholds. */
  lemma BuriedPostIsRepeated(key: string, threshold: nat) returns (ticks: seq<Tick>)
    ensures Run(ticks, key) && |ticks| == 2
    ensures ticks[0].sent && ticks[1].sent && ticks[0].now == ticks[1].now
    ensures ticks[0].threshold == ticks[1].threshold == threshold
    ensures ticks[1] == BuriedTick(key, threshold)
  {
    var first, second := Tick(0, threshold, [], [], true), BuriedTick(key, threshold);
    ticks := [first, second];
    BuriedIsHonest(key, threshold);
    FirstIsHonest(key, threshold);
    assert Posts(ticks, 0) == [] && Posts(ticks, 1) == [0];
    forall n | 0 <= n < |ticks| ensures Honest(ticks[n], key, Posts(ticks, n)) {
      assert n == 0 || n == 1;
    }
  }
}
