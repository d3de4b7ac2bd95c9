/** A database never goes dark while it moves to the shared scan: over every run of
    syncs, scans, imports, enrolments, flips, leaves before the flip and crashes,
    reads always have the database's own account in hand, at a height that never
    drops. Scans that go backwards and writers of the same `keys.toml` racing each
    other are outside this model. */
module FleetRun {
  import opened Wrappers
  import Shards
  import opened Config
  import opened Fleet

  /** One database: its viewing key, the config it was created with, its disk, the
      shared scan's shards, and the writes an operation in progress still has to make. */
  datatype World = World(
    key: string,
    origin: Config,
    disk: Disk,
    shards: seq<string>,
    files: map<string, Shards.ShardFile>,
    heights: map<string, nat>,
    todo: seq<Write>)

  datatype Home = OwnFiles(scanned: nat) | InShard(dir: string, uuid: nat) | Importing | NoWallet | Refusing

  /** `locate`: where a read finds this database's wallet. */
  function Locate(w: World): Home {
    var d := w.disk;
    if d.keys.None? then NoWallet
    else if d.keys.value.engine != Fleet then
      if Ambiguous(d) then Refusing
      else if d.nested.data.Some? then OwnFiles(d.nested.data.value)
      else if d.root.data.Some? then OwnFiles(d.root.data.value)
      else NoWallet
    else if d.keys.value.ufvk.None? then Refusing
    else match Shards.FirstHit(Shards.Hinted(w.shards, d.keys.value.shard), w.files, d.keys.value.ufvk.value)
      case Err(_) => Refusing
      case Ok(None) => Importing
      case Ok(Some((dir, uuid))) => InShard(dir, uuid)
  }

  /** The height a read sees, when what it finds is this database's account. */
  function Answer(w: World): Option<nat> {
    match Locate(w)
    case OwnFiles(scanned) => Some(scanned)
    case InShard(dir, uuid) =>
      if dir in w.files && w.files[dir].Readable? && dir in w.heights
         && Shards.Account(uuid, Some(w.key)) in w.files[dir].accounts
      then Some(w.heights[dir]) else None
    case _ => None
  }

  // ----- What can happen -----

  datatype Step =
    | OwnSync(height: nat)
    | MigrateLayout
    | Import(dir: string, account: Shards.Account)
    | NewShard(dir: string)
    | Populate(n: nat, height: nat)
    | Scan(dir: string, height: nat)
    | CacheHint(dir: string)
    | StartEnrol
    | StartFlip(ownScanned: nat, dir: string, shardScanned: nat)
    | StartLeave
    | Exec
    | Crash

  function OwnHeight(d: Disk): nat {
    if d.nested.data.Some? then d.nested.data.value else if d.root.data.Some? then d.root.data.value else 0
  }

  /** This shard holds the database's account. */
  ghost predicate Holds(w: World, dir: string) {
    dir in w.shards && dir in w.heights && Shards.HeldBy(w.files, dir, w.key)
  }

  predicate Idle(w: World) {
    w.todo == [] && w.disk.keys.Some?
  }

  /** A flip has measured but not yet claimed. */
  predicate Flipping(w: World) {
    w.todo != [] && w.todo[0].PutKeys? && w.todo[0].cfg.engine == Fleet
  }

  predicate OnOwnFiles(w: World) {
    w.disk.keys.Some? && w.disk.keys.value.engine != Fleet && !Flipping(w)
  }

  /** When a step can be taken. Operations on one `keys.toml` do not overlap, and the
      own files stand still between a flip's measurement and its claim. */
  ghost predicate Enabled(w: World, s: Step) {
    var d := w.disk;
    match s
    // A node of the database's own syncs forward, or moves the files to its layout.
    case OwnSync(h) => OnOwnFiles(w) && h >= OwnHeight(d)
    case MigrateLayout => OnOwnFiles(w) && d.root.data.Some? && d.nested.data.None?
    // The shared scan imports this database for its manifest, once, and others freely.
    case Import(dir, a) =>
      && dir in w.shards && Shards.Opens(w.files, dir)
      && (a.ufvk == Some(w.key) ==>
            && d.manifest.Some? && d.manifest.value.Good? && d.manifest.value.manifest.ufvk == w.key
            && forall x :: !Holds(w, x))
    // A shard's directory comes before its wallet database, and does not open until then;
    // shards get theirs in the order they were created.
    case NewShard(dir) => dir !in w.shards
    case Populate(n, _) =>
      && n < |w.shards| && !Shards.Opens(w.files, w.shards[n])
      && forall i | 0 <= i < n :: Shards.Opens(w.files, w.shards[i])
    case Scan(dir, h) => dir in w.heights && h >= w.heights[dir]
    // A search that found the account remembers where.
    case CacheHint(dir) =>
      && d.keys.Some? && !Standalone(d.keys.value.engine)
      && (d.keys.value.engine == Fleet || w.todo == []) && Holds(w, dir)
    case StartEnrol => Idle(w) && d.keys.value.role == Watch && Standalone(d.keys.value.engine)
    // What the own sync reached covers the own files, and the shard's number is one a
    // sync of this member through the shared scan certified.
    case StartFlip(own, dir, shard) =>
      && Idle(w) && d.keys.value.engine == FleetPending && shard >= own >= OwnHeight(d)
      && Holds(w, dir) && shard <= w.heights[dir]
    case StartLeave => Idle(w) && d.keys.value.engine == FleetPending
    case Exec => w.todo != []
    case Crash => true
  }

  function WithOwnData(d: Disk, h: nat): Disk {
    if d.nested.data.Some? then d.(nested := d.nested.(data := Some(h))) else d.(root := d.root.(data := Some(h)))
  }

  function Migrated(d: Disk): Disk {
    d.(nested := d.root, root := EMPTY, coinDir := true)
  }

  ghost function Stepped(w: World, s: Step): World
    requires Enabled(w, s)
  {
    match s
    case OwnSync(h) => w.(disk := WithOwnData(w.disk, h))
    case MigrateLayout => w.(disk := Migrated(w.disk))
    case Import(dir, a) => w.(files := w.files[dir := Shards.Readable(w.files[dir].accounts + [a])])
    case NewShard(dir) => w.(shards := w.shards + [dir], files := w.files[dir := Shards.Unreadable])
    case Populate(n, h) =>
      w.(files := w.files[w.shards[n] := Shards.Readable([])], heights := w.heights[w.shards[n] := h])
    case Scan(dir, h) => w.(heights := w.heights[dir := h])
    case CacheHint(dir) => w.(disk := Apply(w.disk, PutKeys(Updated(w.disk.keys.value, CacheShard(dir)))))
    case StartEnrol => w.(todo := EnrolPlan(w.disk, Some(w.key)))
    case StartFlip(_, _, _) => w.(todo := FlipPlan(w.disk))
    case StartLeave => w.(todo := LeavePlan(w.disk.keys.value))
    case Exec => w.(disk := Apply(w.disk, w.todo[0]), todo := w.todo[1..])
    case Crash => w.(todo := [])
  }

  // ----- What holds throughout -----

  ghost predicate ShardsSound(w: World) {
    && (forall a, b | 0 <= a < b < |w.shards| && Shards.Opens(w.files, w.shards[b]) ::
          Shards.Opens(w.files, w.shards[a]))
    && (forall a, b | 0 <= a < b < |w.shards| :: w.shards[a] != w.shards[b])
    && (forall dir | dir in w.shards && Shards.Opens(w.files, dir) :: dir in w.heights)
    && (forall a, b | Holds(w, a) && Holds(w, b) :: a == b)
  }

  /** A config of this database: on the shared scan only if it is watch-only and has
      its key pinned, and remembering only the shard that holds it. */
  ghost predicate Ours(w: World, c: Config) {
    && SameIdentity(w.origin, c)
    && (c.shard.Some? ==> Holds(w, c.shard.value))
    && (c.ufvk == Some(w.key) || (c.ufvk.None? && Standalone(c.engine)))
    && (c.role == Watch || Standalone(c.engine))
  }

  /** The place reads go to can answer. */
  ghost predicate Served(w: World) {
    && w.disk.keys.Some? && Ours(w, w.disk.keys.value)
    && (if w.disk.keys.value.engine == Fleet then exists dir :: Holds(w, dir)
        else !Ambiguous(w.disk) && (w.disk.root.data.Some? || w.disk.nested.data.Some?))
  }

  ghost predicate Calm(w: World, x: Write) {
    || x.PutManifest? || x.RemoveManifest?
    || (x.PutKeys? && Ours(w, x.cfg) && x.cfg.engine != Fleet)
  }

  /** The claim that hands reads over to a shard at least as far along. */
  ghost predicate HandsOver(w: World, x: Write) {
    && x.PutKeys? && x.cfg.engine == Fleet && Ours(w, x.cfg)
    && exists dir :: Holds(w, dir) && w.heights[dir] >= OwnHeight(w.disk)
  }

  ghost predicate TodoSafe(w: World) {
    if w.disk.keys.Some? && w.disk.keys.value.engine == Fleet then forall x | x in w.todo :: Discards(x)
    else
      || (forall x | x in w.todo :: Calm(w, x))
      || (w.todo != [] && HandsOver(w, w.todo[0]) && forall x | x in w.todo[1..] :: Discards(x))
  }

  ghost predicate Inv(w: World) {
    ShardsSound(w) && Served(w) && TodoSafe(w)
  }

  /** The search finds the home shard: at once with a hint, else over shards that open. */
  lemma FindsHome(w: World, home: string)
    requires ShardsSound(w) && Holds(w, home) && w.disk.keys.Some?
    requires w.disk.keys.value.shard.None? || w.disk.keys.value.shard == Some(home)
    ensures var r := Shards.FirstHit(Shards.Hinted(w.shards, w.disk.keys.value.shard), w.files, w.key);
            && r.Ok? && r.value.Some? && r.value.value.0 == home
            && Shards.Account(r.value.value.1, Some(w.key)) in w.files[home].accounts
  {
    if w.disk.keys.value.shard.Some? {
      Shards.HintComesFirst(w.shards, home);
      Shards.HitIsHome(Shards.Hinted(w.shards, Some(home)), w.files, w.key, 0);
    } else {
      var p := Shards.Position(w.shards, home);
      forall i | 0 <= i < p ensures Shards.Opens(w.files, w.shards[i]) && !Shards.HeldBy(w.files, w.shards[i], w.key) {
        if Shards.HeldBy(w.files, w.shards[i], w.key) { assert Holds(w, w.shards[i]); }
      }
      Shards.HitIsHome(w.shards, w.files, w.key, p);
    }
  }

  /** What a read sees: the home shard's height, or its own files'. */
  lemma AnswerIs(w: World)
    requires ShardsSound(w) && Served(w)
    ensures w.disk.keys.value.engine != Fleet ==> Answer(w) == Some(OwnHeight(w.disk))
    ensures w.disk.keys.value.engine == Fleet ==> forall dir | Holds(w, dir) :: Answer(w) == Some(w.heights[dir])
    ensures Answer(w).Some?
  {
    if w.disk.keys.value.engine == Fleet {
      var home :| Holds(w, home);
      FindsHome(w, home);
    }
  }

  // ----- Each step keeps it, and never lowers the answer -----

  ghost predicate Fine(w: World, v: World) {
    Inv(v) && Answer(w).Some? && Answer(v).Some? && Answer(v).value >= Answer(w).value
  }

  /** Only the disk or the pending writes changed: the shards are as they were. */
  predicate SameScan(w: World, v: World) {
    v.shards == w.shards && v.files == w.files && v.heights == w.heights && v.key == w.key && v.origin == w.origin
  }

  lemma SameScanSound(w: World, v: World)
    requires SameScan(w, v) && ShardsSound(w)
    ensures ShardsSound(v)
  {
    assert forall x :: Holds(v, x) ==> Shards.HeldBy(w.files, x, w.key) && Holds(w, x);
  }

  lemma SameCalm(w: World, v: World, x: Write)
    requires SameScan(w, v) && Calm(w, x)
    ensures Calm(v, x)
  {
    if x.PutKeys? && x.cfg.shard.Some? { assert Holds(w, x.cfg.shard.value); }
  }

  lemma SameOurs(w: World, v: World, c: Config)
    requires SameScan(w, v) && Ours(w, c)
    ensures Ours(v, c)
  {
    if c.shard.Some? { assert Holds(w, c.shard.value); }
  }

  /** Only the shared scan moved, and only forward. */
  ghost predicate Forward(w: World, v: World) {
    && v.disk == w.disk && v.todo == w.todo && v.key == w.key && v.origin == w.origin
    && forall x | Holds(w, x) :: Holds(v, x) && v.heights[x] >= w.heights[x]
  }

  lemma ForwardOurs(w: World, v: World, c: Config)
    requires Forward(w, v) && Ours(w, c)
    ensures Ours(v, c)
  {
  }

  lemma ForwardTodo(w: World, v: World)
    requires Forward(w, v) && TodoSafe(w)
    ensures TodoSafe(v)
  {
    if !(w.disk.keys.Some? && w.disk.keys.value.engine == Fleet) {
      if forall x | x in w.todo :: Calm(w, x) {
        forall x | x in w.todo ensures Calm(v, x) {
          assert Calm(w, x);
          if x.PutKeys? { ForwardOurs(w, v, x.cfg); }
        }
      } else {
        ForwardOurs(w, v, w.todo[0].cfg);
        var dir :| Holds(w, dir) && w.heights[dir] >= OwnHeight(w.disk);
        assert Holds(v, dir);
      }
    }
  }

  lemma ForwardIsFine(w: World, v: World)
    requires Inv(w) && Forward(w, v) && ShardsSound(v)
    ensures Fine(w, v)
  {
    ForwardOurs(w, v, w.disk.keys.value);
    ForwardTodo(w, v);
    AnswerIs(w);
    if w.disk.keys.value.engine == Fleet {
      var dir :| Holds(w, dir);
      assert Holds(v, dir);
    }
    AnswerIs(v);
  }

  lemma OwnFilesStep(w: World, s: Step)
    requires Inv(w) && Enabled(w, s) && (s.OwnSync? || s.MigrateLayout?)
    ensures Fine(w, Stepped(w, s))
  {
    var v := Stepped(w, s);
    SameScanSound(w, v);
    SameOurs(w, v, w.disk.keys.value);
    forall x | x in w.todo && Calm(w, x) ensures Calm(v, x) { SameCalm(w, v, x); }
    AnswerIs(w);
    AnswerIs(v);
  }

  /** More accounts in a shard: this database's only if its key is the new one's. */
  lemma ImportHolds(w: World, dir: string, a: Shards.Account, x: string)
    requires ShardsSound(w) && Enabled(w, Import(dir, a))
    ensures Holds(Stepped(w, Import(dir, a)), x) <==> Holds(w, x) || (x == dir && a.ufvk == Some(w.key))
  {
    var v := Stepped(w, Import(dir, a));
    var had, have := w.files[dir].accounts, v.files[dir].accounts;
    assert Shards.Holds(have, w.key) <==> Shards.Holds(had, w.key) || a.ufvk == Some(w.key) by {
      if i :| 0 <= i < |had| && had[i].ufvk == Some(w.key) { assert have[i].ufvk == Some(w.key); }
      assert have[|had|] == a;
      if i :| 0 <= i < |have| && have[i].ufvk == Some(w.key) { assert i < |had| ==> had[i].ufvk == Some(w.key); }
    }
  }

  lemma ImportSound(w: World, dir: string, a: Shards.Account)
    requires ShardsSound(w) && Enabled(w, Import(dir, a))
    ensures ShardsSound(Stepped(w, Import(dir, a))) && Forward(w, Stepped(w, Import(dir, a)))
  {
    forall x ensures Holds(Stepped(w, Import(dir, a)), x) <==> Holds(w, x) || (x == dir && a.ufvk == Some(w.key)) {
      ImportHolds(w, dir, a, x);
    }
  }

  lemma ScanSound(w: World, dir: string, h: nat)
    requires ShardsSound(w) && Enabled(w, Scan(dir, h))
    ensures ShardsSound(Stepped(w, Scan(dir, h))) && Forward(w, Stepped(w, Scan(dir, h)))
  {
    assert forall x :: Holds(Stepped(w, Scan(dir, h)), x) <==> Holds(w, x);
  }

  lemma NewShardSound(w: World, dir: string)
    requires ShardsSound(w) && Enabled(w, NewShard(dir))
    ensures ShardsSound(Stepped(w, NewShard(dir))) && Forward(w, Stepped(w, NewShard(dir)))
  {
    assert forall x :: Holds(Stepped(w, NewShard(dir)), x) <==> Holds(w, x);
  }

  lemma PopulateSound(w: World, n: nat, h: nat)
    requires ShardsSound(w) && Enabled(w, Populate(n, h))
    ensures ShardsSound(Stepped(w, Populate(n, h))) && Forward(w, Stepped(w, Populate(n, h)))
  {
    var v := Stepped(w, Populate(n, h));
    assert v.files[w.shards[n]].accounts == [];
    assert forall x :: Holds(v, x) <==> Holds(w, x);
  }

  lemma ScanStep(w: World, s: Step)
    requires Inv(w) && Enabled(w, s) && (s.Import? || s.Scan? || s.NewShard? || s.Populate?)
    ensures Fine(w, Stepped(w, s))
  {
    match s {
      case Import(dir, a) => ImportSound(w, dir, a);
      case Scan(dir, h) => ScanSound(w, dir, h);
      case NewShard(dir) => NewShardSound(w, dir);
      case Populate(n, h) => PopulateSound(w, n, h);
    }
    ForwardIsFine(w, Stepped(w, s));
  }

  /** Only the pending writes changed. */
  lemma SameAnswer(w: World, todo: seq<Write>)
    requires Inv(w) && TodoSafe(w.(todo := todo))
    ensures Fine(w, w.(todo := todo))
  {
    var v := w.(todo := todo);
    SameScanSound(w, v);
    SameOurs(w, v, w.disk.keys.value);
    AnswerIs(w);
    if w.disk.keys.value.engine == Fleet {
      var dir :| Holds(w, dir);
      assert Holds(v, dir);
    }
    AnswerIs(v);
  }

  lemma AllCalm(w: World, plan: seq<Write>)
    requires Inv(w) && w.disk.keys.value.engine != Fleet
    requires forall x | x in plan :: Calm(w, x)
    ensures Fine(w, w.(todo := plan))
  {
    var v := w.(todo := plan);
    forall x | x in plan ensures Calm(v, x) { SameCalm(w, v, x); }
    SameAnswer(w, plan);
  }

  lemma EnrolCalm(w: World, x: Write)
    requires Inv(w) && Enabled(w, StartEnrol) && x in EnrolPlan(w.disk, Some(w.key))
    ensures Calm(w, x)
  {
    assert Ours(w, w.disk.keys.value);
  }

  lemma EnrolStart(w: World)
    requires Inv(w) && Enabled(w, StartEnrol)
    ensures Fine(w, Stepped(w, StartEnrol))
  {
    var plan := EnrolPlan(w.disk, Some(w.key));
    forall x | x in plan ensures Calm(w, x) { EnrolCalm(w, x); }
    AllCalm(w, plan);
  }

  lemma LeaveStart(w: World)
    requires Inv(w) && Enabled(w, StartLeave)
    ensures Fine(w, Stepped(w, StartLeave))
  {
    AllCalm(w, LeavePlan(w.disk.keys.value));
  }

  lemma FlipStart(w: World, own: nat, dir: string, shard: nat)
    requires Inv(w) && Enabled(w, StartFlip(own, dir, shard))
    ensures Fine(w, Stepped(w, StartFlip(own, dir, shard)))
  {
    var plan := FlipPlan(w.disk);
    var v := w.(todo := plan);
    assert Holds(v, dir);
    assert HandsOver(v, plan[0]);
    assert plan[1..] == DiscardPlan(w.disk);
    SameAnswer(w, plan);
  }

  lemma CrashStep(w: World)
    requires Inv(w)
    ensures Fine(w, Stepped(w, Crash))
  {
    SameAnswer(w, []);
  }

  lemma HintStep(w: World, dir: string)
    requires Inv(w) && Enabled(w, CacheHint(dir))
    ensures Fine(w, Stepped(w, CacheHint(dir)))
  {
    var v := Stepped(w, CacheHint(dir));
    SameScanSound(w, v);
    assert Holds(v, dir);
    AnswerIs(w);
    AnswerIs(v);
  }

  lemma ExecDiscard(w: World)
    requires Inv(w) && w.todo != [] && w.disk.keys.value.engine == Fleet
    ensures Fine(w, Stepped(w, Exec))
  {
    var v := Stepped(w, Exec);
    assert Discards(w.todo[0]);
    assert forall x | x in v.todo :: x in w.todo;
    SameScanSound(w, v);
    SameOurs(w, v, w.disk.keys.value);
    var dir :| Holds(w, dir);
    assert Holds(v, dir);
    AnswerIs(w);
    AnswerIs(v);
  }

  lemma ExecCalm(w: World)
    requires Inv(w) && w.todo != [] && w.disk.keys.value.engine != Fleet
    requires forall x | x in w.todo :: Calm(w, x)
    ensures Fine(w, Stepped(w, Exec))
  {
    var v := Stepped(w, Exec);
    assert Calm(w, w.todo[0]);
    forall x | x in v.todo ensures Calm(v, x) {
      assert x in w.todo;
      SameCalm(w, v, x);
    }
    SameScanSound(w, v);
    SameOurs(w, v, v.disk.keys.value);
    AnswerIs(w);
    AnswerIs(v);
  }

  lemma ExecHandOver(w: World)
    requires Inv(w) && w.todo != [] && w.disk.keys.value.engine != Fleet
    requires HandsOver(w, w.todo[0]) && forall x | x in w.todo[1..] :: Discards(x)
    ensures Fine(w, Stepped(w, Exec))
  {
    var v := Stepped(w, Exec);
    var dir :| Holds(w, dir) && w.heights[dir] >= OwnHeight(w.disk);
    assert Holds(v, dir);
    SameScanSound(w, v);
    SameOurs(w, v, w.todo[0].cfg);
    AnswerIs(w);
    AnswerIs(v);
  }

  lemma ExecStep(w: World)
    requires Inv(w) && w.todo != []
    ensures Fine(w, Stepped(w, Exec))
  {
    if w.disk.keys.value.engine == Fleet {
      ExecDiscard(w);
    } else if forall x | x in w.todo :: Calm(w, x) {
      ExecCalm(w);
    } else {
      ExecHandOver(w);
    }
  }

  lemma StepIsFine(w: World, s: Step)
    requires Inv(w) && Enabled(w, s)
    ensures Fine(w, Stepped(w, s))
  {
    match s
    case OwnSync(_) => OwnFilesStep(w, s);
    case MigrateLayout => OwnFilesStep(w, s);
    case Import(_, _) => ScanStep(w, s);
    case NewShard(_) => ScanStep(w, s);
    case Populate(_, _) => ScanStep(w, s);
    case Scan(_, _) => ScanStep(w, s);
    case CacheHint(dir) => HintStep(w, dir);
    case StartEnrol => EnrolStart(w);
    case StartFlip(own, dir, shard) => FlipStart(w, own, dir, shard);
    case StartLeave => LeaveStart(w);
    case Exec => ExecStep(w);
    case Crash => CrashStep(w);
  }

  // ----- Over whole runs -----

  /** A database of its own, as creation leaves it, next to any shards that open and
      hold its key at most once. */
  ghost predicate Start(w: World) {
    && ShardsSound(w) && w.todo == [] && w.disk.keys.Some? && Ours(w, w.disk.keys.value)
    && Standalone(w.disk.keys.value.engine)
    && !Ambiguous(w.disk) && (w.disk.root.data.Some? || w.disk.nested.data.Some?)
  }

  ghost predicate Path(ws: seq<World>, steps: seq<Step>) {
    && |ws| == |steps| + 1
    && forall i | 0 <= i < |steps| :: Enabled(ws[i], steps[i]) && ws[i + 1] == Stepped(ws[i], steps[i])
  }

  ghost predicate Run(ws: seq<World>, steps: seq<Step>) {
    Path(ws, steps) && Start(ws[0])
  }

  lemma {:induction false} RunIsFine(ws: seq<World>, steps: seq<Step>, i: nat)
    requires Path(ws, steps) && (Start(ws[0]) || Inv(ws[0])) && i <= |steps|
    ensures Inv(ws[i])
  {
    if i > 0 {
      RunIsFine(ws, steps, i - 1);
      assert ws[i - 1 + 1] == Stepped(ws[i - 1], steps[i - 1]);
      StepIsFine(ws[i - 1], steps[i - 1]);
    }
  }

  lemma NeverLower(ws: seq<World>, steps: seq<Step>, i: nat)
    requires Run(ws, steps) && i < |steps|
    ensures Answer(ws[i]).Some? && Answer(ws[i + 1]).Some? && Answer(ws[i + 1]).value >= Answer(ws[i]).value
  {
    RunIsFine(ws, steps, i);
    StepIsFine(ws[i], steps[i]);
  }

  function Answers(ws: seq<World>): seq<Option<nat>> {
    seq(|ws|, i requires 0 <= i < |ws| => Answer(ws[i]))
  }

  lemma {:induction false} Rising(answers: seq<Option<nat>>, i: nat, j: nat)
    requires i <= j < |answers|
    requires forall m | 0 <= m < |answers| :: answers[m].Some?
    requires forall m | 0 <= m < |answers| - 1 :: answers[m + 1].value >= answers[m].value
    ensures answers[j].value >= answers[i].value
    decreases j - i
  {
    if i < j {
      Rising(answers, i, j - 1);
      assert answers[j - 1 + 1].value >= answers[j - 1].value;
    }
  }

  /** At every moment of every run the database answers from its own account, and no
      later moment answers from a lower height. */
  lemma NeverDark(ws: seq<World>, steps: seq<Step>, i: nat, j: nat)
    requires Run(ws, steps) && i <= j <= |steps|
    ensures Answer(ws[i]).Some? && Answer(ws[j]).Some? && Answer(ws[j]).value >= Answer(ws[i]).value
  {
    var answers := Answers(ws);
    forall m | 0 <= m < |answers| ensures answers[m].Some? {
      RunIsFine(ws, steps, m);
      AnswerIs(ws[m]);
    }
    forall m | 0 <= m < |answers| - 1 ensures answers[m + 1].value >= answers[m].value {
      NeverLower(ws, steps, m);
    }
    Rising(answers, i, j);
  }

  /** At every moment of every run the recorded config reads back exactly, and is
      still the config of the database that was created. */
  lemma AlwaysReadable(ws: seq<World>, steps: seq<Step>, i: nat)
    requires Run(ws, steps) && i <= |steps|
    ensures ws[i].disk.keys.Some? && SameIdentity(ws[i].origin, ws[i].disk.keys.value)
    ensures Decode(Encode(ws[i].disk.keys.value)) == Ok(ws[i].disk.keys.value)
  {
    RunIsFine(ws, steps, i);
    ReadsBackIff(ws[i].disk.keys.value);
  }

  // ----- Manifest before claim, over whole runs -----

  /** What may be pending while no leave is: the rest of an enrolment, a flip about to
      claim, or the removals after it. */
  predicate Filed(w: World) {
    && w.disk.keys.Some? && Backed(w.disk)
    && match w.disk.keys.value.engine
       case FleetPending =>
         w.todo == [] || (w.todo[0] == FlipPlan(w.disk)[0] && forall x | x in w.todo[1..] :: Discards(x))
       case Fleet => forall x | x in w.todo :: Discards(x)
       case _ => w.todo == [] || w.todo == EnrolPlan(w.disk, Some(w.key))
  }

  lemma FiledExec(w: World)
    requires Filed(w) && w.todo != []
    ensures Filed(Stepped(w, Exec))
  {
    var v := Stepped(w, Exec);
    if Standalone(w.disk.keys.value.engine) {
      EnrolKeepsBacked(w.disk, Some(w.key), 1);
      EnrolResumes(w.disk, Some(w.key));
    } else if w.disk.keys.value.engine == Fleet {
      assert Discards(w.todo[0]);
      assert forall x | x in v.todo :: x in w.todo;
    }
  }

  /** Heights, files and shards are not what a claim rests on. */
  lemma FiledSame(w: World, v: World)
    requires Filed(w) && v.todo == w.todo && v.key == w.key
    requires v.disk.keys == w.disk.keys && v.disk.manifest == w.disk.manifest
    ensures Filed(v)
  {
    assert EnrolPlan(v.disk, Some(v.key)) == EnrolPlan(w.disk, Some(w.key));
    assert FlipPlan(v.disk)[0] == FlipPlan(w.disk)[0];
  }

  lemma FiledStart(w: World, s: Step)
    requires Filed(w) && Enabled(w, s) && (s.StartEnrol? || s.StartFlip? || s.Crash? || s.CacheHint?)
    ensures Filed(Stepped(w, s))
  {
    if s.StartFlip? { assert FlipPlan(w.disk)[1..] == DiscardPlan(w.disk); }
  }

  lemma FiledStep(w: World, s: Step)
    requires Filed(w) && Enabled(w, s) && !s.StartLeave?
    ensures Filed(Stepped(w, s))
  {
    if s.Exec? {
      FiledExec(w);
    } else if s.StartEnrol? || s.StartFlip? || s.Crash? || s.CacheHint? {
      FiledStart(w, s);
    } else {
      FiledSame(w, Stepped(w, s));
    }
  }

  /** In every run without a leave, at every moment, whoever claims to be on the shared
      scan has the manifest its config describes. */
  lemma {:induction false} ClaimsStayBacked(ws: seq<World>, steps: seq<Step>, i: nat)
    requires Run(ws, steps) && i <= |steps|
    requires forall j | 0 <= j < i :: !steps[j].StartLeave?
    ensures Filed(ws[i]) && Backed(ws[i].disk)
  {
    if i > 0 {
      ClaimsStayBacked(ws, steps, i - 1);
      assert ws[i - 1 + 1] == Stepped(ws[i - 1], steps[i - 1]);
      FiledStep(ws[i - 1], steps[i - 1]);
    }
  }

  // ----- Why the guards are there -----

  /** The moment of the flip, whatever was measured before: the height is kept exactly
      when the home shard really covers the own files by then. */
  lemma FlipKeepsHeightIff(w: World, home: string)
    requires ShardsSound(w) && Served(w) && w.disk.keys.value.engine == FleetPending && Holds(w, home)
    ensures var v := w.(disk := Apply(w.disk, FlipPlan(w.disk)[0]));
            && Answer(w).Some? && Answer(v).Some?
            && (Answer(v).value >= Answer(w).value <==> w.heights[home] >= OwnHeight(w.disk))
  {
    var v := w.(disk := Apply(w.disk, FlipPlan(w.disk)[0]));
    assert forall x :: Holds(v, x) <==> Holds(w, x);
    AnswerIs(w);
    AnswerIs(v);
  }

  /** A flip for a member no shard holds would go dark at once: importing, or stopped
      by a shard that does not open yet. */
  lemma FlipNeedsImport(w: World)
    requires ShardsSound(w) && Served(w) && w.disk.keys.value.engine == FleetPending
    requires forall dir :: !Holds(w, dir)
    ensures Locate(w.(disk := Apply(w.disk, FlipPlan(w.disk)[0])))
         == if forall dir | dir in w.shards :: Shards.Opens(w.files, dir) then Importing else Refusing
  {
    var v := w.(disk := Apply(w.disk, FlipPlan(w.disk)[0]));
    var hint := v.disk.keys.value.shard;
    Shards.HitMeans(Shards.Hinted(v.shards, hint), v.files, v.key);
    Shards.HintKeepsShards(v.shards, hint);
    forall dir | dir in v.shards && Shards.Opens(v.files, dir) ensures !Shards.HeldBy(v.files, dir, v.key) {
      assert !Holds(w, dir);
    }
  }

  /** Before the flip, leaving changes nothing a read sees, wherever it is cut short.
      After it the last write decides, and there have to be files to return to. */
  lemma LeaveAnswersIff(w: World, n: nat)
    requires ShardsSound(w) && Served(w) && !Standalone(w.disk.keys.value.engine) && n <= 2
    ensures var v := w.(disk := After(w.disk, LeavePlan(w.disk.keys.value), n));
            if n < 2 || w.disk.keys.value.engine == FleetPending then Answer(v) == Answer(w)
            else Answer(v).Some? <==> !Ambiguous(w.disk) && (w.disk.root.data.Some? || w.disk.nested.data.Some?)
  {
    Unroll(w.disk, LeavePlan(w.disk.keys.value));
    var v := w.(disk := After(w.disk, LeavePlan(w.disk.keys.value), n));
    assert forall x :: Holds(v, x) <==> Holds(w, x);
    if n < 2 {
      AnswerIs(w);
      AnswerIs(v);
    }
  }

  // ----- Progress: what is begun can be finished -----

  function Last(ws: seq<World>): World
    requires ws != []
  {
    ws[|ws| - 1]
  }

  lemma PathCons(w: World, s: Step, ws: seq<World>, steps: seq<Step>)
    requires Enabled(w, s) && Path(ws, steps) && ws[0] == Stepped(w, s)
    ensures Path([w] + ws, [s] + steps) && Last([w] + ws) == Last(ws)
  {
    var vs, ts := [w] + ws, [s] + steps;
    forall i | 0 <= i < |ts| ensures Enabled(vs[i], ts[i]) && vs[i + 1] == Stepped(vs[i], ts[i]) {
      if i > 0 { assert ts[i] == steps[i - 1] && vs[i] == ws[i - 1] && vs[i + 1] == ws[i - 1 + 1]; }
    }
  }

  /** One path behind another; behind a run it is a run. */
  lemma PathAppend(ws: seq<World>, steps: seq<Step>, us: seq<World>, more: seq<Step>)
    requires Path(ws, steps) && Path(us, more) && us[0] == Last(ws)
    ensures Path(ws + us[1..], steps + more) && Last(ws + us[1..]) == Last(us) && (ws + us[1..])[0] == ws[0]
    ensures Run(ws, steps) ==> Run(ws + us[1..], steps + more)
  {
    var vs, ts := ws + us[1..], steps + more;
    forall i | 0 <= i < |ts| ensures Enabled(vs[i], ts[i]) && vs[i + 1] == Stepped(vs[i], ts[i]) {
      if i >= |steps| {
        var n := i - |steps|;
        assert ts[i] == more[n] && vs[i] == us[n] && vs[i + 1] == us[n + 1];
      } else {
        assert ts[i] == steps[i] && vs[i] == ws[i] && vs[i + 1] == ws[i + 1];
      }
    }
  }

  predicate AllExec(steps: seq<Step>) {
    forall s | s in steps :: s == Exec
  }

  /** Undisturbed, pending writes are all made. */
  lemma {:induction false} ExecAll(w: World) returns (ws: seq<World>, steps: seq<Step>)
    ensures Path(ws, steps) && ws[0] == w && AllExec(steps)
    ensures Last(ws) == w.(disk := AfterAll(w.disk, w.todo), todo := [])
    decreases |w.todo|
  {
    if w.todo == [] {
      ws, steps := [w], [];
    } else {
      ws, steps := ExecAll(Stepped(w, Exec));
      AfterTail(w.disk, w.todo, |w.todo| - 1);
      PathCons(w, Exec, ws, steps);
      ws, steps := [w] + ws, [Exec] + steps;
    }
  }

  /** An operation that plans `plan`, begun and run through. */
  lemma Operation(w: World, s: Step, plan: seq<Write>) returns (ws: seq<World>, steps: seq<Step>)
    requires Enabled(w, s) && Stepped(w, s) == w.(todo := plan)
    ensures Path(ws, steps) && ws[0] == w && steps != [] && steps[0] == s && AllExec(steps[1..])
    ensures Last(ws) == w.(disk := AfterAll(w.disk, plan), todo := [])
  {
    ws, steps := ExecAll(Stepped(w, s));
    PathCons(w, s, ws, steps);
    ws, steps := [w] + ws, [s] + steps;
    assert steps[1..] == steps[1..];
  }

  /** A converting database whose shard is as far as its own files can flip at once: the
      flip's writes leave it a member, with no wallet files of its own, reading from the
      shard. Equal heights are enough. */
  lemma FlipCompletes(w: World, home: string) returns (ws: seq<World>, steps: seq<Step>)
    requires Inv(w) && w.todo == [] && w.disk.keys.value.engine == FleetPending
    requires Holds(w, home) && w.heights[home] >= OwnHeight(w.disk)
    ensures Path(ws, steps) && ws[0] == w
    ensures steps != [] && steps[0] == StartFlip(OwnHeight(w.disk), home, w.heights[home]) && AllExec(steps[1..])
    ensures var v := Last(ws);
            && v.todo == [] && v.disk.keys == Some(w.disk.keys.value.(engine := Engine.Fleet))
            && v.disk.root.data.None? && v.disk.nested.data.None? && !v.disk.coinDir
            && v.disk.manifest == w.disk.manifest && SameScan(w, v) && Answer(v) == Some(w.heights[home])
  {
    var s, plan := StartFlip(OwnHeight(w.disk), home, w.heights[home]), FlipPlan(w.disk);
    ws, steps := Operation(w, s, plan);
    var v := Last(ws);
    FlipEnds(w.disk);
    RunIsFine(ws, steps, |steps|);
    AnswerIs(v);
    assert Holds(v, home);
  }

  lemma FlipEnds(d: Disk)
    requires d.keys.Some? && !Ambiguous(d)
    ensures var r := AfterAll(d, FlipPlan(d));
            && r.keys == Some(d.keys.value.(engine := Engine.Fleet)) && r.manifest == d.manifest
            && r.root.data.None? && r.nested.data.None? && !r.coinDir
  {
    AfterTail(d, FlipPlan(d), |DiscardPlan(d)|);
    DiscardCompletes(Apply(d, FlipPlan(d)[0]));
    assert FlipPlan(d)[1..] == DiscardPlan(d);
  }

  /** A database can be enrolled when it is watch-only, undecided or on its own node, can
      name its key, and no other manifest is in the way. */
  predicate Enrollable(w: World) {
    && w.disk.keys.Some? && w.disk.keys.value.role == Watch && w.disk.keys.value.engine in {Unset, Own}
    && (w.disk.keys.value.ufvk.Some? || w.disk.keys.value.zkvAddress.Some?)
    && (w.disk.manifest.None?
        || w.disk.manifest == Some(Good(Manifest(w.key, w.disk.keys.value.birthday))))
  }

  lemma EnrolCompletes(w: World) returns (ws: seq<World>, steps: seq<Step>)
    requires Inv(w) && w.todo == [] && Enrollable(w)
    ensures Path(ws, steps) && ws[0] == w && steps != [] && steps[0] == StartEnrol && AllExec(steps[1..])
    ensures var c := w.disk.keys.value;
            Last(ws) == w.(disk := w.disk.(keys := Some(c.(ufvk := Some(w.key), engine := FleetPending)),
                                           manifest := Some(Good(Manifest(w.key, c.birthday)))))
  {
    ws, steps := Operation(w, StartEnrol, EnrolPlan(w.disk, Some(w.key)));
    Unroll(w.disk, EnrolPlan(w.disk, Some(w.key)));
  }

  lemma LeaveCompletes(w: World) returns (ws: seq<World>, steps: seq<Step>)
    requires Inv(w) && w.todo == [] && w.disk.keys.value.engine == FleetPending
    ensures Path(ws, steps) && ws[0] == w && steps != [] && steps[0] == StartLeave && AllExec(steps[1..])
    ensures Last(ws) == w.(disk := w.disk.(keys := Some(w.disk.keys.value.(engine := Own, shard := None)),
                                           manifest := None))
  {
    ws, steps := Operation(w, StartLeave, LeavePlan(w.disk.keys.value));
    Unroll(w.disk, LeavePlan(w.disk.keys.value));
  }

  lemma OneStep(w: World, s: Step) returns (ws: seq<World>, steps: seq<Step>)
    requires Inv(w) && Enabled(w, s)
    ensures Path(ws, steps) && ws[0] == w && Last(ws) == Stepped(w, s) && Inv(Last(ws))
  {
    ws, steps := [w, Stepped(w, s)], [s];
    StepIsFine(w, s);
  }

  /** The shared scan imports a converting database it does not hold yet. */
  lemma Imports(w: World, dir: string) returns (ws: seq<World>, steps: seq<Step>)
    requires Inv(w) && dir in w.shards && Shards.Opens(w.files, dir) && forall x | Holds(w, x) :: x == dir
    requires w.disk.manifest.Some? && w.disk.manifest.value.Good? && w.disk.manifest.value.manifest.ufvk == w.key
    ensures Path(ws, steps) && ws[0] == w && Inv(Last(ws))
    ensures Holds(Last(ws), dir) && Last(ws).disk == w.disk && Last(ws).todo == w.todo
  {
    if Holds(w, dir) {
      ws, steps := [w], [];
    } else {
      var a := Shards.Account(0, Some(w.key));
      ws, steps := OneStep(w, Import(dir, a));
      ImportHolds(w, dir, a, dir);
    }
  }

  /** And scans up to where the database's own files are. */
  lemma CatchesUp(w: World, dir: string) returns (ws: seq<World>, steps: seq<Step>)
    requires Inv(w) && Holds(w, dir)
    ensures Path(ws, steps) && ws[0] == w && Inv(Last(ws))
    ensures Holds(Last(ws), dir) && Last(ws).disk == w.disk && Last(ws).todo == w.todo
    ensures Last(ws).heights[dir] >= OwnHeight(w.disk)
  {
    var own := OwnHeight(w.disk);
    var h := if w.heights[dir] >= own then w.heights[dir] else own;
    ws, steps := OneStep(w, Scan(dir, h));
  }

  /** A sync of the own files shows, wherever it gets to; so does the move to the node's
      layout, which changes no answer. */
  lemma OwnFilesMove(w: World, h: nat)
    requires Inv(w) && w.disk.keys.value.engine != Fleet && !Flipping(w)
    ensures h >= OwnHeight(w.disk) ==> Enabled(w, OwnSync(h)) && Answer(Stepped(w, OwnSync(h))) == Some(h)
    ensures w.disk.root.data.Some? ==>
              && Enabled(w, MigrateLayout) && Answer(Stepped(w, MigrateLayout)) == Answer(w)
              && Locate(Stepped(w, MigrateLayout)) == OwnFiles(w.disk.root.data.value)
  {
    AnswerIs(w);
    if h >= OwnHeight(w.disk) {
      StepIsFine(w, OwnSync(h));
      AnswerIs(Stepped(w, OwnSync(h)));
    }
    if w.disk.root.data.Some? {
      StepIsFine(w, MigrateLayout);
      AnswerIs(Stepped(w, MigrateLayout));
    }
  }

  /** While every shard opens, another one can appear under any new name. */
  lemma ShardAppears(w: World, dir: string, h: nat) returns (ws: seq<World>, steps: seq<Step>)
    requires Inv(w) && dir !in w.shards && forall x | x in w.shards :: Shards.Opens(w.files, x)
    ensures Path(ws, steps) && ws[0] == w && Inv(Last(ws))
    ensures var v := Last(ws);
            && v.disk == w.disk && v.todo == w.todo && v.key == w.key && v.shards == w.shards + [dir]
            && Shards.Opens(v.files, dir) && v.files[dir].accounts == [] && dir in v.heights && v.heights[dir] == h
            && forall x :: Holds(v, x) <==> Holds(w, x)
  {
    var us, more;
    ws, steps := OneStep(w, NewShard(dir));
    var v := Last(ws);
    forall i | 0 <= i < |w.shards| ensures Shards.Opens(v.files, v.shards[i]) { assert w.shards[i] in w.shards; }
    us, more := OneStep(v, Populate(|w.shards|, h));
    PathAppend(ws, steps, us, more);
    ws, steps := ws + us[1..], steps + more;
  }

  /** The whole way: any database that can be enrolled, next to a shard that opens and is
      the only one that may hold it already, has a path to membership. */
  lemma ConversionCompletes(w: World, dir: string) returns (ws: seq<World>, steps: seq<Step>)
    requires Inv(w) && w.todo == [] && Enrollable(w)
    requires dir in w.shards && Shards.Opens(w.files, dir) && forall x | Holds(w, x) :: x == dir
    ensures Path(ws, steps) && ws[0] == w
    ensures var v := Last(ws);
            && v.todo == [] && v.disk.keys.Some? && v.disk.keys.value.engine == Engine.Fleet
            && v.disk.manifest == Some(Good(Manifest(w.key, w.disk.keys.value.birthday)))
            && v.disk.root.data.None? && v.disk.nested.data.None? && !v.disk.coinDir
            && Holds(v, dir) && Answer(v) == Some(v.heights[dir]) && v.heights[dir] >= OwnHeight(w.disk)
  {
    var us, more;
    ws, steps := EnrolCompletes(w);
    RunIsFine(ws, steps, |steps|);
    forall x | Holds(Last(ws), x) ensures x == dir { assert Holds(w, x); }
    us, more := Imports(Last(ws), dir);
    PathAppend(ws, steps, us, more);
    ws, steps := ws + us[1..], steps + more;
    us, more := CatchesUp(Last(ws), dir);
    PathAppend(ws, steps, us, more);
    ws, steps := ws + us[1..], steps + more;
    us, more := FlipCompletes(Last(ws), dir);
    PathAppend(ws, steps, us, more);
    assert Holds(Last(us), dir);
    ws, steps := ws + us[1..], steps + more;
  }

  /** So too with no shard at all to begin with. */
  lemma ConversionFromNothing(w: World, dir: string) returns (ws: seq<World>, steps: seq<Step>)
    requires Inv(w) && w.todo == [] && Enrollable(w)
    requires w.shards == []
    ensures Path(ws, steps) && ws[0] == w
    ensures var v := Last(ws);
            && v.todo == [] && v.disk.keys.Some? && v.disk.keys.value.engine == Engine.Fleet
            && v.disk.root.data.None? && v.disk.nested.data.None?
            && Holds(v, dir) && Answer(v) == Some(v.heights[dir])
  {
    var us, more;
    ws, steps := ShardAppears(w, dir, 0);
    assert forall x :: !Holds(w, x);
    us, more := ConversionCompletes(Last(ws), dir);
    PathAppend(ws, steps, us, more);
    ws, steps := ws + us[1..], steps + more;
    assert Holds(Last(ws), dir);
  }

  /** Where a read goes, case by case. */
  lemma LocateMeans(w: World)
    requires w.disk.keys.Some?
    ensures var d, c := w.disk, w.disk.keys.value;
            && (Locate(w) == NoWallet <==> c.engine != Fleet && d.root.data.None? && d.nested.data.None?)
            && (Locate(w).OwnFiles? <==> c.engine != Fleet && d.root.data.Some? != d.nested.data.Some?)
            && (Locate(w).OwnFiles? ==> Some(Locate(w).scanned) in {d.root.data, d.nested.data})
            && (c.engine != Fleet && d.root.data.Some? && d.nested.data.Some? ==> Locate(w) == Refusing)
            && (c.engine == Fleet && c.ufvk.None? ==> Locate(w) == Refusing)
    ensures var c := w.disk.keys.value;
            c.engine == Fleet && c.ufvk.Some? ==>
              && (Locate(w) == Importing ==> forall dir | dir in w.shards :: Shards.Opens(w.files, dir))
              && (Locate(w) == Importing ==> forall dir | dir in w.shards :: !Shards.HeldBy(w.files, dir, c.ufvk.value))
              && (Locate(w) == Refusing ==> exists dir :: dir in w.shards && !Shards.Opens(w.files, dir))
              && (Locate(w).InShard? ==> Locate(w).dir in w.shards
                                         && Shards.HeldBy(w.files, Locate(w).dir, c.ufvk.value))
              && (Locate(w) == Importing || Locate(w) == Refusing || Locate(w).InShard?)
  {
    var c := w.disk.keys.value;
    if c.engine == Fleet && c.ufvk.Some? {
      Shards.HitMeans(Shards.Hinted(w.shards, c.shard), w.files, c.ufvk.value);
      Shards.HintKeepsShards(w.shards, c.shard);
    }
  }
}
