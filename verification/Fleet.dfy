/** Moving a watch-only database between wallet files of its own and the shared
    scan. Each operation is a sequence of writes that are atomic one by one (see
    `Config` for the config file's own), and may stop between any two: by a crash,
    or because a write fails. `budget` is how many writes succeed before that. */
module Fleet {
  import opened Wrappers
  import opened Config

  datatype Manifest = Manifest(ufvk: string, birthday: nat)

  /** A manifest as it is found: torn or hand-edited ones do not parse. */
  datatype ManifestFile = Good(manifest: Manifest) | Unreadable

  /** What a node's engine directory holds: the wallet database, with the height it
      has scanned, and the two companions. */
  datatype EngineDir = EngineDir(data: Option<nat>, blockMeta: bool, blocks: bool)

  const EMPTY := EngineDir(None, false, false)

  /** Everything on disk about one database: `keys` is absent when it does not exist,
      `nested` is the layout a node migrates the root's files into. */
  datatype Disk = Disk(
    keys: Option<Config>,
    manifest: Option<ManifestFile>,
    root: EngineDir,
    nested: EngineDir,
    coinDir: bool)

  datatype Write =
    | PutKeys(cfg: Config)
    | PutManifest(m: Manifest)
    | RemoveManifest
    | RemoveData(inNested: bool)
    | RemoveBlockMeta(inNested: bool)
    | RemoveBlocks(inNested: bool)
    | RemoveCoinDir
    | RemoveDatabase

  function Apply(d: Disk, w: Write): Disk {
    match w
    case PutKeys(cfg) => d.(keys := Some(cfg))
    case PutManifest(m) => d.(manifest := Some(Good(m)))
    case RemoveManifest => d.(manifest := None)
    case RemoveData(true) => d.(nested := d.nested.(data := None))
    case RemoveData(false) => d.(root := d.root.(data := None))
    case RemoveBlockMeta(true) => d.(nested := d.nested.(blockMeta := false))
    case RemoveBlockMeta(false) => d.(root := d.root.(blockMeta := false))
    case RemoveBlocks(true) => d.(nested := d.nested.(blocks := false))
    case RemoveBlocks(false) => d.(root := d.root.(blocks := false))
    case RemoveCoinDir => d.(nested := EMPTY, coinDir := false)
    case RemoveDatabase => Disk(None, d.manifest, EMPTY, EMPTY, false)
  }

  /** The disk after the first `n` writes of a plan. */
  function After(d: Disk, plan: seq<Write>, n: nat): Disk
    requires n <= |plan|
  {
    if n == 0 then d else Apply(After(d, plan, n - 1), plan[n - 1])
  }

  function Min(a: nat, b: nat): nat {
    if a < b then a else b
  }

  /** The disk when only so many writes succeed. */
  function AfterBudget(d: Disk, plan: seq<Write>, budget: nat): Disk {
    After(d, plan, Min(budget, |plan|))
  }

  function AfterAll(d: Disk, plan: seq<Write>): Disk {
    After(d, plan, |plan|)
  }

  // ----- What the operations write -----

  function ManifestFor(c: Config): Option<Manifest> {
    if c.ufvk.Some? then Some(Manifest(c.ufvk.value, c.birthday)) else None
  }

  /** The config `enrol` works with: the key is pinned from the address if need be. */
  function Pinned(c: Config, key: Option<string>): Option<Config> {
    if c.ufvk.Some? then Some(c)
    else if c.zkvAddress.Some? && key.Some? then Some(c.(ufvk := key))
    else None
  }

  function Claiming(c: Config): Config {
    Updated(c, SetEngine(FleetPending))
  }

  /** Another manifest, or one that does not parse, is in the way. */
  predicate Refused(d: Disk, m: Manifest) {
    d.manifest.Some? && d.manifest != Some(Good(m))
  }

  /** The writes of `enrol`; `key` is what the stored address parses to. */
  function EnrolPlan(d: Disk, key: Option<string>): seq<Write>
    requires d.keys.Some?
  {
    var c := d.keys.value;
    var p := Pinned(c, key);
    if p.None? then []
    else
      var m := Manifest(p.value.ufvk.value, c.birthday);
      (if c.ufvk.Some? then [] else [PutKeys(p.value)])
      + if Refused(d, m) then []
        else (if d.manifest.Some? then [] else [PutManifest(m)]) + [PutKeys(Claiming(p.value))]
  }

  predicate Enrols(d: Disk, key: Option<string>)
    requires d.keys.Some?
  {
    var p := Pinned(d.keys.value, key);
    p.Some? && !Refused(d, Manifest(p.value.ufvk.value, d.keys.value.birthday))
  }

  function LeavePlan(c: Config): seq<Write> {
    [RemoveManifest, PutKeys(Updated(c, SetEngine(Own)))]
  }

  /** Both layouts hold a wallet database: zkv will not choose. */
  predicate Ambiguous(d: Disk) {
    d.root.data.Some? && d.nested.data.Some?
  }

  function If(due: bool, w: Write): seq<Write> {
    if due then [w] else []
  }

  function DiscardPlan(d: Disk): seq<Write> {
    if Ambiguous(d) then []
    else
      var inNested := d.nested.data.Some?;
      var dir := if inNested then d.nested else d.root;
      (if dir.data.Some? then [RemoveData(inNested)] else [])
      + (if dir.blockMeta then [RemoveBlockMeta(inNested)] else [])
      + (if dir.blocks then [RemoveBlocks(inNested)] else [])
      + (if d.coinDir then [RemoveCoinDir] else [])
  }

  function FlipPlan(d: Disk): seq<Write>
    requires d.keys.Some?
  {
    [PutKeys(Updated(d.keys.value, SetEngine(Fleet)))] + DiscardPlan(d)
  }

  /** Creating a database straight into the shared scan: a manifest already there,
      even an equal one, makes the second write fail. */
  function CreatePlan(d: Disk, c: Config): seq<Write>
    requires ManifestFor(c).Some?
  {
    if d.keys.Some? then []
    else [PutKeys(c)] + if d.manifest.Some? then [] else [PutManifest(ManifestFor(c).value)]
  }

  /** Deleting a database; a manifest that cannot be removed does not stop it. */
  function ErasePlan(d: Disk, manifestStays: bool): seq<Write> {
    (if d.keys.Some? && !Standalone(d.keys.value.engine) && !manifestStays then [RemoveManifest] else [])
    + [RemoveDatabase]
  }

  /** One member's share of a rebuild. */
  function RebuildRowPlan(c: Config): seq<Write> {
    [RemoveManifest]
    + if ManifestFor(c).None? then []
      else [PutManifest(ManifestFor(c).value)] + if c.shard.Some? then [PutKeys(c.(shard := None))] else []
  }

  predicate ShouldEnrol(c: Config, name: string, fleetIsDefault: bool) {
    c.engine == Unset && c.role == Watch && name != "default" && fleetIsDefault
  }

  // ----- The operations, step by step -----

  class Database {
    var keys: Option<Config>
    var manifest: Option<ManifestFile>
    var root: EngineDir
    var nested: EngineDir
    var coinDir: bool

    ghost function View(): Disk
      reads this
    {
      Disk(keys, manifest, root, nested, coinDir)
    }

    method Write(w: Write, budget: nat) returns (ok: bool, left: nat)
      modifies this
      ensures ok <==> budget > 0
      ensures View() == if ok then Apply(old(View()), w) else old(View())
      ensures left == if ok then budget - 1 else 0
    {
      if budget == 0 { return false, 0; }
      match w {
        case PutKeys(cfg) => keys := Some(cfg);
        case PutManifest(m) => manifest := Some(Good(m));
        case RemoveManifest => manifest := None;
        case RemoveData(inNested) =>
          if inNested { nested := nested.(data := None); } else { root := root.(data := None); }
        case RemoveBlockMeta(inNested) =>
          if inNested { nested := nested.(blockMeta := false); } else { root := root.(blockMeta := false); }
        case RemoveBlocks(inNested) =>
          if inNested { nested := nested.(blocks := false); } else { root := root.(blocks := false); }
        case RemoveCoinDir => nested, coinDir := EMPTY, false;
        case RemoveDatabase => keys, root, nested, coinDir := None, EMPTY, EMPTY, false;
      }
      return true, budget - 1;
    }

    /** `enrol`: pin the key, write the manifest, then claim membership. */
    method Enrol(key: Option<string>, budget: nat) returns (ok: bool)
      requires keys.Some?
      modifies this
      ensures ok <==> old(Enrols(View(), key)) && budget >= old(|EnrolPlan(View(), key)|)
      ensures View() == old(AfterBudget(View(), EnrolPlan(View(), key), budget))
      ensures var c, m := old(keys).value, old(manifest);
              var k := if c.ufvk.Some? then c.ufvk else if c.zkvAddress.Some? then key else None;
              && (ok <==> k.Some? && (m.None? || m == Some(Good(Manifest(k.value, c.birthday))))
                          && budget >= 1 + (if c.ufvk.None? then 1 else 0) + (if m.None? then 1 else 0))
              && (ok ==> k.Some?
                         && View() == old(View()).(keys := Some(c.(ufvk := k, engine := FleetPending)),
                                                   manifest := Some(Good(Manifest(k.value, c.birthday)))))
    {
      ghost var start, plan, k := View(), EnrolPlan(View(), key), 0;
      var cfg, left := keys.value, budget;
      if cfg.ufvk.None? {
        if cfg.zkvAddress.None? || key.None? { return false; }
        cfg := cfg.(ufvk := key);
        assert plan[k] == PutKeys(cfg);
        ok, left := Write(PutKeys(cfg), left);
        if !ok { return false; }
        k := k + 1;
      }
      assert View() == After(start, plan, k) && left == budget - k;
      var m := Manifest(cfg.ufvk.value, cfg.birthday);
      if manifest.Some? {
        if manifest.value != Good(m) { return false; }
      } else {
        assert plan[k] == PutManifest(m);
        ok, left := Write(PutManifest(m), left);
        if !ok { return false; }
        k := k + 1;
      }
      assert View() == After(start, plan, k) && left == budget - k;
      cfg := cfg.(engine := FleetPending);
      assert plan[k] == PutKeys(cfg) && |plan| == k + 1;
      ok, left := Write(PutKeys(cfg), left);
    }

    /** `leave`: the manifest goes first. */
    method Leave(budget: nat) returns (ok: bool)
      requires keys.Some?
      modifies this
      ensures ok <==> budget >= 2
      ensures View() == old(AfterBudget(View(), LeavePlan(keys.value), budget))
      ensures View() == old(View()).(manifest := if budget >= 1 then None else old(manifest),
                                     keys := Some(if ok then old(keys).value.(engine := Own, shard := None)
                                                  else old(keys).value))
    {
      var cfg, left := keys.value, budget;
      ghost var start, plan := View(), LeavePlan(cfg);
      ok, left := Write(RemoveManifest, left);
      if !ok { return false; }
      assert View() == After(start, plan, 1);
      cfg := cfg.(engine := Own, shard := None);
      ok, left := Write(PutKeys(cfg), left);
    }

    /** Write if there is something to write; `rest` is what the plan holds after it. */
    method WriteIf(due: bool, w: Write, budget: nat, ghost rest: seq<Write>) returns (ok: bool, left: nat)
      modifies this
      ensures ok <==> !due || budget > 0
      ensures View() == if due && ok then Apply(old(View()), w) else old(View())
      ensures left == if due && ok then budget - 1 else if ok then budget else 0
      ensures old(AfterBudget(View(), If(due, w) + rest, budget))
           == if ok then AfterBudget(View(), rest, left) else View()
    {
      IfFirst(View(), due, w, rest, budget);
      if !due { return true, budget; }
      ok, left := Write(w, budget);
    }

    /** `discard_own_wallet_files`: stops at the first file it cannot remove. */
    method DiscardOwnWalletFiles(budget: nat) returns (ok: bool)
      modifies this
      ensures View() == old(AfterBudget(View(), DiscardPlan(View()), budget))
      ensures ok <==> !old(Ambiguous(View()))
                      && budget + (if old(coinDir) then 1 else 0) >= old(|DiscardPlan(View())|)
      ensures old(root).data.Some? && old(nested).data.Some? ==> !ok && View() == old(View())
    {
      if root.data.Some? && nested.data.Some? { return false; }
      var inNested, left, hadCoinDir := nested.data.Some?, budget, coinDir;
      var dir := if inNested then nested else root;
      ghost var last := If(hadCoinDir, RemoveCoinDir) + [];
      DiscardOrder(View());
      ghost var third := If(dir.blocks, RemoveBlocks(inNested)) + last;
      ok, left := WriteIf(dir.data.Some?, RemoveData(inNested), left,
                          If(dir.blockMeta, RemoveBlockMeta(inNested)) + third);
      if !ok { return false; }
      ok, left := WriteIf(dir.blockMeta, RemoveBlockMeta(inNested), left, third);
      if !ok { return false; }
      ok, left := WriteIf(dir.blocks, RemoveBlocks(inNested), left, last);
      if !ok { return false; }
      ok, left := WriteIf(hadCoinDir, RemoveCoinDir, left, []);
      return true;
    }

    /** `flip_if_caught_up`: `r` is whether it flipped, or an error. */
    method FlipIfCaughtUp(ownScanned: nat, shardScanned: nat, budget: nat) returns (r: Result<bool, ()>)
      requires keys.Some?
      modifies this
      ensures r == Ok(true) <==> old(keys).value.engine == FleetPending && shardScanned >= ownScanned && budget > 0
      ensures r == Err(()) <==> old(keys).value.engine == FleetPending && shardScanned >= ownScanned && budget == 0
      ensures View() == if r == Ok(true) then old(AfterBudget(View(), FlipPlan(View()), budget))
                        else old(View())
    {
      if keys.value.engine != FleetPending || shardScanned < ownScanned { return Ok(false); }
      if budget > 0 { FlipThenDiscard(View(), Min(budget - 1, |DiscardPlan(View())|)); }
      var ok, left := Write(PutKeys(keys.value.(engine := Fleet)), budget);
      if !ok { return Err(()); }
      ok := DiscardOwnWalletFiles(left);
      return Ok(true);
    }

    /** `drive_pending_fleet`, after a sync of the database's own files to `ownScanned`:
        `handle` is the engine recorded when this handle was made, `shard` the height a
        successful sync of the member reported in time, if one did. */
    method DrivePendingFleet(handle: Engine, ownScanned: nat, shard: Option<nat>, budget: nat) returns (flipped: bool)
      modifies this
      ensures flipped <==> handle == FleetPending && shard.Some? && old(keys).Some?
                           && old(keys).value.engine == FleetPending && shard.value >= ownScanned && budget > 0
      ensures View() == if flipped then old(AfterBudget(View(), FlipPlan(View()), budget))
                        else old(View())
    {
      if handle != FleetPending || shard.None? || keys.None? { return false; }
      var r := FlipIfCaughtUp(ownScanned, shard.value, budget);
      return r == Ok(true);
    }

    /** `init_watch_with` for a member. */
    method CreateMember(c: Config, budget: nat) returns (ok: bool)
      requires c.ufvk.Some? && c.engine == Fleet
      modifies this
      ensures ok <==> old(keys).None? && old(manifest).None? && budget >= 2
      ensures View() == old(AfterBudget(View(), CreatePlan(View(), c), budget))
      ensures View() == old(View()).(
                keys := if old(keys).None? && budget >= 1 then Some(c) else old(keys),
                manifest := if ok then Some(Good(Manifest(c.ufvk.value, c.birthday))) else old(manifest))
    {
      if keys.Some? { return false; }
      ghost var start, plan := View(), CreatePlan(View(), c);
      var left: nat;
      ok, left := Write(PutKeys(c), budget);
      if !ok { return false; }
      assert View() == After(start, plan, 1);
      if manifest.Some? { return false; }
      assert plan[1] == PutManifest(Manifest(c.ufvk.value, c.birthday));
      ok, left := Write(PutManifest(Manifest(c.ufvk.value, c.birthday)), left);
    }

    /** `erase_wallet_state`. */
    method Erase(manifestStays: bool, budget: nat)
      modifies this
      ensures View() == old(AfterBudget(View(), ErasePlan(View(), manifestStays), budget))
      ensures var claimed := old(keys).Some? && old(keys).value.engine in {FleetPending, Engine.Fleet};
              && (budget >= 2 ==> View() == Disk(None, if claimed && !manifestStays then None else old(manifest),
                                                 EMPTY, EMPTY, false))
              && (budget == 1 && claimed && !manifestStays ==> View() == old(View()).(manifest := None))
              && (budget == 1 && (!claimed || manifestStays) ==>
                    View() == Disk(None, old(manifest), EMPTY, EMPTY, false))
    {
      var claimed := keys.Some? && !Standalone(keys.value.engine);
      ghost var last := If(true, RemoveDatabase) + [];
      assert ErasePlan(View(), manifestStays) == If(claimed && !manifestStays, RemoveManifest) + last;
      var ok, left := WriteIf(claimed && !manifestStays, RemoveManifest, budget, last);
      if !ok { return; }
      ok, left := WriteIf(true, RemoveDatabase, left, []);
    }

    /** `fleet rebuild`, for one of its rows. */
    method RebuildRow(budget: nat) returns (ok: bool)
      requires keys.Some?
      modifies this
      ensures ok <==> old(keys.value.ufvk).Some? && budget >= old(|RebuildRowPlan(keys.value)|)
      ensures View() == old(AfterBudget(View(), RebuildRowPlan(keys.value), budget))
      ensures budget > 0 && !ok && (budget == 1 || old(keys.value.ufvk).None?) ==> manifest.None?
      ensures ok ==> View() == old(View()).(
                keys := Some(old(keys).value.(shard := None)),
                manifest := Some(Good(Manifest(old(keys).value.ufvk.value, old(keys).value.birthday))))
    {
      ghost var start, plan := View(), RebuildRowPlan(keys.value);
      var cfg, left := keys.value, budget;
      ok, left := Write(RemoveManifest, left);
      if !ok { return false; }
      assert View() == After(start, plan, 1);
      if cfg.ufvk.None? { return false; }
      ok, left := Write(PutManifest(Manifest(cfg.ufvk.value, cfg.birthday)), left);
      if !ok { return false; }
      assert View() == After(start, plan, 2);
      if cfg.shard.Some? {
        ok, left := Write(PutKeys(cfg.(shard := None)), left);
      }
    }
  }

  lemma AfterCons(d: Disk, w: Write, plan: seq<Write>, n: nat)
    requires n <= |plan|
    ensures After(d, [w] + plan, n + 1) == After(Apply(d, w), plan, n)
  {
    AfterTail(d, [w] + plan, n);
    assert ([w] + plan)[1..] == plan;
  }

  /** The removals, one by one. */
  lemma DiscardOrder(d: Disk)
    requires !Ambiguous(d)
    ensures var inNested := d.nested.data.Some?;
            var dir := if inNested then d.nested else d.root;
            DiscardPlan(d)
            == If(dir.data.Some?, RemoveData(inNested))
               + (If(dir.blockMeta, RemoveBlockMeta(inNested))
                  + (If(dir.blocks, RemoveBlocks(inNested)) + (If(d.coinDir, RemoveCoinDir) + [])))
  {
  }

  lemma IfFirst(d: Disk, due: bool, w: Write, rest: seq<Write>, budget: nat)
    ensures AfterBudget(d, If(due, w) + rest, budget)
         == if !due then AfterBudget(d, rest, budget)
            else if budget == 0 then d
            else AfterBudget(Apply(d, w), rest, budget - 1)
  {
    if !due {
      assert If(due, w) + rest == rest;
    } else if budget > 0 {
      AfterCons(d, w, rest, Min(budget - 1, |rest|));
    }
  }

  lemma FlipThenDiscard(d: Disk, n: nat)
    requires d.keys.Some? && n <= |DiscardPlan(d)|
    ensures var start := Apply(d, FlipPlan(d)[0]);
            && DiscardPlan(start) == DiscardPlan(d)
            && After(start, DiscardPlan(d), n) == After(d, FlipPlan(d), n + 1)
  {
    AfterCons(d, FlipPlan(d)[0], DiscardPlan(d), n);
  }

  /** A plan's first write done, the rest is a plan of its own. */
  lemma {:induction false} AfterTail(d: Disk, plan: seq<Write>, n: nat)
    requires n < |plan|
    ensures After(d, plan, n + 1) == After(Apply(d, plan[0]), plan[1..], n)
  {
    if n > 0 { AfterTail(d, plan, n - 1); }
  }

  // ----- Manifest before claim -----

  /** Whoever claims to be on the shared scan, or on the way there, has the manifest
      its config describes. */
  predicate Backed(d: Disk) {
    d.keys.Some? && !Standalone(d.keys.value.engine) ==>
      d.keys.value.ufvk.Some? && d.manifest == Some(Good(Manifest(d.keys.value.ufvk.value, d.keys.value.birthday)))
  }

  /** Three writes at most, spelled out. */
  lemma Unroll(d: Disk, plan: seq<Write>)
    ensures |plan| >= 1 ==> After(d, plan, 1) == Apply(d, plan[0])
    ensures |plan| >= 2 ==> After(d, plan, 2) == Apply(Apply(d, plan[0]), plan[1])
    ensures |plan| >= 3 ==> After(d, plan, 3) == Apply(Apply(Apply(d, plan[0]), plan[1]), plan[2])
  {
  }

  /** At every crash point of an enrolment the claim is backed. */
  lemma EnrolKeepsBacked(d: Disk, key: Option<string>, n: nat)
    requires d.keys.Some? && Backed(d) && n <= |EnrolPlan(d, key)|
    ensures Backed(After(d, EnrolPlan(d, key), n))
  {
    Unroll(d, EnrolPlan(d, key));
  }

  /** Writes of a discard touch neither claim nor manifest. */
  predicate Discards(w: Write) {
    w.RemoveData? || w.RemoveBlockMeta? || w.RemoveBlocks? || w.RemoveCoinDir?
  }

  lemma {:induction false} DiscardsKeep(d: Disk, plan: seq<Write>, n: nat)
    requires n <= |plan| && forall w | w in plan :: Discards(w)
    ensures After(d, plan, n).keys == d.keys && After(d, plan, n).manifest == d.manifest
  {
    if n > 0 {
      DiscardsKeep(d, plan, n - 1);
      assert plan[n - 1] in plan;
    }
  }

  /** At every crash point of a flip the claim is backed, and the database's own
      files are untouched until it is a member. */
  lemma FlipKeepsBacked(d: Disk, n: nat)
    requires d.keys.Some? && Backed(d) && d.keys.value.engine == FleetPending && n <= |FlipPlan(d)|
    ensures var r := After(d, FlipPlan(d), n);
            && Backed(r) && r.keys.Some? && r.manifest == d.manifest
            && r.keys.value.engine == (if n == 0 then FleetPending else Fleet)
            && (n == 0 ==> r == d)
  {
    var plan := FlipPlan(d);
    if n > 0 {
      AfterTail(d, plan, n - 1);
      DiscardsKeep(Apply(d, plan[0]), plan[1..], n - 1);
    }
  }

  /** A flip that runs through leaves no wallet database behind, unless both layouts
      had one; then it leaves them all. */
  lemma FlipClearsOwnFiles(d: Disk)
    requires d.keys.Some?
    ensures var r := AfterAll(d, FlipPlan(d));
            if Ambiguous(d) then r.root == d.root && r.nested == d.nested
            else r.root.data.None? && r.nested.data.None? && (d.coinDir ==> !r.coinDir)
  {
    var start := Apply(d, FlipPlan(d)[0]);
    AfterTail(d, FlipPlan(d), |DiscardPlan(d)|);
    var plan := DiscardPlan(d);
    Unroll(start, plan);
    assert |plan| == 4 ==> After(start, plan, 4) == Apply(After(start, plan, 3), plan[3]);
  }

  /** Four writes at most, each on what the one before left. */
  lemma FourWrites(d: Disk, plan: seq<Write>, n: nat)
    requires n <= |plan| <= 4
    ensures n == 0 ==> After(d, plan, n) == d
    ensures n > 0 ==> After(d, plan, n) == Apply(After(d, plan, n - 1), plan[n - 1])
    ensures n > 1 ==> After(d, plan, n - 1) == Apply(After(d, plan, n - 2), plan[n - 2])
    ensures n > 2 ==> After(d, plan, n - 2) == Apply(After(d, plan, n - 3), plan[n - 3])
    ensures n > 3 ==> After(d, plan, n - 3) == Apply(d, plan[0])
  {
  }

  /** A discard goes through one directory, the wallet database before its companions
      and the coin directory last. */
  lemma DiscardGoesInOrder(d: Disk, n: nat)
    requires n <= |DiscardPlan(d)|
    ensures var r := After(d, DiscardPlan(d), n);
            var was, now := if d.nested.data.Some? then d.nested else d.root,
                           if d.nested.data.Some? then r.nested else r.root;
            && r.keys == d.keys && r.manifest == d.manifest
            && (d.nested.data.Some? ==> r.root == d.root)
            && (now.blockMeta != was.blockMeta ==> now.data.None?)
            && (now.blocks != was.blocks ==> now.data.None? && !now.blockMeta)
            && (r.coinDir != d.coinDir ==> now == EMPTY)
  {
    var plan := DiscardPlan(d);
    FourWrites(d, plan, n);
  }

  /** Run to its end, it leaves the layout in use empty, and no coin directory. */
  lemma DiscardCompletes(d: Disk)
    requires d.root.data.None? || d.nested.data.None?
    ensures AfterAll(d, DiscardPlan(d))
         == d.(root := if d.nested.data.Some? then d.root else EMPTY,
               nested := if d.nested.data.Some? || d.coinDir then EMPTY else d.nested,
               coinDir := false)
  {
    var plan := DiscardPlan(d);
    Unroll(d, plan);
    assert |plan| == 4 ==> After(d, plan, 4) == Apply(After(d, plan, 3), plan[3]);
  }

  /** Leaving passes through exactly one unbacked point, between its two writes, and
      only a database that was on the shared scan does. */
  lemma LeaveWindowIff(d: Disk, n: nat)
    requires d.keys.Some? && Backed(d) && n <= 2
    ensures Backed(After(d, LeavePlan(d.keys.value), n)) <==> n != 1 || Standalone(d.keys.value.engine)
  {
    Unroll(d, LeavePlan(d.keys.value));
  }

  /** Creating a member claims before it is backed: the window is the point between
      the two writes, and stays open if another manifest was in the way. */
  lemma CreateWindowIff(d: Disk, c: Config, n: nat)
    requires d.keys.None? && c.ufvk.Some? && c.engine == Fleet && n <= |CreatePlan(d, c)|
    ensures Backed(After(d, CreatePlan(d, c), n)) <==>
              n != 1 || d.manifest == Some(Good(Manifest(c.ufvk.value, c.birthday)))
  {
    Unroll(d, CreatePlan(d, c));
  }

  /** So does deleting one, for as long as the directory outlives the manifest. */
  lemma EraseWindowIff(d: Disk, n: nat)
    requires Backed(d) && n <= |ErasePlan(d, false)|
    ensures Backed(After(d, ErasePlan(d, false), n)) <==>
              n != 1 || d.keys.None? || Standalone(d.keys.value.engine)
  {
    Unroll(d, ErasePlan(d, false));
  }

  /** A rebuild repairs whatever manifest a member had, at every point but one, and
      only for a database whose key is pinned. */
  lemma RebuildRestoresIff(d: Disk, n: nat)
    requires d.keys.Some? && !Standalone(d.keys.value.engine) && 0 < n <= |RebuildRowPlan(d.keys.value)|
    ensures Backed(After(d, RebuildRowPlan(d.keys.value), n)) <==> n != 1 && d.keys.value.ufvk.Some?
    ensures n == |RebuildRowPlan(d.keys.value)| ==>
              (Backed(After(d, RebuildRowPlan(d.keys.value), n)) <==> d.keys.value.ufvk.Some?)
  {
    Unroll(d, RebuildRowPlan(d.keys.value));
  }

  // ----- Running an operation again -----

  /** After each write of an enrolment, what enrolling again plans is exactly the
      writes still missing; once complete it repeats the claim. */
  lemma EnrolResumes(d: Disk, key: Option<string>)
    requires d.keys.Some? && EnrolPlan(d, key) != []
    ensures var plan := EnrolPlan(d, key);
            var r := Apply(d, plan[0]);
            && r.keys.Some? && (Enrols(r, key) <==> Enrols(d, key))
            && EnrolPlan(r, key) == if |plan| == 1 && Enrols(d, key) then plan else plan[1..]
  {
  }

  lemma EnrolOneWrite(d: Disk, key: Option<string>)
    requires d.keys.Some? && EnrolPlan(d, key) != []
    ensures var r := Apply(d, EnrolPlan(d, key)[0]);
            && r.keys.Some? && (Enrols(r, key) <==> Enrols(d, key))
            && AfterAll(r, EnrolPlan(r, key)) == AfterAll(d, EnrolPlan(d, key))
  {
    var plan := EnrolPlan(d, key);
    EnrolResumes(d, key);
    AfterTail(d, plan, |plan| - 1);
    if |plan| == 1 { Unroll(Apply(d, plan[0]), plan); }
  }

  /** Re-running enrolment after a crash at any point ends where an undisturbed run
      ends, with the same verdict. */
  lemma {:induction false} EnrolRerun(d: Disk, key: Option<string>, n: nat)
    requires d.keys.Some? && n <= |EnrolPlan(d, key)|
    ensures var r := After(d, EnrolPlan(d, key), n);
            && r.keys.Some? && (Enrols(r, key) <==> Enrols(d, key))
            && AfterAll(r, EnrolPlan(r, key)) == AfterAll(d, EnrolPlan(d, key))
    decreases n
  {
    if n > 0 {
      var plan := EnrolPlan(d, key);
      var r := Apply(d, plan[0]);
      EnrolOneWrite(d, key);
      EnrolResumes(d, key);
      AfterTail(d, plan, n - 1);
      if |plan| > 1 { EnrolRerun(r, key, n - 1); }
    }
  }

  /** Automatic enrolment keeps applying until the claim itself is written. */
  lemma EnrolStaysDue(d: Disk, key: Option<string>, name: string, n: nat)
    requires d.keys.Some? && n <= |EnrolPlan(d, key)| && ShouldEnrol(d.keys.value, name, true)
    ensures var r := After(d, EnrolPlan(d, key), n);
            r.keys.Some? && (ShouldEnrol(r.keys.value, name, true) <==> n < |EnrolPlan(d, key)| || !Enrols(d, key))
  {
    Unroll(d, EnrolPlan(d, key));
  }

  /** From wherever a leave was cut short, leaving again always ends with a node of
      its own, no manifest and no shard hint. */
  lemma LeaveRerun(d: Disk, n: nat)
    requires d.keys.Some? && n <= 2
    ensures var r := After(d, LeavePlan(d.keys.value), n);
            && r.keys.Some?
            && var e := AfterAll(r, LeavePlan(r.keys.value));
               e.keys.Some? && e.keys.value.engine == Own && e.keys.value.shard.None? && e.manifest.None?
               && e == AfterAll(d, LeavePlan(d.keys.value))
  {
    Unroll(d, LeavePlan(d.keys.value));
    var r := After(d, LeavePlan(d.keys.value), n);
    Unroll(r, LeavePlan(r.keys.value));
  }

  /** Leaving undoes an enrolment, completed or not: what remains is the recorded
      choice and the pinned key. */
  lemma LeaveUndoesEnrol(d: Disk, key: Option<string>, n: nat)
    requires d.keys.Some? && d.manifest.None? && Pinned(d.keys.value, key).Some? && n <= |EnrolPlan(d, key)|
    ensures var r := After(d, EnrolPlan(d, key), n);
            && r.keys.Some?
            && AfterAll(r, LeavePlan(r.keys.value))
               == d.(keys := Some((if n == 0 then d.keys.value else Pinned(d.keys.value, key).value)
                                  .(engine := Own, shard := None)))
  {
    Unroll(d, EnrolPlan(d, key));
    var r := After(d, EnrolPlan(d, key), n);
    Unroll(r, LeavePlan(r.keys.value));
  }

  /** The command refuses to leave a database that is not on the shared scan, so an
      enrolment cut short just before its claim keeps its manifest through it: the
      command helps exactly when the claim was written. */
  lemma LeaveCommandCleansIff(d: Disk, key: Option<string>, n: nat)
    requires d.keys.Some? && Standalone(d.keys.value.engine) && d.manifest.None? && Enrols(d, key)
    requires 0 < n <= |EnrolPlan(d, key)|
    ensures var r := After(d, EnrolPlan(d, key), n);
            && r.keys.Some?
            && var e := if Standalone(r.keys.value.engine) then r else AfterAll(r, LeavePlan(r.keys.value));
               e.manifest.None? <==> n == |EnrolPlan(d, key)| || EnrolPlan(d, key)[n].PutManifest?
  {
    Unroll(d, EnrolPlan(d, key));
    var r := After(d, EnrolPlan(d, key), n);
    Unroll(r, LeavePlan(r.keys.value));
  }

  /** Nothing moves by itself that is called `default`, can spend, or has been decided
      about either way, nor anything where the shared scan is not the default. */
  lemma NeverEnrolledUnasked(c: Config, name: string, fleetIsDefault: bool)
    ensures name == "default" || c.role == Admin || !fleetIsDefault ==> !ShouldEnrol(c, name, fleetIsDefault)
    ensures c.engine in {Own, FleetPending, Engine.Fleet} ==> !ShouldEnrol(c, name, fleetIsDefault)
    ensures EngineOf(None) == c.engine && c.role == Watch && name != "default" ==> ShouldEnrol(c, name, true)
  {
  }

  // ----- The recorded config -----

  /** What the operations write to `keys.toml` are lawful updates, so `RunsReadBack`
      applies to every database they have been through. */
  lemma OperationsAreLawful(d: Disk, key: string)
    requires d.keys.Some?
    ensures var c := d.keys.value;
            && LawfulRun(c, [SetEngine(Own)])
            && PutKeys(RunUpdates(c, [SetEngine(Own)])) in LeavePlan(c)
            && (c.engine == FleetPending ==>
                  LawfulRun(c, [SetEngine(Fleet)]) && FlipPlan(d)[0] == PutKeys(RunUpdates(c, [SetEngine(Fleet)])))
    ensures var c := d.keys.value;
            c.role == Watch && Enrols(d, Some(key)) ==>
              var us := (if c.ufvk.Some? then [] else [PinUfvk(key)]) + [SetEngine(FleetPending)];
              LawfulRun(c, us) && EnrolPlan(d, Some(key))[|EnrolPlan(d, Some(key))| - 1] == PutKeys(RunUpdates(c, us))
  {
    var c := d.keys.value;
    OneUpdate(c, SetEngine(Own));
    OneUpdate(c, SetEngine(Fleet));
    OneUpdate(c, SetEngine(FleetPending));
    OneUpdate(c.(ufvk := Some(key)), SetEngine(FleetPending));
    var us := [PinUfvk(key)] + [SetEngine(FleetPending)];
    assert us[1..] == [SetEngine(FleetPending)];
    assert [] + [SetEngine(FleetPending)] == [SetEngine(FleetPending)];
    assert PutKeys(Updated(c, SetEngine(Own))) == LeavePlan(c)[1];
  }

  lemma OneUpdate(c: Config, u: Update)
    ensures RunUpdates(c, [u]) == Updated(c, u) && (LawfulRun(c, [u]) <==> Lawful(c, u))
  {
    assert [u][1..] == [];
  }
}
