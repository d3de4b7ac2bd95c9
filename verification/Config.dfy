/** A database's `keys.toml`: what is kept in memory, what is written, how an
    existing file is replaced, and what a reader finds after a crash. TOML itself
    is abstracted: a file holds a whole encoding or is torn. */
module Config {
  import opened Wrappers

  datatype Network = MainNet | TestNet | RegTest
  datatype Role = Admin | Watch
  datatype Pool = Sapling | Orchard | Ironwood
  datatype Engine = Unset | Own | FleetPending | Fleet

  datatype Config = Config(
    network: Network,
    role: Role,
    birthday: nat,
    zkvAddress: Option<string>,
    pool: Pool,
    ufvk: Option<string>,
    engine: Engine,
    shard: Option<string>,
    mnemonic: Option<string>)

  datatype Encoding = Encoding(
    mnemonic: Option<string>,
    network: Option<string>,
    birthday: Option<nat>,
    role: Option<string>,
    zkvAddress: Option<string>,
    pool: Option<string>,
    ufvk: Option<string>,
    engine: Option<string>,
    shard: Option<string>)

  datatype ReadError = NoFile | NotToml | UnknownNetwork | AdminMember | NoViewingKey

  predicate Standalone(e: Engine) {
    e == Unset || e == Own
  }

  // ----- Labels -----

  predicate IsSpace(c: char) {
    c == ' ' || ('\t' <= c && c <= '\r')
  }

  function Trim(s: string): string {
    if s == [] then s
    else if IsSpace(s[0]) then Trim(s[1..])
    else if IsSpace(s[|s| - 1]) then Trim(s[..|s| - 1])
    else s
  }

  function NetworkName(n: Network): string {
    match n
    case MainNet => "mainnet"
    case TestNet => "testnet"
    case RegTest => "regtest"
  }

  function ParseNetwork(s: string): Option<Network> {
    if s == "mainnet" || s == "main" then Some(MainNet)
    else if s == "testnet" || s == "test" then Some(TestNet)
    else if s == "regtest" then Some(RegTest)
    else None
  }

  /** Height of the Sapling upgrade, the birthday of a file that records none. */
  function SaplingHeight(n: Network): nat {
    match n
    case MainNet => 419_200
    case TestNet => 280_000
    case RegTest => 1
  }

  function PoolLabel(p: Pool): Option<string> {
    match p
    case Orchard => None
    case Sapling => Some("sapling")
    case Ironwood => Some("ironwood")
  }

  function PoolOf(tag: Option<string>): Pool {
    if tag == Some("sapling") then Sapling
    else if tag == Some("ironwood") then Ironwood
    else Orchard
  }

  function EngineLabel(e: Engine): Option<string> {
    match e
    case Unset => None
    case Own => Some("own")
    case FleetPending => Some("fleet-pending")
    case Fleet => Some("fleet")
  }

  function EngineOf(tag: Option<string>): Engine {
    if tag.None? then Unset
    else if tag.value == "fleet" then Fleet
    else if tag.value == "fleet-pending" then FleetPending
    else Own
  }

  /** Labels are read back as written; what is lost is the spelling of an engine
      this build does not know, which becomes `own`, and of a pool, which becomes
      absent. Only the two fleet labels make a member. */
  lemma LabelsReadBack(e: Engine, p: Pool, tag: Option<string>)
    ensures EngineOf(EngineLabel(e)) == e && PoolOf(PoolLabel(p)) == p
    ensures EngineLabel(EngineOf(tag)) == tag <==> tag in {None, Some("own"), Some("fleet-pending"), Some("fleet")}
    ensures PoolLabel(PoolOf(tag)) == tag <==> tag in {None, Some("sapling"), Some("ironwood")}
    ensures Standalone(EngineOf(tag)) <==> tag !in {Some("fleet-pending"), Some("fleet")}
    ensures EngineOf(tag) == Unset <==> tag.None?
  {
  }

  // ----- Reading and writing the encoding -----

  function NetworkOf(tag: Option<string>): Option<Network> {
    if tag.None? then Some(MainNet) else ParseNetwork(Trim(tag.value))
  }

  function RoleOf(tag: Option<string>, mnemonic: Option<string>): Role {
    if tag == Some("watch") || (tag.None? && mnemonic.None?) then Watch else Admin
  }

  function Decode(e: Encoding): Result<Config, ReadError> {
    var network := NetworkOf(e.network);
    if network.None? then Err(UnknownNetwork)
    else
      var role := RoleOf(e.role, e.mnemonic);
      var engine := EngineOf(e.engine);
      if !Standalone(engine) && role == Admin then Err(AdminMember)
      else if !Standalone(engine) && e.ufvk.None? && e.zkvAddress.None? then Err(NoViewingKey)
      else Ok(Config(network.value, role,
                     if e.birthday.Some? then e.birthday.value else SaplingHeight(network.value),
                     e.zkvAddress, PoolOf(e.pool), e.ufvk, engine, e.shard, e.mnemonic))
  }

  function Encode(c: Config): Encoding {
    Encoding(c.mnemonic, Some(NetworkName(c.network)), Some(c.birthday),
             Some(if c.role == Admin then "admin" else "watch"),
             c.zkvAddress, PoolLabel(c.pool), c.ufvk, EngineLabel(c.engine), c.shard)
  }

  /** A member is watch-only and can name its viewing key. */
  predicate Coherent(c: Config) {
    !Standalone(c.engine) ==> c.role == Watch && (c.ufvk.Some? || c.zkvAddress.Some?)
  }

  lemma NetworkReadsBack(n: Network)
    ensures NetworkOf(Some(NetworkName(n))) == Some(n)
  {
    var s := NetworkName(n);
    assert Trim(s) == s;
  }

  /** What is written is read back exactly, or refused: never as another config. */
  lemma ReadsBackIff(c: Config)
    ensures Decode(Encode(c)) == Ok(c) <==> Coherent(c)
    ensures Decode(Encode(c)).Ok? <==> Coherent(c)
  {
    NetworkReadsBack(c.network);
  }

  /** Rewriting a file that was read changes nothing a reader sees and keeps every
      free-text field as it stood. */
  lemma RewriteIsInvisible(e: Encoding)
    requires Decode(e).Ok?
    ensures var c := Decode(e).value;
            && Decode(Encode(c)) == Decode(e)
            && Encode(c).mnemonic == e.mnemonic && Encode(c).zkvAddress == e.zkvAddress
            && Encode(c).ufvk == e.ufvk && Encode(c).shard == e.shard
  {
    ReadsBackIff(Decode(e).value);
  }

  // ----- What the text of a file means -----

  predicate Spaces(s: string) {
    forall i | 0 <= i < |s| :: IsSpace(s[i])
  }

  lemma {:induction false} TrimPads(a: string, t: string, b: string)
    requires Spaces(a) && Spaces(b) && t != "" && !IsSpace(t[0]) && !IsSpace(t[|t| - 1])
    ensures Trim(a + t + b) == t
    decreases |a| + |b|
  {
    var s := a + t + b;
    if a != "" {
      assert s[1..] == a[1..] + t + b;
      TrimPads(a[1..], t, b);
    } else if b != "" {
      assert s[0] == t[0] && s[|s| - 1] == b[|b| - 1] && s[..|s| - 1] == a + t + b[..|b| - 1];
      TrimPads(a, t, b[..|b| - 1]);
    } else {
      assert s == t;
    }
  }

  /** A network may be spelled two ways, with space around it; a file that names none is
      on mainnet. */
  lemma NetworkSpellings(a: string, b: string)
    requires forall c | c in a || c in b :: c == ' ' || '\t' <= c <= '\r'
    ensures NetworkOf(None) == Some(MainNet)
    ensures NetworkOf(Some(a + "mainnet" + b)) == NetworkOf(Some(a + "main" + b)) == Some(MainNet)
    ensures NetworkOf(Some(a + "testnet" + b)) == NetworkOf(Some(a + "test" + b)) == Some(TestNet)
    ensures NetworkOf(Some(a + "regtest" + b)) == Some(RegTest)
  {
    assert Spaces(a) by { assert forall i | 0 <= i < |a| :: a[i] in a; }
    assert Spaces(b) by { assert forall i | 0 <= i < |b| :: b[i] in b; }
    TrimPads(a, "mainnet", b);
    TrimPads(a, "main", b);
    TrimPads(a, "testnet", b);
    TrimPads(a, "test", b);
    TrimPads(a, "regtest", b);
  }

  predicate ClaimsMembership(e: Encoding) {
    e.engine in {Some("fleet"), Some("fleet-pending")}
  }

  predicate WatchOnly(e: Encoding) {
    e.role == Some("watch") || (e.role.None? && e.mnemonic.None?)
  }

  /** What a file is read as, older ones included: without a role it is watch-only exactly
      if it holds no seed, any role but `watch` is an admin's, without a birthday it starts
      at its network's Sapling upgrade. Refusals come in this order. */
  lemma FileMeans(e: Encoding)
    ensures Decode(e) == Err(UnknownNetwork) <==> NetworkOf(e.network).None?
    ensures Decode(e) == Err(AdminMember) <==> NetworkOf(e.network).Some? && ClaimsMembership(e) && !WatchOnly(e)
    ensures Decode(e) == Err(NoViewingKey) <==>
              && NetworkOf(e.network).Some? && ClaimsMembership(e) && WatchOnly(e)
              && e.ufvk.None? && e.zkvAddress.None?
    ensures Decode(e).Err? ==> Decode(e).error in {UnknownNetwork, AdminMember, NoViewingKey}
    ensures Decode(e).Ok? ==>
              var c := Decode(e).value;
              && Some(c.network) == NetworkOf(e.network)
              && (e.birthday.Some? ==> c.birthday == e.birthday.value)
              && (e.birthday.None? ==> c.birthday == match c.network case MainNet => 419_200
                                                                     case TestNet => 280_000
                                                                     case RegTest => 1)
              && (c.role == Watch <==> WatchOnly(e))
              && (c.engine == Unset <==> e.engine.None?) && (c.engine == Fleet <==> e.engine == Some("fleet"))
              && (c.engine == FleetPending <==> e.engine == Some("fleet-pending"))
              && (c.pool == Sapling <==> e.pool == Some("sapling"))
              && (c.pool == Ironwood <==> e.pool == Some("ironwood"))
              && c.mnemonic == e.mnemonic && c.zkvAddress == e.zkvAddress && c.ufvk == e.ufvk && c.shard == e.shard
  {
  }

  /** And what is written for a config, label by label. */
  lemma WrittenAs(c: Config)
    ensures var e := Encode(c);
            && e.network == Some(match c.network case MainNet => "mainnet"
                                                 case TestNet => "testnet"
                                                 case RegTest => "regtest")
            && e.role == Some(if c.role == Watch then "watch" else "admin")
            && (e.engine.None? <==> c.engine == Unset) && (e.engine == Some("own") <==> c.engine == Own)
            && (e.engine == Some("fleet-pending") <==> c.engine == FleetPending)
            && (e.engine == Some("fleet") <==> c.engine == Fleet)
            && (e.pool.None? <==> c.pool == Orchard) && (e.pool == Some("sapling") <==> c.pool == Sapling)
            && e.birthday == Some(c.birthday) && e.mnemonic == c.mnemonic
  {
  }

  // ----- Updates -----

  datatype Update = SetEngine(engine: Engine) | PinUfvk(ufvk: string) | CacheShard(shard: string) | ForgetShard

  function Updated(c: Config, u: Update): Config {
    match u
    case SetEngine(e) => c.(engine := e, shard := if Standalone(e) then None else c.shard)
    case PinUfvk(k) => c.(ufvk := Some(k))
    case CacheShard(s) => c.(shard := Some(s))
    case ForgetShard => c.(shard := None)
  }

  /** What the callers of the updates see to: enrolment is of a watch database whose
      key was pinned first, and only a converting database becomes a member. */
  predicate Lawful(c: Config, u: Update) {
    u.SetEngine? ==>
      match u.engine
      case FleetPending => c.role == Watch && c.ufvk.Some?
      case Fleet => c.engine == FleetPending
      case _ => true
  }

  function RunUpdates(c: Config, us: seq<Update>): Config
    decreases us
  {
    if us == [] then c else RunUpdates(Updated(c, us[0]), us[1..])
  }

  predicate LawfulRun(c: Config, us: seq<Update>)
    decreases us
  {
    us == [] || (Lawful(c, us[0]) && LawfulRun(Updated(c, us[0]), us[1..]))
  }

  function CreatedAdmin(network: Network, birthday: nat, pool: Pool, mnemonic: string): Config {
    Config(network, Admin, birthday, None, pool, None, Unset, None, Some(mnemonic))
  }

  /** A watch database; a member's key is taken from its address. */
  function CreatedWatch(network: Network, birthday: nat, pool: Pool, address: string, key: string,
                        engine: Engine): Config {
    var ufvk := if Standalone(engine) then None else Some(key);
    Config(network, Watch, birthday, Some(address), pool, ufvk, engine, None, None)
  }

  ghost predicate Created(c: Config) {
    || (exists n, b, p, m :: c == CreatedAdmin(n, b, p, m))
    || (exists n, b, p, a, k, e :: c == CreatedWatch(n, b, p, a, k, e))
  }

  predicate SameIdentity(c: Config, d: Config) {
    && d.network == c.network && d.role == c.role && d.birthday == c.birthday
    && d.zkvAddress == c.zkvAddress && d.pool == c.pool && d.mnemonic == c.mnemonic
  }

  /** Over every lawful run, the config stays readable, exactly, and whatever names
      the database, its role, pool and seed never change. */
  lemma {:induction false} RunsReadBack(c: Config, us: seq<Update>)
    requires Coherent(c) && LawfulRun(c, us)
    ensures var d := RunUpdates(c, us);
            Decode(Encode(d)) == Ok(d) && Coherent(d) && SameIdentity(c, d)
            && (c.ufvk.Some? ==> d.ufvk.Some?)
    decreases us
  {
    if us == [] {
      ReadsBackIff(c);
    } else {
      RunsReadBack(Updated(c, us[0]), us[1..]);
    }
  }

  lemma CreatedReadsBack(c: Config, us: seq<Update>)
    requires Created(c) && LawfulRun(c, us)
    ensures var d := RunUpdates(c, us); Decode(Encode(d)) == Ok(d) && SameIdentity(c, d)
  {
    RunsReadBack(c, us);
  }

  /** The guards matter: an update of a readable config writes an unreadable file
      exactly when it makes a member of a database that cannot be one. */
  lemma UnreadableIff(c: Config, u: Update)
    requires Coherent(c)
    ensures Decode(Encode(Updated(c, u))).Err? <==>
              u.SetEngine? && !Standalone(u.engine) && (c.role == Admin || (c.ufvk.None? && c.zkvAddress.None?))
  {
    ReadsBackIff(Updated(c, u));
  }

  // ----- Files -----

  datatype Content = Whole(encoding: Encoding) | Torn

  datatype File = File(content: Content, synced: bool)

  /** The directory: the config file, the temporary sibling, and what the config's
      name still leads to on the medium if the latest rename is not out yet. */
  datatype Folder = Folder(keys: Option<File>, tmp: Option<File>, onMedium: Option<File>)

  function ReadFile(f: Option<File>): Result<Config, ReadError> {
    if f.None? then Err(NoFile) else if f.value.content.Torn? then Err(NotToml) else Decode(f.value.content.encoding)
  }

  /** What is left of a file: contents that were not synced may be lost. */
  function Left(f: Option<File>, lost: bool): Option<File> {
    if f.Some? && !f.value.synced && lost then Some(File(Torn, false)) else f
  }

  /** Power loss. Whether the latest rename had got out, and whether unsynced contents
      had, is up to the medium. */
  function PowerLoss(d: Folder, flushed: bool, lost: bool): Folder {
    var keys := Left(if flushed then d.keys else d.onMedium, lost);
    Folder(keys, Left(d.tmp, lost), keys)
  }

  /** One file-system call: create an empty file, fill one, sync it, unlink the
      temporary, or rename it over the config. A new config is created in place. */
  predicate Primitive(a: Folder, b: Folder) {
    || (a.keys.None? && b == a.(keys := Some(File(Torn, false)), onMedium := b.keys))
    || (a.keys == Some(File(Torn, false)) && b.keys.Some? && !b.keys.value.synced
        && b == a.(keys := b.keys, onMedium := b.keys))
    || (a.tmp.None? && b == a.(tmp := Some(File(Torn, false))))
    || (a.tmp == Some(File(Torn, false)) && b.tmp.Some? && !b.tmp.value.synced && b == a.(tmp := b.tmp))
    || (a.tmp.Some? && b == a.(tmp := Some(a.tmp.value.(synced := true))))
    || b == a.(tmp := None)
    || b == a.(keys := a.tmp, tmp := None)
  }

  datatype Fault = CreateFails | WriteFails | SyncFails | RenameFails

  class Store {
    var keys: Option<File>
    var tmp: Option<File>
    ghost var onMedium: Option<File>

    constructor ()
      ensures View() == Folder(None, None, None)
    {
      keys, tmp, onMedium := None, None, None;
    }

    ghost function View(): Folder
      reads this
    {
      Folder(keys, tmp, onMedium)
    }

    /** `write_config`: create the file, never over an existing one. */
    method WriteConfig(e: Encoding, faults: set<Fault>) returns (ok: bool, ghost trail: seq<Folder>)
      modifies this
      ensures ok <==> old(keys).None? && CreateFails !in faults && WriteFails !in faults
      ensures ok ==> keys == Some(File(Whole(e), false))
      ensures old(keys).Some? ==> View() == old(View())
      ensures old(keys).None? && old(onMedium).None? ==> forall d | d in trail :: Creating(d, e)
      ensures ok ==> exists d :: d in trail && d.keys == Some(File(Torn, false))
      ensures trail != [] && trail[0] == old(View()) && trail[|trail| - 1] == View()
      ensures forall i | 0 < i < |trail| :: Primitive(trail[i - 1], trail[i])
    {
      trail := [View()];
      if keys.Some? || CreateFails in faults { return false, trail; }
      keys := Some(File(Torn, false));
      onMedium := keys;
      trail := trail + [View()];
      if WriteFails in faults { return false, trail; }
      keys := Some(File(Whole(e), false));
      onMedium := keys;
      ghost var torn := trail[1];
      trail := trail + [View()];
      assert torn in trail;
      return true, trail;
    }

    /** `rewrite_config`: temporary file, sync, rename. `trail` is every state a
        crash could leave the directory in. */
    method RewriteConfig(e: Encoding, faults: set<Fault>) returns (ok: bool, ghost trail: seq<Folder>)
      modifies this
      ensures ok <==> faults == {}
      ensures ok ==> keys == Some(File(Whole(e), true)) && tmp.None?
      ensures !ok ==> keys == old(keys) && onMedium == old(onMedium)
      ensures trail != [] && trail[0] == old(View()) && trail[|trail| - 1] == View()
      ensures forall i | 0 < i < |trail| :: Primitive(trail[i - 1], trail[i])
      ensures forall d | d in trail :: Between(old(View()), d, e)
    {
      trail := [View()];
      tmp := None;
      trail := trail + [View()];
      if CreateFails in faults { return false, trail; }
      tmp := Some(File(Torn, false));
      trail := trail + [View()];
      if WriteFails in faults { return false, trail; }
      tmp := Some(File(Whole(e), false));
      trail := trail + [View()];
      if SyncFails in faults { return false, trail; }
      tmp := Some(File(Whole(e), true));
      trail := trail + [View()];
      if RenameFails in faults {
        tmp := None;
        trail := trail + [View()];
        return false, trail;
      }
      keys, tmp := tmp, None;
      trail := trail + [View()];
      assert faults == {} by {
        forall f: Fault ensures f !in faults {
          match f case CreateFails => case WriteFails => case SyncFails => case RenameFails =>
        }
      }
      return true, trail;
    }
  }

  /** Where a rewrite of `start` may stand: the config's name leads to the old file
      or to the whole, synced new one, and the medium still has one of them. */
  predicate Between(start: Folder, d: Folder, e: Encoding) {
    && d.onMedium == start.onMedium
    && (d.keys == start.keys || d.keys == Some(File(Whole(e), true)))
  }

  /** At every crash point of a rewrite a reader finds the old config or the new
      one: always if only the process dies, and after every power loss if and only if
      the old file had been synced or was not readable anyway. */
  lemma RewriteCrashSafe(start: Folder, d: Folder, c: Config)
    requires start.keys.Some? && start.onMedium == start.keys && Between(start, d, Encode(c)) && Coherent(c)
    ensures ReadFile(d.keys) == ReadFile(start.keys) || ReadFile(d.keys) == Ok(c)
    ensures (forall flushed, lost :: ReadFile(PowerLoss(d, flushed, lost).keys) in {ReadFile(start.keys), Ok(c)})
       <==> start.keys.value.synced || ReadFile(start.keys) == Err(NotToml)
  {
    ReadsBackIff(c);
    assert ReadFile(PowerLoss(d, false, true).keys) == ReadFile(Left(start.keys, true));
  }

  /** Where a creation may stand: no file, an empty or partial one, or the whole one. */
  predicate Creating(d: Folder, e: Encoding) {
    && d.onMedium == d.keys
    && (d.keys.None? || d.keys == Some(File(Torn, false)) || d.keys == Some(File(Whole(e), false)))
  }

  /** Creation has no such protection: a crash leaves a database that exists but cannot
      be read exactly between creating the file and filling it, and nothing is synced,
      so after a power loss it reads only if it was filled and its contents got out. */
  lemma CreationCrashes(d: Folder, c: Config, flushed: bool, lost: bool)
    requires Creating(d, Encode(c)) && Coherent(c)
    ensures ReadFile(d.keys) == if d.keys == Some(File(Whole(Encode(c)), false)) then Ok(c)
                                else if d.keys.None? then Err(NoFile) else Err(NotToml)
    ensures ReadFile(PowerLoss(d, flushed, lost).keys)
         == if d.keys.Some? && lost then Err(NotToml) else ReadFile(d.keys)
  {
    ReadsBackIff(c);
  }

  // ----- Creation -----

  method InitAdmin(store: Store, network: Network, birthday: nat, pool: Pool, mnemonic: string, faults: set<Fault>)
    returns (ok: bool, ghost trail: seq<Folder>)
    modifies store
    ensures ok <==> old(store.keys).None? && CreateFails !in faults && WriteFails !in faults
    ensures ok ==> ReadFile(store.keys) == Ok(CreatedAdmin(network, birthday, pool, mnemonic))
    ensures ok ==> ReadFile(store.keys)
                   == Ok(Config(network, Admin, birthday, None, pool, None, Unset, None, Some(mnemonic)))
    ensures old(store.keys).Some? ==> store.keys == old(store.keys)
  {
    ok, trail := store.WriteConfig(
      Encoding(Some(mnemonic), Some(NetworkName(network)), Some(birthday), Some("admin"),
               None, PoolLabel(pool), None, None, None), faults);
    ReadsBackIff(CreatedAdmin(network, birthday, pool, mnemonic));
  }

  /** `key` is what the address parses to, if it does; only a member needs it. */
  method InitWatch(store: Store, network: Network, birthday: nat, pool: Pool, address: string, key: Option<string>,
                   engine: Engine, faults: set<Fault>)
    returns (ok: bool, ghost trail: seq<Folder>)
    modifies store
    ensures ok <==> old(store.keys).None? && CreateFails !in faults && WriteFails !in faults
                    && (Standalone(engine) || key.Some?)
    ensures ok ==> ReadFile(store.keys)
                   == Ok(CreatedWatch(network, birthday, pool, address, if key.Some? then key.value else "", engine))
    ensures ok ==> ReadFile(store.keys)
                   == Ok(Config(network, Watch, birthday, Some(address), pool,
                                if engine in {FleetPending, Fleet} then key else None, engine, None, None))
    ensures old(store.keys).Some? ==> store.keys == old(store.keys)
  {
    var ufvk := None;
    if !Standalone(engine) {
      if key.None? { return false, []; }
      ufvk := key;
    }
    ok, trail := store.WriteConfig(
      Encoding(None, Some(NetworkName(network)), Some(birthday), Some("watch"),
               Some(address), PoolLabel(pool), ufvk, EngineLabel(engine), None), faults);
    ReadsBackIff(CreatedWatch(network, birthday, pool, address, if key.Some? then key.value else "", engine));
  }

  // ----- The object in memory -----

  class WalletConfig {
    var cfg: Config
    const store: Store

    constructor (cfg: Config, store: Store)
      ensures this.cfg == cfg && this.store == store
    {
      this.cfg, this.store := cfg, store;
    }

    /** All updates change memory first and then replace the file; a failed write
        leaves memory ahead of the file. */
    method Save(faults: set<Fault>) returns (ok: bool, ghost trail: seq<Folder>)
      modifies store
      ensures ok <==> faults == {}
      ensures ok ==> store.keys == Some(File(Whole(Encode(cfg)), true))
      ensures !ok ==> store.keys == old(store.keys) && store.onMedium == old(store.onMedium)
      ensures forall d | d in trail :: Between(old(store.View()), d, Encode(cfg))
    {
      ok, trail := store.RewriteConfig(Encode(cfg), faults);
    }

    method SetEngine(engine: Engine, faults: set<Fault>) returns (ok: bool, ghost trail: seq<Folder>)
      modifies this, store
      ensures cfg == Updated(old(cfg), Update.SetEngine(engine)) && (ok <==> faults == {})
      ensures cfg == old(cfg).(engine := engine,
                               shard := if engine in {FleetPending, Fleet} then old(cfg).shard else None)
      ensures ok ==> (ReadFile(store.keys) == Ok(cfg) <==>
                        (engine in {FleetPending, Fleet} ==>
                           cfg.role == Watch && (cfg.ufvk.Some? || cfg.zkvAddress.Some?)))
      ensures ok && Lawful(old(cfg), Update.SetEngine(engine)) && Coherent(old(cfg)) ==> ReadFile(store.keys) == Ok(cfg)
      ensures !ok ==> store.keys == old(store.keys)
      ensures forall d | d in trail :: Between(old(store.View()), d, Encode(cfg))
    {
      cfg := cfg.(engine := engine);
      if Standalone(engine) {
        cfg := cfg.(shard := None);
      }
      ok, trail := Save(faults);
      ReadsBackIff(cfg);
    }

    method PinUfvk(ufvk: string, faults: set<Fault>) returns (ok: bool, ghost trail: seq<Folder>)
      modifies this, store
      ensures cfg == Updated(old(cfg), Update.PinUfvk(ufvk)) == old(cfg).(ufvk := Some(ufvk))
      ensures ok <==> faults == {}
      ensures ok && Coherent(old(cfg)) ==> ReadFile(store.keys) == Ok(cfg)
      ensures !ok ==> store.keys == old(store.keys)
      ensures forall d | d in trail :: Between(old(store.View()), d, Encode(cfg))
    {
      cfg := cfg.(ufvk := Some(ufvk));
      ok, trail := Save(faults);
      ReadsBackIff(cfg);
    }

    /** Skips the write when nothing would change. */
    method CacheShard(shard: string, faults: set<Fault>) returns (ok: bool, ghost trail: seq<Folder>)
      modifies this, store
      ensures cfg == Updated(old(cfg), Update.CacheShard(shard)) == old(cfg).(shard := Some(shard))
      ensures ok <==> faults == {} || old(cfg.shard) == Some(shard)
      ensures ok && Coherent(old(cfg)) && ReadFile(old(store.keys)) == Ok(old(cfg)) ==> ReadFile(store.keys) == Ok(cfg)
      ensures !ok || old(cfg.shard) == Some(shard) ==> store.keys == old(store.keys)
      ensures forall d | d in trail :: Between(old(store.View()), d, Encode(cfg))
    {
      if cfg.shard == Some(shard) { return true, []; }
      cfg := cfg.(shard := Some(shard));
      ok, trail := Save(faults);
      ReadsBackIff(cfg);
    }

    method ForgetShard(faults: set<Fault>) returns (ok: bool, ghost trail: seq<Folder>)
      modifies this, store
      ensures cfg == Updated(old(cfg), Update.ForgetShard) == old(cfg).(shard := None)
      ensures ok <==> faults == {} || old(cfg.shard).None?
      ensures ok && Coherent(old(cfg)) && ReadFile(old(store.keys)) == Ok(old(cfg)) ==> ReadFile(store.keys) == Ok(cfg)
      ensures !ok || old(cfg.shard).None? ==> store.keys == old(store.keys)
      ensures forall d | d in trail :: Between(old(store.View()), d, Encode(cfg))
    {
      if cfg.shard.None? { return true, []; }
      cfg := cfg.(shard := None);
      ok, trail := Save(faults);
      ReadsBackIff(cfg);
    }
  }
}
