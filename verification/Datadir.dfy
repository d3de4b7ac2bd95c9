/** Who may touch a wallet directory: nodes and `sync --rebuild`, in any number of
    processes, keep out of each other's way with one non-reentrant file lock per
    directory. A step that cannot be taken (the lock is held, the slot is empty)
    leaves the machine as it is, so every list of steps is an interleaving. */
module Datadir {
  import opened Wrappers
  import Config

  type Dir = string
  type Pid = nat
  type Network = Config.Network

  datatype Holder = ByNode(node: nat) | ByRebuild(pid: Pid)

  /** A live node: `handles` counts the clones handed out besides the engine slot's. */
  datatype Node = Node(dir: Dir, engine: nat, owner: Pid, slotted: bool, handles: nat)

  datatype Engine = Engine(owner: Pid, dir: Dir, slot: Option<nat>)

  /** How far a `sync --rebuild` has got. */
  datatype Stage = Locked | Wiped | Rebuilt | Released

  datatype Program = App | Rebuild(dir: Dir, stage: Stage)

  datatype Machine = Machine(
    locks: map<Dir, Holder>,
    nodes: map<nat, Node>,
    engines: map<nat, Engine>,
    programs: map<Pid, Program>,
    registry: map<(Pid, Network), nat>,
    next: nat)

  const BOOT := Machine(map[], map[], map[], map[], map[], 0)

  datatype Step =
    | Spawn(pid: Pid)
    | RunRebuild(pid: Pid, dir: Dir, isMember: bool)
    | Wipe(pid: Pid)
    | Rebootstrap(pid: Pid)
    | Unlock(pid: Pid)
    | OpenEngine(pid: Pid, dir: Dir)
    | TakeNode(engine: nat)
    | DropHandle(node: nat)
    | Shutdown(engine: nat)
    | Shared(pid: Pid, network: Network)
    | Drain(pid: Pid)
    | Exit(pid: Pid)

  /** One directory per network, and none of them a database's own. */
  function FleetDir(network: Network): Dir {
    ".fleet/" + Config.NetworkName(network)
  }

  predicate Holding(p: Program) {
    p.Rebuild? && p.stage != Released
  }

  /** The process may open engines: a rebuild only once its scoped lock is gone. */
  predicate MayOpen(m: Machine, p: Pid) {
    p in m.programs && !Holding(m.programs[p])
  }

  predicate At(m: Machine, p: Pid, stage: Stage) {
    p in m.programs && m.programs[p].Rebuild? && m.programs[p].stage == stage
  }

  // ----- Steps -----

  function Acquire(m: Machine, p: Pid, dir: Dir): Machine {
    m.(programs := m.programs[p := Rebuild(dir, Locked)], locks := m.locks[dir := ByRebuild(p)])
  }

  function Advance(m: Machine, p: Pid, stage: Stage): Machine
    requires p in m.programs && m.programs[p].Rebuild?
  {
    m.(programs := m.programs[p := Rebuild(m.programs[p].dir, stage)])
  }

  function Opened(m: Machine, p: Pid, dir: Dir): Machine {
    m.(engines := m.engines[m.next := Engine(p, dir, None)], next := m.next + 1)
  }

  function Started(m: Machine, e: nat): Machine
    requires e in m.engines
  {
    var eng := m.engines[e];
    m.(nodes := m.nodes[m.next := Node(eng.dir, e, eng.owner, true, 1)],
       locks := m.locks[eng.dir := ByNode(m.next)],
       engines := m.engines[e := eng.(slot := Some(m.next))],
       next := m.next + 1)
  }

  /** The node's last reference is gone: it stops and its lock with it. */
  function Stopped(m: Machine, n: nat): Machine
    requires n in m.nodes
  {
    m.(nodes := m.nodes - {n}, locks := m.locks - {m.nodes[n].dir})
  }

  function WithNode(m: Machine, n: nat, node: Node): Machine {
    m.(nodes := m.nodes[n := node])
  }

  function Emptied(m: Machine, e: nat): Machine
    requires e in m.engines
  {
    m.(engines := m.engines[e := m.engines[e].(slot := None)])
  }

  predicate Owns(m: Machine, p: Pid, holder: Holder) {
    match holder
    case ByNode(n) => n in m.nodes && m.nodes[n].owner == p
    case ByRebuild(q) => q == p
  }

  /** The process ends, on its own or killed: the system closes what it had open. */
  function Gone(m: Machine, p: Pid): Machine {
    Machine(map d | d in m.locks && !Owns(m, p, m.locks[d]) :: m.locks[d],
            map n | n in m.nodes && m.nodes[n].owner != p :: m.nodes[n],
            map e | e in m.engines && m.engines[e].owner != p :: m.engines[e],
            m.programs - {p},
            map k | k in m.registry && k.0 != p :: m.registry[k],
            m.next)
  }

  function Apply(m: Machine, step: Step): Machine {
    match step
    case Spawn(p) => if p in m.programs then m else m.(programs := m.programs[p := App])
    case RunRebuild(p, dir, isMember) =>
      if p in m.programs || isMember || dir in m.locks then m else Acquire(m, p, dir)
    case Wipe(p) => if At(m, p, Locked) then Advance(m, p, Wiped) else m
    case Rebootstrap(p) => if At(m, p, Wiped) then Advance(m, p, Rebuilt) else m
    case Unlock(p) =>
      if At(m, p, Rebuilt)
      then Advance(m.(locks := m.locks - {m.programs[p].dir}), p, Released) else m
    case OpenEngine(p, dir) => if MayOpen(m, p) then Opened(m, p, dir) else m
    case TakeNode(e) =>
      if e !in m.engines then m
      else if m.engines[e].slot.Some? then
        var n := m.engines[e].slot.value;
        if n in m.nodes then WithNode(m, n, m.nodes[n].(handles := m.nodes[n].handles + 1)) else m
      else if m.engines[e].dir in m.locks then m
      else Started(m, e)
    case DropHandle(n) =>
      if n !in m.nodes || m.nodes[n].handles == 0 then m
      else if m.nodes[n].handles == 1 && !m.nodes[n].slotted then Stopped(m, n)
      else WithNode(m, n, m.nodes[n].(handles := m.nodes[n].handles - 1))
    case Shutdown(e) =>
      if e !in m.engines || m.engines[e].slot.None? then m
      else
        var n := m.engines[e].slot.value;
        if n !in m.nodes then m
        else if m.nodes[n].handles == 0 then Stopped(Emptied(m, e), n)
        else WithNode(Emptied(m, e), n, m.nodes[n].(slotted := false))
    case Shared(p, network) =>
      if !MayOpen(m, p) || (p, network) in m.registry then m
      else Opened(m, p, FleetDir(network)).(registry := m.registry[(p, network) := m.next])
    case Drain(p) => m.(registry := map k | k in m.registry && k.0 != p :: m.registry[k])
    case Exit(p) => Gone(m, p)
  }

  function ApplyAll(m: Machine, steps: seq<Step>): Machine {
    if steps == [] then m else Apply(ApplyAll(m, steps[..|steps| - 1]), steps[|steps| - 1])
  }

  // ----- What every step keeps -----

  ghost predicate Fresh(m: Machine) {
    (forall n | n in m.nodes :: n < m.next) && (forall e | e in m.engines :: e < m.next)
  }

  predicate UsedBy(m: Machine, d: Dir, holder: Holder) {
    match holder
    case ByNode(n) => n in m.nodes && m.nodes[n].dir == d
    case ByRebuild(p) => p in m.programs && Holding(m.programs[p]) && m.programs[p].dir == d
  }

  /** A lock is held exactly by the node or rebuild that works on its directory. */
  ghost predicate LocksMatch(m: Machine) {
    && (forall n | n in m.nodes :: m.nodes[n].dir in m.locks && m.locks[m.nodes[n].dir] == ByNode(n))
    && (forall p | p in m.programs && Holding(m.programs[p]) ::
          m.programs[p].dir in m.locks && m.locks[m.programs[p].dir] == ByRebuild(p))
    && (forall d | d in m.locks :: UsedBy(m, d, m.locks[d]))
  }

  /** A live node is referenced, by its engine's slot or by a handle. */
  predicate Referenced(m: Machine, n: nat)
    requires n in m.nodes
  {
    var node := m.nodes[n];
    && node.engine in m.engines && m.engines[node.engine].owner == node.owner
    && m.engines[node.engine].dir == node.dir
    && (if node.slotted then m.engines[node.engine].slot == Some(n) else node.handles > 0)
  }

  /** What an engine's slot names is live and belongs to that engine. */
  predicate SlotLive(m: Machine, e: nat)
    requires e in m.engines
  {
    m.engines[e].slot.Some? ==>
      var n := m.engines[e].slot.value;
      n in m.nodes && m.nodes[n].slotted && m.nodes[n].engine == e
  }

  ghost predicate SlotsMatch(m: Machine) {
    && (forall n | n in m.nodes :: Referenced(m, n))
    && (forall e | e in m.engines :: SlotLive(m, e))
  }

  predicate Registered(m: Machine, k: (Pid, Network)) {
    k in m.registry ==>
      var e := m.registry[k];
      e in m.engines && m.engines[e].owner == k.0 && m.engines[e].dir == FleetDir(k.1)
  }

  /** Engines belong to processes that may have them, and the registry names engines
      of its own process over that network's directory. */
  ghost predicate OwnersMatch(m: Machine) {
    (forall e | e in m.engines :: MayOpen(m, m.engines[e].owner)) && (forall k :: Registered(m, k))
  }

  ghost predicate Valid(m: Machine) {
    Fresh(m) && LocksMatch(m) && SlotsMatch(m) && OwnersMatch(m)
  }

  // Locks

  lemma StartedLocks(m: Machine, e: nat)
    requires Fresh(m) && LocksMatch(m) && e in m.engines && m.engines[e].dir !in m.locks
    ensures LocksMatch(Started(m, e))
  {
  }

  lemma StoppedLocks(m: Machine, n: nat)
    requires LocksMatch(m) && n in m.nodes
    ensures LocksMatch(Stopped(m, n))
  {
  }

  lemma AcquireLocks(m: Machine, p: Pid, dir: Dir)
    requires LocksMatch(m) && p !in m.programs && dir !in m.locks
    ensures LocksMatch(Acquire(m, p, dir))
  {
  }

  lemma UnlockLocks(m: Machine, p: Pid)
    requires LocksMatch(m)
    ensures LocksMatch(Apply(m, Unlock(p)))
  {
  }

  lemma GoneLocks(m: Machine, p: Pid)
    requires LocksMatch(m)
    ensures LocksMatch(Gone(m, p))
  {
  }

  lemma PlainLocks(m: Machine, r: Machine)
    requires LocksMatch(m) && r.locks == m.locks && r.nodes == m.nodes && r.programs == m.programs
    ensures LocksMatch(r)
  {
  }

  lemma SpawnLocks(m: Machine, p: Pid)
    requires LocksMatch(m) && p !in m.programs
    ensures LocksMatch(m.(programs := m.programs[p := App]))
  {
  }

  lemma AdvanceLocks(m: Machine, p: Pid, stage: Stage)
    requires LocksMatch(m) && p in m.programs && Holding(m.programs[p]) && stage != Released
    ensures LocksMatch(Advance(m, p, stage))
  {
  }

  lemma NodeLocks(m: Machine, n: nat, node: Node)
    requires LocksMatch(m) && n in m.nodes && node.dir == m.nodes[n].dir
    ensures LocksMatch(WithNode(m, n, node))
  {
  }

  lemma CloneLocks(m: Machine, e: nat)
    requires LocksMatch(m) && e in m.engines && m.engines[e].slot.Some? && m.engines[e].slot.value in m.nodes
    ensures LocksMatch(Apply(m, TakeNode(e)))
  {
    var n := m.engines[e].slot.value;
    NodeLocks(m, n, m.nodes[n].(handles := m.nodes[n].handles + 1));
  }

  lemma DropLocks(m: Machine, n: nat)
    requires LocksMatch(m) && n in m.nodes && m.nodes[n].handles > 0
    ensures LocksMatch(Apply(m, DropHandle(n)))
  {
    if m.nodes[n].handles == 1 && !m.nodes[n].slotted {
      StoppedLocks(m, n);
    } else {
      NodeLocks(m, n, m.nodes[n].(handles := m.nodes[n].handles - 1));
    }
  }

  lemma ShutdownLocks(m: Machine, e: nat)
    requires LocksMatch(m) && e in m.engines && m.engines[e].slot.Some? && m.engines[e].slot.value in m.nodes
    ensures LocksMatch(Apply(m, Shutdown(e)))
  {
    var n := m.engines[e].slot.value;
    PlainLocks(m, Emptied(m, e));
    if m.nodes[n].handles == 0 {
      StoppedLocks(Emptied(m, e), n);
    } else {
      NodeLocks(Emptied(m, e), n, m.nodes[n].(slotted := false));
    }
  }

  lemma NodeStepLocks(m: Machine, step: Step)
    requires Fresh(m) && LocksMatch(m) && (step.TakeNode? || step.DropHandle? || step.Shutdown?)
    ensures LocksMatch(Apply(m, step))
  {
    match step
    case TakeNode(e) =>
      if e in m.engines && m.engines[e].slot.None? {
        if m.engines[e].dir !in m.locks { StartedLocks(m, e); }
      } else if e in m.engines && m.engines[e].slot.value in m.nodes {
        CloneLocks(m, e);
      }
    case DropHandle(n) => if n in m.nodes && m.nodes[n].handles > 0 { DropLocks(m, n); }
    case Shutdown(e) =>
      if e in m.engines && m.engines[e].slot.Some? && m.engines[e].slot.value in m.nodes { ShutdownLocks(m, e); }
  }

  lemma RebuildLocks(m: Machine, step: Step)
    requires LocksMatch(m) && (step.RunRebuild? || step.Wipe? || step.Rebootstrap? || step.Unlock?)
    ensures LocksMatch(Apply(m, step))
  {
    match step
    case RunRebuild(p, dir, isMember) =>
      if p !in m.programs && !isMember && dir !in m.locks { AcquireLocks(m, p, dir); }
    case Wipe(p) => if At(m, p, Locked) { AdvanceLocks(m, p, Wiped); }
    case Rebootstrap(p) => if At(m, p, Wiped) { AdvanceLocks(m, p, Rebuilt); }
    case Unlock(p) => UnlockLocks(m, p);
  }

  lemma LocksKept(m: Machine, step: Step)
    requires Fresh(m) && LocksMatch(m)
    ensures LocksMatch(Apply(m, step))
  {
    match step
    case Spawn(p) => if p !in m.programs { SpawnLocks(m, p); }
    case Exit(p) => GoneLocks(m, p);
    case OpenEngine(p, dir) => PlainLocks(m, Apply(m, step));
    case Shared(p, network) => PlainLocks(m, Apply(m, step));
    case Drain(p) => PlainLocks(m, Apply(m, step));
    case _ =>
      if step.TakeNode? || step.DropHandle? || step.Shutdown? {
        NodeStepLocks(m, step);
      } else {
        RebuildLocks(m, step);
      }
  }

  // Slots

  lemma StartedSlots(m: Machine, e: nat)
    requires Fresh(m) && SlotsMatch(m) && e in m.engines && m.engines[e].slot.None?
    ensures SlotsMatch(Started(m, e))
  {
    var r := Started(m, e);
    forall n | n in r.nodes ensures Referenced(r, n) {
      if n in m.nodes { assert Referenced(m, n); }
    }
    forall x | x in r.engines ensures SlotLive(r, x) { assert SlotLive(m, x); }
  }

  lemma HandlesSlots(m: Machine, n: nat, handles: nat)
    requires SlotsMatch(m) && n in m.nodes && (handles > 0 || m.nodes[n].slotted)
    ensures SlotsMatch(WithNode(m, n, m.nodes[n].(handles := handles)))
  {
    var r := WithNode(m, n, m.nodes[n].(handles := handles));
    forall x | x in r.nodes ensures Referenced(r, x) { assert Referenced(m, x); }
    forall e | e in r.engines ensures SlotLive(r, e) { assert SlotLive(m, e); }
  }

  lemma StoppedSlots(m: Machine, n: nat)
    requires SlotsMatch(m) && n in m.nodes && !m.nodes[n].slotted
    ensures SlotsMatch(Stopped(m, n))
  {
    var r := Stopped(m, n);
    forall x | x in r.nodes ensures Referenced(r, x) { assert Referenced(m, x); }
    forall e | e in r.engines ensures SlotLive(r, e) { assert SlotLive(m, e); }
  }

  /** Taking the slot's reference: the node goes, or lives on for its handles. */
  lemma EmptiedSlots(m: Machine, e: nat)
    requires SlotsMatch(m) && e in m.engines && m.engines[e].slot.Some?
    ensures var n := m.engines[e].slot.value;
            && n in m.nodes
            && SlotsMatch(Stopped(Emptied(m, e), n))
            && (m.nodes[n].handles > 0 ==> SlotsMatch(WithNode(Emptied(m, e), n, m.nodes[n].(slotted := false))))
  {
    var n := m.engines[e].slot.value;
    assert SlotLive(m, e);
    var r, q := Stopped(Emptied(m, e), n), WithNode(Emptied(m, e), n, m.nodes[n].(slotted := false));
    forall x | x in r.nodes ensures Referenced(r, x) { assert Referenced(m, x); }
    forall x | x in r.engines ensures SlotLive(r, x) { assert SlotLive(m, x); }
    if m.nodes[n].handles > 0 {
      forall x | x in q.nodes ensures Referenced(q, x) { assert Referenced(m, x); }
      forall x | x in q.engines ensures SlotLive(q, x) { assert SlotLive(m, x); }
    }
  }

  lemma GoneSlots(m: Machine, p: Pid)
    requires SlotsMatch(m)
    ensures SlotsMatch(Gone(m, p))
  {
    var r := Gone(m, p);
    forall n | n in r.nodes ensures Referenced(r, n) { assert Referenced(m, n); }
    forall e | e in r.engines ensures SlotLive(r, e) {
      assert SlotLive(m, e);
      if r.engines[e].slot.Some? { assert Referenced(m, r.engines[e].slot.value); }
    }
  }

  lemma OpenedSlots(m: Machine, p: Pid, dir: Dir)
    requires Fresh(m) && SlotsMatch(m)
    ensures SlotsMatch(Opened(m, p, dir))
  {
    var r := Opened(m, p, dir);
    forall n | n in r.nodes ensures Referenced(r, n) { assert Referenced(m, n); }
    forall e | e in r.engines ensures SlotLive(r, e) { if e in m.engines { assert SlotLive(m, e); } }
  }

  lemma PlainSlots(m: Machine, r: Machine)
    requires SlotsMatch(m) && r.engines == m.engines && r.nodes == m.nodes
    ensures SlotsMatch(r)
  {
    forall n | n in r.nodes ensures Referenced(r, n) { assert Referenced(m, n); }
    forall e | e in r.engines ensures SlotLive(r, e) { assert SlotLive(m, e); }
  }

  lemma NodeStepSlots(m: Machine, step: Step)
    requires Fresh(m) && SlotsMatch(m) && (step.TakeNode? || step.DropHandle? || step.Shutdown?)
    ensures SlotsMatch(Apply(m, step))
  {
    match step
    case TakeNode(e) =>
      if e in m.engines {
        if m.engines[e].slot.Some? {
          var n := m.engines[e].slot.value;
          if n in m.nodes { HandlesSlots(m, n, m.nodes[n].handles + 1); }
        } else if m.engines[e].dir !in m.locks {
          StartedSlots(m, e);
        }
      }
    case DropHandle(n) =>
      if n in m.nodes && m.nodes[n].handles > 0 {
        if m.nodes[n].handles == 1 && !m.nodes[n].slotted {
          StoppedSlots(m, n);
        } else {
          HandlesSlots(m, n, m.nodes[n].handles - 1);
        }
      }
    case Shutdown(e) => if e in m.engines && m.engines[e].slot.Some? { EmptiedSlots(m, e); }
  }

  lemma SlotsKept(m: Machine, step: Step)
    requires Fresh(m) && SlotsMatch(m)
    ensures SlotsMatch(Apply(m, step))
  {
    if step.TakeNode? || step.DropHandle? || step.Shutdown? {
      NodeStepSlots(m, step);
    } else if step.OpenEngine? {
      if MayOpen(m, step.pid) { OpenedSlots(m, step.pid, step.dir); }
    } else if step.Shared? {
      OpenedSlots(m, step.pid, FleetDir(step.network));
      if Apply(m, step) != m { PlainSlots(Opened(m, step.pid, FleetDir(step.network)), Apply(m, step)); }
    } else if step.Exit? {
      GoneSlots(m, step.pid);
    } else {
      PlainSlots(m, Apply(m, step));
    }
  }

  // Owners

  lemma FreshKept(m: Machine, step: Step)
    requires Fresh(m)
    ensures Fresh(Apply(m, step))
  {
  }

  /** Engines keep their process and directory, and who may open engines still may. */
  lemma SameOwners(m: Machine, r: Machine)
    requires OwnersMatch(m) && r.registry == m.registry && r.engines.Keys == m.engines.Keys
    requires forall e | e in m.engines ::
               r.engines[e].owner == m.engines[e].owner && r.engines[e].dir == m.engines[e].dir
    requires forall p | MayOpen(m, p) :: MayOpen(r, p)
    ensures OwnersMatch(r)
  {
    forall e | e in r.engines ensures MayOpen(r, r.engines[e].owner) { assert MayOpen(m, m.engines[e].owner); }
    forall k ensures Registered(r, k) { assert Registered(m, k); }
  }

  lemma OpenOwners(m: Machine, step: Step)
    requires Fresh(m) && OwnersMatch(m) && (step.OpenEngine? || step.Shared? || step.Drain? || step.Exit?)
    ensures OwnersMatch(Apply(m, step))
  {
    var r := Apply(m, step);
    forall e | e in r.engines ensures MayOpen(r, r.engines[e].owner) {
      if e in m.engines { assert MayOpen(m, m.engines[e].owner); }
    }
    forall k ensures Registered(r, k) { assert Registered(m, k); }
  }

  /** Nodes, locks and slots are not what ownership rests on. */
  lemma SlotOwners(m: Machine, e: nat, slot: Option<nat>, r: Machine)
    requires OwnersMatch(m) && e in m.engines
    requires r.registry == m.registry && r.programs == m.programs
    requires r.engines == m.engines[e := m.engines[e].(slot := slot)]
    ensures OwnersMatch(r)
  {
    assert forall p | MayOpen(m, p) :: MayOpen(r, p);
    SameOwners(m, r);
  }

  lemma PlainOwners(m: Machine, r: Machine)
    requires OwnersMatch(m) && r.registry == m.registry && r.programs == m.programs && r.engines == m.engines
    ensures OwnersMatch(r)
  {
    assert forall p | MayOpen(m, p) :: MayOpen(r, p);
    SameOwners(m, r);
  }

  lemma ProgramOwners(m: Machine, step: Step)
    requires OwnersMatch(m)
    requires step.Spawn? || step.RunRebuild? || step.Wipe? || step.Rebootstrap? || step.Unlock?
    ensures OwnersMatch(Apply(m, step))
  {
    assert forall p | MayOpen(m, p) :: MayOpen(Apply(m, step), p);
    SameOwners(m, Apply(m, step));
  }

  lemma OwnersKept(m: Machine, step: Step)
    requires Fresh(m) && OwnersMatch(m)
    ensures OwnersMatch(Apply(m, step))
  {
    if step.OpenEngine? || step.Shared? || step.Drain? || step.Exit? {
      OpenOwners(m, step);
    } else if step.DropHandle? {
      PlainOwners(m, Apply(m, step));
    } else if step.TakeNode? || step.Shutdown? {
      if Apply(m, step).engines == m.engines {
        PlainOwners(m, Apply(m, step));
      } else {
        SlotOwners(m, step.engine, Apply(m, step).engines[step.engine].slot, Apply(m, step));
      }
    } else {
      ProgramOwners(m, step);
    }
  }

  /** Every step of every process keeps the whole invariant. */
  lemma StepKeepsValid(m: Machine, step: Step)
    requires Valid(m)
    ensures Valid(Apply(m, step))
  {
    LocksKept(m, step);
    SlotsKept(m, step);
    OwnersKept(m, step);
    FreshKept(m, step);
  }

  lemma {:induction false} EveryRunIsValid(steps: seq<Step>)
    ensures Valid(ApplyAll(BOOT, steps))
  {
    if steps != [] {
      EveryRunIsValid(steps[..|steps| - 1]);
      StepKeepsValid(ApplyAll(BOOT, steps[..|steps| - 1]), steps[|steps| - 1]);
    }
  }

  ghost predicate Reachable(m: Machine) {
    exists steps :: m == ApplyAll(BOOT, steps)
  }

  lemma ReachableValid(m: Machine)
    requires Reachable(m)
    ensures Valid(m)
  {
    var steps :| m == ApplyAll(BOOT, steps);
    EveryRunIsValid(steps);
  }

  lemma ReachableOn(m: Machine, more: seq<Step>)
    requires Reachable(m)
    ensures Reachable(ApplyAll(m, more))
  {
    var steps :| m == ApplyAll(BOOT, steps);
    ApplyAllAppend(BOOT, steps, more);
    assert ApplyAll(m, more) == ApplyAll(BOOT, steps + more);
  }

  lemma ReachableStep(m: Machine, step: Step)
    requires Reachable(m)
    ensures Reachable(Apply(m, step))
  {
    ReachableOn(m, [step]);
    assert ApplyAll(m, [step][..0]) == m;
  }

  lemma {:induction false} ApplyAllAppend(m: Machine, a: seq<Step>, b: seq<Step>)
    ensures ApplyAll(m, a + b) == ApplyAll(ApplyAll(m, a), b)
  {
    if b == [] {
      assert a + b == a;
    } else {
      assert (a + b)[..|a + b| - 1] == a + b[..|b| - 1];
      ApplyAllAppend(m, a, b[..|b| - 1]);
    }
  }

  // ----- Safety over every interleaving -----

  predicate NoNodeOn(m: Machine, dir: Dir) {
    forall n | n in m.nodes :: m.nodes[n].dir != dir
  }

  /** However processes interleave, a directory has at most one live node, and none
      from the moment a rebuild takes its lock until it lets go, wipe included. */
  lemma NodesAndRebuildsExclude(steps: seq<Step>)
    ensures var m := ApplyAll(BOOT, steps);
            && (forall a, b | a in m.nodes && b in m.nodes && m.nodes[a].dir == m.nodes[b].dir :: a == b)
            && (forall p | p in m.programs && Holding(m.programs[p]) :: NoNodeOn(m, m.programs[p].dir))
            && (forall p, q | p in m.programs && q in m.programs && Holding(m.programs[p])
                              && Holding(m.programs[q]) && m.programs[p].dir == m.programs[q].dir :: p == q)
  {
    EveryRunIsValid(steps);
  }

  /** No process ever waits for a lock of its own rebuild, and no lock outlives its
      user: what holds it is a referenced node or a running rebuild. */
  lemma NoSelfBlockNoLeak(steps: seq<Step>)
    ensures var m := ApplyAll(BOOT, steps);
            && (forall e | e in m.engines && m.engines[e].dir in m.locks ::
                  m.locks[m.engines[e].dir] != ByRebuild(m.engines[e].owner))
            && (forall d | d in m.locks ::
                  || (exists n :: n in m.nodes && m.nodes[n].dir == d && (m.nodes[n].slotted || m.nodes[n].handles > 0))
                  || (exists p :: p in m.programs && Holding(m.programs[p]) && m.programs[p].dir == d))
  {
    EveryRunIsValid(steps);
    var m := ApplyAll(BOOT, steps);
    forall d | d in m.locks
      ensures || (exists n :: n in m.nodes && m.nodes[n].dir == d && (m.nodes[n].slotted || m.nodes[n].handles > 0))
              || (exists p :: p in m.programs && Holding(m.programs[p]) && m.programs[p].dir == d)
    {
      assert UsedBy(m, d, m.locks[d]);
      if m.locks[d].ByNode? { assert Referenced(m, m.locks[d].node); }
    }
  }

  /** Shutting an engine down frees its directory at once exactly when no handle is
      out; otherwise the node keeps the lock until its last handle is dropped. */
  lemma ShutdownFreesIff(m: Machine, e: nat)
    requires Valid(m) && e in m.engines && m.engines[e].slot.Some?
    ensures var n, dir := m.engines[e].slot.value, m.engines[e].dir;
            && n in m.nodes
            && (dir !in Apply(m, Shutdown(e)).locks <==> m.nodes[n].handles == 0)
            && (m.nodes[n].handles == 1 ==> dir !in Apply(Apply(m, Shutdown(e)), DropHandle(n)).locks)
  {
    var n := m.engines[e].slot.value;
    assert SlotLive(m, e);
    assert Referenced(m, n);
  }

  /** A handle taken and dropped again leaves everything as it was; taken from an empty
      slot it leaves the new node to the engine alone. */
  lemma HandleComesAndGoes(m: Machine, e: nat)
    requires Valid(m) && e in m.engines && (m.engines[e].slot.Some? || m.engines[e].dir !in m.locks)
    ensures var r := Apply(m, TakeNode(e));
            && e in r.engines && r.engines[e].slot.Some?
            && var n := r.engines[e].slot.value;
               var x := Apply(r, DropHandle(n));
               if m.engines[e].slot.Some? then x == m
               else x == r.(nodes := r.nodes[n := Node(m.engines[e].dir, e, m.engines[e].owner, true, 0)])
                    && n !in m.nodes && r.locks == m.locks[m.engines[e].dir := ByNode(n)]
  {
    assert SlotLive(m, e);
    if m.engines[e].slot.Some? {
      var n := m.engines[e].slot.value;
      assert Apply(Apply(m, TakeNode(e)), DropHandle(n)).nodes == m.nodes;
    }
  }

  /** Nothing but a held lock is in the way: a process new to a free directory gets a
      node on it ... */
  lemma FreeMeansStartable(m: Machine, p: Pid, dir: Dir)
    requires Valid(m) && p !in m.programs && dir !in m.locks
    ensures var r := Apply(Apply(Apply(m, Spawn(p)), OpenEngine(p, dir)), TakeNode(m.next));
            dir in r.locks && r.locks[dir].ByNode? && r.locks[dir].node in r.nodes
            && r.nodes[r.locks[dir].node] == Node(dir, m.next, p, true, 1)
  {
    var a := Apply(m, Spawn(p));
    assert a == m.(programs := m.programs[p := App]);
    var b := Apply(a, OpenEngine(p, dir));
    assert b == Opened(a, p, dir) && b.engines[m.next] == Engine(p, dir, None);
    assert Apply(b, TakeNode(m.next)) == Started(b, m.next);
  }

  /** ... or its lock, for a rebuild that ends with the directory free again. */
  lemma FreeMeansRebuildable(m: Machine, p: Pid, dir: Dir)
    requires p !in m.programs && dir !in m.locks
    ensures Apply(m, RunRebuild(p, dir, false)).locks == m.locks[dir := ByRebuild(p)]
    ensures Apply(m, RunRebuild(p, dir, true)) == m
    ensures var r := Apply(Apply(Apply(Apply(m, RunRebuild(p, dir, false)), Wipe(p)), Rebootstrap(p)), Unlock(p));
            dir !in r.locks && MayOpen(r, p)
  {
    var a := Apply(m, RunRebuild(p, dir, false));
    var b := Apply(a, Wipe(p));
    assert a == Acquire(m, p, dir) && b == Advance(a, p, Wiped);
    assert Apply(b, Rebootstrap(p)) == Advance(b, p, Rebuilt);
  }

  /** A process that ends, however it ends, leaves no node, engine or lock of its own
      behind, and takes nobody else's. */
  lemma ExitFreesItsOwn(m: Machine, p: Pid)
    requires Valid(m)
    ensures var r := Apply(m, Exit(p));
            && p !in r.programs
            && (forall n :: n in r.nodes <==> n in m.nodes && m.nodes[n].owner != p)
            && (forall e :: e in r.engines <==> e in m.engines && m.engines[e].owner != p)
            && (forall d :: d in r.locks <==> d in m.locks && !Owns(m, p, m.locks[d]))
            && (forall d | d in r.locks :: r.locks[d] == m.locks[d] && r.locks[d] != ByRebuild(p)
                                          && (r.locks[d].ByNode? ==> r.locks[d].node in r.nodes))
  {
    StepKeepsValid(m, Exit(p));
    forall d | d in m.locks ensures UsedBy(m, d, m.locks[d]) {}
  }

  /** A shared engine's directory is a dotfile's, where no database is listed. */
  lemma FleetDirIs(network: Network)
    ensures FleetDir(network) == ".fleet/" + match network case MainNet => "mainnet"
                                                          case TestNet => "testnet"
                                                          case RegTest => "regtest"
  {
  }

  lemma {:induction false} DistinctDirs(a: Network, b: Network)
    ensures FleetDir(a) == FleetDir(b) ==> a == b
  {
    assert FleetDir(a)[7..] == Config.NetworkName(a);
    assert FleetDir(b)[7..] == Config.NetworkName(b);
  }

  /** Two networks of a process never share an engine or a directory. */
  lemma SharedEnginesApart(steps: seq<Step>, p: Pid, a: Network, b: Network)
    requires a != b
    ensures var m := ApplyAll(BOOT, steps);
            (p, a) in m.registry && (p, b) in m.registry ==>
              && m.registry[(p, a)] in m.engines && m.registry[(p, b)] in m.engines
              && m.engines[m.registry[(p, a)]].dir != m.engines[m.registry[(p, b)]].dir
  {
    EveryRunIsValid(steps);
    var m := ApplyAll(BOOT, steps);
    assert Registered(m, (p, a)) && Registered(m, (p, b));
    DistinctDirs(a, b);
  }

  /** The engine a process shares for a network stays the same one until the process
      drains its registry or ends. */
  lemma RegistryStep(m: Machine, s: Step, p: Pid, network: Network)
    requires s != Drain(p) && s != Exit(p) && (p, network) in m.registry
    ensures var r := Apply(m, s);
            (p, network) in r.registry && r.registry[(p, network)] == m.registry[(p, network)]
  {
  }

  lemma {:induction false} SharedEngineIsStable(m: Machine, more: seq<Step>, p: Pid, network: Network)
    requires forall s | s in more :: s != Drain(p) && s != Exit(p)
    requires (p, network) in m.registry
    ensures var r := ApplyAll(m, more);
            (p, network) in r.registry && r.registry[(p, network)] == m.registry[(p, network)]
  {
    if more != [] {
      var init := more[..|more| - 1];
      forall s | s in init ensures s != Drain(p) && s != Exit(p) { assert s in more; }
      SharedEngineIsStable(m, init, p, network);
      assert more[|more| - 1] in more;
      RegistryStep(ApplyAll(m, init), more[|more| - 1], p, network);
    }
  }

  // ----- The code that takes these steps -----

  datatype Refusal = Busy | StartFailed | IsMember | WipeFailed | BootstrapFailed

  /** Steps of other processes and engines while engine `e`'s slot is locked. */
  predicate SparesSlot(m: Machine, steps: seq<Step>, e: nat) {
    forall s | s in steps :: s != TakeNode(e) && s != Shutdown(e) && (e in m.engines ==> s != Exit(m.engines[e].owner))
  }

  lemma SpareSlot(m: Machine, s: Step, e: nat)
    requires e in m.engines && e < m.next && SparesSlot(m, [s], e)
    ensures var r := Apply(m, s); e in r.engines && r.engines[e] == m.engines[e] && e < r.next
  {
    assert s in [s];
  }

  lemma {:induction false} SlotSpared(m: Machine, steps: seq<Step>, e: nat)
    requires e in m.engines && e < m.next && SparesSlot(m, steps, e)
    ensures var r := ApplyAll(m, steps); e in r.engines && r.engines[e] == m.engines[e] && e < r.next
  {
    if steps != [] {
      var init, last := steps[..|steps| - 1], steps[|steps| - 1];
      assert last in steps && forall s | s in init :: s in steps;
      SlotSpared(m, init, e);
      SpareSlot(ApplyAll(m, init), last, e);
    }
  }

  function Flat(turns: seq<seq<Step>>, n: nat): seq<Step>
    requires n <= |turns|
  {
    if n == 0 then [] else Flat(turns, n - 1) + turns[n - 1]
  }

  /** Steps of other processes while `p` runs. */
  predicate Foreign(steps: seq<Step>, p: Pid) {
    forall s | s in steps ::
      s != Spawn(p) && s != Wipe(p) && s != Rebootstrap(p) && s != Unlock(p) && s != Exit(p)
      && (s.RunRebuild? || s.OpenEngine? || s.Shared? ==> s.pid != p)
  }

  lemma SpareProgram(m: Machine, s: Step, p: Pid)
    requires p in m.programs && Foreign([s], p)
    ensures var r := Apply(m, s); p in r.programs && r.programs[p] == m.programs[p]
  {
    assert s in [s];
  }

  lemma {:induction false} ProgramSpared(m: Machine, steps: seq<Step>, p: Pid)
    requires p in m.programs && Foreign(steps, p)
    ensures var r := ApplyAll(m, steps); p in r.programs && r.programs[p] == m.programs[p]
  {
    if steps != [] {
      var init, last := steps[..|steps| - 1], steps[|steps| - 1];
      assert last in steps && forall s | s in init :: s in steps;
      ProgramSpared(m, init, p);
      SpareProgram(ApplyAll(m, init), last, p);
    }
  }

  lemma EngineFacts(m: Machine, e: nat)
    requires Reachable(m) && e in m.engines
    ensures e < m.next
    ensures m.engines[e].slot.Some? ==>
              var n := m.engines[e].slot.value;
              n in m.nodes && m.nodes[n].slotted && m.nodes[n].dir == m.engines[e].dir
              && m.engines[e].dir in m.locks && m.locks[m.engines[e].dir] == ByNode(n)
  {
    ReachableValid(m);
    assert SlotLive(m, e);
    if m.engines[e].slot.Some? { assert Referenced(m, m.engines[e].slot.value); }
  }

  lemma RebuildFacts(m: Machine, p: Pid)
    requires Reachable(m) && p in m.programs && Holding(m.programs[p])
    ensures NoNodeOn(m, m.programs[p].dir)
  {
    ReachableValid(m);
  }

  /** The lock was held at each of the first `n` attempts. */
  ghost predicate LockedFor(m: Machine, turns: seq<seq<Step>>, n: nat, dir: Dir)
    requires n <= |turns|
  {
    forall k | 0 <= k < n :: dir in ApplyAll(m, Flat(turns, k)).locks
  }

  lemma LockedOnce(m: Machine, turns: seq<seq<Step>>, n: nat, dir: Dir)
    requires n < |turns| && LockedFor(m, turns, n, dir) && dir in ApplyAll(m, Flat(turns, n)).locks
    ensures LockedFor(m, turns, n + 1, dir)
  {
  }

  lemma StartedNow(m: Machine, e: nat)
    requires Reachable(m) && e in m.engines && m.engines[e].slot.None? && m.engines[e].dir !in m.locks
    ensures Started(m, e) == Apply(m, TakeNode(e)) && Reachable(Started(m, e))
    ensures Started(m, e).engines[e].slot == Some(m.next)
  {
    ReachableStep(m, TakeNode(e));
  }

  /** One turn of waiting for the lock. */
  lemma Waited(m: Machine, turns: seq<seq<Step>>, n: nat, e: nat)
    requires n < |turns| && Reachable(ApplyAll(m, Flat(turns, n)))
    requires e in ApplyAll(m, Flat(turns, n)).engines && SparesSlot(ApplyAll(m, Flat(turns, n)), turns[n], e)
    ensures var r := ApplyAll(m, Flat(turns, n + 1));
            && Reachable(r) && e in r.engines
            && r.engines[e] == ApplyAll(m, Flat(turns, n)).engines[e]
            && r == ApplyAll(ApplyAll(m, Flat(turns, n)), turns[n])
  {
    var now := ApplyAll(m, Flat(turns, n));
    EngineFacts(now, e);
    SlotSpared(now, turns[n], e);
    ReachableOn(now, turns[n]);
    ApplyAllAppend(m, Flat(turns, n), turns[n]);
  }

  /** A rebuild's machine at each of its stages. */
  function AtWipe(m: Machine, p: Pid, dir: Dir, gap: seq<Step>): Machine {
    ApplyAll(Apply(m, RunRebuild(p, dir, false)), gap)
  }

  lemma AtWipeFacts(m: Machine, p: Pid, dir: Dir, gap: seq<Step>)
    requires Reachable(m) && p !in m.programs && dir !in m.locks && Foreign(gap, p)
    ensures var w := AtWipe(m, p, dir, gap);
            && Reachable(w) && NoNodeOn(w, dir) && p in w.programs && w.programs[p] == Rebuild(dir, Locked)
  {
    var a := Apply(m, RunRebuild(p, dir, false));
    ReachableStep(m, RunRebuild(p, dir, false));
    ProgramSpared(a, gap, p);
    ReachableOn(a, gap);
    RebuildFacts(AtWipe(m, p, dir, gap), p);
  }

  lemma AdvanceFacts(m: Machine, p: Pid, dir: Dir, step: Step, gap: seq<Step>, to: Stage)
    requires Reachable(m) && p in m.programs && Foreign(gap, p)
    requires || (step == Wipe(p) && m.programs[p] == Rebuild(dir, Locked) && to == Wiped)
             || (step == Rebootstrap(p) && m.programs[p] == Rebuild(dir, Wiped) && to == Rebuilt)
    ensures var w := ApplyAll(Apply(m, step), gap);
            && Apply(m, step) == Advance(m, p, to)
            && Reachable(w) && NoNodeOn(w, dir) && p in w.programs && w.programs[p] == Rebuild(dir, to)
  {
    ReachableStep(m, step);
    ProgramSpared(Apply(m, step), gap, p);
    ReachableOn(Apply(m, step), gap);
    RebuildFacts(ApplyAll(Apply(m, step), gap), p);
  }

  lemma ReleaseFacts(m: Machine, p: Pid, dir: Dir)
    requires Reachable(m) && p in m.programs && m.programs[p] == Rebuild(dir, Rebuilt)
    ensures var r := Apply(m, Unlock(p));
            && r == Advance(m.(locks := m.locks - {dir}), p, Released)
            && dir !in r.locks && Apply(r, OpenEngine(p, dir)) == Opened(r, p, dir)
            && Reachable(Opened(r, p, dir))
  {
    ReachableStep(m, Unlock(p));
    ReachableStep(Apply(m, Unlock(p)), OpenEngine(p, dir));
  }

  /** The engines a process has registered. */
  function SharedBy(m: Machine, p: Pid): set<nat> {
    set k | k in m.registry && k.0 == p :: m.registry[k]
  }

  lemma ShutdownTouches(m: Machine, e: nat)
    requires Reachable(m)
    ensures var r := Apply(m, Shutdown(e));
            && r.registry == m.registry && r.engines.Keys == m.engines.Keys
            && (forall x | x in m.engines ::
                  r.engines[x] == if x == e then m.engines[x].(slot := None) else m.engines[x])
  {
    if e in m.engines { EngineFacts(m, e); }
  }

  lemma SharedFacts(m: Machine, p: Pid, network: Network)
    requires Reachable(m) && MayOpen(m, p)
    ensures var r := Apply(m, Shared(p, network));
            && Reachable(r) && (p, network) in r.registry
            && var e := r.registry[(p, network)];
               e in r.engines && r.engines[e].owner == p && r.engines[e].dir == FleetDir(network)
  {
    ReachableStep(m, Shared(p, network));
    ReachableValid(Apply(m, Shared(p, network)));
    assert Registered(Apply(m, Shared(p, network)), (p, network));
  }

  class Host {
    var m: Machine

    /** `Engine::start_node`: wait out other users for as many turns as the deadline
        allows, and start at the first moment the lock is free. */
    method StartNode(e: nat, turns: seq<seq<Step>>, healthy: bool) returns (r: Result<nat, Refusal>, waited: nat)
      requires Reachable(m) && e in m.engines && m.engines[e].slot.None?
      requires forall t | t in turns :: SparesSlot(m, t, e)
      modifies this
      ensures Reachable(m) && waited <= |turns|
      ensures r.Ok? ==> healthy && m == Apply(ApplyAll(old(m), Flat(turns, waited)), TakeNode(e))
                        && e in m.engines && m.engines[e].slot == Some(r.value)
      ensures r.Err? ==> m == ApplyAll(old(m), Flat(turns, waited))
      ensures LockedFor(old(m), turns, waited, old(m.engines[e]).dir)
      ensures r == Err(Busy) ==> waited == |turns| && old(m.engines[e]).dir in m.locks
      ensures r.Err? && r != Err(Busy) ==> r == Err(StartFailed) && !healthy && old(m.engines[e]).dir !in m.locks
    {
      waited := 0;
      while true
        invariant waited <= |turns| && m == ApplyAll(old(m), Flat(turns, waited)) && Reachable(m)
        invariant e in m.engines && m.engines[e] == old(m.engines[e])
        invariant LockedFor(old(m), turns, waited, m.engines[e].dir)
        decreases |turns| - waited
      {
        if m.engines[e].dir !in m.locks { break; }
        if waited == |turns| { return Err(Busy), waited; }
        assert turns[waited] in turns;
        LockedOnce(old(m), turns, waited, m.engines[e].dir);
        Waited(old(m), turns, waited, e);
        m := ApplyAll(m, turns[waited]);
        waited := waited + 1;
      }
      if !healthy { return Err(StartFailed), waited; }
      StartedNow(m, e);
      r := Ok(m.next);
      m := Started(m, e);
    }

    /** `Engine::node`: the running node, started if there is none. */
    method Node(e: nat, turns: seq<seq<Step>>, healthy: bool) returns (r: Result<nat, Refusal>, waited: nat)
      requires Reachable(m) && e in m.engines
      requires forall t | t in turns :: SparesSlot(m, t, e)
      modifies this
      ensures Reachable(m) && waited <= |turns|
      ensures old(m.engines[e].slot).Some? ==> r == Ok(old(m.engines[e].slot).value) && waited == 0
      ensures r.Ok? ==> e in m.engines && m.engines[e].slot == Some(r.value)
                        && m == Apply(ApplyAll(old(m), Flat(turns, waited)), TakeNode(e))
      ensures r.Err? ==> old(m.engines[e].slot).None? && m == ApplyAll(old(m), Flat(turns, waited))
      ensures old(m.engines[e].slot).None? && !healthy ==> r.Err?
    {
      EngineFacts(m, e);
      if m.engines[e].slot.Some? {
        var n := m.engines[e].slot.value;
        ReachableStep(m, TakeNode(e));
        m := WithNode(m, n, m.nodes[n].(handles := m.nodes[n].handles + 1));
        return Ok(n), 0;
      }
      r, waited := StartNode(e, turns, healthy);
    }

    /** `sync --rebuild` in a process of its own, with other processes stepping in
        between. The wipe and the bootstrap see no node on the directory, and the
        engine is opened only after the lock is gone. */
    method SyncRebuild(p: Pid, dir: Dir, isMember: bool, gaps: (seq<Step>, seq<Step>, seq<Step>),
                       wipes: bool, boots: bool)
      returns (r: Result<nat, Refusal>, ghost atWipe: Machine, ghost atBoot: Machine)
      requires Reachable(m) && p !in m.programs
      requires Foreign(gaps.0, p) && Foreign(gaps.1, p) && Foreign(gaps.2, p)
      modifies this
      ensures Reachable(m)
      ensures r == Err(IsMember) <==> isMember
      ensures r == Err(Busy) <==> !isMember && dir in old(m.locks)
      ensures isMember || dir in old(m.locks) ==> m == old(m)
      ensures !isMember && dir !in old(m.locks) ==>
                atWipe == AtWipe(old(m), p, dir, gaps.0) && NoNodeOn(atWipe, dir) && (r.Ok? <==> wipes && boots)
      ensures r.Ok? ==> atBoot == ApplyAll(Apply(atWipe, Wipe(p)), gaps.1) && NoNodeOn(atBoot, dir)
      ensures r.Ok? ==>
                m == Apply(Apply(ApplyAll(Apply(atBoot, Rebootstrap(p)), gaps.2), Unlock(p)), OpenEngine(p, dir))
                && dir !in m.locks && r.value in m.engines && m.engines[r.value] == Engine(p, dir, None)
      ensures r.Err? ==> p !in m.programs
    {
      atWipe, atBoot := m, m;
      if isMember { return Err(IsMember), atWipe, atBoot; }
      if dir in m.locks { return Err(Busy), atWipe, atBoot; }
      AtWipeFacts(m, p, dir, gaps.0);
      m := ApplyAll(Acquire(m, p, dir), gaps.0);
      atWipe, atBoot := m, m;
      if !wipes {
        ReachableStep(m, Exit(p));
        m := Gone(m, p);
        return Err(WipeFailed), atWipe, atBoot;
      }
      AdvanceFacts(m, p, dir, Wipe(p), gaps.1, Wiped);
      m := ApplyAll(Advance(m, p, Wiped), gaps.1);
      atBoot := m;
      if !boots {
        ReachableStep(m, Exit(p));
        m := Gone(m, p);
        return Err(BootstrapFailed), atWipe, atBoot;
      }
      AdvanceFacts(m, p, dir, Rebootstrap(p), gaps.2, Rebuilt);
      m := ApplyAll(Advance(m, p, Rebuilt), gaps.2);
      ReleaseFacts(m, p, dir);
      m := Advance(m.(locks := m.locks - {dir}), p, Released);
      var e := m.next;
      m := Opened(m, p, dir);
      return Ok(e), atWipe, atBoot;
    }

    /** `engine_for`: a member is served by its network's shared engine, any other
        database by a new one over its own directory. */
    method EngineFor(p: Pid, dir: Dir, network: Network, isMember: bool) returns (e: nat, owned: bool)
      requires Reachable(m) && MayOpen(m, p)
      modifies this
      ensures Reachable(m) && owned == !isMember
      ensures m == Apply(old(m), if isMember then Shared(p, network) else OpenEngine(p, dir))
      ensures e in m.engines && m.engines[e].owner == p
              && m.engines[e].dir == (if isMember then FleetDir(network) else dir)
      ensures if isMember then (p, network) in m.registry && m.registry[(p, network)] == e else e !in old(m.engines)
    {
      if isMember {
        SharedFacts(m, p, network);
        if (p, network) !in m.registry {
          m := Opened(m, p, FleetDir(network)).(registry := m.registry[(p, network) := m.next]);
        }
        return m.registry[(p, network)], false;
      }
      ReachableValid(m);
      ReachableStep(m, OpenEngine(p, dir));
      e, owned := m.next, true;
      m := Opened(m, p, dir);
    }

    /** `shutdown_if_owned`: a shared engine is not this caller's to stop. */
    method ShutdownIfOwned(e: nat, owned: bool)
      requires Reachable(m)
      modifies this
      ensures Reachable(m) && m == if owned then Apply(old(m), Shutdown(e)) else old(m)
    {
      if owned { Stop(e); }
    }

    /** `Engine::shutdown`: idempotent. */
    method Stop(e: nat)
      requires Reachable(m)
      modifies this
      ensures Reachable(m) && m == Apply(old(m), Shutdown(e))
    {
      ReachableStep(m, Shutdown(e));
      if e !in m.engines || m.engines[e].slot.None? { return; }
      EngineFacts(m, e);
      var n := m.engines[e].slot.value;
      m := Emptied(m, e);
      if m.nodes[n].handles == 0 {
        m := Stopped(m, n);
      } else {
        m := WithNode(m, n, m.nodes[n].(slotted := false));
      }
    }

    /** `shutdown_all`: drain the process's registry, then stop each engine in turn. */
    method ShutdownAll(p: Pid)
      requires Reachable(m)
      modifies this
      ensures Reachable(m) && m.registry == Apply(old(m), Drain(p)).registry
      ensures m.engines.Keys == old(m).engines.Keys
      ensures forall e | e in m.engines ::
                m.engines[e] == if exists k :: k in old(m).registry && k.0 == p && old(m).registry[k] == e
                                then old(m).engines[e].(slot := None) else old(m).engines[e]
    {
      var todo := SharedBy(m, p);
      ReachableStep(m, Drain(p));
      m := m.(registry := map k | k in m.registry && k.0 != p :: m.registry[k]);
      while todo != {}
        invariant Reachable(m) && m.registry == Apply(old(m), Drain(p)).registry
        invariant m.engines.Keys == old(m).engines.Keys && todo <= SharedBy(old(m), p)
        invariant forall e | e in m.engines ::
                    m.engines[e] == if e in SharedBy(old(m), p) && e !in todo then old(m).engines[e].(slot := None)
                                    else old(m).engines[e]
        decreases |todo|
      {
        var e :| e in todo;
        ShutdownTouches(m, e);
        Stop(e);
        todo := todo - {e};
      }
    }
  }
}
