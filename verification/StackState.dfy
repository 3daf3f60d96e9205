/** One state directory shared by startups, owned shutdowns, external stops and
    detached launches. Every file operation is one move; any process may crash
    between moves; processes only disappear and process ids are not reused. */
module StackState {
  import opened Prelude

  type Gen = nat
  type Pid = nat
  type ActorId = nat

  datatype Slot = Component(index: nat) | Supervisor

  datatype FileName =
    | PidFile(slot: Slot)      // <name>.pid, stack.pid
    | Listen(index: nat)       // <name>.listen
    | Ready(pid: Pid)          // stack.<pid>.ready
    | Attached(pid: Pid)       // stack.<pid>.attached
    | Report(gen: Gen)         // .startup-<generation>

  /** Contents of a file, and which generation wrote it. */
  datatype File = File(pid: Pid, writer: Gen)

  /** stack.lock: absent, empty (written by an older version), unreadable, or
      naming a generation. */
  datatype Lock = Missing | Empty | Malformed | Holds(gen: Gen)

  datatype Role =
    | Start(gen: Gen, detached: Option<Pid>)
    | Stop
    | Launch(gen: Gen, supervisor: Pid)

  datatype Pc =
    // Startup; all but the first and the last two hold the transaction.
    | Arrived
    | Checking(next: nat)
    | Claimed
    | Reaping(next: nat)
    | Clearing(next: nat)
    | Starting(next: nat)
    | Recording(next: nat, pid: Pid)
    | Publishing(next: nat)
    | RollingBack
    | Announcing
    | Announced
    | AwaitingAck
    | Confirming
    | MarkingReady
    | Running
    | Stopping
    // Cleanup of one generation.
    | TryingCleanup
    | CheckingLease
    | Removing(todo: seq<FileName>, failed: bool)
    // External stop and launcher rollback.
    | StopArrived
    | Loading
    | Snapshotting(retain: bool)
    | Signalling(targets: set<Pid>, retain: bool)
    // Launcher.
    | AwaitingReadiness
    | AwaitingConfirmation
    | HandleArrived
    | ReadingHandle
    | Transferring(handle: seq<Pid>)
    | Returned(handle: seq<Pid>)
    | Finished

  /** `loadedAt` is how many claims there were when a stop loaded the lock. */
  datatype Actor = Actor(role: Role, pc: Pc, lease: Option<Gen>, owned: set<Pid>, loadedAt: nat)

  /** The state directory, the processes on the machine, and what has happened. */
  datatype Disk = Disk(
    components: nat,
    lock: Lock,
    files: map<FileName, File>,
    alive: set<Pid>,
    claims: seq<Gen>,                   // generations in the order they claimed
    usedPids: set<Pid>,
    usedGens: set<Gen>,
    cleared: set<Gen>,                  // generations that finished clearing the directory
    acked: set<Pid>,                    // supervisors whose readiness record a launcher removed
    confirmed: set<Pid>)                // supervisors that published their attachment

  datatype State = State(
    disk: Disk,
    holder: Option<ActorId>,            // of the state transaction
    actors: map<ActorId, Actor>)

  datatype Move =
    | NewStart(a: ActorId, gen: Gen)
    | NewStop(a: ActorId)
    | NewLaunch(a: ActorId, b: ActorId, gen: Gen, pid: Pid)
    | Die(pid: Pid)
    | Crash(a: ActorId)
    | GiveUp(a: ActorId)
    | Acquire(a: ActorId)
    | Busy(a: ActorId)
    | CheckSlot(a: ActorId)
    | Claim(a: ActorId)
    | MakeReport(a: ActorId)
    | Reap(a: ActorId)
    | Clear(a: ActorId)
    | Spawn(a: ActorId, pid: Pid)
    | Record(a: ActorId)
    | Publish(a: ActorId)
    | Finish(a: ActorId)
    | Announce(a: ActorId)
    | AnnounceReady(a: ActorId)
    | SeeAck(a: ActorId)
    | Confirm(a: ActorId)
    | MarkReady(a: ActorId)
    | FailStart(a: ActorId)
    | FailAttach(a: ActorId)
    | BeginShutdown(a: ActorId)
    | RolledBack(a: ActorId)
    | Stopped(a: ActorId)
    | CheckLease(a: ActorId, readable: bool)
    | RemoveFile(a: ActorId, ok: bool)
    | FinishCleanup(a: ActorId, ok: bool)
    | Load(a: ActorId)
    | Snapshot(a: ActorId)
    | Signal(a: ActorId, target: Pid)
    | Settle(a: ActorId)
    | SeeReady(a: ActorId)
    | SeeAttached(a: ActorId)
    | ReadHandle(a: ActorId)
    | Transfer(a: ActorId)
    | FailLaunch(a: ActorId)

  // ----- Slots and files -----

  /** The records a stale check reads, in its order. */
  function SlotAt(k: nat): Slot {
    if k == 0 then Supervisor else Component(k - 1)
  }

  /** The records a reap removes when stale, in its order. */
  function ReapSlotAt(n: nat, k: nat): Slot {
    if k < n then Component(k) else Supervisor
  }

  predicate IsSlot(d: Disk, slot: Slot) {
    slot.Supervisor? || slot.index < d.components
  }

  predicate Recorded(d: Disk, slot: Slot) {
    IsSlot(d, slot) && PidFile(slot) in d.files
  }

  predicate RecordedLive(d: Disk, slot: Slot) {
    Recorded(d, slot) && d.files[PidFile(slot)].pid in d.alive
  }

  function Current(d: Disk): Gen
    requires d.claims != []
  {
    d.claims[|d.claims| - 1]
  }

  function LeaseOf(lock: Lock): Option<Gen> {
    if lock.Holds? then Some(lock.gen) else None
  }

  /** Everything a cleanup removes before the lock, in its order. */
  function CleanupList(d: Disk, lease: Option<Gen>, readable: bool): seq<FileName> {
    Markers(d, readable) +
    ComponentFiles(0, d.components) +
    ReportAndRecord(lease, readable)
  }

  function ReportAndRecord(lease: Option<Gen>, readable: bool): seq<FileName> {
    (if lease.Some? then [Report(lease.value)] else []) +
    (if readable then [PidFile(Supervisor)] else [])
  }

  /** The markers of the recorded supervisor. */
  function Markers(d: Disk, readable: bool): seq<FileName> {
    if readable && PidFile(Supervisor) in d.files then
      var owner := d.files[PidFile(Supervisor)].pid; [Ready(owner), Attached(owner)]
    else []
  }

  function ComponentFiles(i: nat, n: nat): (files: seq<FileName>)
    requires i <= n
    ensures forall j | i <= j < n :: PidFile(Component(j)) in files && Listen(j) in files
    decreases n - i
  {
    if i == n then [] else [PidFile(Component(i)), Listen(i)] + ComponentFiles(i + 1, n)
  }

  /** Every process id on record. */
  function RecordedPids(d: Disk): set<Pid> {
    set slot | slot in SlotSet(d.components) && Recorded(d, slot) :: d.files[PidFile(slot)].pid
  }

  function SlotSet(n: nat): set<Slot> {
    if n == 0 then {Supervisor} else SlotSet(n - 1) + {Component(n - 1)}
  }

  lemma {:induction false} SlotSetIs(n: nat)
    ensures forall slot :: slot in SlotSet(n) <==> slot.Supervisor? || slot.index < n
  {
    if n > 0 { SlotSetIs(n - 1); }
  }

  lemma RecordedPidsIs(d: Disk)
    ensures forall slot | Recorded(d, slot) :: d.files[PidFile(slot)].pid in RecordedPids(d)
    ensures forall p | p in RecordedPids(d) :: exists slot :: Recorded(d, slot) && d.files[PidFile(slot)].pid == p
  {
    SlotSetIs(d.components);
  }

  // ----- Actors -----

  predicate Holding(pc: Pc) {
    match pc
    case Arrived | Running | Stopping | TryingCleanup | StopArrived | AwaitingReadiness
       | AwaitingConfirmation | HandleArrived | Transferring(_) | Returned(_) | Finished => false
    case _ => true
  }

  /** Startup states between the claim and the end of the startup transaction. */
  predicate Building(pc: Pc) {
    pc.Claimed? || pc.Reaping? || pc.Clearing? || pc.Starting? || pc.Recording? || pc.Publishing? ||
    pc.RollingBack? || Attaching(pc)
  }

  predicate Attaching(pc: Pc) {
    pc.Announcing? || pc.Announced? || pc.AwaitingAck? || pc.Confirming? || pc.MarkingReady?
  }

  predicate BeforeClaim(pc: Pc) {
    pc.Arrived? || pc.Checking?
  }

  predicate IsStart(s: State, a: ActorId) {
    a in s.actors && s.actors[a].role.Start?
  }

  function Put(s: State, a: ActorId, pc: Pc): State
    requires a in s.actors
  {
    s.(actors := s.actors[a := s.actors[a].(pc := pc)])
  }

  /** Moves to a state outside the transaction. */
  function Leave(s: State, a: ActorId, pc: Pc): State
    requires a in s.actors
  {
    Put(s, a, pc).(holder := if s.holder == Some(a) then None else s.holder)
  }

  function Write(s: State, name: FileName, file: File): State {
    s.(disk := s.disk.(files := s.disk.files[name := file]))
  }

  function Remove(s: State, name: FileName): State {
    s.(disk := s.disk.(files := s.disk.files - {name}))
  }

  function ExpectedGen(role: Role): Option<Gen> {
    if role.Launch? then Some(role.gen) else None
  }

  function AfterAcquire(pc: Pc): Pc
    requires pc.Arrived? || pc.TryingCleanup? || pc.StopArrived? || pc.HandleArrived?
  {
    match pc
    case Arrived => Checking(0)
    case TryingCleanup => CheckingLease
    case StopArrived => Loading
    case HandleArrived => ReadingHandle
  }

  // ----- Moves -----

  predicate HandleComplete(d: Disk) {
    forall i | 0 <= i < d.components :: PidFile(Component(i)) in d.files && Listen(i) in d.files
  }

  function HandleOf(d: Disk): (handle: seq<Pid>)
    requires HandleComplete(d)
    ensures |handle| == d.components
    ensures forall i | 0 <= i < d.components :: handle[i] == d.files[PidFile(Component(i))].pid
  {
    seq(d.components, i requires 0 <= i < d.components => d.files[PidFile(Component(i))].pid)
  }

  // Arrivals, crashes and the transaction.

  predicate EnabledWorld(s: State, m: Move) {
    match m
    case NewStart(a, gen) => a !in s.actors && gen !in s.disk.usedGens
    case NewStop(a) => a !in s.actors
    case NewLaunch(a, b, gen, pid) =>
      a !in s.actors && b !in s.actors && a != b && gen !in s.disk.usedGens && pid !in s.disk.usedPids
    case Die(pid) => true
    case Crash(a) => a in s.actors
    case GiveUp(a) => a in s.actors && !s.actors[a].pc.Returned?
    case Acquire(a) =>
      a in s.actors && s.holder.None? &&
      (var pc := s.actors[a].pc; pc.Arrived? || pc.TryingCleanup? || pc.StopArrived? || pc.HandleArrived?)
    case Busy(a) => a in s.actors && s.holder.Some? && s.actors[a].pc.TryingCleanup?
    case _ => false
  }

  function ApplyWorld(s: State, m: Move): State
    requires EnabledWorld(s, m)
  {
    match m
    case NewStart(a, gen) =>
      s.(actors := s.actors[a := Actor(Start(gen, None), Arrived, None, {}, 0)],
         disk := s.disk.(usedGens := s.disk.usedGens + {gen}))
    case NewStop(a) =>
      s.(actors := s.actors[a := Actor(Stop, StopArrived, None, {}, 0)])
    case NewLaunch(a, b, gen, pid) =>
      s.(actors := s.actors[a := Actor(Launch(gen, pid), AwaitingReadiness, None, {}, 0)]
                           [b := Actor(Start(gen, Some(pid)), Arrived, None, {}, 0)],
         disk := s.disk.(alive := s.disk.alive + {pid}, usedPids := s.disk.usedPids + {pid},
                         usedGens := s.disk.usedGens + {gen}))
    case Die(pid) => s.(disk := s.disk.(alive := s.disk.alive - {pid}))
    case Crash(a) =>
      s.(actors := s.actors - {a}, holder := if s.holder == Some(a) then None else s.holder)
    case GiveUp(a) => Leave(s, a, Finished)
    case Acquire(a) => Put(s, a, AfterAcquire(s.actors[a].pc)).(holder := Some(a))
    case Busy(a) => Put(s, a, Finished)
  }

  // Startup up to the last component.

  predicate EnabledBuild(s: State, m: Move) {
    match m
    case CheckSlot(a) => a in s.actors && s.actors[a].pc.Checking? && s.actors[a].pc.next <= s.disk.components
    case Claim(a) =>
      IsStart(s, a) && s.actors[a].pc == Checking(s.disk.components + 1)
    case MakeReport(a) => IsStart(s, a) && s.actors[a].pc.Claimed?
    case Reap(a) => IsStart(s, a) && s.actors[a].pc.Reaping? && s.actors[a].pc.next <= s.disk.components
    case Clear(a) => IsStart(s, a) &&
      (s.actors[a].pc == Reaping(s.disk.components + 1) || s.actors[a].pc.Clearing?)
    case Spawn(a, pid) =>
      IsStart(s, a) && s.actors[a].pc.Starting? && s.actors[a].pc.next < s.disk.components && pid !in s.disk.usedPids
    case Record(a) => IsStart(s, a) && s.actors[a].pc.Recording?
    case Publish(a) => IsStart(s, a) && s.actors[a].pc.Publishing?
    case Finish(a) => IsStart(s, a) && s.actors[a].pc == Starting(s.disk.components)
    case _ => false
  }

  function ApplyBuild(s: State, m: Move): State
    requires EnabledBuild(s, m)
  {
    match m
    case CheckSlot(a) =>
      var k := s.actors[a].pc.next;
      if RecordedLive(s.disk, SlotAt(k)) then Leave(s, a, Finished) else Put(s, a, Checking(k + 1))
    case Claim(a) =>
      if s.disk.lock.Missing? then
        Put(s, a, Claimed).(disk := s.disk.(lock := Holds(s.actors[a].role.gen),
                                            claims := s.disk.claims + [s.actors[a].role.gen]))
      else
        Put(s, a, Checking(0)).(disk := s.disk.(lock := Missing))
    case MakeReport(a) =>
      var gen := s.actors[a].role.gen;
      Write(Put(s, a, Reaping(0)), Report(gen), File(0, gen))
    case Reap(a) =>
      var k := s.actors[a].pc.next;
      var next := Put(s, a, Reaping(k + 1));
      var slot := ReapSlotAt(s.disk.components, k);
      if Recorded(s.disk, slot) && !RecordedLive(s.disk, slot) then Remove(next, PidFile(slot)) else next
    case Clear(a) =>
      var k := if s.actors[a].pc.Clearing? then s.actors[a].pc.next else 0;
      if k < s.disk.components then Remove(Put(s, a, Clearing(k + 1)), Listen(k))
      else Put(s, a, Starting(0)).(disk := s.disk.(cleared := s.disk.cleared + {s.actors[a].role.gen}))
    case Spawn(a, pid) =>
      var actor := s.actors[a];
      s.(actors := s.actors[a := actor.(pc := Recording(actor.pc.next, pid), owned := actor.owned + {pid})],
         disk := s.disk.(alive := s.disk.alive + {pid}, usedPids := s.disk.usedPids + {pid}))
    case Record(a) =>
      var actor := s.actors[a];
      Write(Put(s, a, Publishing(actor.pc.next)), PidFile(Component(actor.pc.next)), File(actor.pc.pid, actor.role.gen))
    case Publish(a) =>
      var actor := s.actors[a];
      Write(Put(s, a, Starting(actor.pc.next + 1)), Listen(actor.pc.next), File(0, actor.role.gen))
    case Finish(a) =>
      var cleared := Remove(s, Report(s.actors[a].role.gen));
      if s.actors[a].role.detached.None? then Leave(cleared, a, Running) else Put(cleared, a, Announcing)
  }

  // Attachment, rollback and owned shutdown.

  predicate EnabledAttach(s: State, m: Move) {
    match m
    case Announce(a) => IsStart(s, a) && s.actors[a].pc.Announcing? && s.actors[a].role.detached.Some?
    case AnnounceReady(a) => IsStart(s, a) && s.actors[a].pc.Announced? && s.actors[a].role.detached.Some?
    case SeeAck(a) =>
      IsStart(s, a) && s.actors[a].pc.AwaitingAck? && s.actors[a].role.detached.Some? &&
      Ready(s.actors[a].role.detached.value) !in s.disk.files
    case Confirm(a) => IsStart(s, a) && s.actors[a].pc.Confirming? && s.actors[a].role.detached.Some?
    case MarkReady(a) => IsStart(s, a) && s.actors[a].pc.MarkingReady?
    case FailStart(a) =>
      IsStart(s, a) && Building(s.actors[a].pc) && !s.actors[a].pc.RollingBack? && !Attaching(s.actors[a].pc)
    case FailAttach(a) => IsStart(s, a) && Attaching(s.actors[a].pc)
    case BeginShutdown(a) => IsStart(s, a) && s.actors[a].pc.Running?
    case RolledBack(a) =>
      IsStart(s, a) && s.actors[a].pc.RollingBack? && s.actors[a].owned !! s.disk.alive
    case Stopped(a) =>
      IsStart(s, a) && s.actors[a].pc.Stopping? && s.actors[a].owned !! s.disk.alive
    case _ => false
  }

  function ApplyAttach(s: State, m: Move): State
    requires EnabledAttach(s, m)
  {
    match m
    case Announce(a) =>
      var role := s.actors[a].role;
      Write(Put(s, a, Announced), PidFile(Supervisor), File(role.detached.value, role.gen))
    case AnnounceReady(a) =>
      var role := s.actors[a].role;
      Write(Put(s, a, AwaitingAck), Ready(role.detached.value), File(role.detached.value, role.gen))
    case SeeAck(a) => Put(s, a, Confirming)
    case Confirm(a) =>
      var role := s.actors[a].role;
      var written := Write(Put(s, a, MarkingReady), Attached(role.detached.value), File(role.detached.value, role.gen));
      written.(disk := written.disk.(confirmed := s.disk.confirmed + {role.detached.value}))
    case MarkReady(a) => Leave(s, a, Running)
    case FailStart(a) => Put(s, a, RollingBack)
    case FailAttach(a) => Leave(s, a, Stopping)
    case BeginShutdown(a) => Put(s, a, Stopping)
    case RolledBack(a) =>
      s.(actors := s.actors[a := s.actors[a].(pc := CheckingLease, lease := Some(s.actors[a].role.gen))])
    case Stopped(a) =>
      s.(actors := s.actors[a := s.actors[a].(pc := TryingCleanup, lease := Some(s.actors[a].role.gen))])
  }

  // Cleanup and external stop.

  predicate EnabledClean(s: State, m: Move) {
    match m
    case CheckLease(a, readable) => a in s.actors && s.actors[a].pc.CheckingLease?
    case RemoveFile(a, ok) => a in s.actors && s.actors[a].pc.Removing? && s.actors[a].pc.todo != []
    case FinishCleanup(a, ok) => a in s.actors && s.actors[a].pc.Removing? && s.actors[a].pc.todo == []
    case Load(a) => a in s.actors && s.actors[a].pc.Loading?
    case Snapshot(a) => a in s.actors && s.actors[a].pc.Snapshotting?
    case Signal(a, target) => a in s.actors && s.actors[a].pc.Signalling? && target in s.actors[a].pc.targets
    case Settle(a) => a in s.actors && s.actors[a].pc.Signalling? && s.actors[a].pc.targets !! s.disk.alive
    case _ => false
  }

  function ApplyClean(s: State, m: Move): State
    requires EnabledClean(s, m)
  {
    match m
    case CheckLease(a, readable) =>
      var lease := s.actors[a].lease;
      if (if lease.Some? then s.disk.lock == Holds(lease.value) else s.disk.lock.Missing? || s.disk.lock.Empty?) then
        Put(s, a, Removing(CleanupList(s.disk, lease, readable), !readable))
      else Leave(s, a, Finished)
    case RemoveFile(a, ok) =>
      var pc := s.actors[a].pc;
      if ok then Remove(Put(s, a, Removing(pc.todo[1..], pc.failed)), pc.todo[0])
      else Put(s, a, Removing(pc.todo[1..], true))
    case FinishCleanup(a, ok) =>
      var done := Leave(s, a, Finished);
      if ok && !s.actors[a].pc.failed then done.(disk := s.disk.(lock := Missing)) else done
    case Load(a) =>
      var actor := s.actors[a];
      var expected := ExpectedGen(actor.role);
      if expected.Some? && s.disk.lock != Holds(expected.value) then Leave(s, a, Finished)
      else s.(actors := s.actors[a := actor.(pc := Snapshotting(s.disk.lock.Malformed?), lease := LeaseOf(s.disk.lock),
                                             loadedAt := |s.disk.claims|)])
    case Snapshot(a) => Put(s, a, Signalling(RecordedPids(s.disk), s.actors[a].pc.retain))
    case Signal(a, target) => s
    case Settle(a) =>
      if s.actors[a].pc.retain then Leave(s, a, Finished) else Put(s, a, CheckingLease)
  }

  // The launcher.

  predicate EnabledLaunch(s: State, m: Move) {
    match m
    case SeeReady(a) =>
      a in s.actors && s.actors[a].role.Launch? && s.actors[a].pc.AwaitingReadiness? &&
      Ready(s.actors[a].role.supervisor) in s.disk.files
    case SeeAttached(a) =>
      a in s.actors && s.actors[a].role.Launch? && s.actors[a].pc.AwaitingConfirmation? &&
      Attached(s.actors[a].role.supervisor) in s.disk.files
    case ReadHandle(a) => a in s.actors && s.actors[a].role.Launch? && s.actors[a].pc.ReadingHandle?
    case Transfer(a) => a in s.actors && s.actors[a].role.Launch? && s.actors[a].pc.Transferring?
    case FailLaunch(a) =>
      a in s.actors && s.actors[a].role.Launch? &&
      (var pc := s.actors[a].pc;
       pc.AwaitingReadiness? || pc.AwaitingConfirmation? || pc.HandleArrived? || pc.ReadingHandle? || pc.Transferring?)
    case _ => false
  }

  function ApplyLaunch(s: State, m: Move): State
    requires EnabledLaunch(s, m)
  {
    match m
    case SeeReady(a) =>
      var pid := s.actors[a].role.supervisor;
      var removed := Remove(Put(s, a, AwaitingConfirmation), Ready(pid));
      removed.(disk := removed.disk.(acked := s.disk.acked + {pid}))
    case SeeAttached(a) => Remove(Put(s, a, HandleArrived), Attached(s.actors[a].role.supervisor))
    case ReadHandle(a) =>
      if s.disk.lock == Holds(s.actors[a].role.gen) && HandleComplete(s.disk) then
        Leave(s, a, Transferring(HandleOf(s.disk)))
      else Leave(s, a, StopArrived)
    case Transfer(a) => Put(s, a, Returned(s.actors[a].pc.handle))
    case FailLaunch(a) => Leave(s, a, StopArrived)
  }

  predicate Enabled(s: State, m: Move) {
    EnabledWorld(s, m) || EnabledBuild(s, m) || EnabledAttach(s, m) || EnabledClean(s, m) || EnabledLaunch(s, m)
  }

  function Apply(s: State, m: Move): State
    requires Enabled(s, m)
  {
    if EnabledWorld(s, m) then ApplyWorld(s, m)
    else if EnabledBuild(s, m) then ApplyBuild(s, m)
    else if EnabledAttach(s, m) then ApplyAttach(s, m)
    else if EnabledClean(s, m) then ApplyClean(s, m)
    else ApplyLaunch(s, m)
  }
}
