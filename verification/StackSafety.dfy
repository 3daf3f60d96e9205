/** Safety of the stack lifecycle over every interleaving. */
module StackSafety {
  import opened Prelude
  import opened StackState

  // ----- The invariant -----

  ghost predicate Distinct(claims: seq<Gen>) {
    forall i, j | 0 <= i < j < |claims| :: claims[i] != claims[j]
  }

  /** Live records all belong to the generation that claimed last. */
  ghost predicate OneGeneration(d: Disk)
    requires d.claims != []
  {
    forall slot | RecordedLive(d, slot) :: d.files[PidFile(slot)].writer == Current(d)
  }

  ghost predicate NoneRecorded(d: Disk, n: nat) {
    forall i | 0 <= i < n :: PidFile(Component(i)) !in d.files
  }

  /** While a generation that cleared the directory owns it, all component records
      are its own. */
  ghost predicate ClearedOk(d: Disk) {
    && (forall g | g in d.cleared :: g in d.claims)
    && (d.lock.Holds? && d.lock.gen in d.cleared ==>
          forall i | 0 <= i < d.components ::
            PidFile(Component(i)) in d.files ==> d.files[PidFile(Component(i))].writer == d.lock.gen)
  }

  ghost predicate DiskOk(d: Disk) {
    && d.claims != [] && Distinct(d.claims)
    && (forall g | g in d.claims :: g in d.usedGens)
    && (d.lock.Holds? ==> d.lock.gen == Current(d))
    && (forall f | f in d.files :: d.files[f].writer in d.claims)
    && OneGeneration(d) && ClearedOk(d)
    && d.confirmed <= d.acked <= d.usedPids
    && d.alive <= d.usedPids
    && (forall f | f in d.files && (f.Ready? || f.Attached?) :: f.pid in d.usedPids)
    && (forall f | f in d.files && f.Attached? :: f.pid in d.confirmed)
    && (forall f | f in d.files && f.PidFile? :: d.files[f].pid in d.usedPids)
  }

  ghost predicate RecordsDead(d: Disk) {
    forall i | 0 <= i < d.components :: !RecordedLive(d, Component(i))
  }

  /** The artifacts whose removal must precede the lock's. */
  ghost predicate IsCore(n: nat, f: FileName) {
    match f
    case PidFile(slot) => slot.Supervisor? || slot.index < n
    case Listen(i) => i < n
    case _ => false
  }

  ghost predicate LeaseMatches(lock: Lock, lease: Option<Gen>) {
    if lease.Some? then lock == Holds(lease.value) else lock.Missing? || lock.Empty?
  }

  predicate PastClearing(pc: Pc) {
    pc.Starting? || pc.Recording? || pc.Publishing? || Attaching(pc)
  }

  ghost predicate StartOk(d: Disk, actor: Actor)
    requires actor.role.Start?
  {
    var gen, pc := actor.role.gen, actor.pc;
    && gen in d.usedGens
    && actor.owned <= d.usedPids
    && (BeforeClaim(pc) ==> gen !in d.claims)
    && (Building(pc) ==> d.lock == Holds(gen))
    && (pc.Checking? ==> pc.next <= d.components + 1 && (forall k | 0 <= k < pc.next :: !RecordedLive(d, SlotAt(k))))
    && (pc.Claimed? || pc.Reaping? ==> RecordsDead(d))
    && (pc.Reaping? ==> NoneRecorded(d, Min(pc.next, d.components)))
    && (pc.Clearing? ==> NoneRecorded(d, d.components))
    && (PastClearing(pc) ==> gen in d.cleared)
    && (pc.Recording? ==> pc.pid in actor.owned)
    && (forall i | 0 <= i < d.components ::
          Recorded(d, Component(i)) && d.files[PidFile(Component(i))].writer == gen ==>
          d.files[PidFile(Component(i))].pid in actor.owned)
    && (actor.role.detached.Some? ==>
          var p := actor.role.detached.value;
          && p in d.usedPids
          && (pc.AwaitingAck? ==> Ready(p) in d.files || p in d.acked)
          && (pc.Confirming? ==> p in d.acked))
    && (pc.TryingCleanup? || pc.CheckingLease? ==> actor.lease == Some(gen) && actor.owned !! d.alive)
    && (pc.Removing? ==> actor.lease == Some(gen))
    && !(pc.StopArrived? || pc.Loading? || pc.Snapshotting? || pc.Signalling?)
  }

  ghost predicate LaunchOk(d: Disk, actor: Actor)
    requires actor.role.Launch?
  {
    var p, pc := actor.role.supervisor, actor.pc;
    && p in d.usedPids
    && (pc.AwaitingConfirmation? || pc.HandleArrived? || pc.ReadingHandle? || pc.Transferring? || pc.Returned? ==>
          p in d.acked)
    && (p in d.confirmed ==> actor.role.gen in d.cleared)
    && (pc.HandleArrived? || pc.ReadingHandle? || pc.Transferring? || pc.Returned? ==> p in d.confirmed)
  }

  /** Between loading the lock and the end of an external stop. */
  predicate InStop(actor: Actor) {
    actor.pc.Snapshotting? || actor.pc.Signalling? ||
    (!actor.role.Start? && (actor.pc.CheckingLease? || actor.pc.Removing?))
  }

  /** What stopping and cleaning up rely on. */
  ghost predicate PhaseOk(d: Disk, actor: Actor) {
    var pc := actor.pc;
    && (!actor.role.Start? ==> !BeforeClaim(pc) && !Building(pc) && !pc.TryingCleanup?)
    && (pc.Snapshotting? || pc.Signalling? ==>
          && (actor.role.Launch? ==> d.lock == Holds(actor.role.gen))
          && (if pc.retain then d.lock.Malformed? else LeaseMatches(d.lock, actor.lease)))
    && (pc.Signalling? ==> pc.targets == RecordedPids(d))
    && (InStop(actor) ==> actor.loadedAt == |d.claims|)
    && (pc.CheckingLease? && !actor.role.Start? ==> LeaseMatches(d.lock, actor.lease) && RecordsDead(d))
    && (pc.Removing? ==>
          && LeaseMatches(d.lock, actor.lease)
          && RecordsDead(d)
          && (!pc.failed ==> forall f | IsCore(d.components, f) && f in d.files :: f in pc.todo))
  }

  ghost predicate Ok(d: Disk, actor: Actor) {
    && (actor.role.Start? ==> StartOk(d, actor))
    && (actor.role.Launch? ==> LaunchOk(d, actor))
    && PhaseOk(d, actor)
  }

  ghost predicate UniqueGens(actors: map<ActorId, Actor>) {
    forall a, b | a in actors && b in actors && a != b && actors[a].role.Start? && actors[b].role.Start? ::
      actors[a].role.gen != actors[b].role.gen
  }

  /** A launcher and the startup it waits for share one generation. */
  ghost predicate Paired(actors: map<ActorId, Actor>) {
    forall a, b | a in actors && b in actors && actors[a].role.Launch? && actors[b].role.Start? &&
                  actors[b].role.detached == Some(actors[a].role.supervisor) ::
      actors[a].role.gen == actors[b].role.gen
  }

  /** The transaction has one holder, who is where its holder should be. */
  ghost predicate HolderOk(s: State) {
    && (s.holder.Some? ==> s.holder.value in s.actors)
    && forall a | a in s.actors :: Holding(s.actors[a].pc) <==> s.holder == Some(a)
  }

  ghost predicate Inv(s: State) {
    && DiskOk(s.disk)
    && UniqueGens(s.actors) && Paired(s.actors)
    && HolderOk(s)
    && forall a | a in s.actors :: Ok(s.disk, s.actors[a])
  }

  /** No actor yet; whatever is on disk was left by one earlier generation. */
  ghost predicate Init(s: State) {
    var d := s.disk;
    && |d.claims| == 1 && d.claims[0] in d.usedGens
    && (d.lock.Holds? ==> d.lock.gen == d.claims[0])
    && (forall f | f in d.files :: d.files[f].writer == d.claims[0])
    && (forall f | f in d.files && f.Attached? :: f.pid in d.confirmed)
    && (forall f | f in d.files && (f.Ready? || f.Attached?) :: f.pid in d.usedPids)
    && (forall f | f in d.files && f.PidFile? :: d.files[f].pid in d.usedPids)
    && d.confirmed <= d.acked <= d.usedPids && d.alive <= d.usedPids
    && d.cleared == {} && s.holder.None? && s.actors == map[]
  }

  lemma InitOk(s: State)
    requires Init(s)
    ensures Inv(s)
  {
  }

  // ----- What one actor's move leaves alone -----

  ghost predicate OthersSame(s: State, t: State, a: ActorId) {
    && a in s.actors && t.actors.Keys == s.actors.Keys
    && t.actors[a].role == s.actors[a].role
    && forall b | b in s.actors && b != a :: t.actors[b] == s.actors[b]
  }

  /** The actor entered, kept, left or never had the transaction. */
  ghost predicate HolderMoved(s: State, t: State, a: ActorId)
    requires a in t.actors
  {
    if Holding(t.actors[a].pc) then s.holder in {None, Some(a)} && t.holder == Some(a)
    else t.holder == if s.holder == Some(a) then None else s.holder
  }

  lemma HolderStaysOk(s: State, t: State, a: ActorId)
    requires HolderOk(s) && OthersSame(s, t, a) && HolderMoved(s, t, a)
    ensures HolderOk(t)
  {
  }

  /** The disk did not change. */
  lemma QuietOk(s: State, t: State, a: ActorId)
    requires Inv(s) && OthersSame(s, t, a) && HolderMoved(s, t, a) && t.disk == s.disk
    requires Ok(t.disk, t.actors[a])
    ensures Inv(t)
  {
    hide Ok, DiskOk;
    HolderStaysOk(s, t, a);
  }

  /** What an actor outside the transaction relies on. */
  ghost predicate Undisturbed(d: Disk, e: Disk, gen: Gen) {
    && e.components == d.components
    && (e.claims == d.claims || e.claims == d.claims + [gen])
    && d.usedGens <= e.usedGens && d.usedPids <= e.usedPids && d.acked <= e.acked && d.confirmed <= e.confirmed
    && d.cleared <= e.cleared
    && (forall p | p in e.alive && p in d.usedPids :: p in d.alive)
    && (forall f | f in e.files && f.PidFile? && e.files[f].writer != gen :: f in d.files && d.files[f] == e.files[f])
  }

  /** A supervisor newly confirmed serves a generation that cleared the directory. */
  ghost predicate Backed(d: Disk, e: Disk, role: Role) {
    role.Launch? && role.supervisor in e.confirmed && role.supervisor !in d.confirmed ==> role.gen in e.cleared
  }

  lemma OutsiderOk(d: Disk, e: Disk, actor: Actor, gen: Gen)
    requires Ok(d, actor) && !Holding(actor.pc) && Undisturbed(d, e, gen)
    requires actor.role.Start? ==> actor.role.gen != gen
    requires Backed(d, e, actor.role)
    ensures Ok(e, actor)
  {
  }

  /** The transaction holder, a startup, changed anything but the records of other
      generations. */
  lemma HeldOk(s: State, t: State, a: ActorId)
    requires Inv(s) && OthersSame(s, t, a) && s.holder == Some(a) && HolderMoved(s, t, a)
    requires s.actors[a].role.Start? && Undisturbed(s.disk, t.disk, s.actors[a].role.gen)
    requires DiskOk(t.disk) && Ok(t.disk, t.actors[a])
    requires forall b | b in s.actors :: Backed(s.disk, t.disk, s.actors[b].role)
    ensures Inv(t)
  {
    hide Ok, DiskOk, Undisturbed, Backed;
    HolderStaysOk(s, t, a);
    forall b | b in t.actors && b != a ensures Ok(t.disk, t.actors[b]) {
      OutsiderOk(s.disk, t.disk, s.actors[b], s.actors[a].role.gen);
    }
  }

  /** Startup states that rely on nothing but the claim and a cleared directory. */
  predicate Plain(pc: Pc) {
    pc.Starting? || pc.Publishing? || pc.RollingBack? ||
    pc.Announcing? || pc.Announced? || pc.MarkingReady? || pc.Running? || pc.Stopping?
  }

  lemma PlainOk(d: Disk, actor: Actor, pc: Pc)
    requires Ok(d, actor) && actor.role.Start? && Plain(pc) && (Building(pc) ==> Building(actor.pc))
    requires PastClearing(pc) ==> PastClearing(actor.pc)
    ensures Ok(d, actor.(pc := pc))
  {
  }

  /** What a startup may write while it holds its claim. */
  ghost predicate Fits(d: Disk, actor: Actor, f: FileName, file: File)
    requires actor.role.Start?
  {
    && file.writer == actor.role.gen && d.lock == Holds(actor.role.gen)
    && (f.PidFile? ==> file.pid in d.usedPids && (f.slot.Component? ==> file.pid in actor.owned))
    && (f.Ready? ==> f.pid in d.usedPids)
    && !f.Attached?
  }

  lemma WrittenOk(d: Disk, e: Disk, actor: Actor, f: FileName, file: File)
    requires DiskOk(d) && Ok(d, actor) && actor.role.Start? && Fits(d, actor, f, file)
    requires Plain(actor.pc) && e == d.(files := d.files[f := file])
    ensures DiskOk(e) && Ok(e, actor) && Undisturbed(d, e, actor.role.gen)
  {
    assert forall slot | RecordedLive(e, slot) && PidFile(slot) != f :: RecordedLive(d, slot);
  }

  /** The startup holding the transaction wrote one file. */
  lemma WriteOk(s: State, t: State, a: ActorId, f: FileName, file: File)
    requires Inv(s) && OthersSame(s, t, a) && s.holder == Some(a) && HolderMoved(s, t, a)
    requires t.actors[a].role.Start? && Ok(s.disk, t.actors[a]) && Plain(t.actors[a].pc)
    requires Fits(s.disk, t.actors[a], f, file) && t.disk == s.disk.(files := s.disk.files[f := file])
    ensures Inv(t)
  {
    WrittenOk(s.disk, t.disk, t.actors[a], f, file);
    hide Ok, DiskOk, Undisturbed, Fits;
    HeldOk(s, t, a);
  }

  ghost predicate Shrank(d: Disk, e: Disk) {
    && e == d.(files := e.files, lock := e.lock)
    && (forall f | f in e.files :: f in d.files && e.files[f] == d.files[f])
    && (e.lock == d.lock || e.lock.Missing?)
  }

  lemma ShrankOk(d: Disk, e: Disk)
    requires DiskOk(d) && Shrank(d, e)
    ensures DiskOk(e)
    ensures forall slot :: RecordedLive(e, slot) ==> RecordedLive(d, slot)
  {
    assert forall slot :: RecordedLive(e, slot) ==> RecordedLive(d, slot);
  }

  lemma ShrankActorOk(d: Disk, e: Disk, actor: Actor)
    requires Ok(d, actor) && Shrank(d, e)
    requires !Holding(actor.pc) || (Plain(actor.pc) && e.lock == d.lock)
    ensures Ok(e, actor)
  {
  }

  /** The transaction holder removed files or the lock. */
  lemma ShrinkOk(s: State, t: State, a: ActorId)
    requires Inv(s) && OthersSame(s, t, a) && s.holder == Some(a) && HolderMoved(s, t, a)
    requires Shrank(s.disk, t.disk) && Ok(t.disk, t.actors[a])
    ensures Inv(t)
  {
    hide Ok, DiskOk, Shrank;
    HolderStaysOk(s, t, a);
    ShrankOk(s.disk, t.disk);
    forall b | b in t.actors && b != a ensures Ok(t.disk, t.actors[b]) {
      ShrankActorOk(s.disk, t.disk, s.actors[b]);
    }
  }

  /** A marker of a supervisor is gone. */
  ghost predicate Unmarked(d: Disk, e: Disk, f: FileName) {
    && (f.Ready? || f.Attached?)
    && e == d.(files := d.files - {f}, acked := e.acked)
    && d.acked <= e.acked <= d.usedPids && (f.Ready? ==> f.pid in e.acked)
  }

  lemma UnmarkedOk(d: Disk, e: Disk, f: FileName)
    requires DiskOk(d) && Unmarked(d, e, f)
    ensures DiskOk(e)
    ensures forall slot :: Recorded(e, slot) == Recorded(d, slot)
    ensures forall slot :: RecordedLive(e, slot) == RecordedLive(d, slot)
    ensures RecordedPids(e) == RecordedPids(d)
  {
    assert forall slot :: Recorded(e, slot) == Recorded(d, slot) && RecordedLive(e, slot) == RecordedLive(d, slot);
  }

  lemma UnmarkedActorOk(d: Disk, e: Disk, f: FileName, actor: Actor)
    requires DiskOk(d) && Unmarked(d, e, f) && Ok(d, actor)
    ensures Ok(e, actor)
  {
    UnmarkedOk(d, e, f);
  }

  lemma MarkerOk(s: State, t: State, a: ActorId, f: FileName)
    requires Inv(s) && OthersSame(s, t, a) && HolderMoved(s, t, a) && Unmarked(s.disk, t.disk, f)
    requires Ok(t.disk, t.actors[a])
    ensures Inv(t)
  {
    hide Ok, DiskOk, Unmarked;
    HolderStaysOk(s, t, a);
    UnmarkedOk(s.disk, t.disk, f);
    forall b | b in t.actors && b != a ensures Ok(t.disk, t.actors[b]) {
      UnmarkedActorOk(s.disk, t.disk, f, s.actors[b]);
    }
  }

  // ----- The world's moves -----

  /** New ids and processes, or deaths. */
  ghost predicate Elsewhere(d: Disk, e: Disk) {
    && e == d.(alive := e.alive, usedPids := e.usedPids, usedGens := e.usedGens)
    && d.usedPids <= e.usedPids && d.usedGens <= e.usedGens && e.alive <= e.usedPids
    && (forall p | p in e.alive && p in d.usedPids :: p in d.alive)
  }

  lemma ElsewhereOk(d: Disk, e: Disk)
    requires DiskOk(d) && Elsewhere(d, e)
    ensures DiskOk(e)
    ensures forall slot :: RecordedLive(e, slot) ==> RecordedLive(d, slot)
  {
    assert forall slot :: RecordedLive(e, slot) ==> RecordedLive(d, slot);
  }

  lemma ElsewhereActorOk(d: Disk, e: Disk, actor: Actor)
    requires DiskOk(d) && Elsewhere(d, e) && Ok(d, actor)
    ensures Ok(e, actor)
  {
    ElsewhereOk(d, e);
    assert forall slot :: Recorded(e, slot) == Recorded(d, slot);
    assert RecordedPids(e) == RecordedPids(d);
  }

  lemma NewcomerOk(d: Disk, actor: Actor)
    requires match actor.role
             case Start(_, _) => actor.pc.Arrived?
             case Stop => actor.pc.StopArrived?
             case Launch(_, _) => actor.pc.AwaitingReadiness?
    requires actor.owned == {}
    requires actor.role.Start? ==>
               && actor.role.gen in d.usedGens && actor.role.gen !in d.claims
               && (forall f | f in d.files :: d.files[f].writer != actor.role.gen)
               && (actor.role.detached.Some? ==> actor.role.detached.value in d.usedPids)
    requires actor.role.Launch? ==> actor.role.supervisor in d.usedPids && actor.role.supervisor !in d.confirmed
    ensures Ok(d, actor)
  {
  }

  lemma NeverSeen(d: Disk, gen: Gen, pid: Pid)
    requires DiskOk(d)
    ensures gen !in d.usedGens ==> gen !in d.claims && forall f | f in d.files :: d.files[f].writer != gen
    ensures pid !in d.usedPids ==> pid !in d.confirmed
  {
  }

  /** Generations and supervisors in use are on record as used. */
  lemma UsedByActor(d: Disk, actor: Actor)
    requires Ok(d, actor)
    ensures actor.role.Start? ==> actor.role.gen in d.usedGens
    ensures actor.role.Start? && actor.role.detached.Some? ==> actor.role.detached.value in d.usedPids
    ensures actor.role.Launch? ==> actor.role.supervisor in d.usedPids
  {
  }

  lemma ArrivalDiskOk(s: State, m: Move)
    requires Inv(s) && EnabledWorld(s, m) && (m.NewStart? || m.NewStop? || m.NewLaunch?)
    ensures DiskOk(ApplyWorld(s, m).disk) && Elsewhere(s.disk, ApplyWorld(s, m).disk)
  {
    hide Ok, UniqueGens, Paired, HolderOk;
    ElsewhereOk(s.disk, ApplyWorld(s, m).disk);
  }

  lemma ArrivalRolesOk(s: State, m: Move)
    requires Inv(s) && EnabledWorld(s, m) && (m.NewStart? || m.NewStop? || m.NewLaunch?)
    ensures UniqueGens(ApplyWorld(s, m).actors) && Paired(ApplyWorld(s, m).actors) && HolderOk(ApplyWorld(s, m))
  {
    hide Ok, DiskOk;
    forall a | a in s.actors {
      UsedByActor(s.disk, s.actors[a]);
    }
  }

  lemma ArrivalOk(s: State, m: Move)
    requires Inv(s) && EnabledWorld(s, m) && (m.NewStart? || m.NewStop? || m.NewLaunch?)
    ensures Inv(ApplyWorld(s, m))
  {
    var t := ApplyWorld(s, m);
    ArrivalDiskOk(s, m);
    ArrivalRolesOk(s, m);
    hide Ok, DiskOk, Elsewhere, UniqueGens, Paired, HolderOk;
    if !m.NewStop? {
      NeverSeen(s.disk, m.gen, if m.NewLaunch? then m.pid else 0);
    }
    forall a | a in t.actors ensures Ok(t.disk, t.actors[a]) {
      if a in s.actors {
        ElsewhereActorOk(s.disk, t.disk, s.actors[a]);
      } else {
        NewcomerOk(t.disk, t.actors[a]);
      }
    }
  }

  lemma DieOk(s: State, m: Move)
    requires Inv(s) && EnabledWorld(s, m) && m.Die?
    ensures Inv(ApplyWorld(s, m))
  {
    var t := ApplyWorld(s, m);
    assert Elsewhere(s.disk, t.disk);
    hide Ok, DiskOk, Elsewhere;
    ElsewhereOk(s.disk, t.disk);
    forall a | a in t.actors ensures Ok(t.disk, t.actors[a]) {
      ElsewhereActorOk(s.disk, t.disk, s.actors[a]);
    }
  }

  lemma CrashOk(s: State, m: Move)
    requires Inv(s) && EnabledWorld(s, m) && m.Crash?
    ensures Inv(ApplyWorld(s, m))
  {
    hide Ok, DiskOk;
  }

  /** An actor that has finished relies on little. */
  lemma FinishedOk(d: Disk, actor: Actor)
    requires Ok(d, actor)
    ensures Ok(d, actor.(pc := Finished))
  {
  }

  lemma GiveUpOk(s: State, m: Move)
    requires Inv(s) && EnabledWorld(s, m) && (m.GiveUp? || m.Busy?)
    ensures Inv(ApplyWorld(s, m))
  {
    hide Ok, DiskOk;
    FinishedOk(s.disk, s.actors[m.a]);
    QuietOk(s, ApplyWorld(s, m), m.a);
  }

  // ----- Moves that leave the disk alone -----

  lemma AcquiredOk(d: Disk, actor: Actor)
    requires Ok(d, actor)
    requires actor.pc.Arrived? || actor.pc.TryingCleanup? || actor.pc.StopArrived? || actor.pc.HandleArrived?
    ensures Ok(d, actor.(pc := AfterAcquire(actor.pc)))
  {
  }

  lemma AcquireOk(s: State, m: Move)
    requires Inv(s) && EnabledWorld(s, m) && m.Acquire?
    ensures Inv(ApplyWorld(s, m))
  {
    hide Ok, DiskOk;
    AcquiredOk(s.disk, s.actors[m.a]);
    QuietOk(s, ApplyWorld(s, m), m.a);
  }

  lemma CheckSlotOk(s: State, m: Move)
    requires Inv(s) && EnabledBuild(s, m) && m.CheckSlot?
    ensures Inv(ApplyBuild(s, m))
  {
    assert Ok(s.disk, s.actors[m.a]);
    QuietOk(s, ApplyBuild(s, m), m.a);
  }

  lemma AttachOk(s: State, m: Move)
    requires Inv(s) && EnabledAttach(s, m) && (m.MarkReady? || m.FailStart? || m.FailAttach? || m.BeginShutdown?)
    ensures Inv(ApplyAttach(s, m))
  {
    hide Ok, DiskOk;
    var t := ApplyAttach(s, m);
    PlainOk(s.disk, s.actors[m.a], t.actors[m.a].pc);
    QuietOk(s, t, m.a);
  }

  lemma AcknowledgedOk(d: Disk, actor: Actor)
    requires Ok(d, actor) && actor.role.Start? && actor.role.detached.Some? && actor.pc.AwaitingAck?
    requires Ready(actor.role.detached.value) !in d.files
    ensures Ok(d, actor.(pc := Confirming))
  {
  }

  lemma SeeAckOk(s: State, m: Move)
    requires Inv(s) && EnabledAttach(s, m) && m.SeeAck?
    ensures Inv(ApplyAttach(s, m))
  {
    hide Ok, DiskOk;
    AcknowledgedOk(s.disk, s.actors[m.a]);
    QuietOk(s, ApplyAttach(s, m), m.a);
  }

  lemma ProvenDeadOk(d: Disk, actor: Actor, pc: Pc)
    requires Ok(d, actor) && actor.role.Start? && actor.owned !! d.alive
    requires pc.CheckingLease? || pc.TryingCleanup?
    ensures Ok(d, actor.(pc := pc, lease := Some(actor.role.gen)))
  {
  }

  lemma ProvenOk(s: State, m: Move)
    requires Inv(s) && EnabledAttach(s, m) && (m.RolledBack? || m.Stopped?)
    ensures Inv(ApplyAttach(s, m))
  {
    hide Ok, DiskOk;
    var t := ApplyAttach(s, m);
    ProvenDeadOk(s.disk, s.actors[m.a], t.actors[m.a].pc);
    QuietOk(s, t, m.a);
  }

  lemma LoadedOk(d: Disk, actor: Actor)
    requires Ok(d, actor) && actor.pc.Loading?
    requires actor.role.Launch? ==> d.lock == Holds(actor.role.gen)
    ensures Ok(d, actor.(pc := Snapshotting(d.lock.Malformed?), lease := LeaseOf(d.lock), loadedAt := |d.claims|))
  {
  }

  lemma LoadOk(s: State, m: Move)
    requires Inv(s) && EnabledClean(s, m) && m.Load?
    ensures Inv(ApplyClean(s, m))
  {
    hide Ok, DiskOk;
    var actor := s.actors[m.a];
    FinishedOk(s.disk, actor);
    if actor.role.Launch? ==> s.disk.lock == Holds(actor.role.gen) {
      LoadedOk(s.disk, actor);
    }
    QuietOk(s, ApplyClean(s, m), m.a);
  }

  lemma SnapshotTakenOk(d: Disk, actor: Actor)
    requires Ok(d, actor) && actor.pc.Snapshotting?
    ensures Ok(d, actor.(pc := Signalling(RecordedPids(d), actor.pc.retain)))
  {
  }

  lemma SnapshotOk(s: State, m: Move)
    requires Inv(s) && EnabledClean(s, m) && m.Snapshot?
    ensures Inv(ApplyClean(s, m))
  {
    hide Ok, DiskOk;
    SnapshotTakenOk(s.disk, s.actors[m.a]);
    QuietOk(s, ApplyClean(s, m), m.a);
  }

  lemma LauncherStepOk(d: Disk, actor: Actor, pc: Pc)
    requires Ok(d, actor) && actor.role.Launch?
    requires || pc.StopArrived?
             || ((pc.Transferring? || pc.Returned?) && (actor.pc.ReadingHandle? || actor.pc.Transferring?))
    ensures Ok(d, actor.(pc := pc))
  {
  }

  lemma LauncherOk(s: State, m: Move)
    requires Inv(s) && EnabledLaunch(s, m) && (m.ReadHandle? || m.Transfer? || m.FailLaunch?)
    ensures Inv(ApplyLaunch(s, m))
  {
    hide Ok, DiskOk;
    var t := ApplyLaunch(s, m);
    LauncherStepOk(s.disk, s.actors[m.a], t.actors[m.a].pc);
    QuietOk(s, t, m.a);
  }

  // ----- Moves of a startup inside the transaction -----

  lemma ClaimHeld(d: Disk, actor: Actor)
    requires Ok(d, actor) && actor.role.Start?
    ensures Building(actor.pc) ==> d.lock == Holds(actor.role.gen)
    ensures actor.pc.Recording? ==> actor.pc.pid in actor.owned && actor.pc.pid in d.usedPids
    ensures actor.role.detached.Some? ==> actor.role.detached.value in d.usedPids
  {
  }

  lemma PublishOk(s: State, m: Move)
    requires Inv(s) && EnabledBuild(s, m) && m.Publish?
    ensures Inv(ApplyBuild(s, m))
  {
    hide Ok, DiskOk;
    var t, gen := ApplyBuild(s, m), s.actors[m.a].role.gen;
    PlainOk(s.disk, s.actors[m.a], t.actors[m.a].pc);
    ClaimHeld(s.disk, s.actors[m.a]);
    WriteOk(s, t, m.a, Listen(s.actors[m.a].pc.next), File(0, gen));
  }

  lemma ReportedOk(d: Disk, e: Disk, actor: Actor)
    requires DiskOk(d) && Ok(d, actor) && actor.role.Start? && actor.pc.Claimed?
    requires e == d.(files := d.files[Report(actor.role.gen) := File(0, actor.role.gen)])
    ensures DiskOk(e) && Ok(e, actor.(pc := Reaping(0))) && Undisturbed(d, e, actor.role.gen)
  {
    assert forall slot :: RecordedLive(e, slot) == RecordedLive(d, slot);
  }

  lemma MakeReportOk(s: State, m: Move)
    requires Inv(s) && EnabledBuild(s, m) && m.MakeReport?
    ensures Inv(ApplyBuild(s, m))
  {
    hide Ok, DiskOk, Undisturbed;
    ReportedOk(s.disk, ApplyBuild(s, m).disk, s.actors[m.a]);
    HeldOk(s, ApplyBuild(s, m), m.a);
  }

  lemma SpawnedOk(d: Disk, e: Disk, actor: Actor, pid: Pid)
    requires DiskOk(d) && Ok(d, actor) && actor.role.Start? && actor.pc.Starting? && pid !in d.usedPids
    requires e == d.(alive := d.alive + {pid}, usedPids := d.usedPids + {pid})
    ensures DiskOk(e) && Undisturbed(d, e, actor.role.gen)
    ensures Ok(e, actor.(pc := Recording(actor.pc.next, pid), owned := actor.owned + {pid}))
  {
    assert forall slot :: RecordedLive(e, slot) ==> RecordedLive(d, slot);
  }

  lemma SpawnOk(s: State, m: Move)
    requires Inv(s) && EnabledBuild(s, m) && m.Spawn?
    ensures Inv(ApplyBuild(s, m))
  {
    hide Ok, DiskOk, Undisturbed;
    SpawnedOk(s.disk, ApplyBuild(s, m).disk, s.actors[m.a], m.pid);
    HeldOk(s, ApplyBuild(s, m), m.a);
  }

  lemma RecordOk(s: State, m: Move)
    requires Inv(s) && EnabledBuild(s, m) && m.Record?
    ensures Inv(ApplyBuild(s, m))
  {
    hide Ok, DiskOk;
    var t, actor := ApplyBuild(s, m), s.actors[m.a];
    PlainOk(s.disk, actor, t.actors[m.a].pc);
    ClaimHeld(s.disk, actor);
    WriteOk(s, t, m.a, PidFile(Component(actor.pc.next)), File(actor.pc.pid, actor.role.gen));
  }

  lemma AnnounceOk(s: State, m: Move)
    requires Inv(s) && EnabledAttach(s, m) && m.Announce?
    ensures Inv(ApplyAttach(s, m))
  {
    hide Ok, DiskOk;
    var t, actor := ApplyAttach(s, m), s.actors[m.a];
    PlainOk(s.disk, actor, t.actors[m.a].pc);
    ClaimHeld(s.disk, actor);
    WriteOk(s, t, m.a, PidFile(Supervisor), File(actor.role.detached.value, actor.role.gen));
  }

  lemma AwaitingOk(d: Disk, actor: Actor)
    requires Ok(d, actor) && actor.role.Start? && actor.role.detached.Some? && actor.pc.Announced?
    requires Ready(actor.role.detached.value) in d.files
    ensures Ok(d, actor.(pc := AwaitingAck))
  {
  }

  lemma AnnounceReadyOk(s: State, m: Move)
    requires Inv(s) && EnabledAttach(s, m) && m.AnnounceReady?
    ensures Inv(ApplyAttach(s, m))
  {
    hide Ok, DiskOk;
    var t, role := ApplyAttach(s, m), s.actors[m.a].role;
    var written := s.(disk := t.disk);
    ClaimHeld(s.disk, s.actors[m.a]);
    WriteOk(s, written, m.a, Ready(role.detached.value), File(role.detached.value, role.gen));
    AwaitingOk(t.disk, s.actors[m.a]);
    QuietOk(written, t, m.a);
  }

  lemma ConfirmedOk(d: Disk, e: Disk, actor: Actor, p: Pid)
    requires DiskOk(d) && Ok(d, actor) && actor.role.Start? && actor.pc.Confirming? && actor.role.detached == Some(p)
    requires e == d.(files := d.files[Attached(p) := File(p, actor.role.gen)], confirmed := d.confirmed + {p})
    ensures DiskOk(e) && Undisturbed(d, e, actor.role.gen) && Ok(e, actor.(pc := MarkingReady))
    ensures actor.role.gen in e.cleared
  {
    assert forall slot :: RecordedLive(e, slot) == RecordedLive(d, slot);
  }

  lemma ConfirmOk(s: State, m: Move)
    requires Inv(s) && EnabledAttach(s, m) && m.Confirm?
    ensures Inv(ApplyAttach(s, m))
  {
    hide Ok, DiskOk, Undisturbed;
    ConfirmedOk(s.disk, ApplyAttach(s, m).disk, s.actors[m.a], s.actors[m.a].role.detached.value);
    HeldOk(s, ApplyAttach(s, m), m.a);
  }

  lemma ReapedOk(d: Disk, e: Disk, actor: Actor, k: nat)
    requires Ok(d, actor) && actor.role.Start? && actor.pc == Reaping(k) && k <= d.components
    requires var slot := ReapSlotAt(d.components, k);
             e == if Recorded(d, slot) && !RecordedLive(d, slot) then d.(files := d.files - {PidFile(slot)}) else d
    ensures Ok(e, actor.(pc := Reaping(k + 1)))
  {
    if k < d.components {
      assert !RecordedLive(d, Component(k));
    }
    assert forall slot :: RecordedLive(e, slot) ==> RecordedLive(d, slot);
  }

  lemma ReapOk(s: State, m: Move)
    requires Inv(s) && EnabledBuild(s, m) && m.Reap?
    ensures Inv(ApplyBuild(s, m))
  {
    hide Ok, DiskOk;
    var t := ApplyBuild(s, m);
    ReapedOk(s.disk, t.disk, s.actors[m.a], s.actors[m.a].pc.next);
    ShrinkOk(s, t, m.a);
  }

  /** One endpoint removed; the first removal finds every record gone. */
  lemma EndpointGoneOk(d: Disk, e: Disk, actor: Actor, k: nat)
    requires Ok(d, actor) && actor.role.Start? && e == d.(files := d.files - {Listen(k)})
    requires actor.pc == Reaping(d.components + 1) || actor.pc.Clearing?
    ensures Ok(e, actor.(pc := Clearing(k + 1)))
  {
  }

  /** The directory is clear: whatever is recorded from now on is our own. */
  lemma DirectoryClearOk(d: Disk, e: Disk, actor: Actor)
    requires DiskOk(d) && Ok(d, actor) && actor.role.Start?
    requires actor.pc == Reaping(d.components + 1) || actor.pc.Clearing?
    requires e == d.(cleared := d.cleared + {actor.role.gen})
    ensures DiskOk(e) && Ok(e, actor.(pc := Starting(0))) && Undisturbed(d, e, actor.role.gen)
  {
    assert forall slot :: RecordedLive(e, slot) == RecordedLive(d, slot);
  }

  lemma ClearOk(s: State, m: Move)
    requires Inv(s) && EnabledBuild(s, m) && m.Clear?
    ensures Inv(ApplyBuild(s, m))
  {
    hide Ok, DiskOk, Undisturbed;
    var t, actor := ApplyBuild(s, m), s.actors[m.a];
    var k := if actor.pc.Clearing? then actor.pc.next else 0;
    if k < s.disk.components {
      EndpointGoneOk(s.disk, t.disk, actor, k);
      ShrinkOk(s, t, m.a);
    } else {
      DirectoryClearOk(s.disk, t.disk, actor);
      HeldOk(s, t, m.a);
    }
  }

  lemma FinishOk(s: State, m: Move)
    requires Inv(s) && EnabledBuild(s, m) && m.Finish?
    ensures Inv(ApplyBuild(s, m))
  {
    hide Ok, DiskOk;
    var t := ApplyBuild(s, m);
    PlainOk(s.disk, s.actors[m.a], t.actors[m.a].pc);
    ShrankActorOk(s.disk, t.disk, t.actors[m.a]);
    ShrinkOk(s, t, m.a);
  }

  /** A finished stale check has seen every record dead. */
  lemma NoneLive(d: Disk, slot: Slot)
    requires forall k | 0 <= k < d.components + 1 :: !RecordedLive(d, SlotAt(k))
    ensures !RecordedLive(d, slot)
  {
    if IsSlot(d, slot) {
      var k := if slot.Supervisor? then 0 else slot.index + 1;
      assert SlotAt(k) == slot;
    }
  }

  lemma ClaimedOk(d: Disk, e: Disk, actor: Actor)
    requires DiskOk(d) && Ok(d, actor) && actor.role.Start?
    requires d.lock.Missing? && actor.pc == Checking(d.components + 1)
    requires e == d.(lock := Holds(actor.role.gen), claims := d.claims + [actor.role.gen])
    ensures DiskOk(e) && Ok(e, actor.(pc := Claimed)) && Undisturbed(d, e, actor.role.gen)
  {
    forall slot ensures !RecordedLive(e, slot) {
      NoneLive(d, slot);
      assert RecordedLive(e, slot) == RecordedLive(d, slot);
    }
  }

  lemma RecheckOk(d: Disk, e: Disk, actor: Actor)
    requires Ok(d, actor) && actor.role.Start? && actor.pc.Checking? && e == d.(lock := Missing)
    ensures Ok(e, actor.(pc := Checking(0)))
  {
  }

  lemma ClaimOk(s: State, m: Move)
    requires Inv(s) && EnabledBuild(s, m) && m.Claim?
    ensures Inv(ApplyBuild(s, m))
  {
    hide Ok, DiskOk, Undisturbed;
    var a, t := m.a, ApplyBuild(s, m);
    if s.disk.lock.Missing? {
      ClaimedOk(s.disk, t.disk, s.actors[a]);
      HeldOk(s, t, a);
    } else {
      RecheckOk(s.disk, t.disk, s.actors[a]);
      ShrinkOk(s, t, a);
    }
  }

  // ----- Cleanup and external stop -----

  /** The records of a generation whose processes are gone are all dead. */
  lemma OwnRecordsDead(d: Disk, actor: Actor)
    requires DiskOk(d) && actor.role.Start? && StartOk(d, actor) && actor.owned !! d.alive
    requires d.lock == Holds(actor.role.gen)
    ensures RecordsDead(d)
  {
    assert forall slot | RecordedLive(d, slot) :: d.files[PidFile(slot)].writer == actor.role.gen;
  }

  lemma CoreListed(d: Disk, lease: Option<Gen>, f: FileName)
    requires IsCore(d.components, f) && f in d.files
    ensures f in CleanupList(d, lease, true)
  {
    var list := CleanupList(d, lease, true);
    if f == PidFile(Supervisor) {
      assert list[|list| - 1] == f;
    } else {
      assert f in ComponentFiles(0, d.components);
    }
  }

  lemma RemovalStartOk(d: Disk, actor: Actor, readable: bool)
    requires DiskOk(d) && Ok(d, actor) && actor.pc.CheckingLease? && LeaseMatches(d.lock, actor.lease)
    ensures Ok(d, actor.(pc := Removing(CleanupList(d, actor.lease, readable), !readable)))
  {
    if actor.role.Start? {
      OwnRecordsDead(d, actor);
    }
    forall f | readable && IsCore(d.components, f) && f in d.files ensures f in CleanupList(d, actor.lease, true) {
      CoreListed(d, actor.lease, f);
    }
  }

  lemma CheckLeaseOk(s: State, m: Move)
    requires Inv(s) && EnabledClean(s, m) && m.CheckLease?
    ensures Inv(ApplyClean(s, m))
  {
    hide Ok, DiskOk;
    var d, actor := s.disk, s.actors[m.a];
    FinishedOk(d, actor);
    if LeaseMatches(d.lock, actor.lease) {
      RemovalStartOk(d, actor, m.readable);
    }
    QuietOk(s, ApplyClean(s, m), m.a);
  }

  lemma RemovedOk(d: Disk, e: Disk, actor: Actor, failed: bool)
    requires Ok(d, actor) && actor.pc.Removing? && actor.pc.todo != []
    requires e == d.(files := d.files - {actor.pc.todo[0]}) || (e == d && failed)
    requires !failed ==> !actor.pc.failed
    ensures Ok(e, actor.(pc := Removing(actor.pc.todo[1..], failed)))
  {
    assert forall slot :: RecordedLive(e, slot) ==> RecordedLive(d, slot);
    assert actor.pc.todo == [actor.pc.todo[0]] + actor.pc.todo[1..];
  }

  lemma RemoveFileOk(s: State, m: Move)
    requires Inv(s) && EnabledClean(s, m) && m.RemoveFile?
    ensures Inv(ApplyClean(s, m))
  {
    hide Ok, DiskOk;
    var t, pc := ApplyClean(s, m), s.actors[m.a].pc;
    RemovedOk(s.disk, t.disk, s.actors[m.a], t.actors[m.a].pc.failed);
    ShrinkOk(s, t, m.a);
  }

  lemma FinishCleanupOk(s: State, m: Move)
    requires Inv(s) && EnabledClean(s, m) && m.FinishCleanup?
    ensures Inv(ApplyClean(s, m))
  {
    hide Ok, DiskOk;
    var t := ApplyClean(s, m);
    FinishedOk(s.disk, s.actors[m.a]);
    ShrankActorOk(s.disk, t.disk, t.actors[m.a]);
    ShrinkOk(s, t, m.a);
  }

  lemma TargetsDead(d: Disk)
    requires RecordedPids(d) !! d.alive
    ensures RecordsDead(d)
  {
    RecordedPidsIs(d);
  }

  lemma SettledOk(d: Disk, actor: Actor)
    requires Ok(d, actor) && actor.pc.Signalling? && !actor.pc.retain && actor.pc.targets !! d.alive
    ensures Ok(d, actor.(pc := CheckingLease))
  {
    TargetsDead(d);
  }

  lemma SettleOk(s: State, m: Move)
    requires Inv(s) && EnabledClean(s, m) && m.Settle?
    ensures Inv(ApplyClean(s, m))
  {
    hide Ok, DiskOk;
    FinishedOk(s.disk, s.actors[m.a]);
    if !s.actors[m.a].pc.retain {
      SettledOk(s.disk, s.actors[m.a]);
    }
    QuietOk(s, ApplyClean(s, m), m.a);
  }

  lemma SignalOk(s: State, m: Move)
    requires Inv(s) && EnabledClean(s, m) && m.Signal?
    ensures Inv(ApplyClean(s, m))
  {
    assert ApplyClean(s, m) == s;
  }

  // ----- The launcher's markers -----

  lemma SeeReadyOk(s: State, m: Move)
    requires Inv(s) && EnabledLaunch(s, m) && m.SeeReady?
    ensures Inv(ApplyLaunch(s, m))
  {
    assert Ok(s.disk, s.actors[m.a]);
    MarkerOk(s, ApplyLaunch(s, m), m.a, Ready(s.actors[m.a].role.supervisor));
  }

  lemma SeeAttachedOk(s: State, m: Move)
    requires Inv(s) && EnabledLaunch(s, m) && m.SeeAttached?
    ensures Inv(ApplyLaunch(s, m))
  {
    assert Ok(s.disk, s.actors[m.a]);
    MarkerOk(s, ApplyLaunch(s, m), m.a, Attached(s.actors[m.a].role.supervisor));
  }

  lemma WorldMoveOk(s: State, m: Move)
    requires Inv(s) && EnabledWorld(s, m)
    ensures Inv(ApplyWorld(s, m))
  {
    hide Inv, ApplyWorld;
    match m
    case NewStart(_, _) => ArrivalOk(s, m);
    case NewStop(_) => ArrivalOk(s, m);
    case NewLaunch(_, _, _, _) => ArrivalOk(s, m);
    case Die(_) => DieOk(s, m);
    case Crash(_) => CrashOk(s, m);
    case GiveUp(_) => GiveUpOk(s, m);
    case Acquire(_) => AcquireOk(s, m);
    case Busy(_) => GiveUpOk(s, m);
    case _ =>
  }

  lemma BuildMoveOk(s: State, m: Move)
    requires Inv(s) && EnabledBuild(s, m)
    ensures Inv(ApplyBuild(s, m))
  {
    hide Inv, ApplyBuild;
    match m
    case CheckSlot(_) => CheckSlotOk(s, m);
    case Claim(_) => ClaimOk(s, m);
    case MakeReport(_) => MakeReportOk(s, m);
    case Reap(_) => ReapOk(s, m);
    case Clear(_) => ClearOk(s, m);
    case Spawn(_, _) => SpawnOk(s, m);
    case Record(_) => RecordOk(s, m);
    case Publish(_) => PublishOk(s, m);
    case Finish(_) => FinishOk(s, m);
    case _ =>
  }

  lemma AttachMoveOk(s: State, m: Move)
    requires Inv(s) && EnabledAttach(s, m)
    ensures Inv(ApplyAttach(s, m))
  {
    hide Inv, ApplyAttach;
    match m
    case Announce(_) => AnnounceOk(s, m);
    case AnnounceReady(_) => AnnounceReadyOk(s, m);
    case SeeAck(_) => SeeAckOk(s, m);
    case Confirm(_) => ConfirmOk(s, m);
    case MarkReady(_) => AttachOk(s, m);
    case FailStart(_) => AttachOk(s, m);
    case FailAttach(_) => AttachOk(s, m);
    case BeginShutdown(_) => AttachOk(s, m);
    case RolledBack(_) => ProvenOk(s, m);
    case Stopped(_) => ProvenOk(s, m);
    case _ =>
  }

  lemma CleanMoveOk(s: State, m: Move)
    requires Inv(s) && EnabledClean(s, m)
    ensures Inv(ApplyClean(s, m))
  {
    hide Inv, ApplyClean;
    match m
    case CheckLease(_, _) => CheckLeaseOk(s, m);
    case RemoveFile(_, _) => RemoveFileOk(s, m);
    case FinishCleanup(_, _) => FinishCleanupOk(s, m);
    case Load(_) => LoadOk(s, m);
    case Snapshot(_) => SnapshotOk(s, m);
    case Signal(_, _) => SignalOk(s, m);
    case Settle(_) => SettleOk(s, m);
    case _ =>
  }

  lemma LaunchMoveOk(s: State, m: Move)
    requires Inv(s) && EnabledLaunch(s, m)
    ensures Inv(ApplyLaunch(s, m))
  {
    hide Inv, ApplyLaunch;
    match m
    case SeeReady(_) => SeeReadyOk(s, m);
    case SeeAttached(_) => SeeAttachedOk(s, m);
    case ReadHandle(_) => LauncherOk(s, m);
    case Transfer(_) => LauncherOk(s, m);
    case FailLaunch(_) => LauncherOk(s, m);
    case _ =>
  }

  lemma MoveOk(s: State, m: Move)
    requires Inv(s) && Enabled(s, m)
    ensures Inv(Apply(s, m))
  {
    hide Inv, EnabledWorld, EnabledBuild, EnabledAttach, EnabledClean, EnabledLaunch;
    hide ApplyWorld, ApplyBuild, ApplyAttach, ApplyClean, ApplyLaunch;
    if EnabledWorld(s, m) {
      WorldMoveOk(s, m);
    } else if EnabledBuild(s, m) {
      BuildMoveOk(s, m);
    } else if EnabledAttach(s, m) {
      AttachMoveOk(s, m);
    } else if EnabledClean(s, m) {
      CleanMoveOk(s, m);
    } else {
      LaunchMoveOk(s, m);
    }
  }

  // ----- Theorems about every run -----

  ghost predicate Runs(s: State, moves: seq<Move>, t: State)
    decreases |moves|
  {
    if moves == [] then s == t
    else Enabled(s, moves[0]) && Runs(Apply(s, moves[0]), moves[1..], t)
  }

  lemma {:induction false} RunKeepsInv(s: State, moves: seq<Move>, t: State)
    requires Inv(s) && Runs(s, moves, t)
    ensures Inv(t)
    decreases |moves|
  {
    hide Inv, Enabled, Apply;
    if moves != [] {
      MoveOk(s, moves[0]);
      RunKeepsInv(Apply(s, moves[0]), moves[1..], t);
    }
  }

  ghost predicate Reachable(t: State) {
    exists s, moves :: Init(s) && Runs(s, moves, t)
  }

  lemma ReachableOk(t: State)
    requires Reachable(t)
    ensures Inv(t)
  {
    hide Inv, Init, Runs;
    var s, moves :| Init(s) && Runs(s, moves, t);
    InitOk(s);
    RunKeepsInv(s, moves, t);
  }

  /** At most one generation has live processes on record, and a readable lock
      names that generation. */
  lemma AtMostOneGeneration(t: State, x: Slot, y: Slot)
    requires Reachable(t) && RecordedLive(t.disk, x) && RecordedLive(t.disk, y)
    ensures t.disk.files[PidFile(x)].writer == t.disk.files[PidFile(y)].writer
    ensures t.disk.lock.Holds? ==> t.disk.files[PidFile(x)].writer == t.disk.lock.gen
  {
    ReachableOk(t);
  }

  ghost predicate ClaimedLater(claims: seq<Gen>, w: Gen, g: Gen) {
    exists i, j | 0 <= i < j < |claims| :: claims[i] == g && claims[j] == w
  }

  /** A cleanup never removes a file written by a generation that claimed later
      than the cleaning one, nor the record of a live component. Without a lease
      nobody has claimed since the stop loaded the lock. */
  lemma CleanupIsFenced(t: State, m: Move)
    requires Reachable(t) && Enabled(t, m) && m.RemoveFile? && t.actors[m.a].pc.todo[0] in t.disk.files
    ensures var f, lease := t.actors[m.a].pc.todo[0], t.actors[m.a].lease;
            && t.holder == Some(m.a)
            && (lease.Some? ==> !ClaimedLater(t.disk.claims, t.disk.files[f].writer, lease.value))
            && (lease.None? ==> !t.actors[m.a].role.Start? && t.actors[m.a].loadedAt == |t.disk.claims| &&
                                t.disk.files[f].writer in t.disk.claims)
            && (f.PidFile? && f.slot.Component? && f.slot.index < t.disk.components ==>
                  t.disk.files[f].pid !in t.disk.alive)
  {
    ReachableOk(t);
    assert Ok(t.disk, t.actors[m.a]);
    var f := t.actors[m.a].pc.todo[0];
    if f.PidFile? && f.slot.Component? && f.slot.index < t.disk.components {
      assert !RecordedLive(t.disk, Component(f.slot.index));
    }
  }

  /** Removing the lock is the commit of a cleanup: it goes inside the transaction,
      names the cleaning lease, whose generation is still the latest claim, and by
      then no process record and no endpoint is left. */
  lemma LockIsCommitMarker(t: State, m: Move)
    requires Reachable(t) && Enabled(t, m) && m.FinishCleanup? && Apply(t, m).disk.lock != t.disk.lock
    ensures t.holder == Some(m.a) && Apply(t, m).disk.lock.Missing?
    ensures LeaseMatches(t.disk.lock, t.actors[m.a].lease)
    ensures t.disk.claims != [] && (t.actors[m.a].lease.Some? ==> Current(t.disk) == t.actors[m.a].lease.value)
    ensures forall f | IsCore(t.disk.components, f) :: f !in t.disk.files
    ensures forall slot :: !Recorded(Apply(t, m).disk, slot)
  {
    ReachableOk(t);
    assert Ok(t.disk, t.actors[m.a]);
    forall slot ensures !Recorded(Apply(t, m).disk, slot) {
      assert IsSlot(t.disk, slot) ==> IsCore(t.disk.components, PidFile(slot));
    }
  }

  /** A startup claims the directory only over dead records. */
  lemma ClaimOverDeadRecords(t: State, m: Move, slot: Slot)
    requires Reachable(t) && Enabled(t, m) && m.Claim?
    ensures t.holder == Some(m.a) && !RecordedLive(t.disk, slot)
  {
    ReachableOk(t);
    assert Ok(t.disk, t.actors[m.a]);
    NoneLive(t.disk, slot);
  }

  /** A launcher returns a handle only after its supervisor confirmed, and a
      supervisor confirms only after its launcher removed the readiness record. */
  lemma HandoffInOrder(t: State, a: ActorId)
    requires Reachable(t)
    ensures t.disk.confirmed <= t.disk.acked
    ensures a in t.actors && t.actors[a].role.Launch? && t.actors[a].pc.Returned? ==>
              t.actors[a].role.supervisor in t.disk.confirmed
  {
    ReachableOk(t);
    assert a in t.actors ==> Ok(t.disk, t.actors[a]);
  }

  lemma ReadsOwn(d: Disk, actor: Actor, i: nat)
    requires DiskOk(d) && Ok(d, actor) && actor.role.Launch? && actor.pc.ReadingHandle?
    requires d.lock == Holds(actor.role.gen) && HandleComplete(d) && i < d.components
    ensures d.claims != [] && Current(d) == actor.role.gen && actor.role.supervisor in d.confirmed
    ensures PidFile(Component(i)) in d.files && d.files[PidFile(Component(i))].writer == actor.role.gen
  {
  }

  lemma HandleMove(t: State, m: Move)
    requires Enabled(t, m) && m.ReadHandle? && Apply(t, m).actors[m.a].pc.Transferring?
    ensures m.a in t.actors && t.actors[m.a].role.Launch? && t.actors[m.a].pc.ReadingHandle?
    ensures t.disk.lock == Holds(t.actors[m.a].role.gen) && HandleComplete(t.disk)
    ensures Apply(t, m).actors[m.a].pc.handle == HandleOf(t.disk)
  {
    hide HandleComplete, HandleOf;
  }

  /** The handle is read inside the transaction, while the launcher's own
      generation is the latest claim; every record it lists was written by it. */
  lemma HandleIsOwn(t: State, m: Move, i: nat)
    requires Reachable(t) && Enabled(t, m) && m.ReadHandle?
    requires Apply(t, m).actors[m.a].pc.Transferring? && i < t.disk.components
    ensures var d, gen, handle := t.disk, t.actors[m.a].role.gen, Apply(t, m).actors[m.a].pc.handle;
            && t.holder == Some(m.a) && d.claims != [] && Current(d) == gen
            && t.actors[m.a].role.supervisor in d.confirmed
            && |handle| == d.components && PidFile(Component(i)) in d.files
            && handle[i] == d.files[PidFile(Component(i))].pid
            && d.files[PidFile(Component(i))].writer == gen
  {
    hide Reachable, Enabled, Apply, Ok, DiskOk, HandleComplete, HandleOf;
    ReachableOk(t);
    HandleMove(t, m);
    ReadsOwn(t.disk, t.actors[m.a], i);
  }

  /** A launcher's rollback signals no live process but those its own generation
      recorded. */
  lemma RollbackSignalsOwn(t: State, m: Move) returns (slot: Slot)
    requires Reachable(t) && Enabled(t, m) && m.Signal? && t.actors[m.a].role.Launch?
    ensures t.disk.lock == Holds(t.actors[m.a].role.gen)
    ensures Recorded(t.disk, slot) && t.disk.files[PidFile(slot)].pid == m.target
    ensures m.target in t.disk.alive ==> t.disk.files[PidFile(slot)].writer == t.actors[m.a].role.gen
  {
    ReachableOk(t);
    assert Ok(t.disk, t.actors[m.a]);
    RecordedPidsIs(t.disk);
    slot :| Recorded(t.disk, slot) && t.disk.files[PidFile(slot)].pid == m.target;
    assert RecordedLive(t.disk, slot) <==> m.target in t.disk.alive;
  }

  /** Only one process at a time works on the directory. */
  lemma TransactionsExclude(t: State, a: ActorId, b: ActorId)
    requires Reachable(t) && a in t.actors && b in t.actors
    requires Holding(t.actors[a].pc) && Holding(t.actors[b].pc)
    ensures a == b
  {
    ReachableOk(t);
  }
}
