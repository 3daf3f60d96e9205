/** The loops that work on the state directory while holding its transaction.
    Each is written as file operations on the directory, and a ghost machine
    follows along: whatever a method did to the directory is a run of the
    lifecycle machine. Processes may die between any two operations. */
module StackDirectory {
  import opened Prelude
  import opened StackState
  import opened StackSafety

  lemma {:induction false} RunsMore(s: State, moves: seq<Move>, t: State, m: Move)
    requires Runs(s, moves, t) && Enabled(t, m)
    ensures Runs(s, moves + [m], Apply(t, m))
    decreases |moves|
  {
    hide Enabled, Apply;
    if moves == [] {
      assert moves + [m] == [m];
      assert Runs(Apply(t, m), [m][1..], Apply(t, m));
    } else {
      RunsMore(Apply(s, moves[0]), moves[1..], t, m);
      assert (moves + [m])[1..] == moves[1..] + [m];
    }
  }

  lemma {:induction false} RunsChain(s: State, moves: seq<Move>, t: State, more: seq<Move>, u: State)
    requires Runs(s, moves, t) && Runs(t, more, u)
    ensures Runs(s, moves + more, u)
    decreases |moves|
  {
    hide Enabled, Apply;
    if moves == [] {
      assert moves + more == more;
    } else {
      RunsChain(Apply(s, moves[0]), moves[1..], t, more, u);
      assert (moves + more)[1..] == moves[1..] + more;
    }
  }

  lemma IsWorldMove(s: State, m: Move)
    requires EnabledWorld(s, m)
    ensures Enabled(s, m) && Apply(s, m) == ApplyWorld(s, m)
  {
  }

  lemma IsBuildMove(s: State, m: Move)
    requires EnabledBuild(s, m)
    ensures Enabled(s, m) && Apply(s, m) == ApplyBuild(s, m)
  {
  }

  lemma IsAttachMove(s: State, m: Move)
    requires EnabledAttach(s, m)
    ensures Enabled(s, m) && Apply(s, m) == ApplyAttach(s, m)
  {
  }

  lemma IsCleanMove(s: State, m: Move)
    requires EnabledClean(s, m)
    ensures Enabled(s, m) && Apply(s, m) == ApplyClean(s, m)
  {
  }

  lemma IsLaunchMove(s: State, m: Move)
    requires EnabledLaunch(s, m)
    ensures Enabled(s, m) && Apply(s, m) == ApplyLaunch(s, m)
  {
  }

  datatype Startup = Started | Occupied | NotStarted | MustRollBack

  datatype Claim = Won | AlreadyRunning | ClaimFailed

  datatype Cleanup = Cleaned | NotCurrent | CleanupFailed

  /** Processes may have died; nothing else happened. */
  ghost predicate OnlyDeaths(d: Disk, e: Disk) {
    e == d.(alive := e.alive) && e.alive <= d.alive
  }

  lemma StaysDead(d: Disk, e: Disk, slot: Slot)
    requires e.components == d.components && e.files == d.files && e.alive <= d.alive && RecordedLive(e, slot)
    ensures RecordedLive(d, slot)
  {
  }

  lemma FewerRecords(d: Disk, e: Disk)
    requires e.components == d.components && e.alive <= d.alive
    requires forall f | f in e.files :: f in d.files && e.files[f] == d.files[f]
    ensures forall slot :: Recorded(e, slot) ==> Recorded(d, slot)
    ensures forall slot :: RecordedLive(e, slot) ==> RecordedLive(d, slot)
  {
  }

  /** Where the endpoint removal stands before endpoint `k`. */
  ghost function ClearingAt(n: nat, k: nat): Pc {
    if k == 0 then Reaping(n + 1) else Clearing(k)
  }

  lemma SameList(d: Disk, e: Disk, lease: Option<Gen>)
    requires OnlyDeaths(d, e)
    ensures CleanupList(e, lease, true) == CleanupList(d, lease, true)
  {
  }

  lemma ListedAnyway(d: Disk, lease: Option<Gen>, readable: bool, f: FileName)
    requires f in CleanupList(d, lease, readable)
    ensures f in CleanupList(d, lease, true)
  {
  }

  /** The first `k` records read by a stale check are dead. */
  ghost predicate DeadTo(d: Disk, k: nat) {
    forall j | 0 <= j < k :: !RecordedLive(d, SlotAt(j))
  }

  lemma DeadToNone(d: Disk)
    ensures DeadTo(d, 0)
  {
  }

  lemma DeadToMore(d: Disk, e: Disk, k: nat)
    requires DeadTo(d, k) && OnlyDeaths(d, e) && !RecordedLive(e, SlotAt(k))
    ensures DeadTo(e, k + 1)
  {
    FewerRecords(d, e);
  }

  lemma DeadToAll(d: Disk)
    requires DeadTo(d, d.components + 1)
    ensures forall slot :: !RecordedLive(d, slot)
  {
    forall slot ensures !RecordedLive(d, slot) {
      NoneLive(d, slot);
    }
  }

  // ----- What the loops have done so far, as facts about the directory -----

  /** Records and endpoints may have gone; everything else is as it was. */
  ghost predicate Reduced(before: Disk, d: Disk) {
    && d == before.(alive := d.alive, files := d.files) && d.alive <= before.alive
    && (forall f | f in d.files :: f in before.files && d.files[f] == before.files[f])
    && (forall f | f in before.files && !IsCore(d.components, f) :: f in d.files)
  }

  ghost predicate ReapedTo(before: Disk, d: Disk, k: nat) {
    && Reduced(before, d) && (forall slot :: !RecordedLive(d, slot))
    && forall j | 0 <= j < k :: !Recorded(d, ReapSlotAt(d.components, j))
  }

  lemma ReapedNone(d: Disk)
    requires forall slot :: !RecordedLive(d, slot)
    ensures ReapedTo(d, d, 0)
  {
  }

  lemma ReapedSoFar(before: Disk, d: Disk, k: nat)
    requires ReapedTo(before, d, k)
    ensures Reduced(before, d) && forall slot :: !RecordedLive(d, slot)
  {
  }

  lemma ReducedFurther(before: Disk, d: Disk, e: Disk)
    requires Reduced(before, d) && e == d.(alive := e.alive) && e.alive <= d.alive
    ensures Reduced(before, e)
  {
  }

  lemma ReapedMore(before: Disk, d: Disk, e: Disk, k: nat)
    requires ReapedTo(before, d, k) && k <= d.components
    requires e == d.(alive := e.alive, files := d.files - {PidFile(ReapSlotAt(d.components, k))}) && e.alive <= d.alive
    ensures ReapedTo(before, e, k + 1)
  {
    FewerRecords(d, e);
  }

  lemma ReapedAll(before: Disk, d: Disk)
    requires ReapedTo(before, d, d.components + 1)
    ensures forall slot :: !Recorded(d, slot)
  {
    forall slot | IsSlot(d, slot) ensures !Recorded(d, slot) {
      var j := if slot.Component? then slot.index else d.components;
      assert slot == ReapSlotAt(d.components, j);
    }
  }

  ghost predicate ClearedTo(before: Disk, d: Disk, k: nat) {
    && Reduced(before, d) && (forall slot :: !Recorded(d, slot))
    && forall i | 0 <= i < k :: Listen(i) !in d.files
  }

  lemma ClearedMore(before: Disk, d: Disk, e: Disk, k: nat)
    requires ClearedTo(before, d, k) && k < d.components && e == d.(files := d.files - {Listen(k)})
    ensures ClearedTo(before, e, k + 1)
  {
    FewerRecords(d, e);
  }

  lemma ClearedAll(before: Disk, d: Disk)
    requires ClearedTo(before, d, d.components)
    ensures forall f | IsCore(d.components, f) :: f !in d.files
  {
    forall f | IsCore(d.components, f) ensures f !in d.files {
      assert f.PidFile? ==> !Recorded(d, f.slot);
    }
  }

  /** Component `i` is recorded and published by `gen`, which owns its process. */
  ghost predicate Published(d: Disk, owned: set<Pid>, gen: Gen, i: nat) {
    && PidFile(Component(i)) in d.files && d.files[PidFile(Component(i))].writer == gen
    && d.files[PidFile(Component(i))].pid in owned
    && Listen(i) in d.files && d.files[Listen(i)].writer == gen
  }

  /** Only the files of component `k` were written, by `gen`. */
  ghost predicate Grew(d: Disk, e: Disk, gen: Gen, k: nat) {
    && e == d.(alive := e.alive, usedPids := e.usedPids, files := e.files)
    && (forall f | f in d.files && f != PidFile(Component(k)) && f != Listen(k) ::
          f in e.files && e.files[f] == d.files[f])
    && (forall f | f in e.files :: e.files[f].writer == gen || (f in d.files && e.files[f] == d.files[f]))
  }

  lemma GrewBy(d: Disk, e: Disk, gen: Gen, k: nat, record: File, endpoint: File)
    requires e == d.(alive := e.alive, usedPids := e.usedPids, files := e.files)
    requires record.writer == gen && endpoint.writer == gen
    requires var recorded := d.files[PidFile(Component(k)) := record];
             e.files == d.files || e.files == recorded || e.files == recorded[Listen(k) := endpoint]
    ensures Grew(d, e, gen, k)
  {
  }

  lemma PublishedBy(d: Disk, e: Disk, owned: set<Pid>, gen: Gen, k: nat, record: File, endpoint: File)
    requires e.files == d.files[PidFile(Component(k)) := record][Listen(k) := endpoint]
    requires record.writer == gen && endpoint.writer == gen && record.pid in owned
    ensures Published(e, owned, gen, k)
  {
  }

  ghost predicate StartedTo(before: Disk, d: Disk, owned: set<Pid>, gen: Gen, k: nat) {
    && d == before.(alive := d.alive, usedPids := d.usedPids, files := d.files)
    && (forall i | 0 <= i < k :: Published(d, owned, gen, i))
    && (forall f | IsCore(d.components, f) && f in d.files :: d.files[f].writer == gen)
  }

  lemma StartedMore(before: Disk, d: Disk, e: Disk, owned: set<Pid>, more: set<Pid>, gen: Gen, k: nat)
    requires StartedTo(before, d, owned, gen, k) && Grew(d, e, gen, k) && owned <= more
    ensures StartedTo(before, e, more, gen, k)
    ensures Published(e, more, gen, k) ==> StartedTo(before, e, more, gen, k + 1)
  {
    forall i | 0 <= i < k ensures Published(e, more, gen, i) {
      assert Published(d, owned, gen, i);
    }
  }

  class Directory {
    const me: ActorId
    const role: Role
    var disk: Disk
    ghost const origin: State
    ghost var moves: seq<Move>
    ghost var machine: State

    ghost predicate Valid()
      reads this
    {
      && machine.disk == disk && Runs(origin, moves, machine)
      && me in machine.actors && machine.actors[me].role == role
    }

    ghost predicate At(pc: Pc)
      reads this
    {
      Valid() && machine.actors[me].pc == pc
    }

    constructor (s: State, a: ActorId)
      requires a in s.actors
      ensures Valid() && me == a && disk == s.disk && machine == s && origin == s
    {
      me, role, disk, origin, moves, machine := a, s.actors[a].role, s.disk, s, [], s;
    }

    /** So every theorem about reachable states holds wherever a method stops. */
    lemma StaysReachable()
      requires Valid() && Reachable(origin)
      ensures Reachable(machine)
    {
      hide Runs, Init;
      var s, before :| Init(s) && Runs(s, before, origin);
      RunsChain(s, before, origin, moves, machine);
    }

    ghost method Step(m: Move)
      requires Runs(origin, moves, machine) && Enabled(machine, m)
      modifies this`moves, this`machine
      ensures Runs(origin, moves, machine) && machine == Apply(old(machine), m)
    {
      RunsMore(origin, moves, machine, m);
      moves, machine := moves + [m], Apply(machine, m);
    }

    ghost method StepBuild(m: Move)
      requires Runs(origin, moves, machine) && EnabledBuild(machine, m)
      modifies this`moves, this`machine
      ensures Runs(origin, moves, machine) && machine == ApplyBuild(old(machine), m)
    {
      IsBuildMove(machine, m);
      Step(m);
    }

    ghost method StepClean(m: Move)
      requires Runs(origin, moves, machine) && EnabledClean(machine, m)
      modifies this`moves, this`machine
      ensures Runs(origin, moves, machine) && machine == ApplyClean(old(machine), m)
    {
      IsCleanMove(machine, m);
      Step(m);
    }

    /** An error ends this process's part in the protocol. */
    ghost method Quit()
      requires Valid() && !machine.actors[me].pc.Returned?
      modifies this`moves, this`machine
      ensures At(Finished) && machine.actors[me] == old(machine).actors[me].(pc := Finished)
    {
      IsWorldMove(machine, GiveUp(me));
      Step(GiveUp(me));
    }

    /** Some other process may die. */
    method Elsewhere()
      requires Valid()
      modifies this`disk, this`moves, this`machine
      ensures Valid() && OnlyDeaths(old(disk), disk)
      ensures machine == old(machine).(disk := disk)
    {
      var dies: bool := *;
      if dies && disk.alive != {} {
        var pid :| pid in disk.alive;
        IsWorldMove(machine, Die(pid));
        Step(Die(pid));
        disk := disk.(alive := disk.alive - {pid});
      }
    }

    /** Reads one record and probes its process; fails on any read or probe error. */
    method Probe(slot: Slot) returns (live: Option<bool>)
      requires Valid()
      modifies this`disk, this`moves, this`machine
      ensures Valid() && OnlyDeaths(old(disk), disk) && machine == old(machine).(disk := disk)
      ensures live.Some? ==> live.value == (PidFile(slot) in disk.files && disk.files[PidFile(slot)].pid in disk.alive)
    {
      Elsewhere();
      if * {
        return None;
      }
      live := Some(PidFile(slot) in disk.files && disk.files[PidFile(slot)].pid in disk.alive);
    }

    method CheckRecord(k: nat) returns (live: Option<bool>)
      requires At(Checking(k)) && role.Start? && k <= disk.components
      modifies this`disk, this`moves, this`machine
      ensures Valid() && OnlyDeaths(old(disk), disk)
      ensures live.Some? ==> live.value == RecordedLive(disk, SlotAt(k))
      ensures if live == Some(false) then At(Checking(k + 1)) else At(Finished)
    {
      hide Runs;
      live := Probe(SlotAt(k));
      if live.None? {
        Quit();
      } else {
        StepBuild(CheckSlot(me));
      }
    }

    /** The stale check: the supervisor's record first, then every component's. */
    method IsStackStale() returns (stale: Option<bool>)
      requires At(Checking(0)) && role.Start?
      modifies this`disk, this`moves, this`machine
      ensures Valid() && OnlyDeaths(old(disk), disk)
      ensures stale == Some(true) ==>
                At(Checking(disk.components + 1)) && forall slot :: !RecordedLive(disk, slot)
      ensures stale == Some(false) ==> At(Finished) && exists slot :: RecordedLive(disk, slot)
      ensures stale.None? ==> At(Finished)
    {
      hide Runs, RecordedLive, SlotAt, DeadTo;
      DeadToNone(disk);
      for k := 0 to disk.components + 1
        invariant At(Checking(k)) && OnlyDeaths(old(disk), disk) && DeadTo(disk, k)
      {
        ghost var before := disk;
        var live := CheckRecord(k);
        if live.None? {
          return None;
        } else if live.value {
          return Some(false);
        }
        DeadToMore(before, disk, k);
      }
      DeadToAll(disk);
      stale := Some(true);
    }

    /** Claims the directory for this generation once every record is dead. An old
        lock is removed only after the stale check, which then runs again. */
    method AcquireLock() returns (r: Claim)
      requires At(Checking(0)) && role.Start?
      modifies this`disk, this`moves, this`machine
      ensures Valid() && disk.files == old(disk).files && disk.alive <= old(disk).alive
      ensures r.Won? ==>
                && At(Claimed) && disk.lock == Holds(role.gen) && disk.claims == old(disk).claims + [role.gen]
                && forall slot :: !RecordedLive(disk, slot)
      ensures r.AlreadyRunning? ==> OnlyDeaths(old(disk), disk) && exists slot :: RecordedLive(disk, slot)
      ensures r.ClaimFailed? ==> disk == old(disk).(alive := disk.alive, lock := disk.lock) &&
                                 (disk.lock == old(disk).lock || disk.lock.Missing?)
    {
      while true
        invariant At(Checking(0))
        invariant disk == old(disk).(alive := disk.alive, lock := disk.lock) && disk.alive <= old(disk).alive
        invariant disk.lock == old(disk).lock || (disk.lock.Missing? && forall slot :: !RecordedLive(disk, slot))
        decreases if disk.lock.Missing? then 0 else 1
      {
        ghost var before := disk;
        var stale := IsStackStale();
        if stale.None? {
          return ClaimFailed;
        } else if !stale.value {
          ghost var slot :| RecordedLive(disk, slot);
          StaysDead(before, disk, slot);
          return AlreadyRunning;
        }
        if * {
          Quit();
          return ClaimFailed;
        }
        StepBuild(StackState.Claim(me));
        if disk.lock.Missing? {
          before := disk;
          disk := disk.(lock := Holds(role.gen), claims := disk.claims + [role.gen]);
          assert forall slot :: RecordedLive(disk, slot) == RecordedLive(before, slot);
          return Won;
        }
        before := disk;
        disk := disk.(lock := Missing);
        assert forall slot :: RecordedLive(disk, slot) == RecordedLive(before, slot);
      }
    }

    ghost method StepAttach(m: Move)
      requires Runs(origin, moves, machine) && EnabledAttach(machine, m)
      modifies this`moves, this`machine
      ensures Runs(origin, moves, machine) && machine == ApplyAttach(old(machine), m)
    {
      IsAttachMove(machine, m);
      Step(m);
    }

    /** A startup error after the claim starts the rollback. */
    ghost method Fail()
      requires Valid() && role.Start? && Building(machine.actors[me].pc)
      requires !machine.actors[me].pc.RollingBack? && !Attaching(machine.actors[me].pc)
      modifies this`moves, this`machine
      ensures At(RollingBack) && machine.actors[me] == old(machine).actors[me].(pc := RollingBack)
    {
      StepAttach(FailStart(me));
    }

    method ReapSlot(k: nat) returns (ok: bool)
      requires At(Reaping(k)) && role.Start? && k <= disk.components
      requires forall slot :: !RecordedLive(disk, slot)
      modifies this`disk, this`moves, this`machine
      ensures disk == old(disk).(alive := disk.alive, files := disk.files) && disk.alive <= old(disk).alive
      ensures ok ==> At(Reaping(k + 1)) && disk.files == old(disk).files - {PidFile(ReapSlotAt(disk.components, k))}
      ensures !ok ==> At(RollingBack) && disk.files == old(disk).files
    {
      hide Runs;
      var slot := ReapSlotAt(disk.components, k);
      var live := Probe(slot);
      ok := *;
      if live.None? || !ok {
        Fail();
        return false;
      }
      StepBuild(Reap(me));
      assert !RecordedLive(old(disk), slot);
      if PidFile(slot) in disk.files && !live.value {
        disk := disk.(files := disk.files - {PidFile(slot)});
      }
    }

    /** Removes every record whose process is gone, the supervisor's last. */
    method ReapStale() returns (ok: bool)
      requires At(Reaping(0)) && role.Start?
      requires forall slot :: !RecordedLive(disk, slot)
      modifies this`disk, this`moves, this`machine
      ensures Valid() && Reduced(old(disk), disk)
      ensures ok ==> At(Reaping(disk.components + 1)) && forall slot :: !Recorded(disk, slot)
      ensures !ok ==> At(RollingBack)
    {
      hide Runs, Recorded, RecordedLive, ReapSlotAt, IsCore, Reduced, ReapedTo;
      ghost var before := disk;
      ReapedNone(before);
      for k := 0 to disk.components + 1
        invariant disk.components == before.components && At(Reaping(k)) && ReapedTo(before, disk, k)
      {
        ghost var now := disk;
        ReapedSoFar(before, now, k);
        ok := ReapSlot(k);
        if !ok {
          ReducedFurther(before, now, disk);
          return;
        }
        ReapedMore(before, now, disk, k);
      }
      ReapedSoFar(before, disk, disk.components + 1);
      ReapedAll(before, disk);
      ok := true;
    }

    method ClearingDone()
      requires At(ClearingAt(disk.components, disk.components)) && role.Start?
      modifies this`disk, this`moves, this`machine
      ensures At(Starting(0)) && disk == old(disk).(cleared := old(disk).cleared + {role.gen})
    {
      hide Runs;
      StepBuild(Clear(me));
      disk := disk.(cleared := disk.cleared + {role.gen});
    }

    method ClearOne(k: nat) returns (ok: bool)
      requires At(ClearingAt(disk.components, k)) && role.Start? && k < disk.components
      modifies this`disk, this`moves, this`machine
      ensures disk == old(disk).(files := disk.files)
      ensures ok ==> At(ClearingAt(disk.components, k + 1)) && disk.files == old(disk).files - {Listen(k)}
      ensures !ok ==> At(RollingBack) && disk == old(disk)
    {
      hide Runs;
      if * {
        Fail();
        return false;
      }
      StepBuild(Clear(me));
      disk := disk.(files := disk.files - {Listen(k)});
      ok := true;
    }

    /** Removes every published endpoint. */
    method ClearListen() returns (ok: bool)
      requires At(Reaping(disk.components + 1)) && role.Start?
      requires forall slot :: !Recorded(disk, slot)
      modifies this`disk, this`moves, this`machine
      ensures Valid() && Reduced(old(disk), disk.(cleared := old(disk).cleared))
      ensures ok ==> At(Starting(0)) && disk.cleared == old(disk).cleared + {role.gen}
      ensures ok ==> forall f | IsCore(disk.components, f) :: f !in disk.files
      ensures !ok ==> At(RollingBack)
    {
      ghost var before := disk;
      assert ClearedTo(before, disk, 0) && At(ClearingAt(disk.components, 0));
      for k := 0 to disk.components
        invariant disk.components == before.components
        invariant At(ClearingAt(disk.components, k)) && ClearedTo(before, disk, k)
      {
        hide Runs, Recorded, ClearingAt, IsCore;
        ghost var now := disk;
        ok := ClearOne(k);
        if !ok {
          return;
        }
        ClearedMore(before, now, disk, k);
      }
      ClearedAll(before, disk);
      ClearingDone();
      ok := true;
    }

    ghost function Owned(): set<Pid>
      reads this
      requires Valid()
    {
      machine.actors[me].owned
    }

    /** Spawns one component, records it and publishes its endpoint. */
    method StartComponent(k: nat) returns (ok: bool)
      requires At(Starting(k)) && role.Start? && k < disk.components
      modifies this`disk, this`moves, this`machine
      ensures Valid() && Grew(old(disk), disk, role.gen, k) && old(Owned()) <= Owned()
      ensures ok ==> At(Starting(k + 1)) && Published(disk, Owned(), role.gen, k)
      ensures !ok ==> At(RollingBack)
    {
      hide Runs, Grew, Published;
      var pid := SpawnComponent(k);
      if pid.Some? {
        ok := RecordComponent(k, pid.value);
        if ok {
          ok := PublishComponent(k);
        }
      } else {
        ok := false;
      }
      var record := File(if pid.Some? then pid.value else 0, role.gen);
      GrewBy(old(disk), disk, role.gen, k, record, File(0, role.gen));
      if ok {
        PublishedBy(old(disk), disk, Owned(), role.gen, k, record, File(0, role.gen));
      }
    }

    /** The process is owned before anything is written about it. */
    method SpawnComponent(k: nat) returns (pid: Option<Pid>)
      requires At(Starting(k)) && role.Start? && k < disk.components
      modifies this`disk, this`moves, this`machine
      ensures Valid() && disk == old(disk).(alive := disk.alive, usedPids := disk.usedPids)
      ensures pid.Some? ==>
                At(Recording(k, pid.value)) && machine.actors[me].owned == old(machine).actors[me].owned + {pid.value}
      ensures pid.None? ==> At(RollingBack) && machine.actors[me].owned == old(machine).actors[me].owned
    {
      if * {
        Fail();
        return None;
      }
      FreshNat(disk.usedPids);
      var child: nat :| child !in disk.usedPids;
      StepBuild(Spawn(me, child));
      disk := disk.(alive := disk.alive + {child}, usedPids := disk.usedPids + {child});
      Elsewhere();
      pid := Some(child);
    }

    method RecordComponent(k: nat, pid: Pid) returns (ok: bool)
      requires At(Recording(k, pid)) && role.Start? && k < disk.components
      modifies this`disk, this`moves, this`machine
      ensures Valid() && disk == old(disk).(alive := disk.alive, files := disk.files)
      ensures machine.actors[me].owned == old(machine).actors[me].owned
      ensures ok ==> At(Publishing(k)) && disk.files == old(disk).files[PidFile(Component(k)) := File(pid, role.gen)]
      ensures !ok ==> At(RollingBack) && disk.files == old(disk).files
    {
      if * {
        Fail();
        return false;
      }
      StepBuild(Record(me));
      disk := disk.(files := disk.files[PidFile(Component(k)) := File(pid, role.gen)]);
      Elsewhere();
      ok := true;
    }

    method PublishComponent(k: nat) returns (ok: bool)
      requires At(Publishing(k)) && role.Start? && k < disk.components
      modifies this`disk, this`moves, this`machine
      ensures Valid() && disk == old(disk).(alive := disk.alive, files := disk.files)
      ensures machine.actors[me].owned == old(machine).actors[me].owned
      ensures ok ==> At(Starting(k + 1)) && disk.files == old(disk).files[Listen(k) := File(0, role.gen)]
      ensures !ok ==> At(RollingBack) && disk.files == old(disk).files
    {
      if * {
        Fail();
        return false;
      }
      StepBuild(Publish(me));
      disk := disk.(files := disk.files[Listen(k) := File(0, role.gen)]);
      ok := true;
    }

    /** Starts every component in order. */
    method StartComponents() returns (ok: bool)
      requires At(Starting(0)) && role.Start? && forall f | IsCore(disk.components, f) :: f !in disk.files
      modifies this`disk, this`moves, this`machine
      ensures Valid()
      ensures StartedTo(old(disk), disk, Owned(), role.gen, if ok then disk.components else 0)
      ensures At(if ok then Starting(disk.components) else RollingBack)
    {
      ghost var before := disk;
      assert StartedTo(before, disk, Owned(), role.gen, 0);
      for k := 0 to disk.components
        invariant disk.components == before.components
        invariant At(Starting(k)) && StartedTo(before, disk, Owned(), role.gen, k)
      {
        hide Runs, Grew, Published, IsCore;
        ghost var now, owned := disk, Owned();
        ok := StartComponent(k);
        StartedMore(before, now, disk, owned, Owned(), role.gen, k);
        if !ok {
          return;
        }
      }
      ok := true;
    }

    /** A whole startup. Success leaves the directory claimed by this generation
        with one record and one endpoint per component, all its own; a refusal
        leaves every file as it was. */
    method SpawnStack() returns (r: Startup)
      requires At(Checking(0)) && role.Start?
      modifies this`disk, this`moves, this`machine
      ensures Valid()
      ensures r.Started? ==>
                && At(if role.detached.None? then Running else Announcing)
                && disk.lock == Holds(role.gen) && disk.claims == old(disk).claims + [role.gen]
                && (forall i | 0 <= i < disk.components :: Published(disk, Owned(), role.gen, i))
                && (forall slot | Recorded(disk, slot) :: disk.files[PidFile(slot)].writer == role.gen)
      ensures r.Occupied? ==> OnlyDeaths(old(disk), disk) && exists slot :: RecordedLive(disk, slot)
      ensures r.NotStarted? ==> disk.files == old(disk).files && disk.claims == old(disk).claims
      ensures r.MustRollBack? ==> At(RollingBack) && disk.lock == Holds(role.gen)
    {
      hide Runs, IsCore, RecordedLive, Recorded, Published;
      var claim := AcquireLock();
      if claim.AlreadyRunning? {
        return Occupied;
      } else if claim.ClaimFailed? {
        return NotStarted;
      }
      var ok := ClearDirectory();
      if ok {
        ok := StartAll();
      }
      r := if ok then Started else MustRollBack;
    }

    /** Leaves no record and no endpoint of an earlier generation. */
    method ClearDirectory() returns (ok: bool)
      requires At(Claimed) && role.Start? && forall slot :: !RecordedLive(disk, slot)
      modifies this`disk, this`moves, this`machine
      ensures Valid() && disk == old(disk).(alive := disk.alive, files := disk.files, cleared := disk.cleared)
      ensures ok ==> At(Starting(0)) && role.gen in disk.cleared
      ensures ok ==> forall f | IsCore(disk.components, f) :: f !in disk.files
      ensures !ok ==> At(RollingBack)
    {
      hide Runs, IsCore, RecordedLive;
      ok := PrepareReports();
      if ok {
        ok := ReapStale();
      }
      if ok {
        ok := ClearListen();
      }
    }

    method StartAll() returns (ok: bool)
      requires At(Starting(0)) && role.Start? && forall f | IsCore(disk.components, f) :: f !in disk.files
      modifies this`disk, this`moves, this`machine
      ensures Valid() && disk == old(disk).(alive := disk.alive, usedPids := disk.usedPids, files := disk.files)
      ensures ok ==>
                && At(if role.detached.None? then Running else Announcing) && disk.lock == Holds(role.gen)
                && (forall i | 0 <= i < disk.components :: Published(disk, Owned(), role.gen, i))
                && (forall slot | Recorded(disk, slot) :: disk.files[PidFile(slot)].writer == role.gen)
      ensures !ok ==> At(RollingBack)
    {
      hide Runs;
      ok := StartComponents();
      if ok {
        ok := FinishStartup();
        forall slot | ok && Recorded(disk, slot) ensures disk.files[PidFile(slot)].writer == role.gen {
          assert IsCore(disk.components, PidFile(slot));
        }
      }
    }

    method PrepareReports() returns (ok: bool)
      requires At(Claimed) && role.Start? && forall slot :: !RecordedLive(disk, slot)
      modifies this`disk, this`moves, this`machine
      ensures Valid() && disk == old(disk).(files := disk.files)
      ensures ok ==> At(Reaping(0)) && forall slot :: !RecordedLive(disk, slot)
      ensures !ok ==> At(RollingBack)
    {
      if * {
        Fail();
        return false;
      }
      StepBuild(MakeReport(me));
      ghost var before := disk;
      disk := disk.(files := disk.files[Report(role.gen) := File(0, role.gen)]);
      assert forall slot :: RecordedLive(disk, slot) == RecordedLive(before, slot);
      ok := true;
    }

    method FinishStartup() returns (ok: bool)
      requires At(Starting(disk.components)) && role.Start?
      requires forall i | 0 <= i < disk.components :: Published(disk, Owned(), role.gen, i)
      modifies this`disk, this`moves, this`machine
      ensures Valid() && disk == old(disk).(files := disk.files)
      ensures forall f: FileName | f.PidFile? ::
                f in disk.files ==> f in old(disk).files && disk.files[f] == old(disk).files[f]
      ensures ok ==> At(if role.detached.None? then Running else Announcing) && disk.lock == Holds(role.gen)
      ensures ok ==> forall i | 0 <= i < disk.components :: Published(disk, Owned(), role.gen, i)
      ensures !ok ==> At(RollingBack)
    {
      ok := *;
      if disk.lock != Holds(role.gen) || !ok {
        Fail();
        return false;
      }
      StepBuild(StackState.Finish(me));
      disk := disk.(files := disk.files - {Report(role.gen)});
      forall i | 0 <= i < disk.components ensures Published(disk, Owned(), role.gen, i) {
        assert old(Published(disk, Owned(), role.gen, i));
      }
    }

    /** Part of the listed files is gone; nothing outside the list changed. */
    ghost predicate Cleaning(before: Disk, list: seq<FileName>, todo: seq<FileName>, failed: bool)
      reads this
    {
      && At(Removing(todo, failed))
      && disk == before.(alive := disk.alive, files := disk.files)
      && (forall f | f in disk.files :: f in before.files && disk.files[f] == before.files[f])
      && (forall f | f in before.files :: f in list || f in disk.files)
      && (!failed ==> forall f | f in list :: f in todo || f !in disk.files)
      && (forall f | f in todo :: f in list)
    }

    lemma CleaningBegins(list: seq<FileName>, failed: bool)
      requires At(Removing(list, failed))
      ensures Cleaning(disk, list, list, failed)
    {
    }

    lemma CleaningEnds(before: Disk, lease: Option<Gen>, readable: bool, failed: bool)
      requires Cleaning(before, CleanupList(before, lease, readable), [], failed) && (!readable ==> failed)
      ensures At(Removing([], failed)) && disk == before.(alive := disk.alive, files := disk.files)
      ensures forall f | f in before.files && f !in CleanupList(before, lease, true) ::
                f in disk.files && disk.files[f] == before.files[f]
      ensures !failed ==>
                forall f | f in CleanupList(before, lease, true) || IsCore(disk.components, f) :: f !in disk.files
    {
      hide CleanupList, IsCore;
      forall f | f in CleanupList(before, lease, readable) ensures f in CleanupList(before, lease, true) {
        ListedAnyway(before, lease, readable, f);
      }
      forall f | !failed && IsCore(disk.components, f) ensures f !in disk.files {
        if f in before.files {
          CoreListed(before, lease, f);
        }
      }
    }

    /** Attempts one removal and remembers a failure. */
    method RemoveListed(f: FileName, failed: bool,
                        ghost before: Disk, ghost list: seq<FileName>, ghost todo: seq<FileName>)
      returns (nowFailed: bool)
      requires todo != [] && todo[0] == f && Cleaning(before, list, todo, failed)
      modifies this`disk, this`moves, this`machine
      ensures Cleaning(before, list, todo[1..], nowFailed) && (failed ==> nowFailed)
    {
      Elsewhere();
      var ok: bool := *;
      StepClean(RemoveFile(me, ok));
      if ok {
        disk := disk.(files := disk.files - {f});
      }
      nowFailed := failed || !ok;
      assert todo == [f] + todo[1..];
    }

    method RemovePair(first: FileName, second: FileName, failed: bool,
                      ghost before: Disk, ghost list: seq<FileName>,
                      ghost todo: seq<FileName>, ghost rest: seq<FileName>)
      returns (nowFailed: bool)
      requires todo == [first, second] + rest && Cleaning(before, list, todo, failed)
      modifies this`disk, this`moves, this`machine
      ensures Cleaning(before, list, rest, nowFailed) && (failed ==> nowFailed)
    {
      hide Cleaning;
      nowFailed := RemoveListed(first, failed, before, list, todo);
      nowFailed := RemoveListed(second, nowFailed, before, list, todo[1..]);
      assert todo[1..][1..] == rest;
    }

    method RemoveComponentFiles(failed: bool, ghost before: Disk, ghost list: seq<FileName>, ghost tail: seq<FileName>)
      returns (nowFailed: bool)
      requires Cleaning(before, list, ComponentFiles(0, disk.components) + tail, failed)
      modifies this`disk, this`moves, this`machine
      ensures Cleaning(before, list, tail, nowFailed) && (failed ==> nowFailed)
    {
      hide Cleaning;
      nowFailed := failed;
      var n := disk.components;
      for i := 0 to n
        invariant Cleaning(before, list, ComponentFiles(i, n) + tail, nowFailed) && (failed ==> nowFailed)
      {
        ghost var rest := ComponentFiles(i + 1, n) + tail;
        assert ComponentFiles(i, n) + tail == [PidFile(Component(i)), Listen(i)] + rest;
        nowFailed := RemovePair(PidFile(Component(i)), Listen(i), nowFailed,
                                before, list, ComponentFiles(i, n) + tail, rest);
      }
      assert ComponentFiles(n, n) + tail == tail;
    }

    method RemoveMarkers(readable: bool, ghost list: seq<FileName>, ghost tail: seq<FileName>) returns (failed: bool)
      requires Cleaning(disk, list, Markers(disk, readable) + tail, !readable)
      modifies this`disk, this`moves, this`machine
      ensures Cleaning(old(disk), list, tail, failed) && (!readable ==> failed)
    {
      hide Cleaning;
      failed := !readable;
      if readable && PidFile(Supervisor) in disk.files {
        var owner := disk.files[PidFile(Supervisor)].pid;
        failed := RemovePair(Ready(owner), Attached(owner), failed,
                             old(disk), list, Markers(disk, readable) + tail, tail);
      } else {
        assert Markers(disk, readable) + tail == tail;
      }
    }

    /** The startup reports, then the supervisor's record. */
    method RemoveRest(lease: Option<Gen>, readable: bool, soFar: bool, ghost before: Disk, ghost list: seq<FileName>)
      returns (failed: bool)
      requires Cleaning(before, list, ReportAndRecord(lease, readable), soFar)
      modifies this`disk, this`moves, this`machine
      ensures Cleaning(before, list, [], failed) && (soFar ==> failed)
    {
      hide Cleaning;
      failed := soFar;
      ghost var todo := ReportAndRecord(lease, readable);
      if lease.Some? {
        failed := RemoveListed(Report(lease.value), failed, before, list, todo);
        todo := todo[1..];
      }
      assert todo == ReportAndRecord(None, readable);
      if readable {
        failed := RemoveListed(PidFile(Supervisor), failed, before, list, todo);
        assert todo[1..] == [];
      } else {
        assert todo == [];
      }
    }

    /** Every removal before the lock's, in the order of the list. */
    method RemoveAll(lease: Option<Gen>, readable: bool) returns (failed: bool)
      requires At(Removing(CleanupList(disk, lease, readable), !readable))
      modifies this`disk, this`moves, this`machine
      ensures Cleaning(old(disk), CleanupList(old(disk), lease, readable), [], failed) && (!readable ==> failed)
    {
      ghost var before, list, tail := disk, CleanupList(disk, lease, readable), ReportAndRecord(lease, readable);
      assert list == Markers(disk, readable) + (ComponentFiles(0, disk.components) + tail);
      CleaningBegins(list, !readable);
      hide *;
      failed := RemoveMarkers(readable, list, ComponentFiles(0, disk.components) + tail);
      CleaningKeeps(before, list, ComponentFiles(0, before.components) + tail, failed);
      failed := RemoveComponentFiles(failed, before, list, tail);
      failed := RemoveRest(lease, readable, failed, before, list);
    }

    lemma CleaningKeeps(before: Disk, list: seq<FileName>, todo: seq<FileName>, failed: bool)
      requires Cleaning(before, list, todo, failed)
      ensures disk.components == before.components
    {
    }

    /** Removes the files of the generation named by `lease`, and the lock last and
        only when nothing else failed. Another generation's directory is left alone. */
    method CleanupGeneration(lease: Option<Gen>) returns (r: Cleanup)
      requires At(CheckingLease) && machine.actors[me].lease == lease
      modifies this`disk, this`moves, this`machine
      ensures At(Finished)
      ensures r.NotCurrent? ==> OnlyDeaths(old(disk), disk) && !LeaseMatches(disk.lock, lease)
      ensures !r.NotCurrent? ==>
                forall f | f in old(disk).files && f !in CleanupList(old(disk), lease, true) ::
                  f in disk.files && disk.files[f] == old(disk).files[f]
      ensures r.Cleaned? ==>
                && LeaseMatches(old(disk).lock, lease) && disk.lock.Missing?
                && (forall f | f in CleanupList(old(disk), lease, true) :: f !in disk.files)
                && (forall f | IsCore(disk.components, f) :: f !in disk.files)
      ensures r.CleanupFailed? ==> disk.lock == old(disk).lock
    {
      hide Runs, Cleaning, CleanupList, IsCore;
      var current, readable := LeaseIsCurrent(lease);
      if current.None? {
        return CleanupFailed;
      } else if !current.value {
        return NotCurrent;
      }
      ghost var before := disk;
      var failed := RemoveAll(lease, readable);
      CleaningEnds(before, lease, readable, failed);
      SameList(old(disk), before, lease);
      var committed := RemoveLock(failed);
      r := if committed then Cleaned else CleanupFailed;
    }

    /** Compares the lock with the lease and reads the supervisor's record. */
    method LeaseIsCurrent(lease: Option<Gen>) returns (current: Option<bool>, readable: bool)
      requires At(CheckingLease) && machine.actors[me].lease == lease
      modifies this`disk, this`moves, this`machine
      ensures OnlyDeaths(old(disk), disk)
      ensures current == Some(true) ==>
                LeaseMatches(disk.lock, lease) && At(Removing(CleanupList(disk, lease, readable), !readable))
      ensures current == Some(false) ==> !LeaseMatches(disk.lock, lease) && At(Finished)
      ensures current.None? ==> At(Finished)
    {
      hide Runs, CleanupList;
      Elsewhere();
      readable := *;
      var loaded: bool := *;
      if disk.lock.Malformed? || !loaded {
        Quit();
        return None, readable;
      }
      StepClean(CheckLease(me, readable));
      current := Some(lease == LeaseOf(disk.lock));
    }

    /** The lock goes last, and stays when anything failed. */
    method RemoveLock(failed: bool) returns (ok: bool)
      requires At(Removing([], failed))
      modifies this`disk, this`moves, this`machine
      ensures At(Finished) && (ok ==> !failed)
      ensures disk == if ok then old(disk).(lock := Missing) else old(disk)
    {
      hide Runs;
      ok := *;
      StepClean(FinishCleanup(me, ok));
      ok := ok && !failed;
      if ok {
        disk := disk.(lock := Missing);
      }
    }

    ghost method StepLaunch(m: Move)
      requires Runs(origin, moves, machine) && EnabledLaunch(machine, m)
      modifies this`moves, this`machine
      ensures Runs(origin, moves, machine) && machine == ApplyLaunch(old(machine), m)
    {
      IsLaunchMove(machine, m);
      Step(m);
    }

    /** Reads every component's record and endpoint, in order. */
    method ReadPids() returns (pids: Option<seq<Pid>>)
      requires Valid()
      modifies this`disk, this`moves, this`machine
      ensures Valid() && OnlyDeaths(old(disk), disk) && machine == old(machine).(disk := disk)
      ensures pids.Some? ==> HandleComplete(disk) && pids.value == HandleOf(disk)
    {
      hide Runs;
      var read: seq<Pid> := [];
      for i := 0 to disk.components
        invariant Valid() && OnlyDeaths(old(disk), disk) && machine == old(machine).(disk := disk) && |read| == i
        invariant forall j | 0 <= j < i ::
                    && PidFile(Component(j)) in disk.files && Listen(j) in disk.files
                    && read[j] == disk.files[PidFile(Component(j))].pid
      {
        Elsewhere();
        var readable: bool := *;
        if !readable || PidFile(Component(i)) !in disk.files || Listen(i) !in disk.files {
          return None;
        }
        read := read + [disk.files[PidFile(Component(i))].pid];
      }
      assert HandleOf(disk) == read;
      pids := Some(read);
    }

    /** Reads the handle while the lock names this launcher's generation. */
    method ReadStackHandle() returns (handle: Option<seq<Pid>>)
      requires At(ReadingHandle) && role.Launch?
      modifies this`disk, this`moves, this`machine
      ensures OnlyDeaths(old(disk), disk)
      ensures handle.Some? ==>
                && At(Transferring(handle.value)) && disk.lock == Holds(role.gen)
                && HandleComplete(disk) && handle.value == HandleOf(disk)
      ensures handle.None? ==> At(StopArrived)
    {
      hide Runs, HandleComplete, HandleOf;
      Elsewhere();
      if disk.lock == Holds(role.gen) {
        handle := ReadPids();
      } else {
        handle := None;
      }
      if handle.Some? {
        StepLaunch(ReadHandle(me));
      } else {
        StepLaunch(FailLaunch(me));
      }
    }
  }
}
