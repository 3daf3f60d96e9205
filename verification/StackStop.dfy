/** Ordered graceful-to-forced teardown of a stack. The run keeps a ghost history
    of everything it asked of the outside world; the theorems are about that
    history. Time is in nanoseconds. */
module StackStop {
  import opened Prelude

  type Target = nat

  const HARD_TERMINATION_SETTLEMENT: nat := 2_000_000_000
  const TARGET_POLL_INTERVAL: nat := 50_000_000

  /** A refused hard signal matters only if a further probe does not find the
      target gone. */
  datatype HardReply = Accepted | RefusedGone | RefusedPresent

  datatype Event =
    | Collected(ok: bool)
    | Probed(target: Target, answer: Option<bool>)   // None: the probe failed
    | Soft(target: Target)
    | Hard(target: Target, reply: HardReply, at: nat)
    | Slept(duration: nat)

  datatype Error = ProbeFailed(target: Target) | CollectFailed | HardFailed(target: Target) | TerminationTimeout

  datatype StopTargets = StopTargets(supervisor: Option<Target>, components: seq<Target>)

  function Reversed<T>(s: seq<T>): (r: seq<T>)
    ensures |r| == |s| && forall i | 0 <= i < |s| :: r[i] == s[|s| - 1 - i]
  {
    if s == [] then [] else [s[|s| - 1]] + Reversed(s[..|s| - 1])
  }

  /** Components in reverse startup order, then the supervisor. */
  function TeardownOrder(targets: StopTargets): (order: seq<Target>)
    ensures |order| == |targets.components| + if targets.supervisor.Some? then 1 else 0
    ensures forall i | 0 <= i < |targets.components| ::
              order[i] == targets.components[|targets.components| - 1 - i]
    ensures targets.supervisor.Some? ==> order[|order| - 1] == targets.supervisor.value
  {
    Reversed(targets.components) + (if targets.supervisor.Some? then [targets.supervisor.value] else [])
  }

  // ----- Reading a history -----

  ghost function FailureOf(e: Event): Option<Error> {
    match e
    case Collected(ok) => if ok then None else Some(CollectFailed)
    case Probed(t, answer) => if answer.None? then Some(ProbeFailed(t)) else None
    case _ => None
  }

  /** The first failed probe or collection. */
  ghost function FirstFailure(events: seq<Event>): Option<Error> {
    if events == [] then None
    else
      var before := FirstFailure(events[..|events| - 1]);
      if before.Some? then before else FailureOf(events[|events| - 1])
  }

  ghost function HardFailureOf(e: Event): Option<Error> {
    if e.Hard? && e.reply.RefusedPresent? then Some(HardFailed(e.target)) else None
  }

  ghost function FirstHardFailure(events: seq<Event>): Option<Error> {
    if events == [] then None
    else
      var before := FirstHardFailure(events[..|events| - 1]);
      if before.Some? then before else HardFailureOf(events[|events| - 1])
  }

  ghost predicate CollectionFailed(events: seq<Event>) {
    Collected(false) in events
  }

  ghost predicate Forced(events: seq<Event>) {
    exists e | e in events :: e.Hard? && e.reply.Accepted?
  }

  /** The targets some probe found absent. */
  ghost function Settled(events: seq<Event>): set<Target> {
    if events == [] then {}
    else
      var e := events[|events| - 1];
      Settled(events[..|events| - 1]) +
      (if e.Probed? && e.answer == Some(false) then {e.target} else {})
  }

  /** The targets asked to stop gracefully. */
  ghost function Asked(events: seq<Event>): set<Target> {
    if events == [] then {}
    else
      var e := events[|events| - 1];
      Asked(events[..|events| - 1]) + (if e.Soft? then {e.target} else {})
  }

  ghost function TotalSleep(events: seq<Event>): nat {
    if events == [] then 0
    else
      var e := events[|events| - 1];
      TotalSleep(events[..|events| - 1]) + (if e.Slept? then e.duration else 0)
  }

  ghost predicate IsSignal(e: Event) {
    e.Soft? || e.Hard?
  }

  /** Everything before `t` in teardown order has settled. */
  ghost predicate MaySignal(order: seq<Target>, t: Target, settled: set<Target>) {
    exists k | 0 <= k < |order| :: order[k] == t && forall j | 0 <= j < k :: order[j] in settled
  }

  ghost predicate Ordered(order: seq<Target>, events: seq<Event>) {
    events == [] ||
    (var init, e := events[..|events| - 1], events[|events| - 1];
     Ordered(order, init) && (IsSignal(e) ==> MaySignal(order, e.target, Settled(init))))
  }

  /** Force comes after a graceful request, and not before the shared deadline
      unless something failed. */
  ghost predicate Graceful(deadline: nat, events: seq<Event>) {
    events == [] ||
    (var init, e := events[..|events| - 1], events[|events| - 1];
     Graceful(deadline, init) &&
     (e.Hard? ==> e.target in Asked(init) && (e.at >= deadline || FirstFailure(init).Some?)))
  }

  lemma {:induction false} AskedMeans(events: seq<Event>, t: Target)
    ensures t in Asked(events) <==> Soft(t) in events
  {
    if events != [] {
      var init, e := events[..|events| - 1], events[|events| - 1];
      assert events == init + [e];
      AskedMeans(init, t);
    }
  }

  /** What a graceful history says about every hard signal in it. */
  lemma {:induction false} GracefulMeans(deadline: nat, events: seq<Event>, i: nat)
    requires Graceful(deadline, events) && i < |events| && events[i].Hard?
    ensures Soft(events[i].target) in events[..i]
    ensures events[i].at >= deadline || exists e | e in events[..i] :: FailureOf(e).Some?
  {
    var init := events[..|events| - 1];
    if i == |events| - 1 {
      AskedMeans(init, events[i].target);
      FailureMeans(init);
    } else {
      GracefulMeans(deadline, init, i);
      assert init[..i] == events[..i];
    }
  }

  lemma {:induction false} SettledMeans(events: seq<Event>, t: Target)
    ensures t in Settled(events) <==> Probed(t, Some(false)) in events
  {
    if events != [] {
      var init, e := events[..|events| - 1], events[|events| - 1];
      assert events == init + [e];
      SettledMeans(init, t);
    }
  }

  /** What an ordered history says about every signal in it. */
  lemma {:induction false} OrderedMeans(order: seq<Target>, events: seq<Event>, i: nat) returns (k: nat)
    requires Ordered(order, events) && i < |events| && IsSignal(events[i])
    ensures k < |order| && order[k] == events[i].target
    ensures forall j | 0 <= j < k :: Probed(order[j], Some(false)) in events[..i]
  {
    var init := events[..|events| - 1];
    if i == |events| - 1 {
      k :| 0 <= k < |order| && order[k] == events[i].target && forall j | 0 <= j < k :: order[j] in Settled(init);
      forall j | 0 <= j < k ensures Probed(order[j], Some(false)) in events[..i] {
        SettledMeans(init, order[j]);
      }
    } else {
      k := OrderedMeans(order, init, i);
      assert init[..i] == events[..i];
    }
  }

  lemma {:induction false} FailureMeans(events: seq<Event>)
    ensures FirstFailure(events).None? <==> forall e | e in events :: FailureOf(e).None?
  {
    if events != [] {
      var init, e := events[..|events| - 1], events[|events| - 1];
      assert events == init + [e];
      FailureMeans(init);
    }
  }

  /** One more event. */
  lemma Append(order: seq<Target>, deadline: nat, events: seq<Event>, e: Event)
    ensures FirstFailure(events + [e]) ==
            if FirstFailure(events).Some? then FirstFailure(events) else FailureOf(e)
    ensures FirstHardFailure(events + [e]) ==
            if FirstHardFailure(events).Some? then FirstHardFailure(events) else HardFailureOf(e)
    ensures Settled(events + [e]) ==
            Settled(events) + (if e.Probed? && e.answer == Some(false) then {e.target} else {})
    ensures Asked(events + [e]) == Asked(events) + (if e.Soft? then {e.target} else {})
    ensures Graceful(deadline, events + [e]) <==>
            Graceful(deadline, events) &&
            (e.Hard? ==> e.target in Asked(events) && (e.at >= deadline || FirstFailure(events).Some?))
    ensures TotalSleep(events + [e]) == TotalSleep(events) + (if e.Slept? then e.duration else 0)
    ensures CollectionFailed(events + [e]) <==> CollectionFailed(events) || e == Collected(false)
    ensures Forced(events + [e]) <==> Forced(events) || (e.Hard? && e.reply.Accepted?)
    ensures Ordered(order, events + [e]) <==>
            Ordered(order, events) && (IsSignal(e) ==> MaySignal(order, e.target, Settled(events)))
  {
    assert (events + [e])[..|events|] == events;
    if Forced(events) {
      var d :| d in events && d.Hard? && d.reply.Accepted?;
      assert d in events + [e];
    }
    if e.Hard? && e.reply.Accepted? {
      assert e in events + [e];
    }
  }

  /** First-error-wins accumulator. */
  function Record(first: Option<Error>, error: Error): Option<Error> {
    if first.Some? then first else Some(error)
  }

  /** Recorded teardown error, else (only if targets remain) the hard-termination
      error, else a timeout. */
  function Resolve(teardown: Option<Error>, hard: Option<Error>, disappeared: bool): Option<Error> {
    if teardown.Some? then teardown
    else if disappeared then None
    else if hard.Some? then hard
    else Some(TerminationTimeout)
  }

  datatype StopResult = Complete(forced: bool) | Uncertain(error: Error)

  /** The outcome a history calls for. */
  ghost function Verdict(order: seq<Target>, events: seq<Event>): StopResult {
    if FirstFailure(events).Some? then Uncertain(FirstFailure(events).value)
    else if forall t | t in order :: t in Settled(events) then Complete(Forced(events))
    else if FirstHardFailure(events).Some? then Uncertain(FirstHardFailure(events).value)
    else Uncertain(TerminationTimeout)
  }

  class Teardown {
    const order: seq<Target>
    const owned: bool                      // this process collects the children itself
    const deadline: nat                    // end of the shared graceful interval
    ghost const start: nat
    var now: nat
    var alive: set<Target>                 // what a probe would find; only ever shrinks
    ghost var events: seq<Event>
    var teardownError: Option<Error>
    var hardError: Option<Error>
    var collectionUncertain: bool
    var forced: bool
    var settlementDeadline: Option<nat>
    ghost var softSleep: nat               // asked for in graceful waits
    ghost var hardSleep: nat               // asked for in settlement waits

    constructor (targets: StopTargets, owned: bool, now: nat, timeout: nat, alive: set<Target>)
      ensures Valid() && order == TeardownOrder(targets) && this.owned == owned
      ensures start == this.now == now && deadline == now + timeout
      ensures this.alive == alive && events == [] && settlementDeadline.None?
    {
      order, this.owned, this.now, start, deadline := TeardownOrder(targets), owned, now, now, now + timeout;
      this.alive, events := alive, [];
      teardownError, hardError, collectionUncertain, forced := None, None, false, false;
      settlementDeadline, softSleep, hardSleep := None, 0, 0;
      new;
      assert !Forced(events);
    }

    /** The accumulated flags are what the history says they are. */
    ghost predicate Valid()
      reads this
    {
      && teardownError == FirstFailure(events)
      && hardError == FirstHardFailure(events)
      && collectionUncertain == CollectionFailed(events)
      && forced == Forced(events)
      && Ordered(order, events) && Graceful(deadline, events)
      && Settled(events) !! alive
      && SleepBounded()
    }

    ghost predicate SleepBounded()
      reads this
    {
      && TotalSleep(events) == softSleep + hardSleep
      && start <= now && start <= deadline
      && softSleep <= now - start && softSleep <= deadline - start
      && (settlementDeadline.None? ==> hardSleep == 0)
      && (settlementDeadline.Some? ==>
            hardSleep <= HARD_TERMINATION_SETTLEMENT &&
            hardSleep + settlementDeadline.value <= now + HARD_TERMINATION_SETTLEMENT)
    }

    /** History only grows, time only passes, processes only disappear. */
    twostate predicate Advanced()
      reads this
    {
      && old(now) <= now && alive <= old(alive)
      && old(Settled(events)) <= Settled(events) && old(Asked(events)) <= Asked(events)
      && (old(teardownError).Some? ==> teardownError.Some?)
      && (old(settlementDeadline).Some? ==> settlementDeadline == old(settlementDeadline))
    }

    /** Reading the clock; anything may happen outside meanwhile. */
    method Now() returns (t: nat)
      modifies this`now, this`alive
      ensures t == now && old(now) <= now && alive <= old(alive)
    {
      var passed: nat :| 0 <= passed;
      var left: set<Target> :| left <= alive;
      now, alive := now + passed, left;
      t := now;
    }

    method CollectOwned() returns (ok: bool)
      requires Valid()
      modifies this`now, this`alive, this`events, this`teardownError, this`collectionUncertain
      ensures Valid() && Advanced() && Settled(events) == old(Settled(events))
      ensures !ok ==> teardownError.Some? && collectionUncertain
      ensures ok ==> teardownError == old(teardownError) && collectionUncertain == old(collectionUncertain)
    {
      hide FirstFailure, FirstHardFailure, Settled, Asked, TotalSleep, Ordered, Graceful, CollectionFailed, Forced;
      ok := true;
      if owned {
        var _ := Now();
        ok := *;
        Append(order, deadline, events, Collected(ok));
        events := events + [Collected(ok)];
      }
      if !ok {
        teardownError := Record(teardownError, CollectFailed);
        collectionUncertain := true;
      }
    }

    /** A failed probe counts as presence. */
    method TargetMayExist(target: Target) returns (may: bool)
      requires Valid()
      modifies this`now, this`alive, this`events, this`teardownError
      ensures Valid() && Advanced()
      ensures may ==> Settled(events) == old(Settled(events))
      ensures may ==> teardownError.Some? || target !in Settled(events)
      ensures !may ==> target in Settled(events) && teardownError == old(teardownError)
    {
      hide FirstFailure, FirstHardFailure, Settled, Asked, TotalSleep, Ordered, Graceful, CollectionFailed, Forced;
      var _ := Now();
      var answer: Option<bool> := Some(target in alive);
      if * {
        answer := None;
      }
      Append(order, deadline, events, Probed(target, answer));
      events := events + [Probed(target, answer)];
      if answer.None? {
        teardownError := Record(teardownError, ProbeFailed(target));
        return true;
      }
      may := answer.value;
    }

    method SignalSoft(target: Target)
      requires Valid() && MaySignal(order, target, Settled(events))
      modifies this`now, this`alive, this`events
      ensures Valid() && Advanced() && Settled(events) == old(Settled(events))
      ensures target in Asked(events)
    {
      hide FirstFailure, FirstHardFailure, Settled, Asked, TotalSleep, Ordered, Graceful, CollectionFailed, Forced;
      var _ := Now();
      Append(order, deadline, events, Soft(target));
      events := events + [Soft(target)];
    }

    /** Asked gracefully before, and out of time or after a failure. */
    ghost predicate MayForce(target: Target)
      reads this
    {
      target in Asked(events) && (now >= deadline || teardownError.Some?)
    }

    method SignalHard(target: Target)
      requires Valid() && MaySignal(order, target, Settled(events)) && MayForce(target)
      modifies this`now, this`alive, this`events, this`forced, this`hardError
      ensures Valid() && Advanced() && Settled(events) == old(Settled(events))
    {
      hide FirstFailure, FirstHardFailure, Settled, Asked, TotalSleep, Ordered, Graceful, CollectionFailed, Forced;
      var t := Now();
      var reply: HardReply := *;
      Append(order, deadline, events, Hard(target, reply, t));
      events := events + [Hard(target, reply, t)];
      match reply {
        case Accepted => forced := true;
        case RefusedGone =>
        case RefusedPresent => hardError := Record(hardError, HardFailed(target));
      }
    }

    /** At most one polling interval, never past the deadline. A sleep takes at
        least as long as it was asked to. */
    method SleepUntil(limit: nat, ghost soft: bool)
      requires Valid()
      requires if soft then limit == deadline else settlementDeadline == Some(limit)
      modifies this`now, this`alive, this`events, this`softSleep, this`hardSleep
      ensures Valid() && Advanced() && Settled(events) == old(Settled(events))
      ensures now > old(now) || now >= limit
    {
      hide FirstFailure, FirstHardFailure, Settled, Asked, TotalSleep, Ordered, Graceful, CollectionFailed, Forced;
      var t := Now();
      var duration := Min(TARGET_POLL_INTERVAL, if t < limit then limit - t else 0);
      Append(order, deadline, events, Slept(duration));
      events := events + [Slept(duration)];
      if soft { softSleep := softSleep + duration; } else { hardSleep := hardSleep + duration; }
      now := now + duration;
      var _ := Now();
    }

    /** Graceful wait: ends on absence, on a failure or at the shared deadline. */
    method AwaitSoft(target: Target)
      requires Valid()
      modifies this`now, this`alive, this`events, this`teardownError, this`collectionUncertain,
               this`softSleep, this`hardSleep
      ensures Valid() && Advanced()
      ensures teardownError.Some? || now >= deadline || target in Settled(events)
    {
      hide FirstFailure, FirstHardFailure, Settled, Asked, TotalSleep, Ordered, Graceful, CollectionFailed, Forced;
      while true
        invariant Valid() && Advanced()
        decreases if now < deadline then deadline - now else 0
      {
        var t := Now();
        if teardownError.Some? || t >= deadline {
          break;
        }
        var ok := CollectOwned();
        if !ok {
          break;
        }
        var may := TargetMayExist(target);
        if !may {
          break;
        }
        SleepUntil(deadline, true);
      }
    }

    /** Settlement wait after a hard signal, bounded by the shared deadline. */
    method AwaitHard(target: Target, limit: nat) returns (disappeared: bool)
      requires Valid() && settlementDeadline == Some(limit)
      modifies this`now, this`alive, this`events, this`teardownError, this`collectionUncertain,
               this`softSleep, this`hardSleep
      ensures Valid() && Advanced()
      ensures disappeared ==> target in Settled(events) && !collectionUncertain
      ensures !disappeared ==> teardownError.Some? || target !in Settled(events)
    {
      hide FirstFailure, FirstHardFailure, Settled, Asked, TotalSleep, Ordered, Graceful, CollectionFailed, Forced;
      while true
        invariant Valid() && Advanced()
        decreases if now < limit then limit - now else 0
      {
        var _ := CollectOwned();
        var may := TargetMayExist(target);
        if !may {
          CollectionFails(events);
          return !collectionUncertain;
        }
        var t := Now();
        if t >= limit {
          return false;
        }
        SleepUntil(limit, false);
      }
    }

    /** The graceful half; true when the target is known to be absent. */
    method StopSoftly(k: nat) returns (absent: bool)
      requires Valid() && k < |order| && forall j | 0 <= j < k :: order[j] in Settled(events)
      modifies this`now, this`alive, this`events, this`teardownError, this`collectionUncertain,
               this`softSleep, this`hardSleep
      ensures Valid() && Advanced()
      ensures absent ==> order[k] in Settled(events)
      ensures !absent ==> MayForce(order[k])
    {
      hide FirstFailure, FirstHardFailure, Settled, Asked, TotalSleep, Ordered, Graceful, CollectionFailed, Forced;
      var _ := CollectOwned();
      var may := TargetMayExist(order[k]);
      if !may {
        return true;
      }
      SignalSoft(order[k]);
      AwaitSoft(order[k]);
      may := TargetMayExist(order[k]);
      absent := !may;
    }

    /** The forced half, under the one settlement deadline of the whole run. */
    method StopHard(k: nat) returns (disappeared: bool)
      requires Valid() && k < |order| && forall j | 0 <= j < k :: order[j] in Settled(events)
      requires MayForce(order[k])
      modifies this
      ensures Valid() && Advanced()
      ensures disappeared ==> order[k] in Settled(events) && !collectionUncertain
      ensures !disappeared ==> teardownError.Some? || order[k] !in Settled(events)
    {
      hide FirstFailure, FirstHardFailure, Settled, Asked, TotalSleep, Ordered, Graceful, CollectionFailed, Forced;
      SignalHard(order[k]);
      if settlementDeadline.None? {
        var t := Now();
        settlementDeadline := Some(t + HARD_TERMINATION_SETTLEMENT);
      }
      disappeared := AwaitHard(order[k], settlementDeadline.value);
    }

    /** The teardown of one target; false when the order must not advance. */
    method StopTarget(k: nat) returns (advance: bool)
      requires Valid() && k < |order| && forall j | 0 <= j < k :: order[j] in Settled(events)
      modifies this
      ensures Valid() && Advanced()
      ensures advance ==> order[k] in Settled(events)
      ensures !advance ==> teardownError.Some? || order[k] !in Settled(events)
    {
      hide FirstFailure, FirstHardFailure, Settled, Asked, TotalSleep, Ordered, Graceful, CollectionFailed, Forced;
      var absent := StopSoftly(k);
      if absent {
        CollectionFails(events);
        return !collectionUncertain;
      }
      advance := StopHard(k);
    }

    /** A whole teardown. Signals respect the order, force follows a graceful request
        that ran out of time or into a failure, the outcome is the one the
        history calls for, success means that nothing is left alive, and all the
        sleeping together stays within the graceful timeout and one settlement
        interval. */
    method Stop() returns (r: StopResult)
      requires Valid() && events == [] && now == start
      modifies this
      ensures Ordered(order, events) && Graceful(deadline, events)
      ensures r == Verdict(order, events)
      ensures r.Complete? ==> forall t | t in order :: t !in alive
      ensures TotalSleep(events) <= deadline - start + HARD_TERMINATION_SETTLEMENT
    {
      var disappeared := true;
      var k := 0;
      while k < |order|
        invariant 0 <= k <= |order| && Valid()
        invariant forall j | 0 <= j < k :: order[j] in Settled(events)
        invariant disappeared
      {
        disappeared := StopTarget(k);
        if !disappeared {
          break;
        }
        k := k + 1;
      }
      var error := Resolve(teardownError, hardError, disappeared);
      r := if error.Some? then Uncertain(error.value) else Complete(forced);
    }
  }

  lemma CollectionFails(events: seq<Event>)
    ensures CollectionFailed(events) ==> FirstFailure(events).Some?
  {
    FailureMeans(events);
    if CollectionFailed(events) {
      assert FailureOf(Collected(false)).Some?;
    }
  }
}
