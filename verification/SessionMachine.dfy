/** Several renewable sessions over one locked store. A session keeps the store's
    exclusive lock from loading a credential until its outcome is known; a save whose
    caller is gone goes on in the background under that lock. Any process may crash
    between moves, and people log in and out in between. */
module SessionMachine {
  import opened Prelude

  type Sid = nat
  type Key = nat
  type Credential = nat

  datatype Phase =
    | Idle
    | Locked                                                        // about to load
    | Pending(credential: Credential, key: Key, unknown: bool)
    | Saving(credential: Credential, key: Key, successor: Credential, dropped: bool)
    | Dead                                                          // login required

  /** A request that may have reached the server. */
  datatype Request = Request(sid: Sid, key: Key, credential: Credential)

  datatype State = State(
    store: Option<Credential>,
    holder: Option<Sid>,                // of the store's exclusive lock
    sessions: map<Sid, Phase>,
    joined: set<Sid>,                   // session ids are not reused
    keys: set<Key>,                     // drawn so far
    issued: set<Credential>,            // handed out by the server so far
    requests: set<Request>,
    abandoned: set<Credential>)         // given up by their session after a request

  datatype Answer = ConnectFailed | NoAnswer | Refused | Granted(successor: Credential)

  datatype Move =
    | Join(sid: Sid)
    | Crash(sid: Sid)
    | Login(credential: Credential)
    | Logout
    | TakeLock(sid: Sid)
    | DropLock(sid: Sid)                // nothing saved, an error or a dropped call
    | Load(sid: Sid, key: Key)
    | Send(sid: Sid, answer: Answer)
    | Forget(sid: Sid)                  // the credential was never used
    | Expire(sid: Sid)                  // past the recovery window
    | DropCall(sid: Sid)                // while saving
    | Save(sid: Sid)
    | SaveFails(sid: Sid)

  predicate HoldsLock(phase: Phase) {
    phase.Locked? || phase.Pending? || phase.Saving?
  }

  /** This phase ends without a known outcome. */
  predicate Unresolved(phase: Phase) {
    phase.Saving? || (phase.Pending? && phase.unknown)
  }

  predicate Is(s: State, sid: Sid) {
    sid in s.sessions
  }

  function Put(s: State, sid: Sid, phase: Phase): State {
    s.(sessions := s.sessions[sid := phase],
       holder := if HoldsLock(phase) then Some(sid) else if s.holder == Some(sid) then None else s.holder)
  }

  /** What a session that ends here leaves in doubt. */
  function Doubt(phase: Phase): set<Credential> {
    if Unresolved(phase) then {phase.credential} else {}
  }

  function Asked(s: State, sid: Sid): State
    requires Is(s, sid) && s.sessions[sid].Pending?
  {
    s.(requests := s.requests + {Request(sid, s.sessions[sid].key, s.sessions[sid].credential)})
  }

  predicate Enabled(s: State, m: Move) {
    match m
    case Join(sid) => sid !in s.joined
    case Crash(sid) => Is(s, sid)
    case Login(credential) => s.holder.None? && credential !in s.issued
    case Logout => s.holder.None?
    case TakeLock(sid) => Is(s, sid) && s.sessions[sid].Idle? && s.holder.None?
    case DropLock(sid) => Is(s, sid) && s.sessions[sid].Locked?
    case Load(sid, key) => Is(s, sid) && s.sessions[sid].Locked? && s.store.Some? && key !in s.keys
    case Send(sid, answer) =>
      Is(s, sid) && s.sessions[sid].Pending? && (answer.Granted? ==> answer.successor !in s.issued)
    case Forget(sid) => Is(s, sid) && s.sessions[sid].Pending? && !s.sessions[sid].unknown
    case Expire(sid) => Is(s, sid) && s.sessions[sid].Pending? && s.sessions[sid].unknown
    case DropCall(sid) => Is(s, sid) && s.sessions[sid].Saving?
    case Save(sid) => Is(s, sid) && s.sessions[sid].Saving?
    case SaveFails(sid) => Is(s, sid) && s.sessions[sid].Saving?
  }

  function Apply(s: State, m: Move): State
    requires Enabled(s, m)
  {
    match m
    case Join(sid) => s.(sessions := s.sessions[sid := Idle], joined := s.joined + {sid})
    case Crash(sid) =>
      s.(sessions := s.sessions - {sid}, holder := if s.holder == Some(sid) then None else s.holder,
         abandoned := s.abandoned + Doubt(s.sessions[sid]))
    case Login(credential) => s.(store := Some(credential), issued := s.issued + {credential})
    case Logout => s.(store := None)
    case TakeLock(sid) => Put(s, sid, Locked)
    case DropLock(sid) => Put(s, sid, Idle)
    case Load(sid, key) => Put(s, sid, Pending(s.store.value, key, false)).(keys := s.keys + {key})
    case Send(sid, answer) =>
      var p := s.sessions[sid];
      (match answer
       case ConnectFailed => s
       case NoAnswer => Put(Asked(s, sid), sid, p.(unknown := true))
       case Refused => Put(Asked(s, sid), sid, Dead).(abandoned := s.abandoned + {p.credential})
       case Granted(successor) =>
         Put(Asked(s, sid), sid, Saving(p.credential, p.key, successor, false)).(issued := s.issued + {successor}))
    case Forget(sid) => Put(s, sid, Idle)
    case Expire(sid) => Put(s, sid, Dead).(abandoned := s.abandoned + {s.sessions[sid].credential})
    case DropCall(sid) => Put(s, sid, s.sessions[sid].(dropped := true))
    case Save(sid) =>
      Put(s, sid, if s.sessions[sid].dropped then Dead else Idle).(store := Some(s.sessions[sid].successor))
    case SaveFails(sid) => Put(s, sid, Dead).(abandoned := s.abandoned + {s.sessions[sid].credential})
  }

  // ----- The invariant -----

  ghost predicate LockOk(s: State) {
    && s.sessions.Keys <= s.joined
    && (s.holder.Some? ==> s.holder.value in s.sessions)
    && forall sid | sid in s.sessions :: HoldsLock(s.sessions[sid]) <==> s.holder == Some(sid)
  }

  ghost predicate PhaseOk(s: State, sid: Sid)
    requires Is(s, sid)
  {
    match s.sessions[sid]
    case Pending(credential, key, unknown) =>
      && s.store == Some(credential) && key in s.keys
      && (if unknown then Request(sid, key, credential) in s.requests else forall r | r in s.requests :: r.key != key)
    case Saving(credential, key, successor, _) =>
      && s.store == Some(credential) && key in s.keys && Request(sid, key, credential) in s.requests
      && successor in s.issued && successor != credential
      && (forall r | r in s.requests :: r.credential != successor)
    case _ => true
  }

  /** Someone still knows what became of the request, or its credential has left
      the store for good, or it was abandoned. */
  ghost predicate Followed(s: State, r: Request) {
    || s.store != Some(r.credential)
    || (Is(s, r.sid) && Unresolved(s.sessions[r.sid]) && s.sessions[r.sid].key == r.key &&
        s.sessions[r.sid].credential == r.credential)
    || r.credential in s.abandoned
  }

  /** A session that goes on has seen its own requests through. */
  ghost predicate OwnOk(s: State, r: Request) {
    Is(s, r.sid) && !s.sessions[r.sid].Dead? && !Unresolved(s.sessions[r.sid]) ==> s.store != Some(r.credential)
  }

  ghost predicate RequestOk(s: State, r: Request) {
    r.sid in s.joined && r.key in s.keys && r.credential in s.issued && Followed(s, r) && OwnOk(s, r)
  }

  ghost predicate OneKey(s: State) {
    forall r, q | r in s.requests && q in s.requests && r.credential == q.credential ::
      r.key == q.key || r.credential in s.abandoned
  }

  ghost predicate Sent(s: State, credential: Credential) {
    exists r | r in s.requests :: r.credential == credential
  }

  ghost predicate Inv(s: State) {
    && LockOk(s) && (s.store.Some? ==> s.store.value in s.issued)
    && (forall sid | sid in s.sessions :: PhaseOk(s, sid))
    && (forall r | r in s.requests :: RequestOk(s, r))
    && OneKey(s) && (forall c | c in s.abandoned :: Sent(s, c))
  }

  ghost predicate Init(s: State) {
    && s.holder.None? && s.sessions == map[] && s.requests == {} && s.abandoned == {}
    && (s.store.Some? ==> s.store.value in s.issued)
  }

  lemma InitOk(s: State)
    requires Init(s)
    ensures Inv(s)
  {
  }

  /** Sessions come, take and drop the lock and forget. */
  lemma QuietOk(s: State, m: Move)
    requires Inv(s) && Enabled(s, m)
    requires m.Join? || m.TakeLock? || m.DropLock? || m.Forget? || m.DropCall?
    ensures Inv(Apply(s, m))
  {
    assert forall c :: Sent(Apply(s, m), c) == Sent(s, c);
  }

  lemma LoadOk(s: State, m: Move)
    requires Inv(s) && Enabled(s, m) && m.Load?
    ensures Inv(Apply(s, m))
  {
    assert forall c :: Sent(Apply(s, m), c) == Sent(s, c);
  }

  /** People log in and out while nobody holds the lock. */
  lemma LoginOk(s: State, m: Move)
    requires Inv(s) && Enabled(s, m) && (m.Login? || m.Logout?)
    ensures Inv(Apply(s, m))
  {
    assert forall c :: Sent(Apply(s, m), c) == Sent(s, c);
  }

  lemma SendOk(s: State, m: Move)
    requires Inv(s) && Enabled(s, m) && m.Send?
    ensures Inv(Apply(s, m))
  {
    var t := Apply(s, m);
    assert PhaseOk(s, m.sid);
    forall c | c in t.abandoned ensures Sent(t, c) {
      if c in s.abandoned {
        var r :| r in s.requests && r.credential == c;
        assert r in t.requests;
      } else {
        assert Request(m.sid, s.sessions[m.sid].key, c) in t.requests;
      }
    }
  }

  /** A session ends with its outcome in doubt, or not. */
  lemma EndOk(s: State, m: Move)
    requires Inv(s) && Enabled(s, m) && (m.Crash? || m.Expire? || m.SaveFails?)
    ensures Inv(Apply(s, m))
  {
    var t := Apply(s, m);
    assert PhaseOk(s, m.sid);
    forall c | c in t.abandoned ensures Sent(t, c) {
      if c in s.abandoned {
        var r :| r in s.requests && r.credential == c;
        assert r in t.requests;
      } else {
        assert Request(m.sid, s.sessions[m.sid].key, c) in t.requests;
      }
    }
  }

  lemma SaveOk(s: State, m: Move)
    requires Inv(s) && Enabled(s, m) && m.Save?
    ensures Inv(Apply(s, m))
  {
    assert PhaseOk(s, m.sid);
    assert forall c :: Sent(Apply(s, m), c) == Sent(s, c);
  }

  lemma MoveOk(s: State, m: Move)
    requires Inv(s) && Enabled(s, m)
    ensures Inv(Apply(s, m))
  {
    hide Inv, Enabled, Apply;
    match m
    case Send(_, _) => SendOk(s, m);
    case Crash(_) => EndOk(s, m);
    case Expire(_) => EndOk(s, m);
    case SaveFails(_) => EndOk(s, m);
    case Save(_) => SaveOk(s, m);
    case Load(_, _) => LoadOk(s, m);
    case Login(_) => LoginOk(s, m);
    case Logout => LoginOk(s, m);
    case _ => QuietOk(s, m);
  }

  // ----- Theorems about every run -----

  ghost predicate Runs(s: State, moves: seq<Move>, t: State)
    decreases |moves|
  {
    if moves == [] then s == t
    else Enabled(s, moves[0]) && Runs(Apply(s, moves[0]), moves[1..], t)
  }

  lemma HistoryGrows(s: State, m: Move)
    requires Enabled(s, m)
    ensures s.requests <= Apply(s, m).requests && s.abandoned <= Apply(s, m).abandoned
  {
  }

  /** Requests and abandoned credentials are never forgotten. */
  lemma {:induction false} RunKeepsInv(s: State, moves: seq<Move>, t: State)
    requires Inv(s) && Runs(s, moves, t)
    ensures Inv(t) && s.requests <= t.requests && s.abandoned <= t.abandoned
    decreases |moves|
  {
    hide Inv, Enabled, Apply;
    if moves != [] {
      MoveOk(s, moves[0]);
      HistoryGrows(s, moves[0]);
      RunKeepsInv(Apply(s, moves[0]), moves[1..], t);
    }
  }

  ghost predicate Reachable(t: State) {
    exists s, moves :: Init(s) && Runs(s, moves, t)
  }

  lemma ReachableOk(t: State)
    requires Reachable(t)
    ensures Inv(t)
  {
    hide Inv, Init, Runs;
    var s, moves :| Init(s) && Runs(s, moves, t);
    InitOk(s);
    RunKeepsInv(s, moves, t);
  }

  /** What one session may rely on: a credential it used up is not in the store any
      more once it goes on, whatever the others do. */
  lemma UsedUpStaysAway(t: State, r: Request)
    requires Reachable(t) && r in t.requests && r.sid in t.sessions
    requires !t.sessions[r.sid].Dead? && !Unresolved(t.sessions[r.sid])
    ensures t.store != Some(r.credential)
  {
    ReachableOk(t);
    assert RequestOk(t, r);
  }

  /** Across all sessions, every request of a credential nobody abandoned carried the
      same key. */
  lemma OneKeyForAll(t: State, r: Request, q: Request)
    requires Reachable(t) && r in t.requests && q in t.requests
    requires r.credential == q.credential && r.credential !in t.abandoned
    ensures r.key == q.key
  {
    ReachableOk(t);
  }

  /** A credential about to be loaded was sent before exactly when a session abandoned
      it: crashed, was refused, outlived its recovery window or could not save. */
  lemma LoadedBeforeIff(t: State, m: Move)
    requires Reachable(t) && Enabled(t, m) && m.Load?
    ensures Sent(t, t.store.value) <==> t.store.value in t.abandoned
  {
    ReachableOk(t);
    if Sent(t, t.store.value) {
      var r :| r in t.requests && r.credential == t.store.value;
      assert RequestOk(t, r);
    }
  }

  /** And then nothing stops it from being sent again under another key. */
  lemma SecondKey(t: State, sid: Sid, key: Key) returns (moves: seq<Move>, u: State)
    requires Reachable(t) && t.holder.None? && t.store.Some? && t.store.value in t.abandoned
    requires sid in t.sessions && t.sessions[sid].Idle? && key !in t.keys
    ensures Runs(t, moves, u)
    ensures exists r, q | r in u.requests && q in u.requests :: r.credential == q.credential && r.key != q.key
  {
    ReachableOk(t);
    var c := t.store.value;
    var r :| r in t.requests && r.credential == c;
    assert RequestOk(t, r);
    moves := [TakeLock(sid), Load(sid, key), Send(sid, NoAnswer)];
    var locked := Apply(t, moves[0]);
    var loaded := Apply(locked, moves[1]);
    u := Apply(loaded, moves[2]);
    assert moves[1..] == [Load(sid, key), Send(sid, NoAnswer)];
    assert moves[1..][1..] == [Send(sid, NoAnswer)] && [Send(sid, NoAnswer)][1..] == [];
    assert Runs(u, [], u);
    assert Runs(loaded, [Send(sid, NoAnswer)], u);
    assert Runs(locked, moves[1..], u);
    assert r in u.requests && Request(sid, key, c) in u.requests;
  }

  /** A process that ends while waiting for an answer leaves its credential so. */
  lemma CrashAbandons(t: State, sid: Sid)
    requires Reachable(t) && sid in t.sessions && t.sessions[sid].Pending? && t.sessions[sid].unknown
    ensures Enabled(t, Crash(sid))
    ensures var u := Apply(t, Crash(sid));
            u.holder.None? && u.store == t.store == Some(t.sessions[sid].credential) &&
            t.sessions[sid].credential in u.abandoned
  {
    ReachableOk(t);
    assert PhaseOk(t, sid);
  }

  /** One session at a time has a credential loaded. */
  lemma LockExcludes(t: State, a: Sid, b: Sid)
    requires Reachable(t) && a in t.sessions && b in t.sessions
    requires HoldsLock(t.sessions[a]) && HoldsLock(t.sessions[b])
    ensures a == b
  {
    ReachableOk(t);
  }
}
