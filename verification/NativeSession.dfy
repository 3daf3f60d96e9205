/** Renewable login: refresh-token rotation (section 6 of RFC 6749) with an
    idempotency key, unknown outcomes, cancellation at any await and a bounded
    recovery window. The session keeps a ghost history of every load, key, request
    and save; the theorems are about that history. Time is in milliseconds. */
module NativeSession {
  import opened Prelude

  type Key = nat
  type Credential = nat
  type LockId = nat

  const EARLY_REFRESH: nat := 60_000
  const REFRESH_ATTEMPTS: nat := 3
  const RECOVERY_WINDOW: nat := 90_000

  /** How one refresh request ended, as far as this process can tell. */
  datatype Outcome =
    | ConnectFailed                       // never reached the server
    | NoAnswer                            // transport failure or cancelled while waiting
    | Temporary                           // refused or rejected in a retryable way
    | InvalidGrant
    | Final                               // any other answer no retry can change
    | Granted(successor: Credential)

  datatype Event =
    | Loaded(lock: LockId, credential: Credential)
    | KeyGenerated(key: Key, credential: Credential)
    | Sent(key: Key, credential: Credential, outcome: Outcome)
    | Saved(lock: LockId, key: Key, credential: Credential, successor: Credential)

  predicate IsRetryable(o: Outcome) {
    o.ConnectFailed? || o.NoAnswer? || o.Temporary?
  }

  // ----- Reading a history -----

  ghost predicate HasSaved(h: seq<Event>, key: Key) {
    exists e | e in h :: e.Saved? && e.key == key
  }

  ghost predicate OnlyFailedToConnect(h: seq<Event>, key: Key) {
    forall e | e in h && e.Sent? && e.key == key :: e.outcome.ConnectFailed?
  }

  /** The outcome of this key is known: a saved successor, or no request of it
      ever reached the server. */
  ghost predicate Resolved(h: seq<Event>, key: Key) {
    HasSaved(h, key) || OnlyFailedToConnect(h, key)
  }

  /** A credential that may have been consumed by the server. */
  ghost predicate Spent(h: seq<Event>, credential: Credential) {
    exists e | e in h :: e.Sent? && e.credential == credential && !e.outcome.ConnectFailed?
  }

  ghost function LastKey(h: seq<Event>): Option<Event> {
    if h == [] then None
    else if h[|h| - 1].KeyGenerated? then Some(h[|h| - 1])
    else LastKey(h[..|h| - 1])
  }

  ghost predicate EventOk(h: seq<Event>, e: Event) {
    match e
    case Loaded(_, credential) => !Spent(h, credential)
    case KeyGenerated(key, credential) =>
      && !Spent(h, credential)
      && forall d | d in h && d.KeyGenerated? :: d.key != key && Resolved(h, d.key)
    case Sent(key, credential, _) =>
      && LastKey(h) == Some(KeyGenerated(key, credential))
      && forall d | d in h && d.Sent? && !Resolved(h, d.key) :: d.key == key && d.credential == credential
    case Saved(lock, key, credential, successor) =>
      && Loaded(lock, credential) in h
      && Sent(key, credential, Granted(successor)) in h
  }

  ghost predicate HistoryOk(h: seq<Event>) {
    h == [] || (HistoryOk(h[..|h| - 1]) && EventOk(h[..|h| - 1], h[|h| - 1]))
  }

  // ----- Theorems about a history -----

  lemma {:induction false} EventAt(h: seq<Event>, i: nat)
    requires HistoryOk(h) && i < |h|
    ensures HistoryOk(h[..i]) && EventOk(h[..i], h[i])
  {
    if i < |h| - 1 {
      EventAt(h[..|h| - 1], i);
      assert h[..|h| - 1][..i] == h[..i];
    }
  }

  /** A new key is generated only when every earlier key led to a saved successor
      or only ever failed to connect. */
  lemma NewKeyMeansResolved(h: seq<Event>, i: nat, j: nat)
    requires HistoryOk(h) && i < j < |h| && h[i].KeyGenerated? && h[j].KeyGenerated?
    ensures h[i].key != h[j].key && Resolved(h[..j], h[i].key)
  {
    EventAt(h, j);
    assert h[..j][i] == h[i];
  }

  /** While an outcome is unknown, every request repeats its key and credential. */
  lemma RetriesRepeat(h: seq<Event>, i: nat, j: nat)
    requires HistoryOk(h) && i < j < |h| && h[i].Sent? && h[j].Sent? && !Resolved(h[..j], h[i].key)
    ensures h[j].key == h[i].key && h[j].credential == h[i].credential
  {
    EventAt(h, j);
    assert h[..j][i] == h[i];
  }

  /** A successor is saved under the very lock that loaded its predecessor. */
  lemma SavedUnderItsLock(h: seq<Event>, i: nat)
    requires HistoryOk(h) && i < |h| && h[i].Saved?
    ensures Loaded(h[i].lock, h[i].credential) in h[..i]
    ensures Sent(h[i].key, h[i].credential, Granted(h[i].successor)) in h[..i]
  {
    EventAt(h, i);
  }

  lemma {:induction false} LastKeyAt(h: seq<Event>) returns (g: nat)
    requires LastKey(h).Some?
    ensures g < |h| && h[g] == LastKey(h).value
    ensures forall i | g < i <= |h| :: LastKey(h[..i]) == LastKey(h)
  {
    var n := |h| - 1;
    assert h[..|h|] == h;
    if h[n].KeyGenerated? {
      g := n;
    } else {
      g := LastKeyAt(h[..n]);
      forall i | g < i <= |h| ensures LastKey(h[..i]) == LastKey(h) {
        if i <= n {
          assert h[..n][..i] == h[..i];
        }
      }
    }
  }

  /** A credential that may have reached the server is never sent under another
      key, so the server's reuse detection has nothing to detect. */
  lemma OneKeyPerCredential(h: seq<Event>, i: nat, j: nat)
    requires HistoryOk(h) && i < j < |h| && h[i].Sent? && h[j].Sent? && h[i].credential == h[j].credential
    requires !h[i].outcome.ConnectFailed?
    ensures h[i].key == h[j].key
  {
    EventAt(h, i);
    EventAt(h, j);
    var g := LastKeyAt(h[..j]);
    EventAt(h, g);
    assert h[..j][g] == h[g];
    if i >= g {
      assert h[..j][..i] == h[..i];
    }
  }

  // ----- The session -----

  datatype Pending = Pending(lock: LockId, credential: Credential, key: Key, startedAt: nat, outcomeUnknown: bool)

  datatype Cached = Cached(key: Key, refreshAfter: nat)

  datatype SessionError =
    | LoginRequired
    | LoginExpired
    | MissingConnection
    | NotRenewable
    | Storage
    | Setup
    | RenewalRefused
    | RefreshFailed
    | SaveAfterRefresh
    | IdentityMismatch

  /** `Cancelled` means that the caller dropped the call at an await. */
  datatype Reply<+T> = Ok(value: T) | Err(error: SessionError) | Cancelled

  /** Failures after which the saved credential must not be used again. */
  predicate IsTerminal(e: SessionError) {
    e.LoginRequired? || e.LoginExpired? || e.RenewalRefused? || e.SaveAfterRefresh? || e.IdentityMismatch?
  }

  /** The same request, whose outcome stays unknown once it is. */
  ghost predicate SamePending(before: Option<Pending>, after: Option<Pending>) {
    && before.Some? && after.Some?
    && after.value == before.value.(outcomeUnknown := after.value.outcomeUnknown)
    && (before.value.outcomeUnknown ==> after.value.outcomeUnknown)
  }

  // ----- One call, and any number of calls -----

  /** What a caller and the store could see of a session. */
  datatype View = View(
    cached: Option<Cached>,
    pending: Option<Pending>,
    loginRequired: bool,
    now: nat,
    saved: Option<Credential>,
    history: seq<Event>)

  /** This event leaves the loaded credential unfit for another request. */
  predicate Consumes(e: Event) {
    e.Saved? || (e.Sent? && !IsRetryable(e.outcome))
  }

  /** Something since `before` used the credential up. */
  ghost predicate Consumed(before: seq<Event>, after: seq<Event>) {
    exists i | |before| <= i < |after| :: Consumes(after[i])
  }

  lemma ConsumedLater(a: seq<Event>, b: seq<Event>, c: seq<Event>)
    requires a <= b <= c
    ensures Consumed(a, c) <==> Consumed(a, b) || Consumed(b, c)
  {
    if Consumed(a, b) {
      var i :| |a| <= i < |b| && Consumes(b[i]);
      assert Consumes(c[i]);
    }
    if Consumed(a, c) {
      var i :| |a| <= i < |c| && Consumes(c[i]);
      if i < |b| {
        assert Consumes(b[i]);
      }
    }
  }

  lemma ConsumedOne(h: seq<Event>, e: Event)
    ensures Consumed(h, h + [e]) <==> Consumes(e)
    ensures !Consumed(h, h)
  {
    assert (h + [e])[|h|] == e;
  }

  lemma ConsumedByLast(a: seq<Event>, b: seq<Event>)
    requires a < b && forall i | |a| <= i < |b| - 1 :: !Consumes(b[i])
    ensures Consumed(a, b) <==> Consumes(b[|b| - 1])
  {
  }

  /** An unknown outcome that may not be asked about any more at time `t`. */
  ghost predicate Outlived(p: Option<Pending>, t: nat) {
    p.Some? && p.value.outcomeUnknown && t >= p.value.startedAt + RECOVERY_WINDOW
  }

  ghost predicate Fresh(c: Option<Cached>, t: nat) {
    c.Some? && t < c.value.refreshAfter
  }

  /** What one call for access does. */
  ghost predicate Accessed(before: View, r: Reply<Key>, after: View) {
    && before.history <= after.history && before.now <= after.now
    // Once login is required the call does nothing at all.
    && (before.loginRequired ==> r == Err(LoginRequired) && after == before)
    // Access still fresh at the end of the call is handed out as it is.
    && (!before.loginRequired && Fresh(before.cached, after.now) ==>
          r == Ok(before.cached.value.key) && after == before.(now := after.now))
    // Past the recovery window nothing is loaded, sent or saved.
    && (!before.loginRequired && !Fresh(before.cached, before.now) && Outlived(before.pending, before.now) ==>
          r == Err(LoginRequired) && after == before.(now := after.now, pending := None, loginRequired := true))
    // Access means a saved successor, and a rotation ends with that save.
    && (r.Ok? ==> !after.loginRequired && HasSaved(after.history, r.value))
    && (r.Ok? && after.history != before.history ==>
          after.history[|after.history| - 1].Saved? && after.history[|after.history| - 1].key == r.value)
    // A credential used up without access being handed out ends the session,
    && (!r.Ok? && Consumed(before.history, after.history) ==> after.loginRequired)
    && (r.Err? && IsTerminal(r.error) ==> after.loginRequired && after.pending.None?)
    // and nothing else does but the recovery window.
    && (after.loginRequired && !before.loginRequired ==>
          !r.Ok? && (Consumed(before.history, after.history) || Outlived(before.pending, after.now)))
    // An unknown outcome is kept until it is resolved or the session ends.
    && (before.pending.Some? && before.pending.value.outcomeUnknown ==>
          after.pending == before.pending || after.loginRequired || r.Ok?)
  }

  /** The part of a call that loads, asks and saves. */
  ghost predicate Rotated(before: View, r: Reply<Key>, after: View) {
    && before.history <= after.history && before.now <= after.now
    && (r.Ok? ==>
          && !after.loginRequired && HasSaved(after.history, r.value) && after.history != before.history
          && after.history[|after.history| - 1].Saved? && after.history[|after.history| - 1].key == r.value)
    && (!r.Ok? ==> (after.loginRequired <==> Consumed(before.history, after.history)))
    && (r.Err? && IsTerminal(r.error) ==> after.loginRequired && after.pending.None?)
    && (before.pending.Some? && before.pending.value.outcomeUnknown ==>
          after.pending == before.pending || after.loginRequired || r.Ok?)
  }

  datatype Call = Access | Forget

  ghost predicate Called(call: Call, before: View, r: Reply<Key>, after: View) {
    match call
    case Access => Accessed(before, r, after)
    case Forget => after == before.(cached := None)
  }

  /** A record of calls on one session, with what could be seen between them. */
  ghost predicate IsRun(calls: seq<Call>, answers: seq<Reply<Key>>, views: seq<View>) {
    && |answers| == |calls| && |views| == |calls| + 1
    && forall i | 0 <= i < |calls| :: Called(calls[i], views[i], answers[i], views[i + 1])
  }

  lemma RunMore(calls: seq<Call>, answers: seq<Reply<Key>>, views: seq<View>, call: Call, r: Reply<Key>, after: View)
    requires IsRun(calls, answers, views) && Called(call, views[|calls|], r, after)
    ensures IsRun(calls + [call], answers + [r], views + [after])
  {
    hide Called;
  }

  /** Call `i` failed after using its credential up, or with a final error, or came
      after the recovery window of an unknown outcome. */
  ghost predicate Ends(calls: seq<Call>, answers: seq<Reply<Key>>, views: seq<View>, i: nat)
    requires IsRun(calls, answers, views) && i < |calls|
  {
    && calls[i].Access?
    && (|| (!answers[i].Ok? && Consumed(views[i].history, views[i + 1].history))
        || (answers[i].Err? && IsTerminal(answers[i].error))
        || (!Fresh(views[i].cached, views[i].now) && Outlived(views[i].pending, views[i].now)))
  }

  lemma EndingRequiresLogin(calls: seq<Call>, answers: seq<Reply<Key>>, views: seq<View>, i: nat)
    requires IsRun(calls, answers, views) && i < |calls| && Ends(calls, answers, views, i)
    ensures views[i + 1].loginRequired
  {
    assert Called(calls[i], views[i], answers[i], views[i + 1]);
  }

  lemma {:induction false} LoginStaysRequired(calls: seq<Call>, answers: seq<Reply<Key>>, views: seq<View>,
                                              i: nat, j: nat)
    requires IsRun(calls, answers, views) && i <= j <= |calls| && views[i].loginRequired
    ensures views[j] == views[i].(cached := views[j].cached)
    decreases j - i
  {
    if i < j {
      assert Called(calls[i], views[i], answers[i], views[i + 1]);
      LoginStaysRequired(calls, answers, views, i + 1, j);
    }
  }

  /** After a final refusal, an outlived recovery window, or a save that failed or
      was cancelled, every later call fails and neither store nor network sees it. */
  lemma EveryLaterCallFails(calls: seq<Call>, answers: seq<Reply<Key>>, views: seq<View>, i: nat, j: nat)
    requires IsRun(calls, answers, views) && i < j < |calls| && Ends(calls, answers, views, i)
    ensures calls[j].Access? ==> answers[j] == Err(LoginRequired)
    ensures views[j + 1].history == views[i + 1].history && views[j + 1].saved == views[i + 1].saved
  {
    EndingRequiresLogin(calls, answers, views, i);
    LoginStaysRequired(calls, answers, views, i + 1, j);
    LoginStaysRequired(calls, answers, views, i + 1, j + 1);
    assert Called(calls[j], views[j], answers[j], views[j + 1]);
  }

  /** A session that requires login got there by one such call. */
  lemma {:induction false} LoginRequiredBecause(calls: seq<Call>, answers: seq<Reply<Key>>, views: seq<View>, n: nat)
    returns (i: nat)
    requires IsRun(calls, answers, views) && n <= |calls| && !views[0].loginRequired && views[n].loginRequired
    ensures i < n && calls[i].Access? && !answers[i].Ok? && !views[i].loginRequired
    ensures Consumed(views[i].history, views[i + 1].history) || Outlived(views[i].pending, views[i + 1].now)
  {
    assert Called(calls[n - 1], views[n - 1], answers[n - 1], views[n]);
    if views[n - 1].loginRequired {
      i := LoginRequiredBecause(calls, answers, views, n - 1);
    } else {
      i := n - 1;
    }
  }

  class Session {
    var cached: Option<Cached>
    var pending: Option<Pending>
    var loginRequired: bool
    var now: nat
    var saved: Option<Credential>      // in the store; changes under other processes' locks too
    var nextLock: LockId
    var nextKey: Key
    var spent: set<Credential>         // what the server may have consumed
    ghost var history: seq<Event>

    constructor (saved: Option<Credential>, now: nat)
      ensures Valid() && history == [] && !loginRequired && pending.None? && cached.None?
    {
      cached, pending, loginRequired := None, None, false;
      this.saved, this.now, nextLock, nextKey, spent, history := saved, now, 0, 0, {}, [];
    }

    ghost function Seen(): View
      reads this
    {
      View(cached, pending, loginRequired, now, saved, history)
    }

    ghost predicate PendingOk(p: Pending)
      reads this`history, this`saved, this`spent
    {
      && LastKey(history) == Some(KeyGenerated(p.key, p.credential))
      && Loaded(p.lock, p.credential) in history
      && saved == Some(p.credential)
      && !HasSaved(history, p.key)
      && (!p.outcomeUnknown ==> OnlyFailedToConnect(history, p.key) && p.credential !in spent)
    }

    /** Every key is resolved but perhaps this one. */
    ghost predicate ResolvedBut(key: Option<Key>)
      reads this`history
    {
      forall d | d in history && d.KeyGenerated? && key != Some(d.key) :: Resolved(history, d.key)
    }

    /** Every request so far may be retried or was settled by a save, but perhaps
        those of this key. */
    ghost predicate SettledBut(key: Option<Key>)
      reads this`history
    {
      forall d | d in history && d.Sent? && key != Some(d.key) :: IsRetryable(d.outcome) || HasSaved(history, d.key)
    }

    ghost predicate Base()
      reads this
    {
      && HistoryOk(history)
      && (forall d | d in history && d.KeyGenerated? :: d.key < nextKey)
      && (forall c :: Spent(history, c) ==> c in spent)
      && (cached.Some? ==> HasSaved(history, cached.value.key))
    }

    /** A refresh is under way under this pending request. */
    ghost predicate InFlight()
      reads this
    {
      && Base() && pending.Some? && !loginRequired
      && PendingOk(pending.value)
      && ResolvedBut(Some(pending.value.key))
      && SettledBut(Some(pending.value.key))
    }

    ghost predicate Valid()
      reads this
    {
      && Base()
      && (pending.Some? ==> InFlight())
      && (!loginRequired ==>
            && SettledBut(None)
            && (pending.None? ==> ResolvedBut(None) && (saved.Some? ==> saved.value !in spent)))
    }

    /** Time passes. */
    method Now() returns (t: nat)
      modifies this`now
      ensures t == now && old(now) <= now
    {
      var passed: nat :| 0 <= passed;
      now := now + passed;
      t := now;
    }

    /** Without our lock another process may log in, rotate or log out; none of
        them brings back a credential that was used up here (proved for any number
        of sessions as SessionMachine.UsedUpStaysAway). */
    method OtherProcesses()
      requires Valid() && pending.None? && !loginRequired
      modifies this`saved
      ensures Valid()
    {
      if * {
        saved := None;
      } else if * {
        FreshNat(spent);
        var c: Credential :| c !in spent;
        saved := Some(c);
      }
    }

    /** Takes the exclusive lock and loads the credential. */
    method LoadSaved() returns (r: Reply<(LockId, Credential)>)
      requires Valid() && pending.None? && !loginRequired
      modifies this`saved, this`nextLock, this`history
      ensures Valid() && old(history) <= history && !Consumed(old(history), history)
      ensures r.Ok? ==> saved == Some(r.value.1) && Loaded(r.value.0, r.value.1) in history
      ensures r.Err? ==> !IsTerminal(r.error)
    {
      hide HistoryOk, LastKey, HasSaved, OnlyFailedToConnect, Consumed;
      ConsumedOne(history, Loaded(0, 0));
      OtherProcesses();
      if * {
        return Cancelled;
      }
      if * {
        return Err(Storage);
      }
      if saved.None? {
        return Err(MissingConnection);
      }
      var lock := nextLock;
      nextLock := nextLock + 1;
      OneMore(history, Loaded(lock, saved.value));
      ConsumedOne(history, Loaded(lock, saved.value));
      history := history + [Loaded(lock, saved.value)];
      r := Ok((lock, saved.value));
    }

    /** Draws a new key for the loaded credential. */
    method DrawKey(lock: LockId, credential: Credential)
      requires Valid() && pending.None? && !loginRequired
      requires saved == Some(credential) && Loaded(lock, credential) in history
      modifies this`now, this`nextKey, this`history, this`pending
      ensures Valid() && pending.Some? && old(history) <= history && !Consumed(old(history), history)
      ensures old(now) <= now
    {
      hide HistoryOk, LastKey, HasSaved, Consumed;
      var key := nextKey;
      nextKey := nextKey + 1;
      var t := Now();
      ghost var h := history;
      OneMore(history, KeyGenerated(key, credential));
      ConsumedOne(history, KeyGenerated(key, credential));
      history := history + [KeyGenerated(key, credential)];
      pending := Some(Pending(lock, credential, key, t, false));
      assert OnlyFailedToConnect(history, key) && !HasSaved(history, key) by {
        UnusedKey(h, key);
      }
    }

    method PrepareRefresh() returns (r: Reply<()>)
      requires Valid() && pending.None? && !loginRequired
      modifies this
      ensures Valid() && !loginRequired && old(history) <= history && cached == old(cached)
      ensures !Consumed(old(history), history) && old(now) <= now
      ensures r.Ok? <==> pending.Some?
      ensures r.Err? ==> !IsTerminal(r.error)
    {
      var loaded := LoadSaved();
      if !loaded.Ok? {
        return if loaded.Err? then Err(loaded.error) else Cancelled;
      }
      if * {
        return Err(NotRenewable);
      }
      if * {
        return Err(Setup);
      }
      ghost var loadedHistory := history;
      DrawKey(loaded.value.0, loaded.value.1);
      ConsumedLater(old(history), loadedHistory, history);
      r := Ok(());
    }

    /** The server's answer, a transport failure, or a call dropped while waiting.
        A successor is a credential never seen before. */
    method Exchange(credential: Credential) returns (outcome: Outcome, cancelled: bool)
      modifies this`now
      ensures old(now) <= now
      ensures cancelled ==> outcome.NoAnswer?
      ensures outcome.Granted? ==> outcome.successor !in spent && outcome.successor != credential
    {
      var _ := Now();
      outcome, cancelled := NoAnswer, *;
      if cancelled {
        return;
      }
      outcome := *;
      if outcome.Granted? {
        FreshNat(spent + {credential});
        var successor: Credential :| successor !in spent + {credential};
        outcome := Granted(successor);
      }
    }

    /** Writes one request into the history. */
    method Record(outcome: Outcome)
      requires Valid() && pending.Some?
      requires outcome.ConnectFailed? || pending.value.outcomeUnknown
      modifies this`history, this`spent
      ensures InFlight()
      ensures history == old(history) + [Sent(pending.value.key, pending.value.credential, outcome)]
      ensures spent == old(spent) + if outcome.ConnectFailed? then {} else {pending.value.credential}
      ensures IsRetryable(outcome) ==> Valid()
    {
      var p := pending.value;
      ghost var e := Sent(p.key, p.credential, outcome);
      MaySend(history, p.key, p.credential);
      OneMore(history, e);
      history := history + [e];
      if !outcome.ConnectFailed? {
        spent := spent + {p.credential};
      }
    }

    /** One request. The outcome counts as unknown before it is sent, so that a
        call dropped while waiting leaves it unknown; a connection that was never
        made restores what was known. */
    method Send() returns (outcome: Outcome, cancelled: bool)
      requires Valid() && pending.Some?
      modifies this`pending, this`history, this`spent, this`now
      ensures InFlight() && old(history) <= history && old(now) <= now
      ensures SamePending(old(pending), pending)
      ensures history == old(history) + [Sent(pending.value.key, pending.value.credential, outcome)]
      ensures IsRetryable(outcome) ==> Valid()
      ensures cancelled ==> outcome.NoAnswer?
      ensures outcome.Granted? ==> outcome.successor !in spent
    {
      var p := pending.value;
      pending := Some(p.(outcomeUnknown := true));
      outcome, cancelled := Exchange(p.credential);
      if outcome.ConnectFailed? {
        pending := Some(p);
      }
      Record(outcome);
    }

    /** Everything since `before` is a request of the pending refresh, and all but
        perhaps the last may be retried. */
    ghost predicate OnlyRetries(before: seq<Event>)
      reads this`history, this`pending
      requires pending.Some?
    {
      && before <= history
      && (forall i | |before| <= i < |history| ::
            && history[i].Sent? && history[i].key == pending.value.key
            && history[i].credential == pending.value.credential)
      && (forall i | |before| <= i < |history| - 1 :: IsRetryable(history[i].outcome))
    }

    /** One to three attempts with the same credential, key and lock. */
    method RefreshWithRetry() returns (r: Reply<Outcome>)
      requires Valid() && pending.Some?
      modifies this`pending, this`history, this`spent, this`now
      ensures InFlight() && old(now) <= now
      ensures SamePending(old(pending), pending) && OnlyRetries(old(history))
      ensures |old(history)| < |history| <= |old(history)| + REFRESH_ATTEMPTS
      ensures r.Ok? ==> history[|history| - 1].outcome == r.value
      ensures r.Ok? && IsRetryable(r.value) ==> |history| == |old(history)| + REFRESH_ATTEMPTS
      ensures !r.Ok? ==> IsRetryable(history[|history| - 1].outcome)
      ensures !r.Ok? || IsRetryable(r.value) ==> Valid()
      ensures r.Ok? && r.value.Granted? ==> r.value.successor !in spent
      ensures !r.Err?
    {
      var attempt := 1;
      while true
        invariant 1 <= attempt <= REFRESH_ATTEMPTS && Valid() && pending.Some? && old(now) <= now
        invariant SamePending(old(pending), pending) && OnlyRetries(old(history))
        invariant |history| == |old(history)| + attempt - 1
        invariant attempt > 1 ==> IsRetryable(history[|history| - 1].outcome)
        decreases REFRESH_ATTEMPTS - attempt
      {
        var outcome, cancelled := Send();
        if cancelled {
          return Cancelled;
        }
        if outcome.Granted? || attempt == REFRESH_ATTEMPTS || !IsRetryable(outcome) {
          return Ok(outcome);
        }
        if * {
          return Cancelled;  // dropped during the retry delay
        }
        var _ := Now();
        attempt := attempt + 1;
      }
    }

    /** Checks the grant and saves the successor under the lock of `p`. A call
        dropped while saving may still have saved. */
    method CompleteRefresh(p: Pending, successor: Credential) returns (r: Reply<()>)
      requires Base() && loginRequired && pending.None? && saved == Some(p.credential)
      requires Loaded(p.lock, p.credential) in history && !HasSaved(history, p.key)
      requires Sent(p.key, p.credential, Granted(successor)) in history && successor !in spent
      requires ResolvedBut(Some(p.key)) && SettledBut(Some(p.key))
      modifies this`history, this`saved
      ensures Base() && old(history) <= history
      ensures r.Ok? ==>
                saved == Some(successor) && ResolvedBut(None) && SettledBut(None) && HasSaved(history, p.key) &&
                history == old(history) + [Saved(p.lock, p.key, p.credential, successor)]
      ensures r.Err? ==> (IsTerminal(r.error) && saved == Some(p.credential)) || r.error.Storage?
    {
      if * {
        return Err(RenewalRefused);
      }
      if * {
        return Err(IdentityMismatch);
      }
      if * {
        return Err(SaveAfterRefresh);
      }
      var stopped: bool := *;
      var published: bool := *;
      if !stopped || published {
        var e := Event.Saved(p.lock, p.key, p.credential, successor);
        OneMore(history, e);
        history := history + [e];
        saved := Some(successor);
      }
      var dropped: bool := *;
      r := if !stopped then Ok(()) else if dropped then Cancelled else Err(Storage);
    }

    /** Drops the cached access. */
    method ForgetAccess()
      requires Valid()
      modifies this`cached
      ensures Valid() && Seen() == old(Seen()).(cached := None)
    {
      cached := None;
    }

    /** Cached access, or a rotation whose successor is saved before access is
        handed out. Once the credential cannot be reused safely, every call fails
        without loading, sending or saving anything. */
    method AccessToken() returns (r: Reply<Key>)
      requires Valid()
      modifies this
      ensures Valid() && Accessed(old(Seen()), r, Seen())
    {
      if loginRequired {
        return Err(LoginRequired);
      }
      var t := Now();
      if cached.Some? && t < cached.value.refreshAfter {
        return Ok(cached.value.key);
      }
      if pending.Some? && pending.value.outcomeUnknown && t >= pending.value.startedAt + RECOVERY_WINDOW {
        pending, loginRequired := None, true;
        return Err(LoginRequired);
      }
      r := Rotate();
    }

    /** Continues the pending refresh or prepares a new one. */
    method Rotate() returns (r: Reply<Key>)
      requires Valid() && !loginRequired
      modifies this
      ensures Valid() && Rotated(old(Seen()), r, Seen())
    {
      hide HistoryOk, LastKey, HasSaved, OnlyFailedToConnect, Spent, Consumed;
      ghost var h := history;
      ConsumedOne(h, Loaded(0, 0));
      if pending.None? {
        var prepared := PrepareRefresh();
        if !prepared.Ok? {
          return if prepared.Err? then Err(prepared.error) else Cancelled;
        }
      }
      ghost var prepared := history;
      r := Renew();
      ConsumedLater(h, prepared, history);
    }

    method Renew() returns (r: Reply<Key>)
      requires Valid() && pending.Some?
      modifies this
      ensures Valid() && Rotated(old(Seen()), r, Seen())
    {
      hide HistoryOk, LastKey, HasSaved, OnlyFailedToConnect, Spent, Consumed;
      var answer := RefreshWithRetry();
      ghost var asked := history;
      ConsumedByLast(old(history), history);
      if !answer.Ok? {
        return Cancelled;
      }
      if answer.value.Granted? {
        assert asked[|asked| - 1] == Sent(pending.value.key, pending.value.credential, answer.value);
        r := Finish(answer.value.successor);
        ConsumedLater(old(history), asked, history);
      } else {
        r := Fail(answer.value);
      }
    }

    /** A failed renewal: final, forgotten, or kept for the same retry. */
    method Fail(outcome: Outcome) returns (r: Reply<Key>)
      requires InFlight() && !outcome.Granted? && (IsRetryable(outcome) ==> Valid())
      modifies this`pending, this`loginRequired
      ensures Valid() && r.Err?
      ensures IsTerminal(r.error) ==> loginRequired && pending.None?
      ensures loginRequired <==> !IsRetryable(outcome)
      ensures old(pending).value.outcomeUnknown ==> pending == old(pending) || loginRequired
    {
      if !IsRetryable(outcome) {
        pending, loginRequired := None, true;
        return Err(if outcome.InvalidGrant? then LoginExpired else RenewalRefused);
      }
      if !pending.value.outcomeUnknown {
        pending := None;  // the credential was never used
      }
      r := Err(RefreshFailed);
    }

    /** A grant: nothing may be retried until its successor is saved. */
    method Finish(successor: Credential) returns (r: Reply<Key>)
      requires InFlight() && successor !in spent
      requires Sent(pending.value.key, pending.value.credential, Granted(successor)) in history
      modifies this
      ensures Valid() && old(history) <= history && old(now) <= now
      ensures r.Ok? ==>
                !loginRequired && HasSaved(history, r.value) && history != old(history) &&
                history[|history| - 1].Saved? && history[|history| - 1].key == r.value
      ensures !r.Ok? ==> loginRequired && pending.None?
    {
      var p := pending.value;
      pending, loginRequired := None, true;
      var completed := CompleteRefresh(p, successor);
      if !completed.Ok? {
        return if completed.Err? then Err(completed.error) else Cancelled;
      }
      loginRequired := false;
      Keep(p.key, p.startedAt);
      r := Ok(p.key);
    }

    /** Caches access until a minute before it expires. */
    method Keep(key: Key, startedAt: nat)
      requires Valid() && HasSaved(history, key)
      modifies this`cached
      ensures Valid() && cached.Some? && cached.value.key == key
    {
      var lifetime: nat :| 0 <= lifetime;
      var margin := if lifetime > EARLY_REFRESH then lifetime - EARLY_REFRESH else 0;
      cached := Some(Cached(key, startedAt + margin));
    }

    /** Any number of calls, each dropped anywhere. */
    method Run(calls: seq<Call>) returns (answers: seq<Reply<Key>>, ghost views: seq<View>)
      requires Valid()
      modifies this
      ensures Valid() && IsRun(calls, answers, views) && views[0] == old(Seen()) && views[|calls|] == Seen()
      ensures HistoryOk(history)
      ensures forall i, j | 0 <= i < j < |calls| && Ends(calls, answers, views, i) && calls[j].Access? ::
                answers[j] == Err(LoginRequired) && views[j + 1].history == views[i + 1].history
    {
      hide Accessed;
      answers, views := [], [Seen()];
      for n := 0 to |calls|
        invariant Valid() && IsRun(calls[..n], answers, views) && views[0] == old(Seen()) && views[n] == Seen()
      {
        var r: Reply<Key> := Cancelled;
        if calls[n].Access? {
          r := AccessToken();
        } else {
          ForgetAccess();
        }
        RunMore(calls[..n], answers, views, calls[n], r, Seen());
        answers, views := answers + [r], views + [Seen()];
        assert calls[..n + 1] == calls[..n] + [calls[n]];
      }
      assert calls[..|calls|] == calls;
      forall i, j | 0 <= i < j < |calls| && Ends(calls, answers, views, i) && calls[j].Access?
        ensures answers[j] == Err(LoginRequired) && views[j + 1].history == views[i + 1].history
      {
        EveryLaterCallFails(calls, answers, views, i, j);
      }
    }
  }

  /** A request repeats the last key; no other key is unresolved. */
  lemma MaySend(h: seq<Event>, key: Key, credential: Credential)
    requires HistoryOk(h) && LastKey(h) == Some(KeyGenerated(key, credential))
    requires forall d | d in h && d.KeyGenerated? && d.key != key :: Resolved(h, d.key)
    ensures forall d | d in h && d.Sent? && !Resolved(h, d.key) :: d.key == key && d.credential == credential
  {
    var g := LastKeyAt(h);
    forall d | d in h && d.Sent? && !Resolved(h, d.key) ensures d.key == key && d.credential == credential {
      KeyWasDrawn(h, d);
      var i :| 0 <= i < |h| && h[i] == KeyGenerated(d.key, d.credential);
      assert d.key == key;
      KeyDrawnOnce(h, i, g);
    }
  }

  lemma KeyDrawnOnce(h: seq<Event>, i: nat, j: nat)
    requires HistoryOk(h) && i < |h| && j < |h|
    requires h[i].KeyGenerated? && h[j].KeyGenerated? && h[i].key == h[j].key
    ensures i == j
  {
    if i < j {
      NewKeyMeansResolved(h, i, j);
    } else if j < i {
      NewKeyMeansResolved(h, j, i);
    }
  }

  /** A key larger than any drawn has no requests and no save. */
  lemma UnusedKey(h: seq<Event>, key: Key)
    requires HistoryOk(h) && forall d | d in h && d.KeyGenerated? :: d.key < key
    ensures OnlyFailedToConnect(h, key) && !HasSaved(h, key)
  {
    forall e | e in h && e.Sent? ensures e.key != key {
      KeyWasDrawn(h, e);
    }
    forall e | e in h && e.Saved? ensures e.key != key {
      var i :| 0 <= i < |h| && h[i] == e;
      SavedUnderItsLock(h, i);
      var sent := Sent(e.key, e.credential, Granted(e.successor));
      assert sent in h;
      KeyWasDrawn(h, sent);
    }
  }

  lemma KeyWasDrawn(h: seq<Event>, e: Event)
    requires HistoryOk(h) && e in h && e.Sent?
    ensures KeyGenerated(e.key, e.credential) in h
  {
    var i :| 0 <= i < |h| && h[i] == e;
    EventAt(h, i);
    var g := LastKeyAt(h[..i]);
    assert h[..i][g] == h[g];
  }

  /** What one more event changes. */
  lemma OneMore(h: seq<Event>, e: Event)
    ensures forall k :: HasSaved(h + [e], k) <==> HasSaved(h, k) || (e.Saved? && e.key == k)
    ensures forall k :: OnlyFailedToConnect(h + [e], k) <==>
              OnlyFailedToConnect(h, k) && (e.Sent? && e.key == k ==> e.outcome.ConnectFailed?)
    ensures forall c :: Spent(h + [e], c) <==>
              Spent(h, c) || (e.Sent? && e.credential == c && !e.outcome.ConnectFailed?)
    ensures LastKey(h + [e]) == if e.KeyGenerated? then Some(e) else LastKey(h)
    ensures HistoryOk(h) && EventOk(h, e) ==> HistoryOk(h + [e])
  {
    assert (h + [e])[..|h|] == h;
    assert forall d :: d in h + [e] <==> d in h || d == e;
    forall k ensures HasSaved(h + [e], k) <==> HasSaved(h, k) || (e.Saved? && e.key == k) {
      if HasSaved(h, k) {
        var d :| d in h && d.Saved? && d.key == k;
        assert d in h + [e];
      }
      if e.Saved? && e.key == k {
        assert e in h + [e];
      }
    }
    forall c ensures Spent(h + [e], c) <==> Spent(h, c) || (e.Sent? && e.credential == c && !e.outcome.ConnectFailed?) {
      if Spent(h, c) {
        var d :| d in h && d.Sent? && d.credential == c && !d.outcome.ConnectFailed?;
        assert d in h + [e];
      }
      if e.Sent? && e.credential == c && !e.outcome.ConnectFailed? {
        assert e in h + [e];
      }
    }
  }
}
