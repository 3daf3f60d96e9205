/** Delivery of revocations from file to memory to streams, over every
    interleaving. Signals carry no payload; the watcher's queue drops signals when
    full, a stream that falls behind is told so by a lag marker, and each stream
    sends the whole current set. */
module RevocationDelivery {
  import opened Prelude
  import opened RevocationFormat
  import opened RevocationStore

  const WATCH_QUEUE: nat := 16
  const BROADCAST_QUEUE: nat := 1024

  type StreamId = nat

  datatype ReloadPc =
    | Idle
    | Woken                           // took a signal, has not read the file yet
    | HasRead(lines: seq<string>)
    | Merged                          // memory changed, streams not signalled yet

  datatype StreamPc = Opening | Waiting | Draining | Reading

  datatype Stream = Stream(
    pc: StreamPc,
    pending: nat,
    lagged: bool,
    sent: set<TokenId>,               // the last set sent
    seen: map<TokenId, Entry>)        // memory when that set was read

  /** Lines merged into memory, and when. */
  datatype Load = Load(lines: seq<string>, at: Time)

  datatype State = State(
    codec: Codec,
    limits: Limits,
    now: Time,
    lines: seq<string>,               // of the revocation file
    watching: bool,                   // the watch is registered
    missed: bool,                     // the file changed before that, and was not read since
    signals: nat,                     // file-change signals not yet taken
    reload: ReloadPc,
    failed: bool,                     // the last attempt to read the file failed
    entries: map<TokenId, Entry>,
    loads: seq<Load>,                 // everything merged so far
    streams: map<StreamId, Stream>)

  datatype Move =
    | Tick(to: Time)
    | FileChange(lines: seq<string>)
    | Watch
    | Wake
    | Read
    | ReadFails
    | MergeLines
    | Broadcast
    | Subscribe(i: StreamId)
    | Open(i: StreamId)
    | Receive(i: StreamId)
    | Drain(i: StreamId)
    | DrainEnds(i: StreamId)
    | Send(i: StreamId)
    | Close(i: StreamId)

  predicate Quiet(stream: Stream) {
    stream.pending == 0 && !stream.lagged
  }

  function Signalled(stream: Stream): Stream {
    if stream.pending == BROADCAST_QUEUE then stream.(lagged := true) else stream.(pending := stream.pending + 1)
  }

  /** A receive first reports a lag, then takes the queued signals. */
  function Taken(stream: Stream): Stream
    requires !Quiet(stream)
  {
    if stream.lagged then stream.(lagged := false) else stream.(pending := stream.pending - 1)
  }

  function SetAt(s: State): set<TokenId> {
    Unexpired(s.limits, s.entries, s.now).Keys
  }

  function PutStream(s: State, i: StreamId, stream: Stream): State {
    s.(streams := s.streams[i := stream])
  }

  /** Reads memory and sends the whole set. */
  function Sends(s: State, stream: Stream): Stream {
    stream.(pc := Waiting, sent := SetAt(s), seen := s.entries)
  }

  predicate Enabled(s: State, m: Move) {
    match m
    case Tick(to) => s.now <= to
    case FileChange(_) => true
    case Watch => !s.watching
    case Wake => s.reload.Idle? && s.signals > 0
    case Read => s.reload.Woken?
    case ReadFails => s.reload.Woken?
    case MergeLines => s.reload.HasRead?
    case Broadcast => s.reload.Merged?
    case Subscribe(i) => s.watching && i !in s.streams
    case Open(i) => i in s.streams && s.streams[i].pc.Opening?
    case Receive(i) => i in s.streams && s.streams[i].pc.Waiting? && !Quiet(s.streams[i])
    case Drain(i) => i in s.streams && s.streams[i].pc.Draining? && !Quiet(s.streams[i])
    case DrainEnds(i) => i in s.streams && s.streams[i].pc.Draining? && Quiet(s.streams[i])
    case Send(i) => i in s.streams && s.streams[i].pc.Reading?
    case Close(i) => i in s.streams
  }

  function Apply(s: State, m: Move): State
    requires Enabled(s, m)
  {
    match m
    case Tick(to) => s.(now := to)
    case FileChange(lines) =>
      if s.watching then s.(lines := lines, signals := Min(s.signals + 1, WATCH_QUEUE))
      else s.(lines := lines, missed := true)
    case Watch => s.(watching := true)
    case Wake => s.(signals := s.signals - 1, reload := Woken)
    case Read => s.(reload := HasRead(s.lines), failed := false, missed := false)
    case ReadFails => s.(reload := Idle, failed := true)
    case MergeLines =>
      var entries := Merge(s.codec, s.limits, s.entries, s.reload.lines, s.now);
      s.(entries := entries, loads := s.loads + [Load(s.reload.lines, s.now)],
         reload := if entries == s.entries then Idle else Merged)
    case Broadcast => s.(streams := map i | i in s.streams :: Signalled(s.streams[i]), reload := Idle)
    case Subscribe(i) => PutStream(s, i, Stream(Opening, 0, false, {}, map[]))
    case Open(i) => PutStream(s, i, Sends(s, s.streams[i]))
    case Receive(i) => PutStream(s, i, Taken(s.streams[i]).(pc := Draining))
    case Drain(i) => PutStream(s, i, Taken(s.streams[i]))
    case DrainEnds(i) => PutStream(s, i, s.streams[i].(pc := Reading))
    case Send(i) => PutStream(s, i, Sends(s, s.streams[i]))
    case Close(i) => s.(streams := s.streams - {i})
  }

  // ----- The invariant -----

  /** A line that is an unexpired entry now has its token in memory. */
  ghost predicate Covers(s: State, lines: seq<string>) {
    forall k | 0 <= k < |lines| ::
      var e := ParseLine(s.codec, lines[k], s.now);
      e.Some? && !IsExpired(s.limits, e.value, s.now) ==> e.value.id in s.entries
  }

  /** Memory reflects the file, or a reload that will see it is on its way, or the
      file changed behind the back of both. */
  ghost predicate FileOk(s: State) {
    s.signals > 0 || s.reload.Woken? || s.failed || s.missed ||
    (if s.reload.HasRead? then s.reload.lines == s.lines else Covers(s, s.lines))
  }

  /** Memory holds exactly the tokens that some load found in its lines. */
  ghost predicate LoadsOk(s: State) {
    forall id :: id in s.entries <==> Found(s, id)
  }

  ghost predicate Found(s: State, id: TokenId) {
    exists l | l in s.loads :: Listed(s.codec, s.limits, l.lines, l.at, id)
  }

  /** The last set sent reflects memory, or another send is on its way. */
  ghost predicate StreamOk(s: State, stream: Stream) {
    stream.pc.Opening? ||
    (&& (stream.seen == s.entries || !stream.pc.Waiting? || !Quiet(stream) || s.reload.Merged?)
     && (forall id | id in stream.seen && !IsExpired(s.limits, stream.seen[id], s.now) :: id in stream.sent))
  }

  ghost predicate Inv(s: State) {
    FileOk(s) && LoadsOk(s) && forall i | i in s.streams :: StreamOk(s, s.streams[i])
  }

  /** The file has just been loaded; the watch is registered later. */
  ghost predicate Init(s: State) {
    && s.entries == Merge(s.codec, s.limits, map[], s.lines, s.now) && s.loads == [Load(s.lines, s.now)]
    && !s.watching && !s.missed && s.signals == 0 && s.reload.Idle? && s.streams == map[]
  }

  // ----- Time only takes entries away -----

  lemma ParsedEarlier(codec: Codec, limits: Limits, line: string, before: Time, now: Time)
    requires before <= now && ParseLine(codec, line, now).Some?
    requires !IsExpired(limits, ParseLine(codec, line, now).value, now)
    ensures ParseLine(codec, line, before).Some?
    ensures ParseLine(codec, line, before).value.id == ParseLine(codec, line, now).value.id
    ensures !IsExpired(limits, ParseLine(codec, line, before).value, before)
  {
    hide Trim, IndexOf;
  }

  lemma TickOk(s: State, m: Move)
    requires Inv(s) && Enabled(s, m) && m.Tick?
    ensures Inv(Apply(s, m))
  {
    hide ParseLine;
    var t := Apply(s, m);
    SameLoads(s, t);
    if Covers(s, s.lines) {
      forall k | 0 <= k < |s.lines|
        ensures var e := ParseLine(t.codec, t.lines[k], t.now);
                e.Some? && !IsExpired(t.limits, e.value, t.now) ==> e.value.id in t.entries
      {
        var e := ParseLine(t.codec, t.lines[k], t.now);
        if e.Some? && !IsExpired(t.limits, e.value, t.now) {
          ParsedEarlier(s.codec, s.limits, s.lines[k], s.now, t.now);
        }
      }
    }
    forall i | i in t.streams ensures StreamOk(t, t.streams[i]) {
      assert StreamOk(s, s.streams[i]);
    }
  }

  lemma MergedCovers(s: State, t: State, lines: seq<string>)
    requires t.codec == s.codec && t.limits == s.limits && t.now == s.now
    requires t.entries == Merge(s.codec, s.limits, s.entries, lines, s.now)
    ensures Covers(t, lines)
  {
    hide ParseLine, IsExpired, Merge;
    forall k | 0 <= k < |lines|
      ensures var e := ParseLine(t.codec, lines[k], t.now);
              e.Some? && !IsExpired(t.limits, e.value, t.now) ==> e.value.id in t.entries
    {
      var e := ParseLine(t.codec, lines[k], t.now);
      if e.Some? && !IsExpired(t.limits, e.value, t.now) {
        assert Revokes(s.codec, s.limits, lines, k, s.now, e.value.id);
        MergeMeans(s.codec, s.limits, s.entries, lines, s.now, e.value.id);
      }
    }
  }

  lemma MergedLoads(s: State, t: State, lines: seq<string>)
    requires LoadsOk(s) && t.codec == s.codec && t.limits == s.limits
    requires t.entries == Merge(s.codec, s.limits, s.entries, lines, s.now) && t.loads == s.loads + [Load(lines, s.now)]
    ensures LoadsOk(t)
  {
    hide Merge, Listed, ParseLine;
    forall id ensures id in t.entries <==> Found(t, id) {
      MergeMeans(s.codec, s.limits, s.entries, lines, s.now, id);
      assert Load(lines, s.now) in t.loads;
      assert forall l | l in s.loads :: l in t.loads;
      assert id in s.entries <==> Found(s, id);
    }
  }

  lemma SameLoads(s: State, t: State)
    requires LoadsOk(s) && t.codec == s.codec && t.limits == s.limits && t.entries == s.entries && t.loads == s.loads
    ensures LoadsOk(t)
  {
    hide Listed;
    assert forall id :: Found(t, id) == Found(s, id);
  }

  lemma ReloadOk(s: State, m: Move)
    requires Inv(s) && Enabled(s, m)
    requires m.FileChange? || m.Watch? || m.Wake? || m.Read? || m.ReadFails? || m.MergeLines? || m.Broadcast?
    ensures Inv(Apply(s, m))
  {
    hide ParseLine, Merge;
    var t := Apply(s, m);
    if m.MergeLines? {
      MergedCovers(s, t, s.reload.lines);
      MergedLoads(s, t, s.reload.lines);
    } else {
      SameLoads(s, t);
    }
    assert FileOk(t) by {
      if !m.MergeLines? && Covers(s, s.lines) { assert m.FileChange? || Covers(t, s.lines); }
    }
    forall i | i in t.streams ensures StreamOk(t, t.streams[i]) {
      assert StreamOk(s, s.streams[i]);
    }
  }

  lemma SentIsSet(s: State, stream: Stream)
    ensures StreamOk(s, Sends(s, stream))
  {
  }

  lemma StreamsOk(s: State, m: Move)
    requires Inv(s) && Enabled(s, m)
    requires m.Subscribe? || m.Open? || m.Receive? || m.Drain? || m.DrainEnds? || m.Send? || m.Close?
    ensures Inv(Apply(s, m))
  {
    hide ParseLine;
    var t := Apply(s, m);
    SameLoads(s, t);
    assert Covers(s, s.lines) ==> Covers(t, t.lines);
    if m.Open? || m.Send? {
      SentIsSet(s, s.streams[m.i]);
    }
    forall i | i in t.streams ensures StreamOk(t, t.streams[i]) {
      assert i in s.streams ==> StreamOk(s, s.streams[i]);
    }
  }

  lemma MoveOk(s: State, m: Move)
    requires Inv(s) && Enabled(s, m)
    ensures Inv(Apply(s, m))
  {
    hide Inv, Enabled, Apply;
    match m
    case Tick(_) => TickOk(s, m);
    case FileChange(_) => ReloadOk(s, m);
    case Watch => ReloadOk(s, m);
    case Wake => ReloadOk(s, m);
    case Read => ReloadOk(s, m);
    case ReadFails => ReloadOk(s, m);
    case MergeLines => ReloadOk(s, m);
    case Broadcast => ReloadOk(s, m);
    case _ => StreamsOk(s, m);
  }

  // ----- Theorems about every run -----

  ghost predicate Runs(s: State, moves: seq<Move>, t: State)
    decreases |moves|
  {
    if moves == [] then s == t
    else Enabled(s, moves[0]) && Runs(Apply(s, moves[0]), moves[1..], t)
  }

  lemma {:induction false} RunKeepsInv(s: State, moves: seq<Move>, t: State)
    requires Inv(s) && Runs(s, moves, t)
    ensures Inv(t)
    decreases |moves|
  {
    if moves != [] {
      MoveOk(s, moves[0]);
      RunKeepsInv(Apply(s, moves[0]), moves[1..], t);
    }
  }

  lemma InitOk(s: State)
    requires Init(s)
    ensures Inv(s)
  {
    hide Merge, ParseLine, Listed;
    var empty := s.(entries := map[], loads := []);
    assert forall id :: !Found(empty, id);
    MergedCovers(empty, s, s.lines);
    MergedLoads(empty, s, s.lines);
  }

  /** No signal is queued and the reload task is idle. */
  ghost predicate Quiescent(s: State) {
    && s.signals == 0 && s.reload.Idle?
    && forall i | i in s.streams :: s.streams[i].pc.Waiting? && Quiet(s.streams[i])
  }

  /** Once quiescent, the last set of every stream holds every unexpired entry in
      memory. */
  lemma QuiescentStreamsAreCurrent(s: State, moves: seq<Move>, t: State, i: StreamId, id: TokenId)
    requires Init(s) && Runs(s, moves, t) && Quiescent(t)
    requires i in t.streams && id in t.entries && !IsExpired(t.limits, t.entries[id], t.now)
    ensures id in t.streams[i].sent
  {
    InitOk(s);
    RunKeepsInv(s, moves, t);
    assert StreamOk(t, t.streams[i]);
  }

  /** Every token the file revokes now was found by some load. */
  ghost predicate FoundAlready(s: State) {
    forall k | 0 <= k < |s.lines| ::
      var e := ParseLine(s.codec, s.lines[k], s.now);
      e.Some? && !IsExpired(s.limits, e.value, s.now) ==> Found(s, e.value.id)
  }

  /** Once quiescent, memory holds every token the file revokes now exactly when
      the last read succeeded and no change fell between the first load and the
      watch without a later read, or everything the file revokes was found by an
      earlier load. */
  lemma QuiescentMemoryIsCurrent(s: State, moves: seq<Move>, t: State)
    requires Init(s) && Runs(s, moves, t) && Quiescent(t)
    ensures Covers(t, t.lines) <==> (!t.failed && !t.missed) || FoundAlready(t)
  {
    hide ParseLine, IsExpired, Found;
    InitOk(s);
    RunKeepsInv(s, moves, t);
    forall k | 0 <= k < |t.lines|
      ensures var e := ParseLine(t.codec, t.lines[k], t.now);
              e.Some? ==> (e.value.id in t.entries <==> Found(t, e.value.id))
    {
      var e := ParseLine(t.codec, t.lines[k], t.now);
      assert e.Some? ==> (e.value.id in t.entries <==> Found(t, e.value.id));
    }
  }

  lemma NotHeld(s: State, t: State, e: Entry)
    requires t.codec == s.codec && t.limits == s.limits && t.now == s.now && t.entries == s.entries
    requires CodecOk(s.codec) && ReasonOk(e.reason) && !IsExpired(s.limits, e, s.now) && e.id !in s.entries
    requires t.lines == s.lines + [FormatLine(s.codec, e)]
    ensures !Covers(t, t.lines)
  {
    hide ParseLine, IsExpired, FormatLine, CodecOk, ReasonOk;
    ParseFormatted(s.codec, e, s.now);
    assert t.lines[|s.lines|] == FormatLine(s.codec, e);
  }

  /** A revocation written between the first load and the watch stays out of
      memory, with every queue empty, until the file changes again. */
  lemma MissedChange(s: State, e: Entry) returns (moves: seq<Move>, t: State)
    requires Init(s) && CodecOk(s.codec) && ReasonOk(e.reason) && !IsExpired(s.limits, e, s.now) && e.id !in s.entries
    ensures Runs(s, moves, t) && Quiescent(t) && t.failed == s.failed
    ensures t.lines == s.lines + [FormatLine(s.codec, e)] && !Covers(t, t.lines)
  {
    hide Covers, Merge, IsExpired, FormatLine, CodecOk, ReasonOk;
    moves := [FileChange(s.lines + [FormatLine(s.codec, e)]), Watch];
    var changed := Apply(s, moves[0]);
    t := Apply(changed, Watch);
    assert moves[1..] == [Watch] && moves[1..][1..] == [];
    assert Runs(t, [], t);
    assert Runs(changed, [Watch], t);
    NotHeld(s, t, e);
  }

  /** So does one whose only reload could not read the file. */
  lemma FailedRead(s: State, e: Entry) returns (moves: seq<Move>, t: State)
    requires Init(s) && CodecOk(s.codec) && ReasonOk(e.reason) && !IsExpired(s.limits, e, s.now) && e.id !in s.entries
    ensures Runs(s, moves, t) && Quiescent(t) && t.failed && !t.missed
    ensures t.lines == s.lines + [FormatLine(s.codec, e)] && !Covers(t, t.lines)
  {
    hide Covers, Merge, IsExpired, FormatLine, CodecOk, ReasonOk;
    var change := FileChange(s.lines + [FormatLine(s.codec, e)]);
    moves := [Watch, change, Wake, ReadFails];
    var watched := Apply(s, Watch);
    var changed := Apply(watched, change);
    var woken := Apply(changed, Wake);
    t := Apply(woken, ReadFails);
    assert Runs(t, [], t);
    assert [ReadFails][1..] == [] && [Wake, ReadFails][1..] == [ReadFails];
    assert Runs(woken, [ReadFails], t);
    assert Runs(changed, [Wake, ReadFails], t);
    assert [change, Wake, ReadFails][1..] == [Wake, ReadFails];
    assert Runs(watched, [change, Wake, ReadFails], t);
    assert moves[1..] == [change, Wake, ReadFails];
    NotHeld(s, t, e);
  }
}
