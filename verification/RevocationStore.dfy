/** The revocation store: memory derived from the file, appending, compaction and
    the set delivered to sidecars. */
module RevocationStore {
  import opened Prelude
  import opened RevocationFormat

  // ----- Compaction -----

  ghost predicate EntriesOk(entries: map<TokenId, Entry>) {
    forall id | id in entries :: entries[id].id == id && ReasonOk(entries[id].reason)
  }

  /** Loading keeps what compaction relies on. */
  lemma {:induction false} MergeKeepsOk(codec: Codec, limits: Limits, entries: map<TokenId, Entry>,
                                        lines: seq<string>, now: Time)
    requires EntriesOk(entries) && forall l | l in lines :: '\n' !in l
    ensures EntriesOk(Merge(codec, limits, entries, lines, now))
    decreases |lines|
  {
    hide ParseLine, ReasonOk;
    if lines != [] {
      var n := |lines| - 1;
      MergeKeepsOk(codec, limits, entries, lines[..n], now);
      assert lines[n] in lines;
      if ParseLine(codec, lines[n], now).Some? {
        ParsedReasonOk(codec, lines[n], now);
      }
    }
  }

  function Unexpired(limits: Limits, entries: map<TokenId, Entry>, now: Time): map<TokenId, Entry> {
    map id | id in entries && !IsExpired(limits, entries[id], now) :: entries[id]
  }

  /** The lines of some tokens, in the given order. */
  function LinesOf(codec: Codec, entries: map<TokenId, Entry>, order: seq<TokenId>): (lines: seq<string>)
    requires forall id | id in order :: id in entries
    ensures |lines| == |order|
    ensures forall i | 0 <= i < |order| :: lines[i] == FormatLine(codec, entries[order[i]])
  {
    seq(|order|, i requires 0 <= i < |order| => FormatLine(codec, entries[order[i]]))
  }

  /** Every token once. */
  ghost predicate Enumerates(order: seq<TokenId>, ids: set<TokenId>) {
    && (forall i, j | 0 <= i < j < |order| :: order[i] != order[j])
    && (forall id :: id in order <==> id in ids)
  }

  ghost function Restricted(entries: map<TokenId, Entry>, order: seq<TokenId>): map<TokenId, Entry> {
    map id | id in order && id in entries :: entries[id]
  }

  lemma RestrictedMore(entries: map<TokenId, Entry>, order: seq<TokenId>, id: TokenId)
    requires id in entries
    ensures Restricted(entries, order + [id]) == Restricted(entries, order)[id := entries[id]]
  {
  }

  /** Loading one more line that revokes a token not held yet. */
  lemma MergeOneMore(codec: Codec, limits: Limits, entries: map<TokenId, Entry>, lines: seq<string>, k: nat,
                     e: Entry, now: Time)
    requires 0 < k <= |lines| && ParseLine(codec, lines[k - 1], now) == Some(e) && !IsExpired(limits, e, now)
    requires e.id !in Merge(codec, limits, entries, lines[..k - 1], now)
    ensures Merge(codec, limits, entries, lines[..k], now) ==
            Merge(codec, limits, entries, lines[..k - 1], now)[e.id := e]
  {
    hide ParseLine, IsExpired;
    assert lines[..k][..k - 1] == lines[..k - 1];
  }

  lemma {:induction false} LoadListed(codec: Codec, limits: Limits, entries: map<TokenId, Entry>,
                                      order: seq<TokenId>, now: Time, k: nat)
    requires CodecOk(codec) && EntriesOk(entries) && k <= |order|
    requires forall id | id in order :: id in entries && !IsExpired(limits, entries[id], now)
    requires forall i, j | 0 <= i < j < |order| :: order[i] != order[j]
    ensures Merge(codec, limits, map[], LinesOf(codec, entries, order)[..k], now) == Restricted(entries, order[..k])
  {
    hide ParseLine, FormatLine, CodecOk, ReasonOk, IsExpired, LinesOf;
    if k > 0 {
      LoadListed(codec, limits, entries, order, now, k - 1);
      var lines, id := LinesOf(codec, entries, order), order[k - 1];
      assert order[..k] == order[..k - 1] + [id];
      assert id in order;
      ParseFormatted(codec, entries[id], now);
      MergeOneMore(codec, limits, map[], lines, k, entries[id], now);
      RestrictedMore(entries, order[..k - 1], id);
    }
  }

  predicate IsLine(l: string) {
    '\n' !in l && (l == "" || l[|l| - 1] != '\r')
  }

  lemma ListedAreLines(codec: Codec, entries: map<TokenId, Entry>, order: seq<TokenId>)
    requires CodecOk(codec) && EntriesOk(entries) && forall id | id in order :: id in entries
    ensures forall l | l in LinesOf(codec, entries, order) :: IsLine(l)
  {
    hide CodecOk, FormatLine;
    var lines := LinesOf(codec, entries, order);
    forall i | 0 <= i < |lines| ensures IsLine(lines[i]) {
      assert order[i] in order;
      FormattedIsLine(codec, entries[order[i]]);
    }
  }

  /** Writing the unexpired entries in any order and loading the file again at the
      same instant recovers exactly them. */
  lemma CompactThenLoad(codec: Codec, limits: Limits, entries: map<TokenId, Entry>, order: seq<TokenId>, now: Time)
    requires CodecOk(codec) && EntriesOk(entries)
    requires Enumerates(order, Unexpired(limits, entries, now).Keys)
    ensures Merge(codec, limits, map[], SplitLines(JoinLines(LinesOf(codec, entries, order))), now) ==
            Unexpired(limits, entries, now)
  {
    hide CodecOk, EntriesOk, IsExpired, SplitLines, JoinLines, Merge;
    var lines := LinesOf(codec, entries, order);
    ListedAreLines(codec, entries, order);
    SplitJoined(lines);
    LoadListed(codec, limits, entries, order, now, |order|);
    assert lines[..|order|] == lines && order[..|order|] == order;
  }

  /** Compaction knows only memory: a token that is on file but was never loaded
      is gone afterwards. */
  lemma CompactionForgetsUnloaded(codec: Codec, limits: Limits, entries: map<TokenId, Entry>, order: seq<TokenId>,
                                  now: Time, id: TokenId)
    requires CodecOk(codec) && EntriesOk(entries)
    requires Enumerates(order, Unexpired(limits, entries, now).Keys) && id !in entries
    ensures id !in Merge(codec, limits, map[], SplitLines(JoinLines(LinesOf(codec, entries, order))), now)
  {
    CompactThenLoad(codec, limits, entries, order, now);
  }

  // ----- Revoking -----

  lemma FirstLine(line: string, rest: string)
    requires '\n' !in line
    ensures SplitLines(line + ['\n'] + rest) == [StripCr(line)] + SplitLines(rest)
  {
    var s := line + ['\n'] + rest;
    IndexOfFirst(line, '\n', rest);
    assert s[..|line|] == line && s[|line| + 1..] == rest;
  }

  /** Appending to complete lines adds lines. */
  lemma {:induction false} SplitAppended(content: string, more: string)
    requires content == "" || content[|content| - 1] == '\n'
    ensures SplitLines(content + more) == SplitLines(content) + SplitLines(more)
    decreases |content|
  {
    hide SplitLines, StripCr;
    if content == "" {
      assert SplitLines("") == [] by { NoLines(); }
      assert content + more == more;
    } else {
      var i := IndexOf(content, '\n').value;
      var line, rest := content[..i], content[i + 1..];
      assert rest == "" || rest[|rest| - 1] == content[|content| - 1];
      SplitAppended(rest, more);
      FirstLine(line, rest);
      FirstLine(line, rest + more);
      assert content == line + ['\n'] + rest;
      assert content + more == line + ['\n'] + (rest + more);
    }
  }

  lemma NoLines()
    ensures SplitLines("") == []
  {
  }

  lemma {:induction false} TrimEndAppend(x: string, y: string)
    ensures TrimEnd(x + y) == if TrimEnd(y) == "" then TrimEnd(x) else x + TrimEnd(y)
    decreases |y|
  {
    if y == "" {
      assert x + y == x;
    } else if IsSpace(y[|y| - 1]) {
      TrimEndAppend(x, y[..|y| - 1]);
      assert (x + y)[..|x + y| - 1] == x + y[..|y| - 1];
    }
  }

  /** Trimming a text that goes on after a non-space keeps that text. */
  lemma TrimTail(x: string, reason: string)
    requires x != "" && !IsSpace(x[0]) && !IsSpace(x[|x| - 1])
    ensures Trim(x + (['\t'] + reason)) == if TrimEnd(reason) == "" then x else x + (['\t'] + TrimEnd(reason))
  {
    var y := ['\t'] + reason;
    assert (x + y)[0] == x[0];
    assert TrimStart(x + y) == x + y;
    TrimEndAppend(['\t'], reason);
    TrimEndAppend(x, y);
    assert TrimEnd(x) == x;
    assert TrimEnd(['\t']) == "" by {
      assert ['\t'][..0] == "";
    }
  }

  /** A line that starts with a token and a timestamp revokes the token, whatever
      follows. Without a reason the timestamp is not read. */
  lemma LineNamesToken(codec: Codec, id: TokenId, revokedAt: Time, reason: string, now: Time)
    requires CodecOk(codec)
    ensures var e := ParseLine(codec, codec.printId(id) + ['\t'] + codec.printTime(revokedAt) + (['\t'] + reason), now);
            e.Some? && e.value.id == id && e.value.timestamp == if TrimEnd(reason) == "" then now else revokedAt
  {
    hide ParseTrimmed, Trim, TrimEnd, IsSpace;
    var a, b := codec.printId(id), codec.printTime(revokedAt);
    NoTab(b);
    var x := a + ['\t'] + b;
    assert x[0] == a[0] && a[0] in a && x[|x| - 1] == b[|b| - 1] && b[|b| - 1] in b;
    TrimTail(x, reason);
    if TrimEnd(reason) == "" {
      ParseNoReason(codec, id, b, now);
    } else {
      assert x + (['\t'] + TrimEnd(reason)) == a + ['\t'] + (b + ['\t'] + TrimEnd(reason));
      ParseFields(codec, id, revokedAt, TrimEnd(reason), now);
    }
  }

  function RevocationText(codec: Codec, id: TokenId, revokedAt: Time, reason: string): string {
    codec.printId(id) + "\t" + codec.printTime(revokedAt) + "\t" + reason + "\n"
  }

  lemma StripTail(x: string, cut: string)
    ensures StripCr(x + (['\t'] + cut)) == x + (['\t'] + StripCr(cut))
  {
    var s := x + (['\t'] + cut);
    if cut != "" {
      assert s[|s| - 1] == cut[|cut| - 1];
      assert s[..|s| - 1] == x + (['\t'] + cut[..|cut| - 1]);
    } else {
      assert s[|s| - 1] == '\t';
    }
  }

  /** After a revocation is appended to complete lines, the next load holds the
      token, unless the entry has already expired. */
  lemma RevokeThenLoad(codec: Codec, limits: Limits, entries: map<TokenId, Entry>, content: string,
                       id: TokenId, revokedAt: Time, reason: string, now: Time)
    requires CodecOk(codec) && (content == "" || content[|content| - 1] == '\n')
    requires revokedAt + limits.tokenTtl + limits.skewMargin >= now
    ensures id in Merge(codec, limits, entries,
                        SplitLines(content + RevocationText(codec, id, revokedAt, reason)), now)
  {
    hide ParseLine, SplitLines, RevocationText, CodecOk;
    var text := RevocationText(codec, id, revokedAt, reason);
    SplitAppended(content, text);
    var line := GluedLine(codec, id, revokedAt, reason, "");
    var first := StripCr(ReasonLine(reason));
    assert "" + text == text;
    assert line == codec.printId(id) + ['\t'] + codec.printTime(revokedAt) + (['\t'] + first);
    LineNamesToken(codec, id, revokedAt, first, now);
    var lines := SplitLines(content) + SplitLines(text);
    var i := |SplitLines(content)|;
    assert lines[i] == SplitLines(text)[0];
    assert Revokes(codec, limits, lines, i, now, id);
    MergeMeans(codec, limits, entries, lines, now, id);
  }

  // ----- An unfinished last line -----

  /** Only canonical spellings are accepted. */
  ghost predicate Strict(codec: Codec) {
    forall s, id | codec.parseId(s) == Some(id) :: s == codec.printId(id)
  }

  /** The text up to the first tab. */
  function FirstField(s: string): string {
    var tab := IndexOf(s, '\t');
    if tab.Some? then s[..tab.value] else s
  }

  lemma {:induction false} TrimStartAppend(x: string, y: string)
    requires y != "" && !IsSpace(y[0])
    ensures TrimStart(x + y) == TrimStart(x) + y
  {
    hide IsSpace;
    if x == "" {
      assert x + y == y;
    } else if IsSpace(x[0]) {
      TrimStartAppend(x[1..], y);
      assert (x + y)[1..] == x[1..] + y;
    }
  }

  lemma TrimKeepsFront(x: string, y: string)
    requires TrimEnd(x) == x
    ensures x <= TrimEnd(x + y)
  {
    hide TrimEnd;
    TrimEndAppend(x, y);
  }

  lemma EndKept(s: string)
    requires s != "" && !IsSpace(s[|s| - 1])
    ensures TrimEnd(s) == s
  {
  }

  lemma Regroup(x: string, y: string, z: string)
    ensures x + (y + z) == (x + y) + z
    ensures y != "" ==> (x + y)[|x + y| - 1] == y[|y| - 1] && (y + z)[0] == y[0]
  {
  }

  lemma TrimIs(s: string)
    ensures Trim(s) == TrimEnd(TrimStart(s))
  {
  }

  lemma GluedTrim(last: string, a: string, rest: string)
    requires a != "" && !IsSpace(a[0]) && !IsSpace(a[|a| - 1])
    ensures TrimStart(last) + a <= Trim(last + (a + rest))
  {
    hide *;
    var head := TrimStart(last);
    Regroup(head, a, rest);
    TrimIs(last + (a + rest));
    TrimStartAppend(last, a + rest);
    EndKept(head + a);
    TrimKeepsFront(head + a, rest);
  }

  /** The reason's first line, which shares a line with the token, and the rest. */
  function ReasonLine(reason: string): string {
    var ended := reason + "\n";
    var end := IndexOf(ended, '\n');
    if end.Some? then ended[..end.value] else ended
  }

  function ReasonRest(reason: string): string {
    var ended := reason + "\n";
    var end := IndexOf(ended, '\n');
    if end.Some? then ended[end.value + 1..] else ""
  }

  lemma ReasonParts(reason: string)
    ensures reason + "\n" == ReasonLine(reason) + ['\n'] + ReasonRest(reason) && '\n' !in ReasonLine(reason)
    ensures '\n' !in reason ==> ReasonLine(reason) == reason && ReasonRest(reason) == ""
  {
    var ended := reason + "\n";
    assert ended[|reason|] == '\n';
    var k := IndexOf(ended, '\n').value;
    if '\n' !in reason {
      IndexOfFirst(reason, '\n', "");
      assert ended == reason + ['\n'] + "";
      assert ended[..k] == reason && ended[k + 1..] == "";
    }
  }

  /** When a revocation appended after the unfinished line `last` is dated as read
      back, or nothing if its line does not name the token. Behind a blank line it
      stands alone. Behind any other its token runs into that line, which then has
      to name the same token itself, in a first field of its own; its timestamp is
      the second field, into which the appended token may have run. */
  function GluedTime(codec: Codec, last: string, id: TokenId, revokedAt: Time, reason: string, now: Time): Option<Time>
  {
    var head := TrimStart(last);
    if head == "" then Some(if TrimEnd(ReasonLine(reason)) == "" then now else revokedAt)
    else match IndexOf(head, '\t')
      case None => None
      case Some(k) =>
        if head[..k] != codec.printId(id) then None
        else
          var time := codec.parseTime(FirstField(head[k + 1..] + codec.printId(id) + ['\t']));
          Some(if time.Some? then time.value else now)
  }

  predicate InTime(limits: Limits, time: Option<Time>, now: Time) {
    time.Some? && time.value + limits.tokenTtl + limits.skewMargin >= now
  }

  ghost predicate AnyRevokes(codec: Codec, limits: Limits, text: string, now: Time, id: TokenId) {
    Listed(codec, limits, SplitLines(text), now, id)
  }

  /** The token is held after the next load exactly when it was held, or an earlier
      line of the file revokes it, or the appended line still names it in time, or
      a further line of the reason happens to revoke it. */
  lemma RevokeLoadsIff(codec: Codec, limits: Limits, entries: map<TokenId, Entry>, content: string, last: string,
                       id: TokenId, revokedAt: Time, reason: string, now: Time)
    requires CodecOk(codec) && Strict(codec)
    requires (content == "" || content[|content| - 1] == '\n') && '\n' !in last
    ensures id in Merge(codec, limits, entries,
                        SplitLines(content + (last + RevocationText(codec, id, revokedAt, reason))), now) <==>
            || id in entries
            || AnyRevokes(codec, limits, content, now, id)
            || InTime(limits, GluedTime(codec, last, id, revokedAt, reason, now), now)
            || AnyRevokes(codec, limits, ReasonRest(reason), now, id)
  {
    hide ParseLine, SplitLines, RevocationText, CodecOk, GluedTime, StripCr, Strict, ReasonRest;
    var line := GluedLine(codec, id, revokedAt, reason, last);
    var glued := last + RevocationText(codec, id, revokedAt, reason);
    SplitAppended(content, glued);
    var before, rest := SplitLines(content), SplitLines(ReasonRest(reason));
    var lines := before + ([line] + rest);
    assert SplitLines(content + glued) == lines;
    var n := |before|;
    GluedParses(codec, id, revokedAt, reason, last, line, now);
    assert lines[n] == line;
    assert Revokes(codec, limits, lines, n, now, id) <==>
           InTime(limits, GluedTime(codec, last, id, revokedAt, reason, now), now);
    assert forall i | 0 <= i < n ::
             Revokes(codec, limits, lines, i, now, id) == Revokes(codec, limits, before, i, now, id);
    assert forall i | 0 <= i < |rest| ::
             Revokes(codec, limits, lines, n + 1 + i, now, id) == Revokes(codec, limits, rest, i, now, id);
    RevokesInParts(codec, limits, lines, before, rest, now, id);
    MergeMeans(codec, limits, entries, lines, now, id);
  }

  lemma RevokesInParts(codec: Codec, limits: Limits, lines: seq<string>, before: seq<string>, rest: seq<string>,
                       now: Time, id: TokenId)
    requires |lines| == |before| + 1 + |rest|
    requires lines[..|before|] == before && lines[|before| + 1..] == rest
    ensures (exists i | 0 <= i < |lines| :: Revokes(codec, limits, lines, i, now, id)) <==>
            || (exists i | 0 <= i < |before| :: Revokes(codec, limits, before, i, now, id))
            || Revokes(codec, limits, lines, |before|, now, id)
            || (exists i | 0 <= i < |rest| :: Revokes(codec, limits, rest, i, now, id))
  {
    hide ParseLine, IsExpired;
    var n := |before|;
    forall i | 0 <= i < |lines| && Revokes(codec, limits, lines, i, now, id)
      ensures || (exists j | 0 <= j < |before| :: Revokes(codec, limits, before, j, now, id))
              || Revokes(codec, limits, lines, n, now, id)
              || (exists j | 0 <= j < |rest| :: Revokes(codec, limits, rest, j, now, id))
    {
      if i < n {
        assert Revokes(codec, limits, before, i, now, id);
      } else if i > n {
        assert Revokes(codec, limits, rest, i - n - 1, now, id);
      }
    }
    forall i | 0 <= i < |before| && Revokes(codec, limits, before, i, now, id)
      ensures Revokes(codec, limits, lines, i, now, id)
    {
      assert lines[i] == before[i];
    }
    forall i | 0 <= i < |rest| && Revokes(codec, limits, rest, i, now, id)
      ensures Revokes(codec, limits, lines, n + 1 + i, now, id)
    {
      assert lines[n + 1 + i] == rest[i];
    }
  }

  lemma GluedLine(codec: Codec, id: TokenId, revokedAt: Time, reason: string, last: string) returns (line: string)
    requires CodecOk(codec) && '\n' !in last
    ensures line ==
            last + (codec.printId(id) + ['\t'] + (codec.printTime(revokedAt) + (['\t'] + StripCr(ReasonLine(reason)))))
    ensures SplitLines(last + RevocationText(codec, id, revokedAt, reason)) == [line] + SplitLines(ReasonRest(reason))
  {
    hide SplitLines, StripCr, ReasonLine, ReasonRest;
    var a, b := codec.printId(id), codec.printTime(revokedAt);
    NoTab(a);
    NoTab(b);
    ReasonParts(reason);
    var cut, more := ReasonLine(reason), ReasonRest(reason);
    var x := last + (a + ['\t'] + b);
    var whole := x + (['\t'] + cut);
    assert '\n' !in whole;
    FirstLine(whole, more);
    assert last + RevocationText(codec, id, revokedAt, reason) == x + ['\t'] + (reason + "\n");
    assert x + ['\t'] + (cut + ['\n'] + more) == whole + ['\n'] + more;
    StripTail(x, cut);
    line := x + (['\t'] + StripCr(cut));
    assert line == last + (a + ['\t'] + (b + (['\t'] + StripCr(cut))));
  }

  ghost predicate Names(codec: Codec, line: string, now: Time, id: TokenId, time: Option<Time>) {
    var e := ParseLine(codec, line, now);
    if time.Some? then e.Some? && e.value.id == id && e.value.timestamp == time.value
    else e.Some? ==> e.value.id != id
  }

  lemma GluedParses(codec: Codec, id: TokenId, revokedAt: Time, reason: string, last: string, line: string, now: Time)
    requires CodecOk(codec) && Strict(codec)
    requires line ==
             last + (codec.printId(id) + ['\t'] + (codec.printTime(revokedAt) + (['\t'] + StripCr(ReasonLine(reason)))))
    ensures Names(codec, line, now, id, GluedTime(codec, last, id, revokedAt, reason, now))
  {
    hide Names, CodecOk, Strict, StripCr, TrimStart, ReasonLine, GluedTime;
    if TrimStart(last) == "" {
      GluedToBlank(codec, id, revokedAt, reason, last, line, now);
    } else {
      GluedToText(codec, id, revokedAt, reason, last, line, now);
    }
  }

  lemma GluedToBlank(codec: Codec, id: TokenId, revokedAt: Time, reason: string, last: string, line: string, now: Time)
    requires CodecOk(codec) && TrimStart(last) == ""
    requires line ==
             last + (codec.printId(id) + ['\t'] + (codec.printTime(revokedAt) + (['\t'] + StripCr(ReasonLine(reason)))))
    ensures Names(codec, line, now, id, GluedTime(codec, last, id, revokedAt, reason, now))
  {
    hide ParseLine, StripCr, TrimStart, TrimEnd, IsSpace, ReasonLine;
    var a, b, r := codec.printId(id), codec.printTime(revokedAt), StripCr(ReasonLine(reason));
    var own := a + ['\t'] + (b + (['\t'] + r));
    assert own[0] == a[0] && a[0] in a;
    BlankPrefix(codec, last, own, now);
    assert own == a + ['\t'] + b + (['\t'] + r);
    LineNamesToken(codec, id, revokedAt, r, now);
    StripCrIsBlank(ReasonLine(reason));
  }

  /** The trimmed line starts with the unfinished text, the token and a tab. */
  lemma GluedFront(last: string, a: string, b: string, r: string, line: string) returns (more: string)
    requires Clean(a) && Clean(b) && line == last + (a + ['\t'] + (b + (['\t'] + r)))
    ensures Trim(line) == TrimStart(last) + a + ['\t'] + more
  {
    hide Trim, TrimStart, IsSpace;
    var head, t, x := TrimStart(last), Trim(line), a + ['\t'] + b;
    assert a[0] in a && b[|b| - 1] in b;
    assert x[0] == a[0] && x[|x| - 1] == b[|b| - 1];
    assert a + ['\t'] + (b + (['\t'] + r)) == x + (['\t'] + r);
    GluedTrim(last, x, ['\t'] + r);
    more := b + t[|head + x|..];
    hide *;
    assert t == (head + x) + t[|head + x|..];
  }

  lemma GluedToText(codec: Codec, id: TokenId, revokedAt: Time, reason: string, last: string, line: string, now: Time)
    requires CodecOk(codec) && Strict(codec) && TrimStart(last) != ""
    requires line ==
             last + (codec.printId(id) + ['\t'] + (codec.printTime(revokedAt) + (['\t'] + StripCr(ReasonLine(reason)))))
    ensures Names(codec, line, now, id, GluedTime(codec, last, id, revokedAt, reason, now))
  {
    var a, b, r := codec.printId(id), codec.printTime(revokedAt), StripCr(ReasonLine(reason));
    assert Clean(a) && Clean(b);
    hide ParseLine, ParseTrimmed, StripCr, FirstField, TrimStart, Trim, IsSpace, ReasonLine, CodecOk, Strict, Clean;
    var more := GluedFront(last, a, b, r, line);
    var head := TrimStart(last);
    LineIsTrimmed(codec, line, now);
    if '\t' in head {
      FieldsStay(codec, head, id, more, now);
    } else {
      TokenRunsOn(codec, head, id, more, now);
    }
  }

  lemma LineIsTrimmed(codec: Codec, line: string, now: Time)
    ensures ParseLine(codec, line, now) == ParseTrimmed(codec, Trim(line), now)
  {
  }

  lemma StripCrIsBlank(s: string)
    ensures TrimEnd(StripCr(s)) == TrimEnd(s)
  {
  }

  /** A line with two tabs at least. */
  lemma ThreeFields(codec: Codec, f: string, g: string, more: string, now: Time)
    requires '\t' !in f && '\t' !in g
    ensures var id, time := codec.parseId(f), codec.parseTime(g);
            ParseTrimmed(codec, f + ['\t'] + (g + ['\t'] + more), now) ==
            if id.None? then None
            else Some(Entry(id.value, more, if time.Some? then time.value else now))
  {
    hide IndexOf;
    var rest := g + ['\t'] + more;
    var t := f + ['\t'] + rest;
    IndexOfFirst(f, '\t', rest);
    IndexOfFirst(g, '\t', more);
    assert t[..|f|] == f && t[|f| + 1..] == rest;
    assert rest[..|g|] == g && rest[|g| + 1..] == more;
  }

  /** A text with a tab, taken apart at the first one. */
  lemma AtFirstTab(s: string) returns (k: nat)
    requires '\t' in s
    ensures IndexOf(s, '\t') == Some(k) && k < |s|
    ensures s == FirstField(s) + ['\t'] + s[k + 1..] && FirstField(s) == s[..k] && '\t' !in FirstField(s)
  {
    k := IndexOf(s, '\t').value;
  }

  /** Behind text without a tab the appended token is not the first field any more. */
  lemma TokenRunsOn(codec: Codec, head: string, id: TokenId, more: string, now: Time)
    requires CodecOk(codec) && Strict(codec) && head != "" && '\t' !in head
    ensures var e := ParseTrimmed(codec, head + codec.printId(id) + ['\t'] + more, now);
            e.Some? ==> e.value.id != id
  {
    hide IndexOf;
    var a := codec.printId(id);
    NoTab(a);
    var f := head + a;
    var t := f + ['\t'] + more;
    IndexOfFirst(f, '\t', more);
    assert t[..|f|] == f;
    assert |f| > |a|;
  }

  lemma GluedApart(head: string, a: string, more: string) returns (k: nat, g: string, tail: string)
    requires '\t' in head
    ensures IndexOf(head, '\t') == Some(k) && k < |head| && '\t' !in head[..k]
    ensures g == FirstField(head[k + 1..] + a + ['\t']) && '\t' !in g
    ensures head + a + ['\t'] + more == head[..k] + ['\t'] + (g + ['\t'] + tail)
  {
    hide IndexOf, FirstField;
    k := AtFirstTab(head);
    var second := head[k + 1..] + a + ['\t'];
    assert second[|second| - 1] == '\t';
    var m := AtFirstTab(second);
    g, tail := FirstField(second), second[m + 1..] + more;
    assert second + more == g + ['\t'] + tail;
    assert head == head[..k] + ['\t'] + head[k + 1..];
    assert head + a + ['\t'] + more == head[..k] + ['\t'] + (second + more);
  }

  /** Behind text with a tab its first field stays, and the second one ends in that
      text or in the appended token. */
  lemma FieldsStay(codec: Codec, head: string, id: TokenId, more: string, now: Time)
    requires CodecOk(codec) && Strict(codec) && '\t' in head
    ensures var e := ParseTrimmed(codec, head + codec.printId(id) + ['\t'] + more, now);
            var k := IndexOf(head, '\t').value;
            if head[..k] != codec.printId(id) then e.Some? ==> e.value.id != id
            else
              var time := codec.parseTime(FirstField(head[k + 1..] + codec.printId(id) + ['\t']));
              e.Some? && e.value.id == id && e.value.timestamp == if time.Some? then time.value else now
  {
    hide IndexOf, ParseTrimmed, FirstField;
    var k, g, tail := GluedApart(head, codec.printId(id), more);
    ThreeFields(codec, head[..k], g, tail, now);
  }

  // ----- A revocation written in part and tried again -----

  /** A revocation cut off inside its token is lost when it is tried again, although
      the second write succeeds. */
  lemma RetryIsLost(codec: Codec, limits: Limits, content: string, id: TokenId, first: Time, second: Time,
                    reason: string, now: Time, cut: nat)
    requires CodecOk(codec) && Strict(codec) && (content == "" || content[|content| - 1] == '\n')
    requires '\n' !in reason && !AnyRevokes(codec, limits, content, now, id)
    requires 0 < cut <= |codec.printId(id)|
    ensures var half := RevocationText(codec, id, first, reason)[..cut];
            id !in Merge(codec, limits, map[],
                         SplitLines(content + (half + RevocationText(codec, id, second, reason))), now)
  {
    var a := codec.printId(id);
    var half := RevocationText(codec, id, first, reason)[..cut];
    NoTab(a);
    assert half == a[..cut];
    assert half[0] == a[0] && a[0] in a;
    assert forall c | c in half :: c in a;
    assert TrimStart(half) == half;
    ReasonParts(reason);
    NoLines();
    RevokeLoadsIff(codec, limits, map[], content, half, id, second, reason, now);
  }

  /** A line cut off behind its timestamp is read with that timestamp. */
  lemma TimeStays(codec: Codec, id: TokenId, first: Time, second: Time, reason: string, more: string, now: Time)
    requires CodecOk(codec)
    ensures var half := codec.printId(id) + ['\t'] + (codec.printTime(first) + ['\t'] + more);
            GluedTime(codec, half, id, second, reason, now) == Some(first)
  {
    hide IndexOf;
    var a, b := codec.printId(id), codec.printTime(first);
    var half := a + ['\t'] + (b + ['\t'] + more);
    NoTab(a);
    NoTab(b);
    assert half[0] == a[0] && a[0] in a;
    assert TrimStart(half) == half;
    IndexOfFirst(a, '\t', b + ['\t'] + more);
    assert half[..|a|] == a && half[|a| + 1..] == b + ['\t'] + more;
    var tail := half[|a| + 1..] + a + ['\t'];
    assert tail == b + ['\t'] + (more + a + ['\t']);
    IndexOfFirst(b, '\t', more + a + ['\t']);
    assert tail[..|b|] == b;
  }

  /** Cut off behind its timestamp, it is dated by the first attempt. */
  lemma RetryIsDatedByFirst(codec: Codec, limits: Limits, content: string, id: TokenId, first: Time, second: Time,
                            reason: string, now: Time, cut: nat)
    requires CodecOk(codec) && Strict(codec) && (content == "" || content[|content| - 1] == '\n')
    requires '\n' !in reason && cut <= |reason| && !AnyRevokes(codec, limits, content, now, id)
    ensures var half := codec.printId(id) + ['\t'] + (codec.printTime(first) + ['\t'] + reason[..cut]);
            && half < RevocationText(codec, id, first, reason)
            && (id in Merge(codec, limits, map[],
                            SplitLines(content + (half + RevocationText(codec, id, second, reason))), now) <==>
                InTime(limits, Some(first), now))
  {
    hide GluedTime, Merge, SplitLines, ParseLine;
    var a, b := codec.printId(id), codec.printTime(first);
    var half := a + ['\t'] + (b + ['\t'] + reason[..cut]);
    NoTab(a);
    NoTab(b);
    assert '\n' !in half;
    assert RevocationText(codec, id, first, reason) == half + (reason[cut..] + "\n");
    TimeStays(codec, id, first, second, reason, reason[..cut], now);
    ReasonParts(reason);
    NoLines();
    RevokeLoadsIff(codec, limits, map[], content, half, id, second, reason, now);
  }

  lemma BlankPrefix(codec: Codec, last: string, own: string, now: Time)
    requires TrimStart(last) == "" && own != "" && !IsSpace(own[0])
    ensures ParseLine(codec, last + own, now) == ParseLine(codec, own, now)
  {
    TrimStartAppend(last, own);
    assert "" + own == own;
  }

  // ----- The store -----

  /** Oldest first, ties by token. */
  predicate Precedes(a: Entry, b: Entry) {
    a.timestamp < b.timestamp || (a.timestamp == b.timestamp && a.id < b.id)
  }

  lemma {:induction false} FirstExists(entries: map<TokenId, Entry>, ids: set<TokenId>) returns (first: TokenId)
    requires ids != {} && ids <= entries.Keys && forall id | id in entries :: entries[id].id == id
    ensures first in ids && forall id | id in ids && id != first :: Precedes(entries[first], entries[id])
    decreases |ids|
  {
    first :| first in ids;
    var rest := ids - {first};
    if rest != {} {
      var best := FirstExists(entries, rest);
      if Precedes(entries[best], entries[first]) {
        first := best;
      }
    }
  }

  function Text(file: Option<string>): string {
    if file.Some? then file.value else ""
  }

  lemma TextOf(file: Option<string>)
    ensures Text(None) == "" && (file.Some? ==> Text(file) == file.value)
  {
  }

  class Store {
    const codec: Codec
    const limits: Limits
    var entries: map<TokenId, Entry>
    var file: Option<string>           // None: the file does not exist

    ghost predicate Valid()
      reads this
    {
      EntriesOk(entries)
    }

    constructor (codec: Codec, tokenTtl: nat, file: Option<string>, now: Time)
      ensures Valid() && this.codec == codec && this.limits == Limits(tokenTtl, SKEW_MARGIN) && this.file == file
      ensures entries == Merge(codec, limits, map[], SplitLines(Text(file)), now)
    {
      this.codec, limits, this.file, entries := codec, Limits(tokenTtl, SKEW_MARGIN), file, map[];
      new;
      if file.Some? {
        var added := MergeContent(file.value, now);
      }
    }

    /** Reads every line into memory and returns the entries that were new. */
    method MergeContent(content: string, now: Time) returns (added: seq<Entry>)
      requires Valid()
      modifies this`entries
      ensures Valid() && entries == Merge(codec, limits, old(entries), SplitLines(content), now)
      ensures added == [] <==> entries == old(entries)
      ensures forall e | e in added :: e.id !in old(entries) && e.id in entries && entries[e.id] == e
    {
      hide ParseLine, IsExpired, ReasonOk, SplitLines;
      added := [];
      var lines := SplitLines(content);
      LinesHoldNoLineEnd(content);
      for i := 0 to |lines|
        invariant entries == Merge(codec, limits, old(entries), lines[..i], now)
        invariant Valid()
        invariant added == [] ==> entries == old(entries)
        invariant forall id | id in old(entries) :: id in entries && entries[id] == old(entries)[id]
        invariant forall e | e in added :: e.id !in old(entries) && e.id in entries && entries[e.id] == e
      {
        assert lines[..i + 1][..i] == lines[..i];
        var parsed := ParseLine(codec, lines[i], now);
        if parsed.None? {
          continue;
        }
        var entry := parsed.value;
        if IsExpired(limits, entry, now) || entry.id in entries {
          continue;
        }
        ParsedReasonOk(codec, lines[i], now);
        entries := entries[entry.id := entry];
        added := added + [entry];
      }
      assert lines[..|lines|] == lines;
      if added != [] {
        assert added[0] in added;
      }
    }

    /** Reloads the file; a missing file adds nothing, an unreadable one fails. */
    method ReloadFromFile(now: Time) returns (r: Option<seq<Entry>>)
      requires Valid()
      modifies this`entries
      ensures Valid()
      ensures r.None? ==> entries == old(entries)
      ensures r.Some? ==>
                entries == Merge(codec, limits, old(entries), SplitLines(Text(file)), now) &&
                (r.value == [] <==> entries == old(entries))
    {
      if * {
        return None;
      }
      if file.None? {
        return Some([]);
      }
      var added := MergeContent(file.value, now);
      r := Some(added);
    }

    /** Appends a line unless the token is already held. The file may not open; the
        disk may take only the first `room` characters. */
    method RevokeWithRoom(id: TokenId, reason: string, now: Time, room: Option<nat>) returns (ok: bool)
      requires Valid()
      modifies this`file
      ensures id in entries ==> ok && file == old(file)
      ensures var content, text := Text(old(file)), RevocationText(codec, id, now, reason);
              id !in entries ==>
                && ok == (room.Some? && room.value >= |text|)
                && file == (if room.None? then old(file)
                            else Some(content + if room.value < |text| then text[..room.value] else text))
    {
      if id in entries {
        return true;
      }
      if room.None? {
        return false;
      }
      var text := RevocationText(codec, id, now, reason);
      ok := room.value >= |text|;
      file := Some(Text(file) + if ok then text else text[..room.value]);
    }

    /** The same on whatever disk there is: a failed write leaves the file as it was
        or with part of the line at its end. */
    method Revoke(id: TokenId, reason: string, now: Time) returns (ok: bool)
      requires Valid()
      modifies this`file
      ensures id in entries ==> ok && file == old(file)
      ensures var content, text := Text(old(file)), RevocationText(codec, id, now, reason);
              && (id !in entries && ok ==> file == Some(content + text))
              && (!ok ==> file == old(file) || (file.Some? && content <= file.value < content + text))
    {
      var opens: bool := *;
      var taken: nat :| 0 <= taken;
      ok := RevokeWithRoom(id, reason, now, if opens then Some(taken) else None);
    }

    /** The delivered set: every unexpired entry once, oldest first. */
    method CurrentSet(now: Time) returns (delivered: seq<Entry>)
      requires Valid()
      ensures forall i, j | 0 <= i < j < |delivered| :: Precedes(delivered[i], delivered[j])
      ensures forall e :: e in delivered <==> e.id in entries && entries[e.id] == e && !IsExpired(limits, e, now)
    {
      delivered := [];
      var left := Unexpired(limits, entries, now).Keys;
      while left != {}
        invariant left <= Unexpired(limits, entries, now).Keys
        invariant forall i, j | 0 <= i < j < |delivered| :: Precedes(delivered[i], delivered[j])
        invariant forall e, id | e in delivered && id in left :: Precedes(e, entries[id])
        invariant forall e :: e in delivered <==>
                    e.id in entries && e.id !in left && entries[e.id] == e && !IsExpired(limits, e, now)
        decreases left
      {
        ghost var first := FirstExists(entries, left);
        var id :| id in left && forall other | other in left && other != id :: Precedes(entries[id], entries[other]);
        delivered := delivered + [entries[id]];
        left := left - {id};
      }
    }

    /** Rewrites the file from memory, dropping what has expired. Loading the file
        again at the same instant gives exactly the unexpired entries. A failure
        leaves the file as it was or with the first part of the new text. */
    method CompactFile(now: Time) returns (ok: bool)
      requires Valid()
      modifies this`file
      ensures ok ==> file.Some?
      ensures ok && CodecOk(codec) ==>
                Merge(codec, limits, map[], SplitLines(file.value), now) == Unexpired(limits, entries, now)
      ensures !ok ==>
                file == old(file) ||
                exists order :: Enumerates(order, Unexpired(limits, entries, now).Keys) &&
                                Text(file) <= JoinLines(LinesOf(codec, entries, order))
    {
      var order := [];
      var left := Unexpired(limits, entries, now).Keys;
      while left != {}
        invariant left <= Unexpired(limits, entries, now).Keys
        invariant Enumerates(order, Unexpired(limits, entries, now).Keys - left)
        decreases left
      {
        var id :| id in left;
        order := order + [id];
        left := left - {id};
      }
      assert Unexpired(limits, entries, now).Keys - left == Unexpired(limits, entries, now).Keys;
      if * {
        return false;                    // the file could not be created
      }
      var text := JoinLines(LinesOf(codec, entries, order));
      var written: nat :| written <= |text|;
      file := Some(text[..written]);
      ok := written == |text|;
      assert ok ==> text[..written] == text;
      assert Enumerates(order, Unexpired(limits, entries, now).Keys) && Text(file) <= text;
      if ok && CodecOk(codec) {
        CompactThenLoad(codec, limits, entries, order, now);
      }
    }
  }

  lemma LostInEmptyFile(codec: Codec, limits: Limits, id: TokenId, first: Time, second: Time, reason: string, now: Time)
    requires CodecOk(codec) && Strict(codec) && '\n' !in reason
    ensures var text := RevocationText(codec, id, first, reason);
            && |codec.printId(id)| < |text|
            && id !in Merge(codec, limits, map[],
                            SplitLines(text[..|codec.printId(id)|] + RevocationText(codec, id, second, reason)), now)
  {
    hide SplitLines, Merge, ParseLine, IsSpace;
    NoLines();
    var half := RevocationText(codec, id, first, reason)[..|codec.printId(id)|];
    var retried := RevocationText(codec, id, second, reason);
    assert "" + (half + retried) == half + retried;
    RetryIsLost(codec, limits, "", id, first, second, reason, now, |codec.printId(id)|);
  }

  /** A disk that fills up behind the token id, then has room again: the second
      write succeeds, and the token is not revoked. */
  method LostRetry(codec: Codec, tokenTtl: nat, id: TokenId, reason: string, first: Time, second: Time, now: Time)
    returns (written: bool, again: bool, held: bool)
    requires CodecOk(codec) && Strict(codec) && '\n' !in reason
    ensures !written && again && !held
  {
    hide Merge, SplitLines, RevocationText, CodecOk, Strict, Text;
    var n, text := |codec.printId(id)|, RevocationText(codec, id, first, reason);
    var retried := RevocationText(codec, id, second, reason);
    LostInEmptyFile(codec, Limits(tokenTtl, SKEW_MARGIN), id, first, second, reason, now);
    var store := new Store(codec, tokenTtl, None, first);
    TextOf(store.file);
    EmptyFile(codec, store.limits, first);
    written := store.RevokeWithRoom(id, reason, first, Some(n));
    TextOf(store.file);
    assert "" + text[..n] == text[..n];
    again := store.RevokeWithRoom(id, reason, second, Some(|retried|));
    assert store.file == Some(text[..n] + retried);
    TextOf(store.file);
    var loaded := new Store(codec, tokenTtl, store.file, now);
    held := id in loaded.entries;
  }

  lemma EmptyFile(codec: Codec, limits: Limits, now: Time)
    ensures Merge(codec, limits, map[], SplitLines(""), now) == map[]
  {
  }
}
