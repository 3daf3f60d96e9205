/** The revocation file: its line format, the one expiry rule, and what loading
    lines into memory means. Identifier and timestamp spellings are a parameter. */
module RevocationFormat {
  import opened Prelude

  type TokenId = nat
  type Time = int

  datatype Entry = Entry(id: TokenId, reason: string, timestamp: Time)

  /** How identifiers and timestamps are spelled. */
  datatype Codec = Codec(
    printId: TokenId -> string,
    parseId: string -> Option<TokenId>,
    printTime: Time -> string,
    parseTime: string -> Option<Time>)

  const DEFAULT_REASON: string := "file-based revocation"

  // ----- Text -----

  predicate IsSpace(c: char) {
    '\t' <= c <= '\r' || c == ' ' || c == '\U{0085}' || c == '\U{00A0}' || c == '\U{1680}' ||
    '\U{2000}' <= c <= '\U{200A}' || c == '\U{2028}' || c == '\U{2029}' || c == '\U{202F}' ||
    c == '\U{205F}' || c == '\U{3000}'
  }

  function TrimStart(s: string): (r: string)
    ensures r == "" || !IsSpace(r[0])
  {
    if s != "" && IsSpace(s[0]) then TrimStart(s[1..]) else s
  }

  function TrimEnd(s: string): (r: string)
    ensures r == "" || !IsSpace(r[|r| - 1])
  {
    if s != "" && IsSpace(s[|s| - 1]) then TrimEnd(s[..|s| - 1]) else s
  }

  function Trim(s: string): string {
    TrimEnd(TrimStart(s))
  }

  lemma {:induction false} TrimStartIs(s: string)
    ensures |TrimStart(s)| <= |s| && TrimStart(s) == s[|s| - |TrimStart(s)|..]
  {
    hide IsSpace;
    if s != "" && IsSpace(s[0]) {
      TrimStartIs(s[1..]);
    }
  }

  lemma {:induction false} TrimEndIs(s: string)
    ensures |TrimEnd(s)| <= |s| && TrimEnd(s) == s[..|TrimEnd(s)|]
  {
    hide IsSpace;
    if s != "" && IsSpace(s[|s| - 1]) {
      TrimEndIs(s[..|s| - 1]);
    }
  }

  function IndexOf(s: string, c: char): (p: Option<nat>)
    ensures p.Some? ==> p.value < |s| && s[p.value] == c && c !in s[..p.value]
    ensures p.None? ==> c !in s
  {
    if s == "" then None
    else if s[0] == c then Some(0)
    else
      var p := IndexOf(s[1..], c);
      if p.None? then None
      else
        assert s[..p.value + 1] == [s[0]] + s[1..][..p.value];
        Some(p.value + 1)
  }

  /** Lines end in LF or CR LF; an empty last line is none. */
  function SplitLines(s: string): seq<string> {
    if s == "" then []
    else match IndexOf(s, '\n')
      case None => [s]
      case Some(i) => [StripCr(s[..i])] + SplitLines(s[i + 1..])
  }

  function StripCr(s: string): string {
    if s != "" && s[|s| - 1] == '\r' then s[..|s| - 1] else s
  }

  function JoinLines(lines: seq<string>): string {
    if lines == [] then "" else lines[0] + "\n" + JoinLines(lines[1..])
  }

  lemma {:induction false} IndexOfFirst(a: string, c: char, b: string)
    requires c !in a
    ensures IndexOf(a + [c] + b, c) == Some(|a|)
  {
    if a == "" {
      assert (a + [c] + b)[0] == c;
    } else {
      IndexOfFirst(a[1..], c, b);
      assert (a + [c] + b)[1..] == a[1..] + [c] + b;
    }
  }

  /** Joined lines split back, as long as none holds a line end. */
  lemma {:induction false} SplitJoined(lines: seq<string>)
    requires forall l | l in lines :: '\n' !in l && (l == "" || l[|l| - 1] != '\r')
    ensures SplitLines(JoinLines(lines)) == lines
  {
    if lines != [] {
      var first, rest := lines[0], JoinLines(lines[1..]);
      SplitJoined(lines[1..]);
      var s := first + "\n" + rest;
      IndexOfFirst(first, '\n', rest);
      assert s == first + ['\n'] + rest;
      assert s[..|first|] == first && s[|first| + 1..] == rest;
    }
  }

  lemma {:induction false} LinesHoldNoLineEnd(s: string)
    ensures forall l | l in SplitLines(s) :: '\n' !in l
    decreases |s|
  {
    hide IndexOf, StripCr;
    if s != "" {
      var i := IndexOf(s, '\n');
      if i.Some? {
        LinesHoldNoLineEnd(s[i.value + 1..]);
        StripCrKeeps(s[..i.value]);
      }
    }
  }

  lemma StripCrKeeps(s: string)
    requires '\n' !in s
    ensures '\n' !in StripCr(s)
  {
  }

  // ----- One line -----

  /** Accepts `id TAB timestamp TAB reason` and the bare identifier. */
  function ParseLine(codec: Codec, line: string, fallback: Time): Option<Entry> {
    ParseTrimmed(codec, Trim(line), fallback)
  }

  function ParseTrimmed(codec: Codec, t: string, fallback: Time): Option<Entry> {
    if t == "" then None
    else
      var tab := IndexOf(t, '\t');
      var id := codec.parseId(if tab.Some? then t[..tab.value] else t);
      if id.None? then None
      else if tab.None? then Some(Entry(id.value, DEFAULT_REASON, fallback))
      else
        var rest := t[tab.value + 1..];
        match IndexOf(rest, '\t')
        case None => Some(Entry(id.value, DEFAULT_REASON, fallback))
        case Some(second) =>
          var time := codec.parseTime(rest[..second]);
          Some(Entry(id.value, rest[second + 1..], if time.Some? then time.value else fallback))
  }

  function FormatLine(codec: Codec, e: Entry): string {
    codec.printId(e.id) + "\t" + codec.printTime(e.timestamp) + "\t" + e.reason
  }

  predicate Clean(s: string) {
    s != "" && forall c | c in s :: !IsSpace(c)
  }

  /** What is assumed of the identifier and RFC 3339 codecs. */
  ghost predicate CodecOk(codec: Codec) {
    && (forall id: TokenId :: Clean(codec.printId(id)) && codec.parseId(codec.printId(id)) == Some(id))
    && (forall time :: Clean(codec.printTime(time)) && codec.parseTime(codec.printTime(time)) == Some(time))
  }

  /** A reason that survives being written and read. */
  predicate ReasonOk(reason: string) {
    reason != "" && '\n' !in reason && !IsSpace(reason[|reason| - 1])
  }

  lemma TailOk(t: string, k: nat)
    requires k < |t| && '\n' !in t && !IsSpace(t[|t| - 1])
    ensures ReasonOk(t[k..])
  {
    var r := t[k..];
    assert r[|r| - 1] == t[|t| - 1];
    assert forall c | c in r :: c in t;
  }

  lemma TrimKeeps(line: string)
    requires '\n' !in line
    ensures '\n' !in Trim(line) && (Trim(line) != "" ==> !IsSpace(Trim(line)[|Trim(line)| - 1]))
  {
    var t := TrimStart(line);
    TrimStartIs(line);
    TrimEndIs(t);
    assert forall c | c in t :: c in line;
    assert forall c | c in TrimEnd(t) :: c in t;
  }

  /** Every parsed reason is non-empty, single-line and without trailing space. */
  lemma ParsedReasonOk(codec: Codec, line: string, fallback: Time)
    requires '\n' !in line && ParseLine(codec, line, fallback).Some?
    ensures ReasonOk(ParseLine(codec, line, fallback).value.reason)
  {
    hide Trim, IsSpace, ReasonOk, ParseTrimmed;
    TrimKeeps(line);
    TrimmedReasonOk(codec, Trim(line), fallback);
  }

  lemma TrimmedReasonOk(codec: Codec, t: string, fallback: Time)
    requires '\n' !in t && (t != "" ==> !IsSpace(t[|t| - 1])) && ParseTrimmed(codec, t, fallback).Some?
    ensures ReasonOk(ParseTrimmed(codec, t, fallback).value.reason)
  {
    hide IsSpace, ReasonOk, IndexOf;
    DefaultReasonOk();
    var tab := IndexOf(t, '\t');
    if tab.Some? {
      ThirdFieldOk(t, tab.value + 1);
    }
  }

  /** What follows a tab inside text that ends in no space is a reason. */
  lemma ThirdFieldOk(t: string, k: nat)
    requires k <= |t| && '\n' !in t && (t != "" ==> !IsSpace(t[|t| - 1]))
    ensures var second := IndexOf(t[k..], '\t');
            second.Some? ==> ReasonOk(t[k..][second.value + 1..])
  {
    hide IsSpace, ReasonOk;
    var rest := t[k..];
    var second := IndexOf(rest, '\t');
    if second.Some? {
      TabIsSpace();
      assert t[k + second.value] == '\t';
      TailOk(t, k + second.value + 1);
      assert rest[second.value + 1..] == t[k + second.value + 1..];
    }
  }

  lemma DefaultReasonOk()
    ensures ReasonOk(DEFAULT_REASON)
  {
  }

  lemma TabIsSpace()
    ensures IsSpace('\t')
  {
  }

  lemma Untrimmed(s: string)
    requires s != "" && !IsSpace(s[0]) && !IsSpace(s[|s| - 1])
    ensures Trim(s) == s
  {
  }

  lemma NoTab(s: string)
    requires Clean(s)
    ensures '\t' !in s && '\n' !in s
  {
    assert IsSpace('\t') && IsSpace('\n');
  }

  lemma ParseFields(codec: Codec, id: TokenId, time: Time, reason: string, fallback: Time)
    requires CodecOk(codec)
    ensures ParseTrimmed(codec, codec.printId(id) + ['\t'] + (codec.printTime(time) + ['\t'] + reason), fallback) ==
            Some(Entry(id, reason, time))
  {
    var a, b := codec.printId(id), codec.printTime(time);
    NoTab(a);
    NoTab(b);
    var tail := b + ['\t'] + reason;
    var t := a + ['\t'] + tail;
    IndexOfFirst(a, '\t', tail);
    IndexOfFirst(b, '\t', reason);
    assert t[..|a|] == a && t[|a| + 1..] == tail;
    assert tail[..|b|] == b && tail[|b| + 1..] == reason;
  }

  lemma ParseNoReason(codec: Codec, id: TokenId, b: string, fallback: Time)
    requires CodecOk(codec) && '\t' !in b
    ensures ParseTrimmed(codec, codec.printId(id) + ['\t'] + b, fallback) ==
            Some(Entry(id, DEFAULT_REASON, fallback))
  {
    var a := codec.printId(id);
    NoTab(a);
    var t := a + ['\t'] + b;
    IndexOfFirst(a, '\t', b);
    assert t[..|a|] == a && t[|a| + 1..] == b;
  }

  /** Writing an entry and reading the line back gives the entry. */
  lemma ParseFormatted(codec: Codec, e: Entry, fallback: Time)
    requires CodecOk(codec) && ReasonOk(e.reason)
    ensures ParseLine(codec, FormatLine(codec, e), fallback) == Some(e)
  {
    hide ParseTrimmed;
    var a, b := codec.printId(e.id), codec.printTime(e.timestamp);
    var line := a + ['\t'] + (b + ['\t'] + e.reason);
    assert FormatLine(codec, e) == line;
    assert line[0] == a[0] && line[|line| - 1] == e.reason[|e.reason| - 1];
    assert a[0] in a;
    Untrimmed(line);
    ParseFields(codec, e.id, e.timestamp, e.reason, fallback);
  }

  lemma FormattedIsLine(codec: Codec, e: Entry)
    requires CodecOk(codec) && ReasonOk(e.reason)
    ensures var l := FormatLine(codec, e); '\n' !in l && l != "" && l[|l| - 1] != '\r'
  {
    NoTab(codec.printId(e.id));
    NoTab(codec.printTime(e.timestamp));
    assert IsSpace('\r');
  }

  // ----- The expiry rule -----

  /** Maximum token lifetime and clock-skew allowance. */
  datatype Limits = Limits(tokenTtl: nat, skewMargin: nat)

  const SKEW_MARGIN: nat := 5 * 60 * 1_000_000_000

  predicate IsExpired(limits: Limits, e: Entry, now: Time) {
    e.timestamp + limits.tokenTtl + limits.skewMargin < now
  }

  /** Normalises a requested lifetime and clamps it to the maximum. */
  function ClampTtl(requested: int, max: nat): (ttl: nat)
    requires max > 0
    ensures 0 < ttl <= max
    ensures 0 < requested <= max ==> ttl == requested
    ensures requested <= 0 || requested >= max ==> ttl == max
  {
    if requested <= 0 then max else Min(requested, max)
  }

  /** The expiry claim of a token issued at `now`. */
  function ExpiryOf(now: Time, requested: int, max: nat): Time
    requires max > 0
  {
    now + ClampTtl(requested, max)
  }

  /** A sidecar accepts a token until its own clock reaches the expiry. */
  predicate Accepts(clock: Time, expiry: Time) {
    clock < expiry
  }

  /** Some token the entry may name is still accepted by some clock that runs no
      further behind than the margin. */
  ghost predicate StillAccepted(limits: Limits, e: Entry, now: Time, issued: Time, requested: int, clock: Time)
    requires limits.tokenTtl > 0
  {
    && issued <= e.timestamp
    && now - clock <= limits.skewMargin
    && Accepts(clock, ExpiryOf(issued, requested, limits.tokenTtl))
  }

  /** The margin is exactly what is needed: an entry is kept while any such clock
      still accepts its token, and given up one instant after the last one. */
  lemma EntryOutlivesToken(limits: Limits, e: Entry, now: Time)
    requires limits.tokenTtl > 0
    ensures (exists issued, requested, clock :: StillAccepted(limits, e, now, issued, requested, clock)) ==>
              !IsExpired(limits, e, now)
    ensures (exists issued, requested, clock :: StillAccepted(limits, e, now, issued, requested, clock)) <==>
              !IsExpired(limits, e, now + 1)
  {
    if !IsExpired(limits, e, now + 1) {
      assert StillAccepted(limits, e, now, e.timestamp, limits.tokenTtl, now - limits.skewMargin);
    }
  }

  // ----- Loading -----

  /** The entries after reading `lines`: an unexpired line adds its token unless
      that token is already held. */
  function Merge(codec: Codec, limits: Limits, entries: map<TokenId, Entry>, lines: seq<string>, now: Time)
    : map<TokenId, Entry>
  {
    if lines == [] then entries
    else
      var n := |lines| - 1;
      Add(codec, limits, Merge(codec, limits, entries, lines[..n], now), lines[n], now)
  }

  function Add(codec: Codec, limits: Limits, entries: map<TokenId, Entry>, line: string, now: Time)
    : map<TokenId, Entry>
  {
    match ParseLine(codec, line, now)
    case None => entries
    case Some(e) => if IsExpired(limits, e, now) || e.id in entries then entries else entries[e.id := e]
  }

  /** Line `i` is an unexpired entry for `id`. */
  ghost predicate Revokes(codec: Codec, limits: Limits, lines: seq<string>, i: nat, now: Time, id: TokenId)
    requires i < |lines|
  {
    var e := ParseLine(codec, lines[i], now);
    e.Some? && !IsExpired(limits, e.value, now) && e.value.id == id
  }

  ghost predicate FirstRevokes(codec: Codec, limits: Limits, lines: seq<string>, i: nat, now: Time, id: TokenId)
    requires i < |lines|
  {
    Revokes(codec, limits, lines, i, now, id) && forall j | 0 <= j < i :: !Revokes(codec, limits, lines, j, now, id)
  }

  lemma MergeStep(codec: Codec, limits: Limits, entries: map<TokenId, Entry>, lines: seq<string>, now: Time)
    requires lines != []
    ensures Merge(codec, limits, entries, lines, now) ==
            Add(codec, limits, Merge(codec, limits, entries, lines[..|lines| - 1], now), lines[|lines| - 1], now)
  {
  }

  lemma {:induction false} MergeKeeps(codec: Codec, limits: Limits, entries: map<TokenId, Entry>,
                                      lines: seq<string>, now: Time, id: TokenId)
    requires id in entries
    ensures var r := Merge(codec, limits, entries, lines, now); id in r && r[id] == entries[id]
    decreases |lines|
  {
    if lines != [] {
      hide Add, ParseLine;
      var n := |lines| - 1;
      MergeKeeps(codec, limits, entries, lines[..n], now, id);
      AddMeans(codec, limits, Merge(codec, limits, entries, lines[..n], now), lines, n, now, id);
    }
  }

  /** Some unexpired line of `lines` names the token. */
  ghost predicate Listed(codec: Codec, limits: Limits, lines: seq<string>, now: Time, id: TokenId) {
    exists i | 0 <= i < |lines| :: Revokes(codec, limits, lines, i, now, id)
  }

  lemma ListedOneMore(codec: Codec, limits: Limits, lines: seq<string>, now: Time, id: TokenId)
    requires lines != []
    ensures var n := |lines| - 1;
            Listed(codec, limits, lines, now, id) <==>
            Listed(codec, limits, lines[..n], now, id) || Revokes(codec, limits, lines, n, now, id)
  {
    hide Revokes;
    var n := |lines| - 1;
    var init := lines[..n];
    RevokesEarlier(codec, limits, lines, n, now, id);
    if Listed(codec, limits, init, now, id) {
      var i :| 0 <= i < n && Revokes(codec, limits, init, i, now, id);
      assert Revokes(codec, limits, lines, i, now, id);
    }
  }

  lemma {:induction false} MergeHolds(codec: Codec, limits: Limits, entries: map<TokenId, Entry>,
                                      lines: seq<string>, now: Time, id: TokenId)
    requires id !in entries
    ensures id in Merge(codec, limits, entries, lines, now) <==> Listed(codec, limits, lines, now, id)
    decreases |lines|
  {
    if lines != [] {
      hide Merge, Add, Listed, Revokes;
      var n := |lines| - 1;
      MergeHolds(codec, limits, entries, lines[..n], now, id);
      MergeStep(codec, limits, entries, lines, now);
      AddMeans(codec, limits, Merge(codec, limits, entries, lines[..n], now), lines, n, now, id);
      ListedOneMore(codec, limits, lines, now, id);
    }
  }

  /** The first line that names the token decides what is held. */
  lemma {:induction false} MergeTakesFirst(codec: Codec, limits: Limits, entries: map<TokenId, Entry>,
                                           lines: seq<string>, now: Time, id: TokenId) returns (i: nat)
    requires id !in entries && id in Merge(codec, limits, entries, lines, now)
    ensures i < |lines| && FirstRevokes(codec, limits, lines, i, now, id)
    ensures ParseLine(codec, lines[i], now) == Some(Merge(codec, limits, entries, lines, now)[id])
    decreases |lines|
  {
    hide Add, Revokes, ParseLine, Listed;
    var n := |lines| - 1;
    var init := lines[..n];
    var before := Merge(codec, limits, entries, init, now);
    MergeStep(codec, limits, entries, lines, now);
    hide Merge;
    AddMeans(codec, limits, before, lines, n, now, id);
    RevokesEarlier(codec, limits, lines, n, now, id);
    if id in before {
      i := MergeTakesFirst(codec, limits, entries, init, now, id);
      assert lines[i] == init[i];
    } else {
      i := n;
      MergeHolds(codec, limits, entries, init, now, id);
      NotListed(codec, limits, init, now, id);
    }
  }

  lemma NotListed(codec: Codec, limits: Limits, lines: seq<string>, now: Time, id: TokenId)
    requires !Listed(codec, limits, lines, now, id)
    ensures forall i | 0 <= i < |lines| :: !Revokes(codec, limits, lines, i, now, id)
  {
  }

  /** What loading does to one token: a held entry stays; otherwise the first
      unexpired line of the token decides. */
  lemma MergeMeans(codec: Codec, limits: Limits, entries: map<TokenId, Entry>, lines: seq<string>, now: Time,
                   id: TokenId)
    ensures var r := Merge(codec, limits, entries, lines, now);
            && (id in entries ==> id in r && r[id] == entries[id])
            && (id !in entries ==> (id in r <==> Listed(codec, limits, lines, now, id)))
            && (id !in entries && id in r ==>
                  exists i | 0 <= i < |lines| :: FirstRevokes(codec, limits, lines, i, now, id) &&
                                                 ParseLine(codec, lines[i], now) == Some(r[id]))
  {
    hide Merge, ParseLine, FirstRevokes, Listed;
    if id in entries {
      MergeKeeps(codec, limits, entries, lines, now, id);
    } else {
      MergeHolds(codec, limits, entries, lines, now, id);
      if id in Merge(codec, limits, entries, lines, now) {
        var i := MergeTakesFirst(codec, limits, entries, lines, now, id);
      }
    }
  }

  lemma RevokesEarlier(codec: Codec, limits: Limits, lines: seq<string>, n: nat, now: Time, id: TokenId)
    requires n <= |lines|
    ensures forall i | 0 <= i < n ::
              Revokes(codec, limits, lines, i, now, id) == Revokes(codec, limits, lines[..n], i, now, id)
  {
    hide ParseLine, IsExpired;
  }

  /** One line more. */
  lemma AddMeans(codec: Codec, limits: Limits, entries: map<TokenId, Entry>, lines: seq<string>, n: nat, now: Time,
                 id: TokenId)
    requires n < |lines|
    ensures var r := Add(codec, limits, entries, lines[n], now);
            && (id in entries ==> id in r && r[id] == entries[id])
            && (id !in entries ==> (id in r <==> Revokes(codec, limits, lines, n, now, id)))
            && (id !in entries && id in r ==> ParseLine(codec, lines[n], now) == Some(r[id]))
  {
    hide ParseLine, IsExpired;
  }
}
