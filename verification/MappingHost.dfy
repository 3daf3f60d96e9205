/** Host normalisation of the action-mapping language. */
module MappingHost {
  import opened Prelude
  import opened Text
  import opened Utf8

  const COLON: byte := 58
  const DOT: byte := 46
  const OPEN: byte := 91
  const CLOSE: byte := 93
  const U32_MAX: nat := 0xFFFF_FFFF

  datatype Authority = Authority(name: Bytes, port: Option<Bytes>)

  // ----- The code's operations -----

  predicate IsDigit(b: byte) {
    48 <= b <= 57
  }

  predicate IsValidPort(port: Bytes) {
    port != [] && forall i | 0 <= i < |port| :: IsDigit(port[i])
  }

  function PortValue(port: Bytes): nat
    requires forall i | 0 <= i < |port| :: IsDigit(port[i])
  {
    if port == [] then 0
    else
      assert IsDigit(port[|port| - 1]);
      10 * PortValue(port[..|port| - 1]) + (port[|port| - 1] as int - 48)
  }

  function Print(n: nat): (s: Bytes)
    ensures IsValidPort(s)
  {
    var last: Bytes := [(48 + n % 10) as byte];
    if n < 10 then last else Print(n / 10) + last
  }

  /** Strips leading zeros; a number beyond 32 bits keeps its spelling. */
  function CanonicalPort(port: Bytes): (r: Bytes)
    requires IsValidPort(port)
    ensures IsValidPort(r)
  {
    if PortValue(port) <= U32_MAX then Print(PortValue(port)) else port
  }

  function DropDots(s: Bytes): (r: Bytes)
    ensures |r| <= |s| && r == s[..|r|] && (r == [] || r[|r| - 1] != DOT)
    ensures forall i | |r| <= i < |s| :: s[i] == DOT
  {
    if s != [] && s[|s| - 1] == DOT then DropDots(s[..|s| - 1]) else s
  }

  function LastColon(s: Bytes): (p: Option<nat>)
    ensures p.Some? ==> p.value < |s| && s[p.value] == COLON && COLON !in s[p.value + 1..]
    ensures p.None? ==> COLON !in s
  {
    if s == [] then None
    else if s[|s| - 1] == COLON then Some(|s| - 1)
    else
      var p := LastColon(s[..|s| - 1]);
      assert p.Some? ==> s[p.value + 1..] == s[..|s| - 1][p.value + 1..] + [s[|s| - 1]];
      p
  }

  /** Where a host name is followed by a port. */
  function PortColon(s: Bytes): (p: Option<nat>)
    ensures p.Some? ==> 0 < p.value < |s| && IsValidPort(s[p.value + 1..])
  {
    var c := LastColon(s);
    if c.Some? && c.value > 0 && COLON !in s[..c.value] && IsValidPort(s[c.value + 1..]) then c else None
  }

  function SplitAuthority(host: Bytes): Authority {
    var lower := Lower(DropDots(host));
    match PortColon(lower)
    case Some(c) => Authority(DropDots(lower[..c]), Some(CanonicalPort(lower[c + 1..])))
    case None => Authority(DropDots(lower), None)
  }

  predicate BracketColonAt(s: Bytes, i: int) {
    0 <= i && i + 2 <= |s| && s[i] == CLOSE && s[i + 1] == COLON
  }

  function FindBracketColon(s: Bytes, from: nat): (p: Option<nat>)
    requires from <= |s|
    ensures p.Some? ==> from <= p.value && BracketColonAt(s, p.value) &&
                        forall i | from <= i < p.value :: !BracketColonAt(s, i)
    ensures p.None? ==> forall i | from <= i :: !BracketColonAt(s, i)
    decreases |s| - from
  {
    if from == |s| then None
    else if BracketColonAt(s, from) then Some(from)
    else FindBracketColon(s, from + 1)
  }

  function SplitIpv6Authority(host: Bytes): Authority {
    var lower := Lower(host);
    var c := FindBracketColon(lower, 0);
    if c.Some? && IsValidPort(lower[c.value + 2..]) then
      Authority(lower[..c.value] + [CLOSE], Some(CanonicalPort(lower[c.value + 2..])))
    else Authority(lower, None)
  }

  function SplitMappingAuthority(authority: Bytes): Authority {
    var trimmed := Trim(authority);
    if trimmed != [] && trimmed[0] == OPEN then SplitIpv6Authority(trimmed) else SplitAuthority(trimmed)
  }

  function Render(a: Authority): Bytes {
    match a.port
    case None => a.name
    case Some(port) =>
      if port == Ascii("443") || port == Ascii("80") then a.name else a.name + [COLON] + port
  }

  function NormalizeMappingHost(host: Bytes): Bytes {
    Render(SplitMappingAuthority(host))
  }

  // ----- Ports -----

  lemma {:induction false} PrintParses(n: nat)
    ensures PortValue(Print(n)) == n
  {
    var s := Print(n);
    if n < 10 {
      assert s[..|s| - 1] == [];
    } else {
      PrintParses(n / 10);
      assert s[..|s| - 1] == Print(n / 10);
    }
  }

  lemma CanonicalPortStable(port: Bytes)
    requires IsValidPort(port)
    ensures CanonicalPort(CanonicalPort(port)) == CanonicalPort(port)
    ensures PortValue(CanonicalPort(port)) == PortValue(port)
  {
    PrintParses(PortValue(port));
  }

  lemma Default443()
    ensures Print(443) == Ascii("443") && IsValidPort(Ascii("443")) && PortValue(Ascii("443")) == 443
  {
    assert Print(4) == [52];
    assert Print(44) == [52, 52];
    PrintParses(443);
  }

  lemma Default80()
    ensures Print(80) == Ascii("80") && PortValue(Ascii("80")) == 80
  {
    assert Print(8) == [56];
    PrintParses(80);
  }

  /** Exactly the spellings of 80 and 443 are dropped. */
  lemma DefaultPort(port: Bytes)
    requires IsValidPort(port)
    ensures CanonicalPort(port) == Ascii("443") || CanonicalPort(port) == Ascii("80") <==>
            PortValue(port) == 443 || PortValue(port) == 80
  {
    CanonicalPortStable(port);
    Default443();
    Default80();
  }

  // ----- White space -----

  predicate StartsInSpace(s: Bytes) {
    SpaceLength(s) > 0
  }

  predicate EndsInSpace(s: Bytes) {
    SpaceLengthAtEnd(s) > 0
  }

  lemma {:induction false} TrimStartIs(s: Bytes)
    ensures !StartsInSpace(TrimStart(s))
    ensures !StartsInSpace(s) ==> TrimStart(s) == s
    decreases |s|
  {
    hide SpaceLength;
    if StartsInSpace(s) { TrimStartIs(s[SpaceLength(s)..]); }
  }

  lemma {:induction false} TrimEndIs(s: Bytes)
    ensures |TrimEnd(s)| <= |s| && TrimEnd(s) == s[..|TrimEnd(s)|]
    ensures !EndsInSpace(TrimEnd(s))
    ensures EndsInSpace(s) <==> TrimEnd(s) != s
    decreases |s|
  {
    hide SpaceLengthAtEnd;
    if EndsInSpace(s) { TrimEndIs(s[..|s| - SpaceLengthAtEnd(s)]); }
  }

  lemma PrefixStarts(s: Bytes, k: nat)
    requires k <= |s| && !StartsInSpace(s)
    ensures !StartsInSpace(s[..k])
  {
    var p := s[..k];
    if k >= 3 { assert p[..3] == s[..3]; }
  }

  lemma TrimmedIs(s: Bytes)
    ensures !StartsInSpace(Trim(s)) && !EndsInSpace(Trim(s))
    ensures !StartsInSpace(s) ==> Trim(s) == TrimEnd(s)
    ensures !StartsInSpace(s) && !EndsInSpace(s) ==> Trim(s) == s
  {
    TrimStartIs(s);
    var t := TrimStart(s);
    TrimEndIs(t);
    PrefixStarts(t, |TrimEnd(t)|);
  }

  lemma LowerKeepsSpace(s: Bytes)
    ensures SpaceLength(Lower(s)) == SpaceLength(s)
  {
    if |s| >= 3 {
      assert Lower(s)[..3] == [LowerByte(s[0]), LowerByte(s[1]), LowerByte(s[2])];
      assert s[..3] == [s[0], s[1], s[2]];
    }
  }

  lemma LowerKeepsSpaceAtEnd(s: Bytes)
    ensures SpaceLengthAtEnd(Lower(s)) == SpaceLengthAtEnd(s)
  {
    forall k | 0 <= k <= |s| ensures SpaceLength(Lower(s)[k..]) == SpaceLength(s[k..]) {
      assert Lower(s)[k..] == Lower(s[k..]);
      LowerKeepsSpace(s[k..]);
    }
  }

  // ----- When a second normalisation changes nothing -----

  predicate AllDots(s: Bytes) {
    forall i | 0 <= i < |s| :: s[i] == DOT
  }

  /** What normalisation drops after a name: dots, or dots and a default port. */
  ghost predicate DroppedAfter(name: Bytes, suffix: Bytes) {
    AllDots(suffix) || (COLON !in name && exists c, e | 0 <= c < e <= |suffix| :: DefaultPortAt(suffix, c, e))
  }

  ghost predicate DefaultPortAt(suffix: Bytes, c: nat, e: nat)
    requires c < e <= |suffix|
  {
    && AllDots(suffix[..c]) && suffix[c] == COLON
    && IsValidPort(suffix[c + 1..e]) && (PortValue(suffix[c + 1..e]) == 443 || PortValue(suffix[c + 1..e]) == 80)
    && AllDots(suffix[e..])
  }

  predicate Bracketed(t: Bytes) {
    t != [] && t[0] == OPEN
  }

  /** White space inside the host right before a dropped suffix. */
  ghost predicate SpaceBeforeDropped(host: Bytes) {
    var t := Trim(host);
    !Bracketed(t) && exists k | 0 <= k <= |t| :: EndsInSpace(t[..k]) && DroppedAfter(t[..k], t[k..])
  }

  lemma {:induction false} DropDotsIs(s: Bytes, k: nat)
    requires k <= |s| && (k == 0 || s[k - 1] != DOT) && AllDots(s[k..])
    ensures DropDots(s) == s[..k]
    decreases |s|
  {
    if k < |s| {
      var init := s[..|s| - 1];
      assert s[|s| - 1] == s[k..][|s| - 1 - k];
      forall i | 0 <= i < |init[k..]| ensures init[k..][i] == DOT { assert init[k..][i] == s[k..][i]; }
      DropDotsIs(init, k);
    } else {
      assert s[..k] == s;
    }
  }

  lemma LastColonIs(s: Bytes, c: nat)
    requires c < |s| && s[c] == COLON && COLON !in s[c + 1..]
    ensures LastColon(s) == Some(c)
  {
    assert LastColon(s).Some?;
  }

  /** A name and a port are split where they were joined. */
  lemma PortColonIs(name: Bytes, port: Bytes)
    requires name != [] && COLON !in name && IsValidPort(port)
    ensures PortColon(name + [COLON] + port) == Some(|name|)
  {
    var s := name + [COLON] + port;
    assert s[|name| + 1..] == port && s[..|name|] == name;
    LastColonIs(s, |name|);
  }

  lemma LowerTwice(s: Bytes)
    ensures Lower(Lower(s)) == Lower(s)
  {
  }

  lemma LowerPart(s: Bytes, i: nat, j: nat)
    requires i <= j <= |s|
    ensures Lower(s)[i..j] == Lower(s[i..j])
  {
  }

  lemma LowerPort(port: Bytes)
    requires IsValidPort(port)
    ensures Lower(port) == port
  {
    forall i | 0 <= i < |port| ensures LowerByte(port[i]) == port[i] { assert IsDigit(port[i]); }
  }

  lemma LastIsDigit(port: Bytes)
    requires IsValidPort(port)
    ensures port != [] && IsDigit(port[|port| - 1])
  {
  }

  lemma LowerColon(s: Bytes)
    ensures COLON in Lower(s) <==> COLON in s
  {
    forall i | 0 <= i < |s| ensures Lower(s)[i] == COLON <==> s[i] == COLON {}
    if COLON in s {
      var i :| 0 <= i < |s| && s[i] == COLON;
      assert Lower(s)[i] == COLON;
    }
  }

  /** A name as it appears in normal forms. */
  ghost predicate NormalName(n: Bytes) {
    !StartsInSpace(n) && !Bracketed(n) && (n == [] || n[|n| - 1] != DOT) && Lower(n) == n
  }

  lemma NoColonNoPort(n: Bytes)
    requires COLON !in n
    ensures PortColon(n).None?
  {
  }

  lemma NormalNameAlone(r: Bytes)
    requires NormalName(r) && !EndsInSpace(r) && PortColon(r).None?
    ensures NormalizeMappingHost(r) == r
  {
    TrimmedIs(r);
  }

  lemma SpaceThenPort(n: Bytes, port: Bytes)
    requires !StartsInSpace(n) && IsValidPort(port)
    ensures !StartsInSpace(n + [COLON] + port) && !EndsInSpace(n + [COLON] + port)
  {
    var s := n + [COLON] + port;
    var last := s[|s| - 1];
    assert IsDigit(last) by { assert last == port[|port| - 1]; }
    assert s[|s| - 1..] == [last];
    assert s[|s| - 2..][1] == last;
    if |s| >= 3 { assert s[|s| - 3..][2] == last && s[|s| - 3..][..3][2] == last; }
    assert |n| >= 3 ==> n[..3] == s[..3];
    assert |s| >= 3 ==> s[..3] == [s[0], s[1], s[2]];
    assert s[|n|] == COLON;
  }

  lemma DigitsHaveNoColon(port: Bytes)
    requires IsValidPort(port)
    ensures COLON !in port
  {
  }

  lemma JoinedUnchanged(n: Bytes, port: Bytes)
    requires NormalName(n) && IsValidPort(port)
    ensures var r := n + [COLON] + port; DropDots(r) == r && Lower(r) == r
  {
    var r := n + [COLON] + port;
    assert r[|r| - 1] == port[|port| - 1] && IsDigit(port[|port| - 1]);
    DropDotsIs(r, |r|);
    assert r[..|r|] == r;
    LowerPort(port);
    assert Lower(r) == Lower(n) + [COLON] + Lower(port);
  }

  lemma SplitJoined(n: Bytes, port: Bytes)
    requires NormalName(n) && COLON !in n && IsValidPort(port) && CanonicalPort(port) == port
    ensures SplitAuthority(n + [COLON] + port) ==
            if n == [] then Authority(n + [COLON] + port, None) else Authority(n, Some(port))
  {
    var r := n + [COLON] + port;
    JoinedUnchanged(n, port);
    assert r[..|n|] == n && r[|n| + 1..] == port;
    if n != [] {
      PortColonIs(n, port);
      DropDotsIs(n, |n|);
      assert n[..|n|] == n;
    } else {
      DigitsHaveNoColon(port);
      LastColonIs(r, 0);
    }
  }

  lemma NormalNameWithPort(n: Bytes, port: Bytes)
    requires NormalName(n) && COLON !in n && IsValidPort(port) && CanonicalPort(port) == port
    requires PortValue(port) != 443 && PortValue(port) != 80
    ensures NormalizeMappingHost(n + [COLON] + port) == n + [COLON] + port
  {
    hide Trim, StartsInSpace, EndsInSpace, CanonicalPort, PortValue, SplitAuthority, SplitIpv6Authority, IsValidPort;
    var r := n + [COLON] + port;
    SpaceThenPort(n, port);
    TrimmedIs(r);
    DefaultPort(port);
    SplitJoined(n, port);
    assert r[0] == if n == [] then COLON else n[0];
  }

  // ----- What a host without brackets normalises to -----

  /** Lowercased prefixes of trimmed text that do not end in a dot are normal. */
  lemma PrefixIsNormal(t: Bytes, k: nat)
    requires !StartsInSpace(t) && !Bracketed(t) && k <= |t| && (k == 0 || t[k - 1] != DOT)
    ensures NormalName(Lower(t[..k]))
    ensures EndsInSpace(Lower(t[..k])) <==> EndsInSpace(t[..k])
  {
    PrefixStarts(t, k);
    LowerKeepsSpace(t[..k]);
    LowerKeepsSpaceAtEnd(t[..k]);
    LowerTwice(t[..k]);
  }

  ghost predicate PlainAt(t: Bytes, k: nat) {
    k <= |t| && (k == 0 || t[k - 1] != DOT) && AllDots(t[k..]) && PortColon(Lower(t[..k])).None?
  }

  /** A name of `k` bytes, dots, a colon at `c`, a port up to `e`, dots. */
  ghost predicate PortAt(t: Bytes, k: nat, c: nat, e: nat) {
    && k <= c < e <= |t| && 0 < c
    && (k == 0 || t[k - 1] != DOT) && COLON !in t[..k]
    && AllDots(t[k..c]) && t[c] == COLON && IsValidPort(t[c + 1..e]) && AllDots(t[e..])
  }

  lemma SplitPlain(t: Bytes, k: nat)
    requires PlainAt(t, k)
    ensures SplitAuthority(t) == Authority(Lower(t[..k]), None)
  {
    DropDotsIs(t, k);
    var lower := Lower(t[..k]);
    DropDotsIs(lower, |lower|);
    assert lower[..|lower|] == lower;
  }

  lemma PortAtLower(t: Bytes, k: nat, c: nat, e: nat)
    requires PortAt(t, k, c, e)
    ensures DropDots(t) == t[..e]
    ensures Lower(t[..e]) == Lower(t[..c]) + [COLON] + t[c + 1..e]
    ensures COLON !in Lower(t[..c])
  {
    hide DropDots, IsValidPort;
    var port := t[c + 1..e];
    LastIsDigit(port);
    assert t[e - 1] == port[|port| - 1];
    DropDotsIs(t, e);
    LowerJoined(t[..c], port);
    assert t[..e] == t[..c] + [COLON] + port;
    NoColonBefore(t, k, c);
    LowerColon(t[..c]);
  }

  lemma LowerJoined(name: Bytes, port: Bytes)
    requires IsValidPort(port)
    ensures Lower(name + [COLON] + port) == Lower(name) + [COLON] + port
  {
    LowerPort(port);
  }

  lemma NoColonBefore(t: Bytes, k: nat, c: nat)
    requires k <= c <= |t| && COLON !in t[..k] && AllDots(t[k..c])
    ensures COLON !in t[..c]
  {
    assert t[..c] == t[..k] + t[k..c];
  }

  lemma SplitPort(t: Bytes, k: nat, c: nat, e: nat)
    requires PortAt(t, k, c, e)
    ensures SplitAuthority(t) == Authority(Lower(t[..k]), Some(CanonicalPort(t[c + 1..e])))
  {
    PortAtLower(t, k, c, e);
    var name, port := Lower(t[..c]), t[c + 1..e];
    PortColonIs(name, port);
    var l := name + [COLON] + port;
    assert l[..c] == name && l[c + 1..] == port;
    NameBeforeDots(t, k, c);
  }

  lemma NameBeforeDots(t: Bytes, k: nat, c: nat)
    requires k <= c <= |t| && (k == 0 || t[k - 1] != DOT) && AllDots(t[k..c])
    ensures DropDots(Lower(t[..c])) == Lower(t[..k])
  {
    var lower := Lower(t[..c]);
    forall i | 0 <= i < |lower[k..]| ensures lower[k..][i] == DOT {
      assert lower[k..][i] == LowerByte(t[k..c][i]);
    }
    DropDotsIs(lower, k);
    assert lower[..k] == Lower(t[..k]);
  }

  lemma LowerIsDot(b: byte)
    ensures LowerByte(b) == DOT <==> b == DOT
    ensures LowerByte(b) == COLON <==> b == COLON
    ensures IsDigit(LowerByte(b)) ==> LowerByte(b) == b
  {
  }

  lemma LowerIsSame(t: Bytes, e: nat)
    requires e <= |t|
    ensures var lower := Lower(t[..e]);
            && |lower| == e
            && (forall i | 0 <= i < e :: lower[i] == DOT <==> t[i] == DOT)
            && (forall i | 0 <= i < e :: lower[i] == COLON <==> t[i] == COLON)
            && (forall i | 0 <= i < e :: IsDigit(lower[i]) ==> lower[i] == t[i])
  {
    forall i | 0 <= i < e
      ensures var lower := Lower(t[..e]);
              && (lower[i] == DOT <==> t[i] == DOT) && (lower[i] == COLON <==> t[i] == COLON)
              && (IsDigit(lower[i]) ==> lower[i] == t[i])
    {
      LowerIsDot(t[i]);
    }
  }

  /** Reading the parts of a port split back from the lowercased text. */
  lemma PortPartsOf(t: Bytes, c: nat, e: nat) returns (k: nat)
    requires e <= |t| && AllDots(t[e..]) && PortColon(Lower(t[..e])) == Some(c)
    ensures PortAt(t, k, c, e)
  {
    hide PortValue, Lower, DropDots;
    LowerIsSame(t, e);
    var lower := Lower(t[..e]);
    var name := DropDots(lower[..c]);
    k := |name|;
    assert AllDots(t[k..c]) by {
      forall j | k <= j < c ensures t[j] == DOT { assert lower[..c][j] == DOT; }
    }
    assert COLON !in t[..k] by {
      assert forall i | 0 <= i < k :: lower[..c][i] == lower[i];
    }
    assert t[c + 1..e] == lower[c + 1..] by {
      forall i | c + 1 <= i < e ensures t[i] == lower[i] { assert IsDigit(lower[c + 1..][i - c - 1]); }
    }
    assert k > 0 ==> name[k - 1] == lower[k - 1];
  }

  lemma PartsOf(t: Bytes) returns (k: nat, c: nat, e: nat)
    ensures PlainAt(t, k) || PortAt(t, k, c, e)
  {
    hide PortColon, PortAt;
    var d := DropDots(t);
    e, c, k := |d|, 0, |d|;
    assert d == t[..e];
    assert AllDots(t[e..]);
    if PortColon(Lower(d)).Some? {
      c := PortColon(Lower(d)).value;
      k := PortPartsOf(t, c, e);
    }
  }

  /** Normalisation, read off the trimmed text: the lowercased name without dots,
      and the port by its value unless it is a default one. */
  lemma Normalizes(host: Bytes, k: nat, c: nat, e: nat)
    requires !Bracketed(Trim(host))
    ensures var t := Trim(host);
            PlainAt(t, k) ==> NormalizeMappingHost(host) == Lower(t[..k])
    ensures var t := Trim(host);
            PortAt(t, k, c, e) ==>
              NormalizeMappingHost(host) ==
              if PortValue(t[c + 1..e]) == 443 || PortValue(t[c + 1..e]) == 80 then Lower(t[..k])
              else Lower(t[..k]) + [COLON] + CanonicalPort(t[c + 1..e])
  {
    var t := Trim(host);
    if PlainAt(t, k) { SplitPlain(t, k); }
    if PortAt(t, k, c, e) {
      SplitPort(t, k, c, e);
      DefaultPort(t[c + 1..e]);
    }
  }

  // ----- Idempotence -----

  /** A result that ends in white space changes when normalised again. */
  lemma SpaceAtEndIsUnstable(r: Bytes)
    requires !StartsInSpace(r) && !Bracketed(r) && EndsInSpace(r)
    ensures NormalizeMappingHost(r) != r
  {
    TrimmedIs(r);
    TrimEndIs(r);
    var t := Trim(r);
    assert t != [] ==> t[0] == r[0];
    var k, c, e := PartsOf(t);
    Normalizes(r, k, c, e);
    if !PlainAt(t, k) {
      var port := CanonicalPort(t[c + 1..e]);
      PrefixStarts(t, k);
      LowerKeepsSpace(t[..k]);
      SpaceThenPort(Lower(t[..k]), port);
    }
  }

  ghost predicate BracketName(name: Bytes) {
    && Bracketed(name) && Lower(name) == name && name[|name| - 1] == CLOSE
    && forall i :: !BracketColonAt(name, i)
  }

  /** A bracketed text that stands for itself. */
  lemma BracketNameAlone(name: Bytes)
    requires BracketName(name)
    ensures NormalizeMappingHost(name) == name
  {
    hide Trim, StartsInSpace, EndsInSpace, SplitAuthority, CanonicalPort;
    BracketStart(name);
    CloseAtEnd(name);
    TrimmedIs(name);
  }

  lemma CloseAtEnd(s: Bytes)
    requires s != [] && s[|s| - 1] == CLOSE
    ensures !EndsInSpace(s)
  {
    assert s[|s| - 1..] == [CLOSE];
  }

  lemma SplitBracketed(name: Bytes, port: Bytes)
    requires BracketName(name) && IsValidPort(port) && CanonicalPort(port) == port
    ensures SplitIpv6Authority(name + [COLON] + port) == Authority(name, Some(port))
  {
    hide CanonicalPort;
    var r, c := name + [COLON] + port, |name| - 1;
    LowerPort(port);
    assert Lower(r) == Lower(name) + [COLON] + Lower(port);
    assert BracketColonAt(r, c);
    forall i | 0 <= i < c ensures !BracketColonAt(r, i) { assert !BracketColonAt(name, i); }
    assert FindBracketColon(r, 0) == Some(c);
    assert r[c + 2..] == port && r[..c] + [CLOSE] == name;
  }

  lemma BracketStart(name: Bytes)
    requires Bracketed(name)
    ensures !StartsInSpace(name)
  {
  }

  lemma BracketNameWithPort(name: Bytes, port: Bytes)
    requires BracketName(name) && IsValidPort(port) && CanonicalPort(port) == port
    requires PortValue(port) != 443 && PortValue(port) != 80
    ensures NormalizeMappingHost(name + [COLON] + port) == name + [COLON] + port
  {
    hide CanonicalPort, PortValue, IsValidPort, SplitIpv6Authority, SplitAuthority, Trim, StartsInSpace, EndsInSpace;
    var r := name + [COLON] + port;
    BracketStart(name);
    SpaceThenPort(name, port);
    TrimmedIs(r);
    SplitBracketed(name, port);
    DefaultPort(port);
    assert r[0] == OPEN;
  }

  /** Splitting a bracketed text either keeps it whole or cuts off a port. */
  lemma BracketParts(t: Bytes)
    requires Bracketed(t)
    ensures var a := SplitIpv6Authority(t);
            match a.port
            case None => a.name == Lower(t)
            case Some(port) =>
              BracketName(a.name) && IsValidPort(port) && CanonicalPort(port) == port
  {
    var lower := Lower(t);
    var found := FindBracketColon(lower, 0);
    if found.Some? && IsValidPort(lower[found.value + 2..]) {
      var c, port := found.value, lower[found.value + 2..];
      var name := lower[..c] + [CLOSE];
      assert name == lower[..c + 1];
      forall i ensures !BracketColonAt(name, i) {
        assert BracketColonAt(name, i) ==> BracketColonAt(lower, i) && i < c;
      }
      LowerTwice(t);
      LowerPart(lower, 0, c + 1);
      CanonicalPortStable(port);
    }
  }

  lemma BracketedWhole(t: Bytes)
    requires Bracketed(t) && !StartsInSpace(t) && !EndsInSpace(t) && SplitIpv6Authority(t).port.None?
    ensures NormalizeMappingHost(Lower(t)) == Lower(t)
  {
    LowerKeepsSpace(t);
    LowerKeepsSpaceAtEnd(t);
    TrimmedIs(Lower(t));
    LowerTwice(t);
  }

  lemma BracketedStable(host: Bytes)
    requires Bracketed(Trim(host))
    ensures NormalizeMappingHost(NormalizeMappingHost(host)) == NormalizeMappingHost(host)
    ensures !SpaceBeforeDropped(host)
  {
    var t := Trim(host);
    TrimmedIs(host);
    BracketParts(t);
    var a := SplitIpv6Authority(t);
    var r := NormalizeMappingHost(host);
    assert r == Render(a);
    hide NormalizeMappingHost, Trim, SplitIpv6Authority, CanonicalPort, PortValue;
    match a.port
    case None => BracketedWhole(t);
    case Some(port) =>
      DefaultPort(port);
      if r == a.name {
        BracketNameAlone(a.name);
      } else {
        BracketNameWithPort(a.name, port);
      }
  }

  lemma PortEndsInDigit(s: Bytes)
    ensures PortColon(s).Some? ==> s != [] && IsDigit(s[|s| - 1])
  {
    if PortColon(s).Some? {
      var port := s[PortColon(s).value + 1..];
      LastIsDigit(port);
      assert port[|port| - 1] == s[|s| - 1];
    }
  }

  lemma SpaceIsNoDigit(a: Bytes)
    requires EndsInSpace(a)
    ensures a != [] && !IsDigit(a[|a| - 1]) && a[|a| - 1] != DOT
    ensures !IsDigit(LowerByte(a[|a| - 1]))
  {
  }

  lemma DroppedIsPlain(t: Bytes, k: nat)
    requires k <= |t| && EndsInSpace(t[..k]) && AllDots(t[k..])
    ensures PlainAt(t, k)
  {
    hide SpaceLengthAtEnd, EndsInSpace, PortColon, AllDots;
    var a := t[..k];
    SpaceIsNoDigit(a);
    assert a[k - 1] == t[k - 1];
    PortEndsInDigit(Lower(a));
  }

  lemma DroppedIsPort(t: Bytes, k: nat, c: nat, e: nat)
    requires k <= |t| && EndsInSpace(t[..k]) && COLON !in t[..k]
    requires c < e <= |t| - k && DefaultPortAt(t[k..], c, e)
    ensures PortAt(t, k, k + c, k + e)
    ensures t[k + c + 1..k + e] == t[k..][c + 1..e]
  {
    assert t[..k][k - 1] == t[k - 1];
    assert t[k - 1] != DOT;
    assert t[k..k + c] == t[k..][..c] && t[k + e..] == t[k..][e..];
    assert t[k + c + 1..k + e] == t[k..][c + 1..e];
  }

  lemma DroppedSpaceShows(host: Bytes, k: nat)
    requires !Bracketed(Trim(host)) && k <= |Trim(host)|
    requires var t := Trim(host); EndsInSpace(t[..k]) && DroppedAfter(t[..k], t[k..])
    ensures EndsInSpace(NormalizeMappingHost(host))
  {
    hide NormalizeMappingHost, Trim, PortColon, CanonicalPort, PortValue, SpaceLengthAtEnd;
    hide PlainAt, PortAt, IsValidPort;
    var t := Trim(host);
    LowerKeepsSpaceAtEnd(t[..k]);
    if AllDots(t[k..]) {
      DroppedIsPlain(t, k);
      Normalizes(host, k, 0, 0);
    } else {
      var c, e :| 0 <= c < e <= |t[k..]| && DefaultPortAt(t[k..], c, e);
      DroppedIsPort(t, k, c, e);
      Normalizes(host, k, k + c, k + e);
    }
  }

  lemma PortAtIsDropped(t: Bytes, k: nat, c: nat, e: nat)
    requires PortAt(t, k, c, e) && (PortValue(t[c + 1..e]) == 443 || PortValue(t[c + 1..e]) == 80)
    ensures DroppedAfter(t[..k], t[k..])
  {
    var suffix := t[k..];
    assert suffix[..c - k] == t[k..c] && suffix[c - k + 1..e - k] == t[c + 1..e] && suffix[e - k..] == t[e..];
    assert DefaultPortAt(suffix, c - k, e - k);
  }

  lemma SpaceFound(host: Bytes)
    requires !Bracketed(Trim(host)) && EndsInSpace(NormalizeMappingHost(host))
    ensures SpaceBeforeDropped(host)
  {
    hide NormalizeMappingHost, Trim, StartsInSpace, EndsInSpace, DroppedAfter, PortColon, CanonicalPort, PortValue;
    var t := Trim(host);
    TrimmedIs(host);
    var k, c, e := PartsOf(t);
    Normalizes(host, k, c, e);
    PrefixIsNormal(t, k);
    if PlainAt(t, k) {
      DotsAreDropped(t[..k], t[k..]);
    } else {
      var port := t[c + 1..e];
      SpaceThenPort(Lower(t[..k]), CanonicalPort(port));
      PortAtIsDropped(t, k, c, e);
    }
    assert EndsInSpace(t[..k]) && DroppedAfter(t[..k], t[k..]);
  }

  lemma DotsAreDropped(name: Bytes, suffix: Bytes)
    requires AllDots(suffix)
    ensures DroppedAfter(name, suffix)
  {
  }

  /** Exactly when white space precedes a dropped suffix does the normal form of
      a host without brackets end in white space. */
  lemma EndsInSpaceIff(host: Bytes)
    requires !Bracketed(Trim(host))
    ensures EndsInSpace(NormalizeMappingHost(host)) <==> SpaceBeforeDropped(host)
  {
    hide NormalizeMappingHost, Trim, EndsInSpace, DroppedAfter;
    var t := Trim(host);
    if SpaceBeforeDropped(host) {
      var k :| 0 <= k <= |t| && EndsInSpace(t[..k]) && DroppedAfter(t[..k], t[k..]);
      DroppedSpaceShows(host, k);
    }
    if EndsInSpace(NormalizeMappingHost(host)) {
      SpaceFound(host);
    }
  }

  /** Normalising twice changes nothing exactly when no white space stands right
      before trailing dots or a default port. */
  lemma IdempotentIff(host: Bytes)
    ensures NormalizeMappingHost(NormalizeMappingHost(host)) == NormalizeMappingHost(host) <==>
            !SpaceBeforeDropped(host)
  {
    hide NormalizeMappingHost, Trim, StartsInSpace, EndsInSpace, SpaceBeforeDropped, PortColon, CanonicalPort;
    var t, r := Trim(host), NormalizeMappingHost(host);
    if Bracketed(t) {
      BracketedStable(host);
    } else {
      TrimmedIs(host);
      EndsInSpaceIff(host);
      var k, c, e := PartsOf(t);
      Normalizes(host, k, c, e);
      PrefixIsNormal(t, k);
      var n := Lower(t[..k]);
      if EndsInSpace(r) {
        if r != n { SpaceThenPort(n, CanonicalPort(t[c + 1..e])); }
        SpaceAtEndIsUnstable(r);
      } else if PlainAt(t, k) {
        NormalNameAlone(r);
      } else {
        LowerColon(t[..k]);
        CanonicalPortStable(t[c + 1..e]);
        if r == n {
          NoColonNoPort(n);
          NormalNameAlone(r);
        } else {
          NormalNameWithPort(n, CanonicalPort(t[c + 1..e]));
        }
      }
    }
  }

  ghost predicate SpaceFree(host: Bytes) {
    forall k | 0 <= k <= |host| :: SpaceLength(host[k..]) == 0
  }

  lemma SpaceAtEndStarts(p: Bytes) returns (k: nat)
    requires EndsInSpace(p)
    ensures k <= |p| && StartsInSpace(p[k..])
  {
    k := |p| - SpaceLengthAtEnd(p);
  }

  lemma SpaceInside(t: Bytes, k: nat)
    requires k <= |t| && EndsInSpace(t[..k])
    ensures !SpaceFree(t)
  {
    hide EndsInSpace, SpaceLength;
    var j := SpaceAtEndStarts(t[..k]);
    assert t[j..][..k - j] == t[..k][j..];
    if SpaceFree(t) {
      PrefixStarts(t[j..], k - j);
    }
  }

  /** Every host without white space is normalised by one pass. */
  lemma SpaceFreeIdempotent(host: Bytes)
    requires SpaceFree(host)
    ensures NormalizeMappingHost(NormalizeMappingHost(host)) == NormalizeMappingHost(host)
  {
    IdempotentIff(host);
    hide NormalizeMappingHost, Trim, EndsInSpace, DroppedAfter;
    assert host[0..] == host && host[..|host|] == host;
    if EndsInSpace(host) { SpaceInside(host, |host|); }
    TrimmedIs(host);
    if SpaceBeforeDropped(host) {
      var k :| 0 <= k <= |host| && EndsInSpace(host[..k]) && DroppedAfter(host[..k], host[k..]);
      SpaceInside(host, k);
    }
  }

  lemma PortSuffix(name: Bytes, port: Bytes)
    requires IsValidPort(port) && PortValue(port) == 443 && COLON !in name
    ensures DroppedAfter(name, [COLON] + port)
  {
    hide PortValue, IsValidPort;
    var suffix := [COLON] + port;
    assert suffix[1..|suffix|] == port && suffix[..0] == [] && suffix[|suffix|..] == [];
    assert DefaultPortAt(suffix, 0, |suffix|);
  }

  lemma SpaceShows(host: Bytes, k: nat)
    requires Trim(host) == host && !Bracketed(host) && k <= |host|
    requires EndsInSpace(host[..k]) && DroppedAfter(host[..k], host[k..])
    ensures SpaceBeforeDropped(host)
  {
    hide Trim, EndsInSpace, DroppedAfter;
  }

  lemma FrontKept(name: Bytes, port: Bytes)
    requires !Bracketed(name)
    ensures var host := name + [COLON] + port;
            !Bracketed(host) && |name| <= |host| && host[..|name|] == name && host[|name|..] == [COLON] + port
  {
  }

  lemma SpaceBeforePort(name: Bytes, port: Bytes)
    requires !StartsInSpace(name) && !Bracketed(name) && COLON !in name && EndsInSpace(name)
    requires IsValidPort(port) && PortValue(port) == 443
    ensures var host := name + [COLON] + port;
            NormalizeMappingHost(NormalizeMappingHost(host)) != NormalizeMappingHost(host)
  {
    hide *;
    var host := name + [COLON] + port;
    SpaceThenPort(name, port);
    TrimmedIs(host);
    PortSuffix(name, port);
    FrontKept(name, port);
    SpaceShows(host, |name|);
    IdempotentIff(host);
  }

  /** Any name that ends in white space shows it, once `:443` is appended. */
  lemma SpaceBeforeDefaultPort(name: Bytes)
    requires !StartsInSpace(name) && !Bracketed(name) && COLON !in name && EndsInSpace(name)
    ensures var host := name + [COLON] + Ascii("443");
            NormalizeMappingHost(NormalizeMappingHost(host)) != NormalizeMappingHost(host)
  {
    hide *;
    Default443();
    SpaceBeforePort(name, Ascii("443"));
  }

  /** `a :443` becomes `a ` and then `a`. */
  lemma NotIdempotent()
    ensures var host: Bytes := [97, 32] + [COLON] + Ascii("443");
            NormalizeMappingHost(NormalizeMappingHost(host)) != NormalizeMappingHost(host)
  {
    var name: Bytes := [97, 32];
    assert name[1..] == [32];
    assert !StartsInSpace(name) && EndsInSpace(name);
    hide *;
    SpaceBeforeDefaultPort(name);
  }
}
