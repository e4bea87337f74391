/** X-Forwarded-For resolution (pkg/xff/xff.go).  Parsing of addresses and
    subnets and subnet membership are parameters of the model; splitting and
    trimming work on real strings. */
module Xff {
  import opened Prelude

  /** net.ParseIP, net.ParseCIDR and IPNet.Contains. */
  datatype Net<!Ip, !Mask> = Net(parseIp: string -> Option<Ip>, parseCidr: string -> Option<Mask>,
    contains: (Mask, Ip) -> bool)

  /** unicode.IsSpace. */
  predicate IsSpace(c: char) {
    || '\t' <= c <= '\r' || c == ' ' || c == '\U{85}' || c == '\U{A0}' || c == '\U{1680}'
    || '\U{2000}' <= c <= '\U{200A}' || c == '\U{2028}' || c == '\U{2029}' || c == '\U{202F}' || c == '\U{205F}'
    || c == '\U{3000}'
  }

  function TrimLeft(s: string): string {
    if s != [] && IsSpace(s[0]) then TrimLeft(s[1..]) else s
  }

  function TrimRight(s: string): string {
    if s != [] && IsSpace(s[|s| - 1]) then TrimRight(s[..|s| - 1]) else s
  }

  /** strings.TrimSpace. */
  function Trim(s: string): string { TrimRight(TrimLeft(s)) }

  /** The characters with Unicode's White_Space property, one by one. */
  const WHITE_SPACE: string := [
    '\t', '\n', '\U{0B}', '\U{0C}', '\r', ' ', '\U{85}', '\U{A0}', '\U{1680}',
    '\U{2000}', '\U{2001}', '\U{2002}', '\U{2003}', '\U{2004}', '\U{2005}', '\U{2006}', '\U{2007}',
    '\U{2008}', '\U{2009}', '\U{200A}', '\U{2028}', '\U{2029}', '\U{202F}', '\U{205F}', '\U{3000}']

  predicate Blank(s: string) { forall k :: 0 <= k < |s| ==> s[k] in WHITE_SPACE }

  /** t is s without the white space around it. */
  ghost predicate Trimmed(s: string, t: string) {
    && (exists a, b :: s == a + t + b && Blank(a) && Blank(b))
    && (t != "" ==> t[0] !in WHITE_SPACE && t[|t| - 1] !in WHITE_SPACE)
  }

  lemma SpaceIs(c: char)
    ensures IsSpace(c) <==> c in WHITE_SPACE
  {
  }

  predicate Spaces(s: string) { forall k :: 0 <= k < |s| ==> IsSpace(s[k]) }

  lemma {:induction false} TrimLeftIs(s: string) returns (a: string)
    ensures s == a + TrimLeft(s) && Spaces(a)
    ensures TrimLeft(s) != "" ==> !IsSpace(TrimLeft(s)[0])
  {
    a := "";
    if s != "" {
      if IsSpace(s[0]) {
        var rest := TrimLeftIs(s[1..]);
        a := [s[0]] + rest;
        assert s == [s[0]] + s[1..];
      }
    }
  }

  lemma {:induction false} TrimRightIs(s: string) returns (b: string)
    ensures s == TrimRight(s) + b && Spaces(b)
    ensures TrimRight(s) != "" ==> !IsSpace(TrimRight(s)[|TrimRight(s)| - 1])
  {
    b := "";
    if s != "" {
      var n := |s| - 1;
      if IsSpace(s[n]) {
        var rest := TrimRightIs(s[..n]);
        b := rest + [s[n]];
        assert s == s[..n] + [s[n]];
      }
    }
  }

  lemma {:induction false} TrimLeftSkips(a: string, x: string)
    requires Spaces(a)
    ensures TrimLeft(a + x) == TrimLeft(x)
  {
    if a == "" {
      assert a + x == x;
    } else {
      assert (a + x)[1..] == a[1..] + x;
      TrimLeftSkips(a[1..], x);
    }
  }

  lemma {:induction false} TrimRightSkips(x: string, b: string)
    requires Spaces(b)
    ensures TrimRight(x + b) == TrimRight(x)
  {
    if b == "" {
      assert x + b == x;
    } else {
      var n := |b| - 1;
      assert (x + b)[..|x + b| - 1] == x + b[..n];
      TrimRightSkips(x, b[..n]);
    }
  }

  lemma TrimSplits(s: string) returns (a: string, b: string)
    ensures s == a + Trim(s) + b && Spaces(a) && Spaces(b)
    ensures Trim(s) != "" ==> !IsSpace(Trim(s)[0]) && !IsSpace(Trim(s)[|Trim(s)| - 1])
  {
    a := TrimLeftIs(s);
    b := TrimRightIs(TrimLeft(s));
    var t := Trim(s);
    assert a + (t + b) == a + t + b;
    assert t != "" ==> t[0] == TrimLeft(s)[0];
  }

  lemma TrimOf(a: string, t: string, b: string)
    requires Spaces(a) && Spaces(b) && (t != "" ==> !IsSpace(t[0]) && !IsSpace(t[|t| - 1]))
    ensures Trim(a + t + b) == t
  {
    assert a + t + b == a + (t + b);
    TrimLeftSkips(a, t + b);
    if t == "" {
      assert t + b == b && b + "" == b;
      TrimLeftSkips(b, "");
    } else {
      assert (t + b)[0] == t[0];
      TrimRightSkips(t, b);
    }
  }

  lemma BlankIs(s: string)
    ensures Blank(s) <==> Spaces(s)
  {
    forall k | 0 <= k < |s| ensures s[k] in WHITE_SPACE <==> IsSpace(s[k]) { SpaceIs(s[k]); }
  }

  lemma EndsAre(t: string)
    ensures t != "" ==> (IsSpace(t[0]) <==> t[0] in WHITE_SPACE)
    ensures t != "" ==> (IsSpace(t[|t| - 1]) <==> t[|t| - 1] in WHITE_SPACE)
  {
    if t != "" {
      SpaceIs(t[0]);
      SpaceIs(t[|t| - 1]);
    }
  }

  /** TrimSpace removes exactly the white space around a text. */
  lemma TrimIff(s: string, t: string)
    ensures Trimmed(s, t) <==> t == Trim(s)
  {
    EndsAre(t);
    if t == Trim(s) {
      var a, b := TrimSplits(s);
      BlankIs(a);
      BlankIs(b);
    }
    if Trimmed(s, t) {
      var a, b :| s == a + t + b && Blank(a) && Blank(b);
      BlankIs(a);
      BlankIs(b);
      TrimOf(a, t, b);
    }
  }

  /** strings.Split(s, ","): always at least one entry. */
  function Split(s: string): (r: seq<string>)
    ensures |r| >= 1
  {
    if s == [] then [[]]
    else
      var rest := Split(s[1..]);
      if s[0] == ',' then [[]] + rest else [[s[0]] + rest[0]] + rest[1..]
  }

  function JoinCommas(entries: seq<string>): string
    requires entries != []
  {
    if |entries| == 1 then entries[0] else entries[0] + "," + JoinCommas(entries[1..])
  }

  predicate NoComma(s: string) { forall k :: 0 <= k < |s| ==> s[k] != ',' }

  lemma {:induction false} SplitNoComma(s: string)
    requires NoComma(s)
    ensures Split(s) == [s]
  {
    if s != [] {
      SplitNoComma(s[1..]);
      assert [s[0]] + s[1..] == s;
    }
  }

  /** Splitting a comma-joined text splits its sides. */
  lemma {:induction false} SplitConcat(a: string, b: string)
    ensures Split(a + "," + b) == Split(a) + Split(b)
  {
    if a == [] {
      assert (a + "," + b)[1..] == b;
    } else {
      assert (a + "," + b)[1..] == a[1..] + "," + b;
      SplitConcat(a[1..], b);
    }
  }

  /** Split is the inverse of joining with commas. */
  lemma {:induction false} SplitJoin(entries: seq<string>)
    requires entries != [] && forall k :: 0 <= k < |entries| ==> NoComma(entries[k])
    ensures Split(JoinCommas(entries)) == entries
  {
    SplitNoComma(entries[0]);
    if |entries| > 1 {
      SplitConcat(entries[0], JoinCommas(entries[1..]));
      SplitJoin(entries[1..]);
    }
  }

  lemma JoinGrow(c: char, first: string, tail: seq<string>)
    ensures JoinCommas([[c] + first] + tail) == [c] + JoinCommas([first] + tail)
  {
    if tail == [] {
      assert [[c] + first] + tail == [[c] + first] && [first] + tail == [first];
    } else {
      JoinHead([c] + first, tail);
      JoinHead(first, tail);
      assert [c] + first + "," + JoinCommas(tail) == [c] + (first + "," + JoinCommas(tail));
    }
  }

  lemma JoinHead(first: string, tail: seq<string>)
    requires tail != []
    ensures JoinCommas([first] + tail) == first + "," + JoinCommas(tail)
  {
    assert ([first] + tail)[1..] == tail;
  }

  lemma {:induction false} JoinSplit(s: string)
    ensures JoinCommas(Split(s)) == s
  {
    if s != [] {
      JoinSplit(s[1..]);
      var rest := Split(s[1..]);
      assert [s[0]] + s[1..] == s && [rest[0]] + rest[1..] == rest;
      if s[0] == ',' { JoinHead([], rest); } else { JoinGrow(s[0], rest[0], rest[1..]); }
    }
  }

  // ----- the backward scan -----

  /** What the scan looks at: the trimmed entries, whether they parse, whether
      they are trusted. */
  datatype Judge = Judge(parses: string -> bool, allowed: string -> bool)

  /** The address chosen from a list of entries, scanning from the right: the
      last entry if it does not parse yields nothing; an untrusted one is the
      answer; a trusted one is the answer only if nothing left of it is. */
  function Resolve(entries: seq<string>, j: Judge): Option<string> {
    if entries == [] then None
    else
      var ip := Trim(entries[|entries| - 1]);
      if !j.parses(ip) then None
      else if !j.allowed(ip) then Some(ip)
      else match Resolve(entries[..|entries| - 1], j)
        case None => Some(ip)
        case Some(further) => Some(further)
  }

  function OrEmpty(r: Option<string>): string {
    if r.Some? then r.value else ""
  }

  /** parse, lines 88-118: the shortcut for one entry and the backward loop. */
  method Parse(ipList: string, j: Judge) returns (r: string)
    ensures r == OrEmpty(Resolve(Split(ipList), j))
  {
    var ips := Split(ipList);
    if |ips| == 1 {
      var ip := Trim(ips[0]);
      assert ips[..0] == [] && Resolve(ips[..0], j) == None;
      if j.parses(ip) { return ip; }
      return "";
    }
    var lastIP := "";
    var i := |ips|;
    assert ips[..i] == ips;
    while i > 0
      invariant 0 <= i <= |ips|
      invariant OrEmpty(Resolve(ips, j)) == if Resolve(ips[..i], j).Some? then Resolve(ips[..i], j).value else lastIP
    {
      i := i - 1;
      var ip := Trim(ips[i]);
      assert ips[..i + 1][..i] == ips[..i];
      if !j.parses(ip) { break; }
      lastIP := ip;
      if !j.allowed(ip) { break; }
    }
    r := lastIP;
  }

  // ----- which entry is chosen -----

  predicate Parsable(entries: seq<string>, j: Judge, k: nat)
    requires k < |entries|
  {
    j.parses(Trim(entries[k]))
  }

  predicate Trusted(entries: seq<string>, j: Judge, k: nat)
    requires k < |entries|
  {
    Parsable(entries, j, k) && j.allowed(Trim(entries[k]))
  }

  /** Everything right of k is trusted, k parses, and the scan stops at k: it is
      the leftmost entry, untrusted, or right of an unparsable one. */
  ghost predicate Chosen(entries: seq<string>, j: Judge, k: nat) {
    && k < |entries| && Parsable(entries, j, k)
    && (forall m :: k < m < |entries| ==> Trusted(entries, j, m))
    && (k == 0 || !Trusted(entries, j, k) || !Parsable(entries, j, k - 1))
  }

  /** Nothing is chosen exactly when the rightmost entry does not parse;
      otherwise the result is the entry at a chosen index. */
  lemma {:induction false} ResolveIsChosen(entries: seq<string>, j: Judge)
    requires entries != []
    ensures Resolve(entries, j).None? <==> !Parsable(entries, j, |entries| - 1)
    ensures Resolve(entries, j).Some? ==>
      exists k :: 0 <= k < |entries| && Chosen(entries, j, k) && Resolve(entries, j) == Some(Trim(entries[k]))
    decreases |entries|
  {
    var n := |entries| - 1;
    var front := entries[..n];
    if Parsable(entries, j, n) {
      if !Trusted(entries, j, n) || n == 0 {
        assert Chosen(entries, j, n);
      } else {
        ResolveIsChosen(front, j);
        if Resolve(front, j).None? {
          assert Parsable(entries, j, n - 1) == Parsable(front, j, n - 1);
          assert Chosen(entries, j, n);
        } else {
          var k :| 0 <= k < |front| && Chosen(front, j, k) && Resolve(front, j) == Some(Trim(front[k]));
          ChosenExtends(entries, j, k);
        }
      }
    }
  }

  lemma ChosenExtends(entries: seq<string>, j: Judge, k: nat)
    requires entries != [] && Trusted(entries, j, |entries| - 1) && Chosen(entries[..|entries| - 1], j, k)
    ensures Chosen(entries, j, k)
  {
    var n := |entries| - 1;
    var front := entries[..n];
    forall m | k < m < |entries| ensures Trusted(entries, j, m) {
      if m < n { assert Trusted(front, j, m); }
    }
    assert k > 0 ==> Parsable(front, j, k - 1) == Parsable(entries, j, k - 1);
    assert Trusted(front, j, k) == Trusted(entries, j, k);
  }

  lemma NoneChosenBehind(entries: seq<string>, j: Judge, k: nat)
    requires Chosen(entries, j, k)
    ensures forall m :: k < m < |entries| ==> !Chosen(entries, j, m)
  {
    forall m | k < m < |entries| ensures !Chosen(entries, j, m) {
      assert Trusted(entries, j, m);
      assert Parsable(entries, j, m - 1) by { assert m - 1 == k || Trusted(entries, j, m - 1); }
    }
  }

  /** There is only one such index. */
  lemma ChosenIsUnique(entries: seq<string>, j: Judge, k: nat, m: nat)
    requires Chosen(entries, j, k) && Chosen(entries, j, m)
    ensures k == m
  {
    NoneChosenBehind(entries, j, k);
    NoneChosenBehind(entries, j, m);
  }

  /** parse returns the empty string exactly when the rightmost entry does not
      parse, given that the empty string is no address. */
  lemma EmptyResult(h: string, j: Judge)
    requires !j.parses("")
    ensures OrEmpty(Resolve(Split(h), j)) == "" <==> !Parsable(Split(h), j, |Split(h)| - 1)
  {
    ResolveIsChosen(Split(h), j);
  }

  // ----- concatenation of headers -----

  ghost predicate AllTrusted(entries: seq<string>, j: Judge) {
    forall m :: 0 <= m < |entries| ==> Trusted(entries, j, m)
  }

  lemma {:induction false} ResolveConcat(a: seq<string>, b: seq<string>, j: Judge)
    ensures Resolve(a + b, j)
         == if AllTrusted(b, j) && Resolve(a, j).Some? then Resolve(a, j) else Resolve(b, j)
    decreases |b|
  {
    if b == [] {
      assert a + b == a;
    } else {
      var n := |b| - 1;
      var front := b[..n];
      assert (a + b)[..|a + b| - 1] == a + front;
      ResolveConcat(a, front, j);
      AllTrustedFront(b, j);
    }
  }

  lemma AllTrustedFront(b: seq<string>, j: Judge)
    requires b != []
    ensures AllTrusted(b, j) <==> AllTrusted(b[..|b| - 1], j) && Trusted(b, j, |b| - 1)
  {
    var front := b[..|b| - 1];
    assert forall m :: 0 <= m < |front| ==> (Trusted(b, j, m) <==> Trusted(front, j, m));
  }

  /** Resolution of two headers joined by a comma: the left one counts only if
      every entry of the right one is trusted and it yields an address. */
  lemma HeaderConcat(left: string, right: string, j: Judge)
    ensures Resolve(Split(left + "," + right), j)
         == if AllTrusted(Split(right), j) && Resolve(Split(left), j).Some? then Resolve(Split(left), j)
           else Resolve(Split(right), j)
  {
    SplitConcat(left, right);
    ResolveConcat(Split(left), Split(right), j);
  }

  /** Whatever is put in front of a header whose scan stopped at an untrusted
      entry does not change the result. */
  lemma PrependKeepsUntrusted(front: string, h: string, j: Judge, k: nat)
    requires Chosen(Split(h), j, k) && !Trusted(Split(h), j, k)
    ensures Resolve(Split(front + "," + h), j) == Resolve(Split(h), j)
  {
    HeaderConcat(front, h, j);
  }

  /** A trusted hop appended to a header keeps any result the header had. */
  lemma AppendTrustedKeeps(h: string, hop: string, j: Judge)
    requires NoComma(hop) && j.parses(Trim(hop)) && j.allowed(Trim(hop)) && Resolve(Split(h), j).Some?
    ensures Resolve(Split(h + "," + hop), j) == Resolve(Split(h), j)
  {
    SplitNoComma(hop);
    HeaderConcat(h, hop, j);
  }

  // ----- the middleware -----

  /** toMasks, lines 121-131. */
  method ToMasks<Ip, Mask>(net: Net<Ip, Mask>, cidrs: seq<string>) returns (masks: seq<Mask>, ok: bool)
    ensures ok <==> forall k :: 0 <= k < |cidrs| ==> net.parseCidr(cidrs[k]).Some?
    ensures |masks| <= |cidrs| && (ok ==> |masks| == |cidrs|)
    ensures forall k :: 0 <= k < |masks| ==> net.parseCidr(cidrs[k]) == Some(masks[k])
    ensures !ok ==> |masks| < |cidrs| && net.parseCidr(cidrs[|masks|]).None?
  {
    masks := [];
    for k := 0 to |cidrs|
      invariant |masks| == k && forall m :: 0 <= m < k ==> net.parseCidr(cidrs[m]) == Some(masks[m])
    {
      var network := net.parseCidr(cidrs[k]);
      if network.None? { return masks, false; }
      masks := masks + [network.value];
    }
    ok := true;
  }

  /** ipInMasks, lines 144-151. */
  method IpInMasks<Ip, Mask>(net: Net<Ip, Mask>, ip: Ip, masks: seq<Mask>) returns (found: bool)
    ensures found <==> exists k :: 0 <= k < |masks| && net.contains(masks[k], ip)
  {
    for k := 0 to |masks|
      invariant forall m :: 0 <= m < k ==> !net.contains(masks[m], ip)
    {
      if net.contains(masks[k], ip) { return true; }
    }
    return false;
  }

  /** The trust decision of a middleware that was built from `subnets`: everything
      is trusted when the list is empty, else the addresses inside a subnet. */
  ghost predicate TrustedBy<Ip, Mask>(net: Net<Ip, Mask>, subnets: seq<string>, sip: string) {
    subnets == [] ||
    (net.parseIp(sip).Some? &&
     exists k :: 0 <= k < |subnets| && net.parseCidr(subnets[k]).Some?
       && net.contains(net.parseCidr(subnets[k]).value, net.parseIp(sip).value))
  }

  /** The Xff struct, lines 43-48. */
  class Middleware<Ip, Mask> {
    const net: Net<Ip, Mask>
    const allowAll: bool
    const allowedMasks: seq<Mask>
    ghost const subnets: seq<string>

    ghost predicate Valid() {
      && allowAll == (subnets == [])
      && |allowedMasks| == |subnets|
      && forall k :: 0 <= k < |subnets| ==> net.parseCidr(subnets[k]) == Some(allowedMasks[k])
    }

    constructor (net: Net<Ip, Mask>, allowAll: bool, masks: seq<Mask>, ghost subnets: seq<string>)
      ensures this.net == net && this.allowAll == allowAll && allowedMasks == masks && this.subnets == subnets
    {
      this.net, this.allowAll, this.allowedMasks, this.subnets := net, allowAll, masks, subnets;
    }

    /** The answer of Allowed, as the value that is handed to the scan. */
    predicate Allows(sip: string) {
      allowAll || (net.parseIp(sip).Some? && InMasks(net.parseIp(sip).value))
    }

    predicate InMasks(ip: Ip) {
      exists k :: 0 <= k < |allowedMasks| && net.contains(allowedMasks[k], ip)
    }

    lemma AllowsIsTrust(sip: string)
      requires Valid()
      ensures Allows(sip) <==> TrustedBy(net, subnets, sip)
    {
      if net.parseIp(sip).Some? && InMasks(net.parseIp(sip).value) {
        var k :| 0 <= k < |allowedMasks| && net.contains(allowedMasks[k], net.parseIp(sip).value);
        assert net.parseCidr(subnets[k]).Some?;
      }
    }

    /** allowed, lines 134-141. */
    method Allowed(sip: string) returns (ok: bool)
      requires Valid()
      ensures ok <==> TrustedBy(net, subnets, sip)
    {
      if allowAll { return true; }
      var ip := net.parseIp(sip);
      if ip.None? { return false; }
      ok := IpInMasks(net, ip.value, allowedMasks);
      AllowsIsTrust(sip);
    }
  }

  /** NewXFF, lines 51-62: an error exactly when some subnet is malformed. */
  method NewXff<Ip, Mask>(net: Net<Ip, Mask>, subnets: seq<string>) returns (m: Middleware?<Ip, Mask>)
    ensures m == null <==> exists k :: 0 <= k < |subnets| && net.parseCidr(subnets[k]).None?
    ensures m != null ==> fresh(m) && m.Valid() && m.net == net && m.subnets == subnets
  {
    var masks, ok := ToMasks(net, subnets);
    if !ok { return null; }
    m := new Middleware(net, subnets == [], masks, subnets);
  }

  /** SplitHostPort and JoinHostPort. */
  datatype HostPort = HostPort(split: string -> Option<(string, string)>, join: (string, string) -> string)

  /** The header plays no part: there is none, the peer has no host or is not
      trusted, or the rightmost entry is no address. */
  predicate Ignored(header: string, remoteAddr: string, hp: HostPort, j: Judge) {
    var peer, entries := hp.split(remoteAddr), Split(header);
    || header == ""
    || peer.None? || peer.value.0 == "" || !j.allowed(peer.value.0)
    || !Parsable(entries, j, |entries| - 1)
  }

  /** r is the address the request should have: the remote address it came with
      if the header plays no part, otherwise the entry at the chosen index with
      the port of the peer (a blank entry, which is no address, changes nothing). */
  ghost predicate Resolves(header: string, remoteAddr: string, hp: HostPort, j: Judge, r: string) {
    if Ignored(header, remoteAddr, hp, j) then r == remoteAddr
    else exists ip :: Selected(Split(header), j, ip) && r == Substitute(ip, remoteAddr, hp)
  }

  /** ip is the entry at a chosen index. */
  ghost predicate Selected(entries: seq<string>, j: Judge, ip: string) {
    exists k: nat :: Chosen(entries, j, k) && ip == Trim(entries[k])
  }

  lemma SelectedIsUnique(entries: seq<string>, j: Judge, ip1: string, ip2: string)
    requires Selected(entries, j, ip1) && Selected(entries, j, ip2)
    ensures ip1 == ip2
  {
    var k: nat :| Chosen(entries, j, k) && ip1 == Trim(entries[k]);
    var m: nat :| Chosen(entries, j, m) && ip2 == Trim(entries[m]);
    ChosenIsUnique(entries, j, k, m);
  }

  lemma ResolvedIsSelected(entries: seq<string>, j: Judge)
    requires Resolve(entries, j).Some?
    ensures Selected(entries, j, Resolve(entries, j).value)
  {
    ResolveIsChosen(entries, j);
  }

  function Substitute(ip: string, remoteAddr: string, hp: HostPort): string
    requires hp.split(remoteAddr).Some?
  {
    if ip == "" then remoteAddr else hp.join(ip, hp.split(remoteAddr).value.1)
  }

  /** getRemoteAddrIfAllowed, lines 74-85, for a trust predicate. */
  method RemoteAddrIfAllowed(header: string, remoteAddr: string, hp: HostPort, j: Judge) returns (r: string)
    ensures Resolves(header, remoteAddr, hp, j, r)
  {
    if header != "" {
      var peer := hp.split(remoteAddr);
      if peer.Some? && peer.value.0 != "" {
        if j.allowed(peer.value.0) {
          var xip := Parse(header, j);
          ResolveIsChosen(Split(header), j);
          if Resolve(Split(header), j).Some? { ResolvedIsSelected(Split(header), j); }
          if xip != "" { return hp.join(xip, peer.value.1); }
        }
      }
    }
    return remoteAddr;
  }

  /** There is exactly one such address. */
  lemma ResolvedIsUnique(header: string, remoteAddr: string, hp: HostPort, j: Judge, r1: string, r2: string)
    requires Resolves(header, remoteAddr, hp, j, r1) && Resolves(header, remoteAddr, hp, j, r2)
    ensures r1 == r2
  {
    if !Ignored(header, remoteAddr, hp, j) {
      var ip1 :| Selected(Split(header), j, ip1) && r1 == Substitute(ip1, remoteAddr, hp);
      var ip2 :| Selected(Split(header), j, ip2) && r2 == Substitute(ip2, remoteAddr, hp);
      SelectedIsUnique(Split(header), j, ip1, ip2);
    }
  }

  /** An untrusted choice stays chosen, with anything put in front. */
  lemma ChosenBehind(a: seq<string>, b: seq<string>, j: Judge, k: nat)
    requires Chosen(b, j, k) && !Trusted(b, j, k)
    ensures Chosen(a + b, j, |a| + k) && (a + b)[|a| + k] == b[k]
  {
    forall m | |a| + k < m < |a + b| ensures Trusted(a + b, j, m) { assert Trusted(b, j, m - |a|); }
  }

  /** Text that a client puts in front of a header changes nothing about the
      request once the scan of the header stops at an untrusted entry. */
  lemma ClientTextIsIgnored(front: string, h: string, remoteAddr: string, hp: HostPort, j: Judge, k: nat, r: string)
    requires h != "" && Chosen(Split(h), j, k) && !Trusted(Split(h), j, k)
    ensures Resolves(front + "," + h, remoteAddr, hp, j, r) <==> Resolves(h, remoteAddr, hp, j, r)
  {
    var longer := front + "," + h;
    var ip := Trim(Split(h)[k]);
    SameLastEntry(front, h, remoteAddr, hp, j);
    if !Ignored(h, remoteAddr, hp, j) {
      assert Selected(Split(h), j, ip);
      assert Selected(Split(longer), j, ip) by {
        SplitConcat(front, h);
        ChosenBehind(Split(front), Split(h), j, k);
      }
      ResolvesTo(longer, remoteAddr, hp, j, ip, r);
      ResolvesTo(h, remoteAddr, hp, j, ip, r);
    }
  }

  lemma SameLastEntry(front: string, h: string, remoteAddr: string, hp: HostPort, j: Judge)
    requires h != ""
    ensures Ignored(front + "," + h, remoteAddr, hp, j) == Ignored(h, remoteAddr, hp, j)
  {
    SplitConcat(front, h);
  }

  lemma ResolvesTo(header: string, remoteAddr: string, hp: HostPort, j: Judge, ip: string, r: string)
    requires !Ignored(header, remoteAddr, hp, j) && Selected(Split(header), j, ip)
    ensures Resolves(header, remoteAddr, hp, j, r) <==> r == Substitute(ip, remoteAddr, hp)
  {
    if Resolves(header, remoteAddr, hp, j, r) {
      ResolvedIsUnique(header, remoteAddr, hp, j, r, Substitute(ip, remoteAddr, hp));
    }
  }

  /** The choice depends on the verdicts only. */
  lemma SelectedByVerdicts(entries: seq<string>, j1: Judge, j2: Judge, ip: string)
    requires forall s :: j1.parses(s) == j2.parses(s) && j1.allowed(s) == j2.allowed(s)
    requires Selected(entries, j1, ip)
    ensures Selected(entries, j2, ip)
  {
    var k: nat :| Chosen(entries, j1, k) && ip == Trim(entries[k]);
    forall m | k < m < |entries| ensures Trusted(entries, j2, m) { assert Trusted(entries, j1, m); }
    assert Chosen(entries, j2, k);
  }

  /** The verdicts that a list of subnets stands for. */
  ghost function Verdicts<Ip, Mask>(net: Net<Ip, Mask>, subnets: seq<string>): Judge {
    Judge((s: string) => net.parseIp(s).Some?, (s: string) => TrustedBy(net, subnets, s))
  }

  class Request {
    const forwarded: string       // the X-Forwarded-For header, "" if absent
    var remoteAddr: string

    constructor (forwarded: string, remoteAddr: string)
      ensures this.forwarded == forwarded && this.remoteAddr == remoteAddr
    {
      this.forwarded, this.remoteAddr := forwarded, remoteAddr;
    }
  }

  /** Handler, lines 65-70, up to the call of the wrapped handler. */
  method Handle<Ip, Mask>(m: Middleware<Ip, Mask>, r: Request, hp: HostPort)
    requires m.Valid()
    modifies r
    ensures Resolves(r.forwarded, old(r.remoteAddr), hp, Verdicts(m.net, m.subnets), r.remoteAddr)
  {
    var net := m.net;
    var j := Judge((s: string) => net.parseIp(s).Some?, (s: string) => m.Allows(s));
    r.remoteAddr := RemoteAddrIfAllowed(r.forwarded, r.remoteAddr, hp, j);
    forall s: string ensures j.allowed(s) == TrustedBy(m.net, m.subnets, s) { m.AllowsIsTrust(s); }
    ResolvesByVerdicts(r.forwarded, old(r.remoteAddr), hp, j, Verdicts(m.net, m.subnets), r.remoteAddr);
  }

  lemma ResolvesByVerdicts(header: string, remoteAddr: string, hp: HostPort, j1: Judge, j2: Judge, r: string)
    requires forall s :: j1.parses(s) == j2.parses(s) && j1.allowed(s) == j2.allowed(s)
    requires Resolves(header, remoteAddr, hp, j1, r)
    ensures Resolves(header, remoteAddr, hp, j2, r)
  {
    if !Ignored(header, remoteAddr, hp, j1) {
      var ip :| Selected(Split(header), j1, ip) && r == Substitute(ip, remoteAddr, hp);
      SelectedByVerdicts(Split(header), j1, j2, ip);
    }
  }

  /** With every address trusted the chosen entry starts the longest parsable
      tail of the header. */
  lemma AllowAllTakesTheTail(entries: seq<string>, j: Judge, k: nat)
    requires forall s :: j.allowed(s)
    requires Chosen(entries, j, k)
    ensures forall m :: k <= m < |entries| ==> Parsable(entries, j, m)
    ensures k > 0 ==> !Parsable(entries, j, k - 1)
  {
    forall m | k <= m < |entries| ensures Parsable(entries, j, m) {
      if m > k { assert Trusted(entries, j, m); }
    }
    assert j.allowed(Trim(entries[k]));
  }
}
