/** Longest-prefix routing of X.121 addresses: one specification, and the two loops that
    search for it. */
module Routing {
  import opened Wire

  // A list entry that is not well formed has no prefix and never matches.
  predicate Matches(entry: Option<string>, called: string) {
    entry.Some? && entry.value <= called
  }

  /** The first entry in list order among those with the longest prefix of the called
      address; nothing exactly when no well-formed entry matches. */
  ghost predicate IsRoute(entries: seq<Option<string>>, called: string, r: Option<nat>) {
    match r
    case None => forall j :: 0 <= j < |entries| ==> !Matches(entries[j], called)
    case Some(i) =>
      && i < |entries| && Matches(entries[i], called)
      && forall j :: 0 <= j < |entries| && Matches(entries[j], called) ==>
                       |entries[j].value| < |entries[i].value|
                       || (|entries[j].value| == |entries[i].value| && i <= j)
  }

  /** There is only one such answer, so all searches for it agree. */
  lemma RouteUnique(entries: seq<Option<string>>, called: string, r: Option<nat>, r': Option<nat>)
    requires IsRoute(entries, called, r) && IsRoute(entries, called, r')
    ensures r == r'
  {
  }

  function Route(entries: seq<Option<string>>, called: string): (r: Option<nat>)
    ensures IsRoute(entries, called, r)
  {
    if entries == [] then None
    else
      var last := |entries| - 1;
      var best := Route(entries[..last], called);
      if Matches(entries[last], called)
         && (best.None? || |entries[last].value| > |entries[best.value].value|)
      then Some(last) else best
  }

  // ---- configured servers: "prefix/length" ----

  // strings.Split on a slash yields two parts exactly when there is one slash.
  function SplitSlash(s: string): Option<(string, string)> {
    if s == [] then None
    else if s[0] == '/' then if '/' in s[1..] then None else Some(("", s[1..]))
    else match SplitSlash(s[1..])
      case None => None
      case Some((a, b)) => Some(([s[0]] + a, b))
  }

  function Digits(s: string, acc: nat): Option<nat> {
    if s == [] then Some(acc)
    else if '0' <= s[0] <= '9' then Digits(s[1..], acc * 10 + (s[0] as int - '0' as int))
    else None
  }

  // strconv.Atoi: an optional sign and at least one digit. (Values beyond its range can
  // never equal a prefix length, so rejecting them or not makes no difference here.)
  function Atoi(s: string): Option<int> {
    if s == [] then None
    else if s[0] == '+' || s[0] == '-' then
      if |s| == 1 then None
      else match Digits(s[1..], 0)
        case None => None
        case Some(n) =>
          var value: int := n;
          Some(if s[0] == '-' then -value else value)
    else match Digits(s, 0)
      case None => None
      case Some(n) => Some(n)
  }

  function ServerPrefix(s: string): Option<string> {
    match SplitSlash(s)
    case None => None
    case Some((prefix, len)) =>
      match Atoi(len)
      case None => None
      case Some(plen) => if |prefix| == plen then Some(prefix) else None
  }

  function Prefixes(servers: seq<string>): seq<Option<string>> {
    seq(|servers|, i requires 0 <= i < |servers| => ServerPrefix(servers[i]))
  }

  /** The server search: malformed prefixes are skipped, a strictly longer match wins. */
  method FindServer(servers: seq<string>, called: string) returns (best: Option<nat>)
    ensures IsRoute(Prefixes(servers), called, best)
  {
    best := None;
    var bestLen := -1;
    for i := 0 to |servers|
      invariant best.None? ==> bestLen == -1
      invariant IsRoute(Prefixes(servers[..i]), called, best)
      invariant best.Some? ==> bestLen == |Prefixes(servers)[best.value].value|
    {
      assert forall j :: 0 <= j < i ==> Prefixes(servers[..i])[j] == Prefixes(servers)[j];
      assert Prefixes(servers[..i + 1]) == Prefixes(servers[..i]) + [ServerPrefix(servers[i])];
      var parts := SplitSlash(servers[i]);
      if parts.None? {
        continue;
      }
      var (prefix, len) := parts.value;
      var plen := Atoi(len);
      if plen.None? || |prefix| != plen.value {
        continue;
      }
      if prefix <= called && plen.value > bestLen {
        best := Some(i);
        bestLen := plen.value;
      }
    }
    assert servers[..|servers|] == servers;
  }

  // ---- loopback nodes: every address is its own prefix ----

  function Addresses(nodes: seq<string>): seq<Option<string>> {
    seq(|nodes|, i requires 0 <= i < |nodes| => Some(nodes[i]))
  }

  method FindNode(nodes: seq<string>, called: string) returns (best: Option<nat>)
    ensures best == Route(Addresses(nodes), called)
  {
    best := None;
    var bestLen := -1;
    for i := 0 to |nodes|
      invariant best.None? ==> bestLen == -1
      invariant IsRoute(Addresses(nodes[..i]), called, best)
      invariant best.Some? ==> bestLen == |nodes[best.value]|
    {
      assert forall j :: 0 <= j < i ==> Addresses(nodes[..i])[j] == Addresses(nodes)[j];
      assert Addresses(nodes[..i + 1]) == Addresses(nodes[..i]) + [Some(nodes[i])];
      if nodes[i] <= called && |nodes[i]| > bestLen {
        best := Some(i);
        bestLen := |nodes[i]|;
      }
    }
    assert nodes[..|nodes|] == nodes;
    RouteUnique(Addresses(nodes), called, best, Route(Addresses(nodes), called));
  }
}
