/**
 The client address behind trusted proxies (src/rate_limit.rs).  The address parser is a
 parameter: the laws hold for every parser.
 */
module ClientIp {
  import opened Text
  import opened RateLimiter

  type Parser = string -> Option<IpAddr>

  /** The parseable entries, right to left. */
  function ParsedFromRight(tokens: seq<string>, parse: Parser): seq<IpAddr> {
    if tokens == [] then []
    else
      var n := |tokens| - 1;
      var rest := ParsedFromRight(tokens[..n], parse);
      match parse(Trim(tokens[n]))
      case Some(ip) => [ip] + rest
      case None => rest
  }

  function ClientIpFromXff(xff: string, hops: nat, parse: Parser): Option<IpAddr> {
    if hops == 0 then None
    else
      var ips := ParsedFromRight(Split(xff, ','), parse);
      if hops - 1 < |ips| then Some(ips[hops - 1]) else None
  }

  function ResolveClientIp(peer: IpAddr, xff: Option<string>, hops: nat, parse: Parser): IpAddr {
    if hops == 0 || xff.None? then peer
    else
      match ClientIpFromXff(xff.value, hops, parse)
      case Some(ip) => ip
      case None => peer
  }

  /** The parseable entries of a header, left to right: the header as a proxy chain reads it. */
  function Entries(tokens: seq<string>, parse: Parser): seq<IpAddr> {
    if tokens == [] then []
    else
      match parse(Trim(tokens[0]))
      case Some(ip) => [ip] + Entries(tokens[1..], parse)
      case None => Entries(tokens[1..], parse)
  }

  lemma {:induction false} EntriesConcat(a: seq<string>, b: seq<string>, parse: Parser)
    ensures Entries(a + b, parse) == Entries(a, parse) + Entries(b, parse)
  {
    if a == [] {
      assert a + b == b;
    } else {
      EntriesConcat(a[1..], b, parse);
      assert (a + b)[1..] == a[1..] + b;
    }
  }

  /** Reading from the right is reading from the left, reversed. */
  lemma {:induction false} RightIsReversed(tokens: seq<string>, parse: Parser)
    ensures var r, e := ParsedFromRight(tokens, parse), Entries(tokens, parse);
            |r| == |e| && forall i :: 0 <= i < |r| ==> r[i] == e[|e| - 1 - i]
  {
    if tokens != [] {
      var n := |tokens| - 1;
      RightIsReversed(tokens[..n], parse);
      EntriesConcat(tokens[..n], [tokens[n]], parse);
      assert tokens == tokens[..n] + [tokens[n]];
      assert [tokens[n]][1..] == [];
    }
  }

  function HeaderEntries(xff: string, parse: Parser): seq<IpAddr> { Entries(Split(xff, ','), parse) }

  lemma JoinedEntries(a: string, b: string, parse: Parser)
    ensures HeaderEntries(a + "," + b, parse) == HeaderEntries(a, parse) + HeaderEntries(b, parse)
  {
    SplitJoin(a, b, ',');
    EntriesConcat(Split(a, ','), Split(b, ','), parse);
  }

  function NthFromRight(peer: IpAddr, entries: seq<IpAddr>, hops: nat): IpAddr
    requires hops > 0
  {
    if |entries| >= hops then entries[|entries| - hops] else peer
  }

  lemma PickReversed(peer: IpAddr, right: seq<IpAddr>, entries: seq<IpAddr>, hops: nat)
    requires hops > 0 && |right| == |entries|
    requires forall i :: 0 <= i < |right| ==> right[i] == entries[|entries| - 1 - i]
    ensures (if hops - 1 < |right| then right[hops - 1] else peer) == NthFromRight(peer, entries, hops)
  {
  }

  lemma ResolvedFromRight(peer: IpAddr, xff: string, hops: nat, parse: Parser)
    requires hops > 0
    ensures var right := ParsedFromRight(Split(xff, ','), parse);
            ResolveClientIp(peer, Some(xff), hops, parse) == if hops - 1 < |right| then right[hops - 1] else peer
  {
  }

  /** With `hops` trusted proxies the client is the `hops`-th parseable entry from the right; with
      fewer parseable entries it is the direct peer. */
  lemma ResolvedIsNthFromRight(peer: IpAddr, xff: string, hops: nat, parse: Parser)
    requires hops > 0
    ensures ResolveClientIp(peer, Some(xff), hops, parse) == NthFromRight(peer, HeaderEntries(xff, parse), hops)
  {
    var tokens := Split(xff, ',');
    RightIsReversed(tokens, parse);
    ResolvedFromRight(peer, xff, hops, parse);
    PickReversed(peer, ParsedFromRight(tokens, parse), Entries(tokens, parse), hops);
  }

  lemma SamePick(peer: IpAddr, a: string, b: string, hops: nat, parse: Parser)
    requires hops > 0
    requires NthFromRight(peer, HeaderEntries(a, parse), hops) == NthFromRight(peer, HeaderEntries(b, parse), hops)
    ensures ResolveClientIp(peer, Some(a), hops, parse) == ResolveClientIp(peer, Some(b), hops, parse)
  {
    ResolvedIsNthFromRight(peer, a, hops, parse);
    ResolvedIsNthFromRight(peer, b, hops, parse);
  }

  lemma PickFromRight(peer: IpAddr, a: seq<IpAddr>, b: seq<IpAddr>, hops: nat)
    requires hops > 0 && |b| >= hops
    ensures NthFromRight(peer, a + b, hops) == NthFromRight(peer, b, hops)
  {
  }

  lemma PrependedPick(peer: IpAddr, forged: string, xff: string, hops: nat, parse: Parser)
    requires hops > 0 && |HeaderEntries(xff, parse)| >= hops
    ensures NthFromRight(peer, HeaderEntries(forged + "," + xff, parse), hops)
            == NthFromRight(peer, HeaderEntries(xff, parse), hops)
  {
    JoinedEntries(forged, xff, parse);
    PickFromRight(peer, HeaderEntries(forged, parse), HeaderEntries(xff, parse), hops);
  }

  /** Whatever a client writes to the left of a header with enough entries changes nothing. */
  lemma PrependingIsIgnored(peer: IpAddr, forged: string, xff: string, hops: nat, parse: Parser)
    requires hops > 0 && |HeaderEntries(xff, parse)| >= hops
    ensures ResolveClientIp(peer, Some(forged + "," + xff), hops, parse)
            == ResolveClientIp(peer, Some(xff), hops, parse)
  {
    PrependedPick(peer, forged, xff, hops, parse);
    SamePick(peer, forged + "," + xff, xff, hops, parse);
  }

  lemma JunkEntries(left: string, junk: string, right: string, parse: Parser)
    requires HeaderEntries(junk, parse) == []
    ensures HeaderEntries(left + "," + (junk + "," + right), parse) == HeaderEntries(left + "," + right, parse)
  {
    JoinedEntries(junk, right, parse);
    JoinedEntries(left, junk + "," + right, parse);
    JoinedEntries(left, right, parse);
  }

  /** Junk between entries never shifts the count. */
  lemma JunkIsIgnored(peer: IpAddr, left: string, junk: string, right: string, hops: nat, parse: Parser)
    requires hops > 0 && HeaderEntries(junk, parse) == []
    ensures ResolveClientIp(peer, Some(left + "," + (junk + "," + right)), hops, parse)
            == ResolveClientIp(peer, Some(left + "," + right), hops, parse)
  {
    JunkEntries(left, junk, right, parse);
    SamePick(peer, left + "," + (junk + "," + right), left + "," + right, hops, parse);
  }

  /** Nor does junk as the first or the last member. */
  lemma JunkAtTheEndsIsIgnored(peer: IpAddr, xff: string, junk: string, hops: nat, parse: Parser)
    requires hops > 0 && HeaderEntries(junk, parse) == []
    ensures ResolveClientIp(peer, Some(junk + "," + xff), hops, parse) == ResolveClientIp(peer, Some(xff), hops, parse)
    ensures ResolveClientIp(peer, Some(xff + "," + junk), hops, parse) == ResolveClientIp(peer, Some(xff), hops, parse)
  {
    JoinedEntries(junk, xff, parse);
    JoinedEntries(xff, junk, parse);
    assert HeaderEntries(junk + "," + xff, parse) == HeaderEntries(xff, parse);
    assert HeaderEntries(xff + "," + junk, parse) == HeaderEntries(xff, parse);
    SamePick(peer, junk + "," + xff, xff, hops, parse);
    SamePick(peer, xff + "," + junk, xff, hops, parse);
  }

  /** Without trusted proxies the header is ignored. */
  lemma UntrustedIsIgnored(peer: IpAddr, xff: Option<string>, parse: Parser)
    ensures ResolveClientIp(peer, xff, 0, parse) == peer
  {
  }
}
