/**
 * The listener: admission control (an IP safelist of CIDR networks, then a cap on
 * concurrent connections), the live list of connections and its counters, and
 * shutdown.
 *
 * Addresses arrive already parsed: an IP version (4 or 6) and the address as an
 * integer, or None for a peer address that does not parse. Safelist entries arrive as
 * an address with an optional prefix length, or None for text that is not of that form.
 * Connections are handled one after another: there is no suspension point between
 * the cap check and the registration of a new connection, so nothing can interleave there.
 */
module Listener {
  import opened Wrappers
  import opened Auth
  import opened Connection

  const NotAllowedLine: string := "ERR: Connection not allowed from this address."
  const LimitLine: string := "ERR: Connection limit reached. Try again later."

  /** 2 to the power n. */
  function Pow2(n: nat): (r: nat)
    ensures r >= 1
  {
    if n == 0 then 1 else 2 * Pow2(n - 1)
  }

  /** The address width of an IP version: 32 bits for IPv4, 128 for IPv6. */
  function Width(version: int): nat {
    if version == 4 then 32 else 128
  }

  datatype IpAddress = IpAddress(version: int, value: int)

  predicate ValidAddress(a: IpAddress) {
    (a.version == 4 || a.version == 6) && 0 <= a.value < Pow2(Width(a.version))
  }

  /** A safelist entry as written: an address and a prefix length, absent for a bare address. */
  datatype NetworkEntry = NetworkEntry(address: IpAddress, prefix: Option<int>)

  /** A network: its version, its network address and its prefix length. */
  datatype Network = Network(version: int, address: int, prefix: nat)

  /** The number of host bits of a network (its address width minus its prefix length). */
  function HostBits(n: Network): nat {
    if n.prefix <= Width(n.version) then Width(n.version) - n.prefix else 0
  }

  /** A network of a known version whose prefix fits and whose host bits are all zero. */
  predicate WellFormed(n: Network) {
    (n.version == 4 || n.version == 6) && n.prefix <= Width(n.version)
    && 0 <= n.address < Pow2(Width(n.version)) && n.address % Pow2(HostBits(n)) == 0
  }

  /** `v` with its lowest `h` bits cleared. */
  function Mask(v: int, h: nat): int {
    v - v % Pow2(h)
  }

  /** `ip in network`: the same version, and the address under the netmask is the network address. */
  predicate Contains(n: Network, a: IpAddress) {
    a.version == n.version && Mask(a.value, HostBits(n)) == n.address
  }

  /**
   * RFC 4632 section 3.1: an address is in a well-formed network exactly when its
   * first prefix-length bits equal the network's.
   */
  lemma ContainsByPrefix(n: Network, a: IpAddress)
    requires WellFormed(n)
    ensures Contains(n, a) <==> a.version == n.version && a.value / Pow2(HostBits(n)) == n.address / Pow2(HostBits(n))
  {
    PrefixDivides(a.value, n.address, Pow2(HostBits(n)));
  }

  /** Rounding `v` down to a multiple of `p` gives the multiple `m` exactly when both have the same quotient. */
  lemma PrefixDivides(v: int, m: int, p: int)
    requires p > 0 && m % p == 0
    ensures v - v % p == m <==> v / p == m / p
  {
    var q, k := v / p, m / p;
    assert v - v % p == p * q;
    assert m == p * k;
    if p * q == p * k {
      MultiplyCancels(p, q, k);
    }
  }

  lemma MultiplyCancels(p: int, x: int, y: int)
    requires p > 0 && p * x == p * y
    ensures x == y
  {
    assert p * (x - y) == 0;
    MultiplyBounds(p, x - y);
  }

  /** A positive multiple of `p` is at least `p`, a negative one at most `-p`. */
  lemma MultiplyBounds(p: int, d: int)
    requires p > 0
    ensures d >= 1 ==> p * d >= p
    ensures d <= -1 ==> p * d <= -p
  {
    if d >= 1 {
      assert p * d == p + p * (d - 1);
    } else if d <= -1 {
      assert p * d == -p + p * (d + 1);
    }
  }

  /**
   * `ip_network(entry, strict=False)`: a bare address is a full-width network; an address
   * that is not of version 4 or 6 or out of range, or a prefix length outside 0 to the
   * width, is refused; otherwise the host bits are cleared.
   */
  function ToNetwork(e: NetworkEntry): (r: Option<Network>)
    ensures var w := Width(e.address.version);
            var p := e.prefix.GetOr(w);
            r.Some? <==> ValidAddress(e.address) && 0 <= p <= w
    ensures r.Some? ==> WellFormed(r.value) && r.value.version == e.address.version
                        && r.value.prefix == e.prefix.GetOr(Width(e.address.version))
                        && Contains(r.value, e.address)
  {
    var w := Width(e.address.version);
    var p := e.prefix.GetOr(w);
    if !ValidAddress(e.address) || !(0 <= p <= w) then None
    else
      var n := Network(e.address.version, Mask(e.address.value, w - p), p);
      MaskIsNetworkAddress(e.address.value, w, w - p);
      Some(n)
  }

  /** Clearing the low `h` bits of a `w`-bit value leaves a `w`-bit value with those bits zero. */
  lemma MaskIsNetworkAddress(v: int, w: nat, h: nat)
    requires 0 <= v < Pow2(w)
    ensures 0 <= Mask(v, h) <= v && Mask(v, h) % Pow2(h) == 0
  {
    RoundDown(v, Pow2(h));
  }

  lemma RoundDown(v: int, p: int)
    requires v >= 0 && p > 0
    ensures 0 <= v - v % p <= v && (v - v % p) % p == 0
  {
    var q := v / p;
    assert v - v % p == p * q;
    MultipleHasNoRemainder(p, q);
  }

  lemma MultipleHasNoRemainder(p: int, k: int)
    requires p > 0 && k >= 0
    ensures (p * k) % p == 0
  {
    var q := (p * k) / p;
    var m := (p * k) % p;
    assert p * k == p * q + m && 0 <= m < p;
    assert p * (k - q) == m;
    MultiplyBounds(p, k - q);
  }

  /** Powers of two multiply by adding their exponents. */
  lemma {:induction false} Pow2Add(a: nat, b: nat)
    ensures Pow2(a + b) == Pow2(a) * Pow2(b)
    decreases a
  {
    if a > 0 {
      Pow2Add(a - 1, b);
      assert Pow2(a + b) == 2 * Pow2(a - 1 + b);
    }
  }

  /** The entry's network, or nothing when the entry does not parse. */
  function EntryNetworks(x: Option<NetworkEntry>): seq<Network> {
    if x.Some? && ToNetwork(x.value).Some? then [ToNetwork(x.value).value] else []
  }

  /** The safelist the constructor builds: the networks of the entries that parse, in order. */
  function Networks(entries: seq<Option<NetworkEntry>>): (r: seq<Network>)
    ensures |r| <= |entries|
    ensures forall n :: n in r ==> WellFormed(n)
    decreases |entries|
  {
    if entries == [] then []
    else Networks(entries[..|entries| - 1]) + EntryNetworks(entries[|entries| - 1])
  }

  /** The safelist holds exactly the networks of the entries that parse. */
  lemma {:induction false} NetworksMembers(entries: seq<Option<NetworkEntry>>, n: Network)
    ensures n in Networks(entries) <==> exists i :: 0 <= i < |entries| && n in EntryNetworks(entries[i])
    decreases |entries|
  {
    if entries != [] {
      var front := entries[..|entries| - 1];
      NetworksMembers(front, n);
      assert forall i :: 0 <= i < |front| ==> front[i] == entries[i];
      if n in EntryNetworks(entries[|entries| - 1]) {
        assert 0 <= |entries| - 1 < |entries|;
      }
    }
  }

  /** The safelist of a concatenation is the concatenation of the safelists. */
  lemma {:induction false} NetworksAppend(a: seq<Option<NetworkEntry>>, b: seq<Option<NetworkEntry>>)
    ensures Networks(a + b) == Networks(a) + Networks(b)
    decreases |b|
  {
    if b == [] {
      assert a + b == a;
    } else {
      var b0 := b[..|b| - 1];
      assert (a + b)[..|a + b| - 1] == a + b0;
      NetworksAppend(a, b0);
    }
  }

  /** An entry that does not parse is skipped without affecting the others. */
  lemma SkipInvalid(a: seq<Option<NetworkEntry>>, x: Option<NetworkEntry>, b: seq<Option<NetworkEntry>>)
    requires x.None? || ToNetwork(x.value).None?
    ensures Networks(a + [x] + b) == Networks(a + b)
  {
    assert [x][..0] == [];
    NetworksAppend(a, [x]);
    assert Networks(a + [x]) == Networks(a);
    NetworksAppend(a + [x], b);
    NetworksAppend(a, b);
  }

  /** The constructor's loop over the configured entries. */
  method ParseSafelist(entries: seq<Option<NetworkEntry>>) returns (nets: seq<Network>)
    ensures nets == Networks(entries)
  {
    nets := [];
    for i := 0 to |entries|
      invariant nets == Networks(entries[..i])
    {
      var e := entries[i];
      if e.Some? {
        var n := ToNetwork(e.value);
        if n.Some? {
          nets := nets + [n.value];
        }
      }
      assert entries[..i + 1][..i] == entries[..i];
    }
    assert entries[..|entries|] == entries;
  }

  /** `is_ip_allowed`: an empty safelist allows every peer; otherwise the peer must parse and be in one of its networks. */
  predicate Allowed(safelist: seq<Network>, address: Option<IpAddress>) {
    safelist == [] || (address.Some? && exists i :: 0 <= i < |safelist| && Contains(safelist[i], address.value))
  }

  /** With a non-empty safelist, a peer is allowed exactly when its first prefix-length bits match a network's. */
  lemma AllowedByPrefix(safelist: seq<Network>, a: IpAddress)
    requires safelist != [] && forall n :: n in safelist ==> WellFormed(n)
    ensures Allowed(safelist, Some(a)) <==>
      exists n :: n in safelist && n.version == a.version && a.value / Pow2(HostBits(n)) == n.address / Pow2(HostBits(n))
  {
    if Allowed(safelist, Some(a)) {
      var i :| 0 <= i < |safelist| && Contains(safelist[i], a);
      ContainsByPrefix(safelist[i], a);
    }
    if exists n :: n in safelist && n.version == a.version && a.value / Pow2(HostBits(n)) == n.address / Pow2(HostBits(n)) {
      var n :| n in safelist && n.version == a.version && a.value / Pow2(HostBits(n)) == n.address / Pow2(HostBits(n));
      ContainsByPrefix(n, a);
      var i :| 0 <= i < |safelist| && safelist[i] == n;
    }
  }

  /** With a non-empty safelist, an address that does not parse is refused. */
  lemma UnparsableRefused(safelist: seq<Network>)
    ensures !Allowed(safelist, None) <==> safelist != []
  {
  }

  /** A configuration whose every entry fails to parse yields an empty safelist, which allows everyone. */
  lemma AllInvalidAllowsAll(entries: seq<Option<NetworkEntry>>, address: Option<IpAddress>)
    requires forall i :: 0 <= i < |entries| ==> EntryNetworks(entries[i]) == []
    ensures Networks(entries) == [] && Allowed(Networks(entries), address)
  {
    var r := Networks(entries);
    if r != [] {
      NetworksMembers(entries, r[0]);
    }
  }

  /** `192.168.1.0/24` allows 192.168.1.1 and 192.168.1.254 and refuses 192.168.2.1. */
  lemma SafelistExample()
    ensures var nets := Networks([Some(NetworkEntry(IpAddress(4, 0xC0A8_0100), Some(24)))]);
            Allowed(nets, Some(IpAddress(4, 0xC0A8_0101))) && Allowed(nets, Some(IpAddress(4, 0xC0A8_01FE)))
            && !Allowed(nets, Some(IpAddress(4, 0xC0A8_0201))) && !Allowed(nets, Some(IpAddress(6, 0xC0A8_0101)))
  {
    var n := ExampleNetwork();
    assert Contains(n, IpAddress(4, 0xC0A8_0101)) && Contains(n, IpAddress(4, 0xC0A8_01FE));
    assert [n][0] == n;
  }

  /** The one network that the safelist `192.168.1.0/24` parses to. */
  lemma ExampleNetwork() returns (n: Network)
    ensures n == Network(4, 0xC0A8_0100, 24) && HostBits(n) == 8 && Pow2(8) == 256
    ensures Networks([Some(NetworkEntry(IpAddress(4, 0xC0A8_0100), Some(24)))]) == [n]
  {
    var e := NetworkEntry(IpAddress(4, 0xC0A8_0100), Some(24));
    assert Pow2(8) == 256 by {
      Pow2Add(4, 4);
      Pow2Add(2, 2);
      Pow2Add(1, 1);
    }
    assert Pow2(32) == 0x1_0000_0000 by {
      Pow2Add(8, 8);
      Pow2Add(16, 16);
    }
    n := Network(4, 0xC0A8_0100, 24);
    assert ToNetwork(e) == Some(n);
    assert Networks([Some(e)]) == [n] by {
      assert [Some(e)][..0] == [];
    }
  }

  /** What the listener decides for a peer: the IP check comes before the cap check. */
  datatype Admission = NotAllowed | LimitReached | Admitted

  function Decide(allowed: bool, active: nat, maxConnections: int): (r: Admission)
    ensures r == Admitted ==> allowed && active + 1 <= maxConnections
    ensures !allowed ==> r == NotAllowed
    ensures allowed && active >= maxConnections ==> r == LimitReached
    ensures allowed && active < maxConnections ==> r == Admitted
  {
    if !allowed then NotAllowed else if active >= maxConnections then LimitReached else Admitted
  }

  /** The line written to a refused peer before its connection is closed. */
  function Refusal(a: Admission): Option<string> {
    match a
    case NotAllowed => Some(NotAllowedLine)
    case LimitReached => Some(LimitLine)
    case Admitted => None
  }

  /** No connection appears twice. */
  predicate Distinct<T(==)>(ss: seq<T>) {
    forall i, j :: 0 <= i < j < |ss| ==> ss[i] != ss[j]
  }

  /** `list.remove(x)` guarded by `x in list`: the first occurrence of `s`, if any, is dropped. */
  function Without<T(==)>(ss: seq<T>, s: T): (r: seq<T>)
    ensures s !in ss ==> r == ss
    ensures s in ss ==> |r| == |ss| - 1
    ensures forall x :: x in r ==> x in ss
    ensures forall x :: x in ss && x != s ==> x in r
  {
    if ss == [] then []
    else if ss[0] == s then ss[1..]
    else [ss[0]] + Without(ss[1..], s)
  }

  /** Removing an entry keeps the others, in order: the list closes over the gap. */
  lemma {:induction false} WithoutAt<T>(ss: seq<T>, i: nat)
    requires i < |ss| && ss[i] !in ss[..i]
    ensures Without(ss, ss[i]) == ss[..i] + ss[i + 1..]
  {
    if i > 0 {
      assert ss[1..][..i - 1] == ss[1..i];
      assert ss[1..][i - 1] == ss[i];
      assert ss[i] !in ss[1..][..i - 1];
      WithoutAt(ss[1..], i - 1);
      assert ss[1..][i..] == ss[i + 1..];
      assert ss[..i] == [ss[0]] + ss[1..i];
    }
  }

  /** In a list without duplicates the removed entry is gone and the rest stay distinct. */
  lemma {:induction false} WithoutDistinct<T>(ss: seq<T>, s: T)
    requires Distinct(ss)
    ensures Distinct(Without(ss, s)) && s !in Without(ss, s)
  {
    if ss != [] {
      assert Distinct(ss[1..]) by {
        forall i, j | 0 <= i < j < |ss[1..]| ensures ss[1..][i] != ss[1..][j] {
          assert ss[1..][i] == ss[i + 1] && ss[1..][j] == ss[j + 1];
        }
      }
      if ss[0] != s {
        WithoutDistinct(ss[1..], s);
        var r := Without(ss[1..], s);
        assert ss[0] !in ss[1..] by {
          forall j | 0 <= j < |ss[1..]| ensures ss[1..][j] != ss[0] {
            assert ss[1..][j] == ss[j + 1];
          }
        }
        forall i, j | 0 <= i < j < |[ss[0]] + r| ensures ([ss[0]] + r)[i] != ([ss[0]] + r)[j] {
          if i == 0 {
            assert ([ss[0]] + r)[j] == r[j - 1];
            assert r[j - 1] in r;
          }
        }
      } else {
        assert s !in ss[1..] by {
          forall j | 0 <= j < |ss[1..]| ensures ss[1..][j] != s {
            assert ss[1..][j] == ss[j + 1];
          }
        }
      }
    }
  }

  /** The connection that was appended last is the one removed. */
  lemma WithoutLast<T>(ss: seq<T>, s: T)
    requires s !in ss
    ensures Without(ss + [s], s) == ss
  {
    WithoutAt(ss + [s], |ss|);
    assert (ss + [s])[..|ss|] == ss;
  }

  /** `get_active_callsigns`: the callsigns of the authenticated connections that have a non-empty one, in list order. */
  function Callsigns(ss: seq<TelnetSession>): (r: seq<string>)
    reads set i | 0 <= i < |ss| :: ss[i]
    ensures |r| <= |ss|
    ensures forall c :: c in r <==>
      exists i :: 0 <= i < |ss| && ss[i].authenticated && ss[i].callsign == Some(c) && c != ""
    decreases |ss|
  {
    if ss == [] then []
    else
      var front := ss[..|ss| - 1];
      var last := ss[|ss| - 1];
      assert forall i :: 0 <= i < |front| ==> front[i] == ss[i];
      Callsigns(front) + (if last.authenticated && last.callsign.Some? && last.callsign.value != "" then [last.callsign.value] else [])
  }

  /** The callsigns of two lists one after the other are those of the first, then those of the second. */
  lemma {:induction false} CallsignsAppend(a: seq<TelnetSession>, b: seq<TelnetSession>)
    ensures Callsigns(a + b) == Callsigns(a) + Callsigns(b)
    decreases |b|
  {
    if b == [] {
      assert a + b == a;
    } else {
      var b0 := b[..|b| - 1];
      assert (a + b)[..|a + b| - 1] == a + b0;
      CallsignsAppend(a, b0);
    }
  }

  /** One connection in `get_stats`: its callsign, whether it is logged in, and its idle time at `now`. */
  datatype SessionStats = SessionStats(callsign: Option<string>, authenticated: bool, idleSeconds: int)

  datatype ServerStats = ServerStats(activeConnections: nat, maxConnections: int, totalConnections: int, sessions: seq<SessionStats>)

  /** The per-connection part of `get_stats`, one entry per live connection, in list order. */
  function SessionsStats(ss: seq<TelnetSession>, now: int): (r: seq<SessionStats>)
    reads set i | 0 <= i < |ss| :: ss[i]
    ensures |r| == |ss|
    ensures forall i :: 0 <= i < |ss| ==>
      r[i] == SessionStats(ss[i].callsign, ss[i].authenticated, now - ss[i].lastActivity)
    decreases |ss|
  {
    if ss == [] then []
    else
      var front := ss[..|ss| - 1];
      var last := ss[|ss| - 1];
      assert forall i :: 0 <= i < |front| ==> front[i] == ss[i];
      SessionsStats(front, now) + [SessionStats(last.callsign, last.authenticated, now - last.lastActivity)]
  }

  /** The id of the session a connection is bound to, if any. */
  ghost function Bound(c: TelnetSession): set<string>
    reads c
  {
    var bound := c.Conn().session;
    if bound.Some? then {bound.value} else {}
  }

  /** The session ids bound by a list of connections. */
  ghost function BoundIds(ss: seq<TelnetSession>): set<string>
    reads set i | 0 <= i < |ss| :: ss[i]
    decreases |ss|
  {
    if ss == [] then {} else BoundIds(ss[..|ss| - 1]) + Bound(ss[|ss| - 1])
  }

  lemma RemoveTwice<K, V>(m: map<K, V>, a: set<K>, b: set<K>)
    ensures m - a - b == m - (a + b)
  {
  }

  class TelnetServer {
    const authenticator: TOTPAuthenticator
    const sessionManager: SessionManager
    const handler: Option<Handler>
    const maxConnections: int
    const timeoutSeconds: int
    const banner: string
    const maxAuthAttempts: int
    const bpqMode: bool
    const safelist: seq<Network>
    var activeSessions: seq<TelnetSession>
    var totalConnections: int

    /**
     * The session table is consistent, no connection is listed twice, and the live
     * list never exceeds the cap (a cap below one admits nobody).
     */
    ghost predicate Valid()
      reads this, sessionManager
    {
      sessionManager.Valid() && Distinct(activeSessions)
      && (activeSessions == [] || |activeSessions| <= maxConnections)
      && forall c :: c in activeSessions ==> c.sessionManager == sessionManager
    }

    constructor (authenticator: TOTPAuthenticator, sessionManager: SessionManager, handler: Option<Handler>,
                 maxConnections: int, timeoutSeconds: int, banner: string, maxAuthAttempts: int, bpqMode: bool,
                 entries: seq<Option<NetworkEntry>>)
      requires sessionManager.Valid()
      ensures Valid()
      ensures this.authenticator == authenticator && this.sessionManager == sessionManager && this.handler == handler
      ensures this.maxConnections == maxConnections && this.timeoutSeconds == timeoutSeconds && this.banner == banner
      ensures this.maxAuthAttempts == maxAuthAttempts && this.bpqMode == bpqMode
      ensures safelist == Networks(entries) && activeSessions == [] && totalConnections == 0
    {
      var nets := ParseSafelist(entries);
      this.authenticator := authenticator;
      this.sessionManager := sessionManager;
      this.handler := handler;
      this.maxConnections := maxConnections;
      this.timeoutSeconds := timeoutSeconds;
      this.banner := banner;
      this.maxAuthAttempts := maxAuthAttempts;
      this.bpqMode := bpqMode;
      safelist := nets;
      activeSessions := [];
      totalConnections := 0;
    }

    /** `is_ip_allowed` */
    method IsIpAllowed(address: Option<IpAddress>) returns (allowed: bool)
      ensures allowed == Allowed(safelist, address)
    {
      if safelist == [] {
        return true;
      }
      if address.None? {
        return false;
      }
      var ip := address.value;
      for i := 0 to |safelist|
        invariant forall j :: 0 <= j < i ==> !Contains(safelist[j], ip)
      {
        if Contains(safelist[i], ip) {
          return true;
        }
      }
      return false;
    }

    /**
     * The checks of `handle_connection` and the registration of an admitted peer: a
     * new connection object is appended and counted.
     */
    method Admit(remote: Option<IpAddress>, now: int, input: seq<InputEvent>) returns (a: Admission, s: TelnetSession?)
      requires Valid()
      modifies this
      ensures Valid()
      ensures a == Decide(Allowed(safelist, remote), |old(activeSessions)|, maxConnections)
      ensures a != Admitted ==> s == null && activeSessions == old(activeSessions) && totalConnections == old(totalConnections)
      ensures a == Admitted ==> (s != null && fresh(s) && s !in old(activeSessions)
                && activeSessions == old(activeSessions) + [s] && totalConnections == old(totalConnections) + 1)
      ensures a == Admitted ==> (s != null && s.Valid() && s.Wired()
                && s.authenticator == authenticator && s.sessionManager == sessionManager && s.handler == handler
                && s.timeoutSeconds == timeoutSeconds && s.maxAuthAttempts == maxAuthAttempts
                && s.Conn() == ConnState(bpqMode, false, None, None, now, now, input, [], []))
    {
      var allowed := IsIpAllowed(remote);
      if !allowed {
        return NotAllowed, null;
      }
      if |activeSessions| >= maxConnections {
        return LimitReached, null;
      }
      s := new TelnetSession(authenticator, sessionManager, handler, timeoutSeconds, maxAuthAttempts, bpqMode, now, input);
      assert s !in activeSessions;
      activeSessions := activeSessions + [s];
      totalConnections := totalConnections + 1;
      a := Admitted;
    }

    /** The `finally` of `handle_connection`: the connection leaves the live list, if it is still there. */
    method Release(s: TelnetSession)
      requires Valid()
      modifies this
      ensures Valid() && totalConnections == old(totalConnections)
      ensures activeSessions == Without(old(activeSessions), s) && s !in activeSessions
    {
      WithoutDistinct(activeSessions, s);
      if s in activeSessions {
        activeSessions := Without(activeSessions, s);
      }
    }

    /**
     * `handle_connection`, with `sid` the id a successful login gets: a refused peer gets
     * one line and nothing else changes; an admitted one is counted, runs to the end
     * of its connection and leaves the live list as it found it.
     */
    method HandleConnection(remote: Option<IpAddress>, now: int, input: seq<InputEvent>, sid: string)
      returns (a: Admission, reply: Option<string>, s: TelnetSession?)
      requires Valid() && sid !in sessionManager.sessions
      modifies this, authenticator, sessionManager, sessionManager.Repr
      ensures Valid() && activeSessions == old(activeSessions)
      ensures a == Decide(Allowed(safelist, remote), |old(activeSessions)|, maxConnections) && reply == Refusal(a)
      ensures totalConnections == old(totalConnections) + (if a == Admitted then 1 else 0)
      ensures a != Admitted ==> (authenticator.State() == old(authenticator.State())
                && sessionManager.State() == old(sessionManager.State()))
      ensures a == Admitted ==> (s != null && fresh(s) && s.Wired()
                && s.Snapshot() == RunSpec(s.env,
                     World(ConnState(bpqMode, false, None, None, now, now, input, [], []),
                           old(authenticator.State()), old(sessionManager.State())),
                     banner, sid))
    {
      ghost var active0 := activeSessions;
      a, s := Admit(remote, now, input);
      reply := Refusal(a);
      if a == Admitted {
        assert s.Snapshot() == World(ConnState(bpqMode, false, None, None, now, now, input, [], []),
                                     old(authenticator.State()), old(sessionManager.State()));
        assert activeSessions == active0 + [s];
        WithoutLast<TelnetSession>(active0, s);
        RunAdmitted(s, sid);
        assert activeSessions == active0;
      }
    }

    /** The rest of `handle_connection` for an admitted connection: run it, then release it. */
    method RunAdmitted(s: TelnetSession, sid: string)
      requires Valid() && s.Valid() && s.Wired() && s.sessionManager == sessionManager && s.authenticator == authenticator
      requires sid !in sessionManager.sessions
      modifies this, s, authenticator, sessionManager, sessionManager.Repr
      ensures Valid() && totalConnections == old(totalConnections)
      ensures activeSessions == Without(old(activeSessions), s)
      ensures s.Snapshot() == RunSpec(s.env, old(s.Snapshot()), banner, sid)
    {
      s.Run(banner, sid);
      Release(s);
    }

    /** `stop`: every live connection is closed, ending its bound session, and the list is emptied. */
    method Stop()
      requires Valid()
      modifies this, sessionManager
      ensures Valid() && activeSessions == [] && totalConnections == old(totalConnections)
      ensures sessionManager.Repr == old(sessionManager.Repr)
      ensures sessionManager.State() == old(sessionManager.State()) - old(BoundIds(activeSessions))
    {
      var i := 0;
      while i < |activeSessions|
        invariant 0 <= i <= |activeSessions| && activeSessions == old(activeSessions)
        invariant totalConnections == old(totalConnections)
        invariant Valid() && sessionManager.Repr == old(sessionManager.Repr)
        invariant sessionManager.State() == old(sessionManager.State()) - old(BoundIds(activeSessions[..i]))
      {
        var c := activeSessions[i];
        ghost var t := sessionManager.State();
        c.Close();
        assert sessionManager.State() == t - old(Bound(c));
        assert activeSessions[..i + 1][..i] == activeSessions[..i];
        assert old(BoundIds(activeSessions[..i + 1])) == old(BoundIds(activeSessions[..i])) + old(Bound(c));
        RemoveTwice(old(sessionManager.State()), old(BoundIds(activeSessions[..i])), old(Bound(c)));
        i := i + 1;
      }
      assert activeSessions[..i] == activeSessions;
      activeSessions := [];
    }

    /** `get_active_callsigns` */
    function GetActiveCallsigns(): seq<string>
      reads this, set i | 0 <= i < |activeSessions| :: activeSessions[i]
    {
      Callsigns(activeSessions)
    }

    /** `get_stats`, without the uptime, the listening flag and the peer addresses. */
    function GetStats(now: int): (r: ServerStats)
      reads this, set i | 0 <= i < |activeSessions| :: activeSessions[i]
      ensures r.activeConnections == |activeSessions| && |r.sessions| == |activeSessions|
      ensures r.maxConnections == maxConnections && r.totalConnections == totalConnections
      ensures forall i :: 0 <= i < |activeSessions| ==>
        r.sessions[i] == SessionStats(activeSessions[i].callsign, activeSessions[i].authenticated, now - activeSessions[i].lastActivity)
    {
      ServerStats(|activeSessions|, maxConnections, totalConnections, SessionsStats(activeSessions, now))
    }
  }

  /** The live count `get_stats` reports never exceeds the cap. */
  lemma StatsWithinCap(server: TelnetServer, now: int)
    requires server.Valid()
    ensures var r := server.GetStats(now); r.activeConnections == 0 || r.activeConnections <= r.maxConnections
  {
  }
}
