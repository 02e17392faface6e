/** From the wire to a backend: a client's protected first flight picks its slot. */
module Routing {
  import opened Bits
  import opened Configuration
  import opened Conservation
  import opened Frames
  import opened Hello
  import opened Knock
  import opened Lifecycle
  import opened PacketProtection
  import opened Reassembly
  import opened Safety
  import opened Sni
  import opened Wrappers

  type Protected = PacketProtection.Packet

  /** The loop's rules, given a validated configuration. */
  function ProxyRules(c: Config, crypto: Primitives): Rules
    requires WellFormed(c) && crypto.Lawful()
  {
    Rules(data => RoutesOf(c).Resolve(PeekedName(crypto, data)).backend, c.sessionTimeout, c.idleTimeout)
  }

  /** A run of the loop under a validated configuration, from its slots all asleep. */
  ghost predicate IsServed(c: Config, crypto: Primitives, ss: seq<State>, es: seq<Event>)
    requires WellFormed(c) && crypto.Lawful()
  {
    IsRun(ProxyRules(c, crypto), SlotConfigs(c).Keys, ss, es)
  }

  lemma RulesConfigured(c: Config, crypto: Primitives)
    requires WellFormed(c) && crypto.Lawful()
    ensures Configured(ProxyRules(c, crypto), SlotConfigs(c).Keys)
  {
    hide RoutesOf, SlotConfigs, PeekedName, WellFormed;
    forall data: seq<byte> ensures ProxyRules(c, crypto).route(data) in SlotConfigs(c).Keys {
      ResolvedSlotExists(c, PeekedName(crypto, data));
    }
  }

  /** No run of a validated configuration ever selects a backend that is not configured. */
  lemma EveryDatagramHasASlot(c: Config, crypto: Primitives, ss: seq<State>, es: seq<Event>, i: nat)
    requires WellFormed(c) && crypto.Lawful() && i < |ss| && IsServed(c, crypto, ss, es)
    ensures Routable(ss[i])
  {
    hide IsRun, SlotConfigs, ProxyRules;
    RulesConfigured(c, crypto);
    NothingUnroutable(ProxyRules(c, crypto), SlotConfigs(c).Keys, ss, es, i);
  }

  /** A protected Initial that offers a host is routed to a named backend exactly when the
  host and the route are the same host name. */
  lemma OfferedHostPicksRoute(
      c: Config, crypto: Primitives, p: Protected, fs: seq<Frame>, tail: seq<byte>, h: ClientHello, more: seq<byte>,
      route: Name)
    requires WellFormed(c) && crypto.Lawful() && Offers(crypto, p, fs, tail, h) && route in c.routes
    ensures ProxyRules(c, crypto).route(Protect(crypto, p) + more) == c.routes[route].backend
       <==> SameHost(h.host, route)
  {
    hide Offers, Protect, PeekedName, RoutesOf, SameHost, WellFormed;
    PeekInvertsClient(crypto, p, fs, tail, h, more);
    ResolveMatchesNames(c, h.host, route);
    SameBackendSameRoute(c, Some(h.host), route);
  }

  lemma SameBackendSameRoute(c: Config, name: Option<Name>, route: Name)
    requires WellFormed(c) && route in c.routes
    ensures RoutesOf(c).Resolve(name).backend == c.routes[route].backend
        ==> RoutesOf(c).Resolve(name) == c.routes[route]
  {
    hide Normalize, WellFormed, NamedSlots, RoutesOf;
    ResolvedSlotExists(c, name);
    NamedSlotEntries(c);
  }

  /** And to the default backend exactly when no route is for that host name. */
  lemma UnknownHostFallsBack(
      c: Config, crypto: Primitives, p: Protected, fs: seq<Frame>, tail: seq<byte>, h: ClientHello, more: seq<byte>)
    requires WellFormed(c) && crypto.Lawful() && Offers(crypto, p, fs, tail, h)
    ensures ProxyRules(c, crypto).route(Protect(crypto, p) + more) == c.backend
       <==> forall n <- c.routes :: !SameHost(h.host, n)
  {
    hide Offers, Protect, PeekedName, RoutesOf, SameHost, WellFormed;
    PeekInvertsClient(crypto, p, fs, tail, h, more);
    ResolveFallsBack(c, Some(h.host));
    DefaultIsDefault(c, Some(h.host));
  }

  lemma DefaultIsDefault(c: Config, name: Option<Name>)
    requires WellFormed(c)
    ensures RoutesOf(c).Resolve(name).backend == c.backend ==> RoutesOf(c).Resolve(name) == c.DefaultBackend()
  {
    hide Normalize, WellFormed, NamedSlots, RoutesOf;
    ResolvedSlotExists(c, name);
    NamedSlotEntries(c);
  }

  /** The first datagram of a client that names a sleeping backend wakes that backend, and is
  the first thing it holds. */
  lemma FirstFlightWakes(
      c: Config, crypto: Primitives, p: Protected, fs: seq<Frame>, tail: seq<byte>, h: ClientHello, more: seq<byte>,
      route: Name, s: State, client: Addr, now: int, bindOk: bool)
    requires WellFormed(c) && crypto.Lawful() && Offers(crypto, p, fs, tail, h)
    requires route in c.routes && SameHost(h.host, route)
    requires |Protect(crypto, p) + more| >= 1200
    requires Sound(s) && client !in s.sessions
    requires c.routes[route].backend in s.slots && s.slots[c.routes[route].backend].life == Sleeping
    ensures var a, data := c.routes[route].backend, Protect(crypto, p) + more;
            HandleDatagram(ProxyRules(c, crypto), s, client, data, now, bindOk).slots[a]
            == Slot(Waking, None, map[client := Lifecycle.Packet(|s.arrivals|, data)])
  {
    hide Protect, ProxyRules, SameHost, WellFormed, IsQuicInitial, PeekedName, HandleDatagram, Sound;
    hide Carry, EncodeHello, EncodeFrames, CryptoPieces, Ends;
    PeekInvertsClient(crypto, p, fs, tail, h, more);
    OfferedHostPicksRoute(c, crypto, p, fs, tail, h, more, route);
    KnockOnSleeping(ProxyRules(c, crypto), s, client, Protect(crypto, p) + more, now, bindOk);
  }

  lemma KnockOnSleeping(r: Rules, s: State, client: Addr, data: seq<byte>, now: int, bindOk: bool)
    requires Sound(s) && client !in s.sessions && IsQuicInitial(data)
    requires r.route(data) in s.slots && s.slots[r.route(data)].life == Sleeping
    ensures HandleDatagram(r, s, client, data, now, bindOk).slots[r.route(data)]
         == Slot(Waking, None, map[client := Lifecycle.Packet(|s.arrivals|, data)])
  {
    hide IsQuicInitial;
    assert SlotOk(s.slots[r.route(data)]);
  }
}
