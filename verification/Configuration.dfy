/** The proxy's configuration: what is accepted, and how a server name picks a backend. */
module Configuration {
  import opened Bits
  import opened Wrappers

  /** A name as its UTF-8 bytes. */
  type Name = seq<byte>

  datatype Addr = Addr(ip: nat, port: nat)

  datatype ServerConfig = ServerConfig(command: seq<byte>, forwardStdin: bool)

  datatype BackendConfig = BackendConfig(backend: Addr, server: ServerConfig)

  datatype Config = Config(
    listen: Addr, backend: Addr, server: ServerConfig, routes: map<Name, BackendConfig>,
    idleTimeout: nat, sessionTimeout: nat)
  {
    function DefaultBackend(): BackendConfig {
      BackendConfig(backend, server)
    }
  }

  const MAX_SERVER_NAME: nat := 253
  const DOT: byte := 0x2e

  // ----- names

  function Lower(b: byte): byte {
    if 0x41 <= b <= 0x5a then b + 0x20 else b
  }

  function StripDot(n: Name): Name {
    if n != [] && n[|n| - 1] == DOT then n[..|n| - 1] else n
  }

  /** Without one trailing dot, in lower case. */
  function Normalize(n: Name): (r: Name)
    ensures |r| == |StripDot(n)|
  {
    var s := StripDot(n);
    seq(|s|, i requires 0 <= i < |s| => Lower(s[i]))
  }

  /** A second pass only changes a name that ended in two dots. */
  lemma NormalizeTwice(n: Name)
    ensures Normalize(Normalize(n)) == Normalize(n)
       <==> !(|n| >= 2 && n[|n| - 1] == DOT && n[|n| - 2] == DOT)
  {
    var r := Normalize(n);
    if r != [] {
      assert r[|r| - 1] == DOT <==> StripDot(n)[|r| - 1] == DOT;
    }
  }

  /** A host name without the dot it may end in. */
  function Undotted(n: Name): Name {
    if n != [] && n[|n| - 1] == 0x2e then n[..|n| - 1] else n
  }

  /** The same byte, or the two cases of one ASCII letter. */
  predicate SameLetter(x: byte, y: byte) {
    x == y || (0x41 <= x <= 0x5a && y == x + 0x20) || (0x41 <= y <= 0x5a && x == y + 0x20)
  }

  /** The same host name, whatever case it is written in and with or without its last dot. */
  ghost predicate SameHost(n: Name, m: Name) {
    && |Undotted(n)| == |Undotted(m)|
    && forall i | 0 <= i < |Undotted(n)| :: SameLetter(Undotted(n)[i], Undotted(m)[i])
  }

  /** Normal forms are equal if and only if the host names are. */
  lemma NormalizeTellsHosts(n: Name, m: Name)
    ensures Normalize(n) == Normalize(m) <==> SameHost(n, m)
  {
    var x, y := Undotted(n), Undotted(m);
    assert StripDot(n) == x && StripDot(m) == y;
    forall i | 0 <= i < |x| && i < |y| ensures Normalize(n)[i] == Normalize(m)[i] <==> SameLetter(x[i], y[i]) {
    }
    if |x| == |y| && forall i | 0 <= i < |x| :: SameLetter(x[i], y[i]) {
      assert forall i | 0 <= i < |x| :: Normalize(n)[i] == Normalize(m)[i];
    }
  }

  // ----- what validation demands

  function ConsoleRoutes(c: Config): set<Name> {
    set n | n in c.routes && c.routes[n].server.forwardStdin
  }

  function Consoles(c: Config): nat {
    (if c.server.forwardStdin then 1 else 0) + |ConsoleRoutes(c)|
  }

  ghost predicate RouteOk(c: Config, n: Name)
    requires n in c.routes
  {
    var r := c.routes[n];
    && 1 <= |n| <= 253
    && r.backend.port != 0 && r.backend != c.listen && r.backend != c.backend
    && r.server.command != []
  }

  ghost predicate RoutesDiffer(c: Config, n: Name, m: Name)
    requires n in c.routes && m in c.routes
  {
    n != m ==> Normalize(n) != Normalize(m) && c.routes[n].backend != c.routes[m].backend
  }

  ghost predicate WellFormed(c: Config) {
    && c.listen != c.backend && c.listen.port != 0 && c.backend.port != 0 && c.server.command != []
    && (forall n <- c.routes :: RouteOk(c, n))
    && (forall n <- c.routes, m <- c.routes :: RoutesDiffer(c, n, m))
    && Consoles(c) <= 1
  }

  /** At most one of the servers, the default one included, takes the console. */
  ghost predicate OneConsole(c: Config) {
    && (c.server.forwardStdin ==> forall n <- c.routes :: !c.routes[n].server.forwardStdin)
    && forall n <- c.routes, m <- c.routes |
         c.routes[n].server.forwardStdin && c.routes[m].server.forwardStdin :: n == m
  }

  lemma ConsolesCount(c: Config)
    ensures Consoles(c) <= 1 <==> OneConsole(c)
  {
    var users := ConsoleRoutes(c);
    AtMostOne(users);
    assert forall n :: n in users <==> n in c.routes && c.routes[n].server.forwardStdin;
    assert |users| == 0 <==> users == {};
  }

  lemma AtMostOne(s: set<Name>)
    ensures |s| <= 1 <==> forall n <- s, m <- s :: n == m
  {
    if n :| n in s {
      assert |s| == 1 + |s - {n}|;
      if m :| m in s - {n} {
        assert |s - {n}| == 1 + |s - {n} - {m}|;
      } else {
        assert s - {n} == {};
      }
    }
  }

  /** No two routes name one host. */
  ghost predicate HostsDiffer(c: Config) {
    forall n <- c.routes, m <- c.routes | n != m :: !SameHost(n, m)
  }

  lemma WellFormedMeans(c: Config)
    requires WellFormed(c)
    ensures HostsDiffer(c) && OneConsole(c)
  {
    hide Normalize, SameHost, Consoles, OneConsole, RouteOk;
    ConsolesCount(c);
    forall n, m | n in c.routes && m in c.routes && n != m ensures !SameHost(n, m) {
      assert RoutesDiffer(c, n, m);
      NormalizeTellsHosts(n, m);
    }
  }

  datatype Fault =
    | SharedAddress
    | ListenPortZero
    | BackendPortZero
    | NoCommand
    | NameLength(name: Name)
    | RoutePortZero(name: Name)
    | RouteIsListen(name: Name)
    | SameName(name: Name, other: Name)
    | SameBackend(name: Name, user: Option<Name>)
    | NoRouteCommand(name: Name)
    | ManyConsoles

  /** The fault a validation error reports is there. */
  ghost predicate Present(c: Config, f: Fault) {
    match f
    case SharedAddress => c.listen == c.backend
    case ListenPortZero => c.listen.port == 0
    case BackendPortZero => c.backend.port == 0
    case NoCommand => c.server.command == []
    case NameLength(n) => n in c.routes && !(1 <= |n| <= 253)
    case RoutePortZero(n) => n in c.routes && c.routes[n].backend.port == 0
    case RouteIsListen(n) => n in c.routes && c.routes[n].backend == c.listen
    case SameName(n, m) => n in c.routes && m in c.routes && n != m && Normalize(n) == Normalize(m)
    case SameBackend(n, m) =>
      && n in c.routes
      && if m.None? then c.routes[n].backend == c.backend
         else m.value in c.routes && n != m.value && c.routes[n].backend == c.routes[m.value].backend
    case NoRouteCommand(n) => n in c.routes && c.routes[n].server.command == []
    case ManyConsoles => Consoles(c) > 1
  }

  lemma FaultSpoils(c: Config, f: Fault)
    requires Present(c, f)
    ensures !WellFormed(c)
  {
    match f
    case SameName(n, m) => assert !RoutesDiffer(c, n, m);
    case SameBackend(n, m) =>
      if m.Some? {
        assert !RoutesDiffer(c, n, m.value);
      } else {
        assert !RouteOk(c, n);
      }
    case NameLength(n) => assert !RouteOk(c, n);
    case RoutePortZero(n) => assert !RouteOk(c, n);
    case RouteIsListen(n) => assert !RouteOk(c, n);
    case NoRouteCommand(n) => assert !RouteOk(c, n);
    case _ =>
  }

  /** The routes already checked: good on their own, pairwise different, and exactly what the
  two lookup maps record. */
  ghost predicate Checked(c: Config, done: set<Name>, names: map<Name, Name>, backends: map<Addr, Option<Name>>) {
    && done <= c.routes.Keys
    && (forall n <- done :: RouteOk(c, n))
    && (forall n <- done, m <- done :: RoutesDiffer(c, n, m))
    && (forall k <- names :: names[k] in done && Normalize(names[k]) == k)
    && (forall n <- done :: Normalize(n) in names)
    && (forall a <- backends ::
          if backends[a].None? then a == c.backend
          else backends[a].value in done && c.routes[backends[a].value].backend == a)
    && (forall n <- done :: c.routes[n].backend in backends)
    && c.backend in backends
  }

  /** Nothing, if and only if the configuration is well formed; otherwise a fault it has. */
  method Validate(c: Config) returns (fault: Option<Fault>)
    ensures fault.None? <==> WellFormed(c)
    ensures fault.Some? ==> Present(c, fault.value)
    ensures fault.None? ==> HostsDiffer(c) && OneConsole(c)
  {
    fault := FindFault(c);
    if fault.Some? {
      FaultSpoils(c, fault.value);
    } else {
      WellFormedMeans(c);
    }
  }

  method FindFault(c: Config) returns (fault: Option<Fault>)
    ensures fault.None? ==> WellFormed(c)
    ensures fault.Some? ==> Present(c, fault.value)
  {
    if c.listen == c.backend { return Some(SharedAddress); }
    if c.listen.port == 0 { return Some(ListenPortZero); }
    if c.backend.port == 0 { return Some(BackendPortZero); }
    if c.server.command == [] { return Some(NoCommand); }
    hide Checked, RouteOk, RoutesDiffer, Normalize, WellFormed, Present, Consoles;
    var names: map<Name, Name> := map[];
    var backends: map<Addr, Option<Name>> := map[c.backend := None];
    var left := c.routes.Keys;
    ghost var done := {};
    NothingChecked(c);
    while left != {}
      invariant left + done == c.routes.Keys && left !! done
      invariant Checked(c, done, names, backends)
      decreases left
    {
      var name :| name in left;
      fault := RouteFault(c, name, names, backends, done);
      if fault.Some? {
        return;
      }
      RouteChecked(c, done, names, backends, name);
      names := names[Normalize(name) := name];
      backends := backends[c.routes[name].backend := Some(name)];
      left, done := left - {name}, done + {name};
    }
    assert done == c.routes.Keys;
    fault := if Consoles(c) > 1 then Some(ManyConsoles) else None;
    EverythingChecked(c, names, backends);
  }

  lemma NothingChecked(c: Config)
    ensures Checked(c, {}, map[], map[c.backend := None])
  {
  }

  lemma EverythingChecked(c: Config, names: map<Name, Name>, backends: map<Addr, Option<Name>>)
    requires Checked(c, c.routes.Keys, names, backends)
    requires c.listen != c.backend && c.listen.port != 0 && c.backend.port != 0 && c.server.command != []
    ensures if Consoles(c) > 1 then Present(c, ManyConsoles) else WellFormed(c)
  {
    hide RouteOk, RoutesDiffer, Normalize, Consoles;
  }

  /** The checks on one route, in the order the code makes them. */
  method RouteFault(c: Config, name: Name, names: map<Name, Name>, backends: map<Addr, Option<Name>>,
        ghost done: set<Name>)
    returns (fault: Option<Fault>)
    requires name in c.routes
    requires name !in done && Checked(c, done, names, backends)
    ensures fault.Some? ==> Present(c, fault.value)
    ensures fault.None? ==> RouteOk(c, name) && Normalize(name) !in names && c.routes[name].backend !in backends
  {
    var route := c.routes[name];
    if !(1 <= |name| <= MAX_SERVER_NAME) { return Some(NameLength(name)); }
    if route.backend.port == 0 { return Some(RoutePortZero(name)); }
    if route.backend == c.listen { return Some(RouteIsListen(name)); }
    if Normalize(name) in names { return Some(SameName(name, names[Normalize(name)])); }
    if route.backend in backends { return Some(SameBackend(name, backends[route.backend])); }
    if route.server.command == [] { return Some(NoRouteCommand(name)); }
    fault := None;
  }

  lemma RouteChecked(c: Config, done: set<Name>, names: map<Name, Name>, backends: map<Addr, Option<Name>>, name: Name)
    requires Checked(c, done, names, backends) && name in c.routes && name !in done
    requires RouteOk(c, name) && Normalize(name) !in names && c.routes[name].backend !in backends
    ensures Checked(c, done + {name}, names[Normalize(name) := name], backends[c.routes[name].backend := Some(name)])
  {
    hide RouteOk, Normalize;
  }

  // ----- routing

  /** The resolver: a table from normalised names, and the default. */
  datatype Routes = Routes(default: BackendConfig, table: map<Name, BackendConfig>) {

    function Resolve(serverName: Option<Name>): BackendConfig {
      if serverName.None? then default
      else if Normalize(serverName.value) in table then table[Normalize(serverName.value)]
      else default
    }
  }

  function Table(c: Config): map<Name, BackendConfig>
    requires WellFormed(c)
  {
    hide Normalize, Consoles, RouteOk;
    assert forall n <- c.routes, m <- c.routes :: RoutesDiffer(c, n, m);
    map n | n in c.routes :: Normalize(n) := c.routes[n]
  }

  lemma TableEntries(c: Config)
    requires WellFormed(c)
    ensures forall n <- c.routes :: Normalize(n) in Table(c) && Table(c)[Normalize(n)] == c.routes[n]
    ensures forall k <- Table(c) :: exists n <- c.routes :: Normalize(n) == k
  {
    hide Normalize, Consoles, RouteOk;
    forall n | n in c.routes ensures Table(c)[Normalize(n)] == c.routes[n] {
      assert forall m <- c.routes :: RoutesDiffer(c, n, m);
    }
  }

  function RoutesOf(c: Config): Routes
    requires WellFormed(c)
  {
    Routes(c.DefaultBackend(), Table(c))
  }

  /** A name resolves to a named route if and only if it is the same host name, and to the
  default if and only if no route's is. */
  lemma ResolveMatchesNames(c: Config, serverName: Name, route: Name)
    requires WellFormed(c) && route in c.routes
    ensures RoutesOf(c).Resolve(Some(serverName)) == c.routes[route] <==> SameHost(serverName, route)
  {
    NormalizeTellsHosts(serverName, route);
    hide SameHost;
    var key := Normalize(serverName);
    TableEntries(c);
    assert RouteOk(c, route);
    if key in Table(c) && key != Normalize(route) {
      var n :| n in c.routes && Normalize(n) == key;
      assert RoutesDiffer(c, n, route);
    }
    hide Normalize, Table, WellFormed;
  }

  lemma ResolveFallsBack(c: Config, serverName: Option<Name>)
    requires WellFormed(c)
    ensures RoutesOf(c).Resolve(serverName) == c.DefaultBackend()
       <==> serverName.None? || forall n <- c.routes :: !SameHost(serverName.value, n)
  {
    hide Normalize, SameHost;
    TableEntries(c);
    if serverName.Some? {
      forall n | n in c.routes
        ensures SameHost(serverName.value, n) <==> Normalize(serverName.value) == Normalize(n)
        ensures c.routes[n] != c.DefaultBackend()
      {
        NormalizeTellsHosts(serverName.value, n);
        assert RouteOk(c, n);
      }
    }
  }

  function NamedSlots(c: Config): map<Addr, BackendConfig>
    requires WellFormed(c)
  {
    hide Normalize, Consoles, RouteOk;
    assert forall n <- c.routes, m <- c.routes :: RoutesDiffer(c, n, m);
    map n | n in c.routes :: c.routes[n].backend := c.routes[n]
  }

  lemma NamedSlotEntries(c: Config)
    requires WellFormed(c)
    ensures c.backend !in NamedSlots(c)
    ensures forall n <- c.routes :: c.routes[n].backend in NamedSlots(c) && NamedSlots(c)[c.routes[n].backend] == c.routes[n]
    ensures forall a <- NamedSlots(c) :: NamedSlots(c)[a].backend == a
  {
    hide Normalize, Consoles;
    forall n | n in c.routes ensures c.routes[n].backend != c.backend {
      assert RouteOk(c, n);
    }
    hide WellFormed;
  }

  /** The lifecycle slots the proxy starts with, keyed by backend address. */
  function SlotConfigs(c: Config): map<Addr, BackendConfig>
    requires WellFormed(c)
  {
    map[c.backend := c.DefaultBackend()] + NamedSlots(c)
  }

  lemma NamedSlotsOnly(c: Config)
    requires WellFormed(c)
    ensures forall a <- NamedSlots(c) :: exists n <- c.routes :: c.routes[n].backend == a
  {
    hide Normalize, WellFormed;
  }

  lemma BackendsDiffer(c: Config)
    requires WellFormed(c)
    ensures forall n <- c.routes, m <- c.routes | n != m :: c.routes[n].backend != c.routes[m].backend
  {
    hide Normalize, Consoles, RouteOk;
    forall n, m | n in c.routes && m in c.routes && n != m ensures c.routes[n].backend != c.routes[m].backend {
      assert RoutesDiffer(c, n, m);
    }
  }

  /** One slot for the default and one for each route, each under its own address. */
  lemma SlotsAreOneToOne(c: Config)
    requires WellFormed(c)
    ensures |SlotConfigs(c)| == 1 + |c.routes|
    ensures forall a <- SlotConfigs(c) :: SlotConfigs(c)[a].backend == a
    ensures forall n <- c.routes :: c.routes[n].backend in SlotConfigs(c)
  {
    hide Normalize, NamedSlots, WellFormed;
    NamedSlotCount(c);
    NamedSlotEntries(c);
    OneMore(NamedSlots(c), c.backend, c.DefaultBackend());
  }

  lemma OneMore(m: map<Addr, BackendConfig>, a: Addr, b: BackendConfig)
    requires a !in m
    ensures |map[a := b] + m| == 1 + |m|
  {
    assert (map[a := b] + m).Keys == {a} + m.Keys;
  }

  lemma NamedSlotCount(c: Config)
    requires WellFormed(c)
    ensures |NamedSlots(c)| == |c.routes|
  {
    hide Normalize, NamedSlots, WellFormed;
    NamedSlotEntries(c);
    NamedSlotsOnly(c);
    BackendsDiffer(c);
    BackendCount(c.routes, c.routes.Keys, NamedSlots(c).Keys);
  }

  /** Whatever name a client offers, or none, resolves to a configured slot. */
  lemma ResolvedSlotExists(c: Config, name: Option<Name>)
    requires WellFormed(c)
    ensures var r := RoutesOf(c).Resolve(name); r.backend in SlotConfigs(c) && SlotConfigs(c)[r.backend] == r
  {
    hide Normalize, NamedSlots, WellFormed;
    TableEntries(c);
    if name.Some? && Normalize(name.value) in Table(c) {
      var n :| n in c.routes && Normalize(n) == Normalize(name.value);
    }
    NamedSlotEntries(c);
    hide Table;
  }

  lemma {:induction false} BackendCount(routes: map<Name, BackendConfig>, s: set<Name>, image: set<Addr>)
    requires s <= routes.Keys
    requires forall n <- s, m <- s | n != m :: routes[n].backend != routes[m].backend
    requires forall n <- s :: routes[n].backend in image
    requires forall a <- image :: exists n <- s :: routes[n].backend == a
    ensures |image| == |s|
  {
    if s == {} {
      assert image == {};
    } else {
      var n :| n in s;
      BackendCount(routes, s - {n}, image - {routes[n].backend});
    }
  }
}
