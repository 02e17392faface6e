/** The proxy as a state machine: lifecycle slots, held Initials and relay sessions.

One event is one turn of the proxy's loop: a datagram handled, or a tick. What the outside
world decides (boot results, exits, socket binds, and the order a map is walked in) comes
with the event. Three fields are history: the datagrams received, numbered by arrival, the
sends made on upstream sockets, each counted as often as it is made, and the ledger of what
became of each datagram. */
module Lifecycle {
  import opened Bits
  import opened Configuration
  import opened Knock
  import opened Wrappers

  const MAX_HELD_CLIENTS: nat := 8

  /** A relay session. Its upstream socket is named after the datagram it was opened for. */
  datatype Session = Session(opener: nat, backend: Addr, lastSeen: int)

  datatype Packet = Packet(id: nat, data: seq<byte>)

  datatype Life = Sleeping | Waking | Running

  datatype Slot = Slot(life: Life, emptySince: Option<int>, held: map<Addr, Packet>)

  datatype Arrival = Arrival(client: Addr, data: seq<byte>)

  /** What became of a datagram: handed to a session's socket, no socket could be bound for
  it, dropped, replaced by a newer one while held, thrown away with a failed boot, or
  selected for a backend that is not configured. */
  datatype Fate =
    | Forwarded(backend: Addr, data: seq<byte>, at: int)
    | Unbound
    | Dropped
    | Superseded
    | Discarded
    | Unroutable

  /** One datagram handed to an upstream socket. */
  datatype Send = Send(id: nat, backend: Addr, data: seq<byte>, at: int)

  datatype State = State(
    slots: map<Addr, Slot>, sessions: map<Addr, Session>,
    arrivals: seq<Arrival>, sent: multiset<Send>, ledger: map<nat, Fate>)

  /** The configuration as the loop uses it. */
  datatype Rules = Rules(route: seq<byte> -> Addr, sessionTimeout: nat, idleTimeout: nat)

  function Start(backends: set<Addr>): State {
    State(map a | a in backends :: Slot(Sleeping, None, map[]), map[], [], multiset{}, map[])
  }

  function Settle(s: State, id: nat, fate: Fate): State {
    s.(ledger := s.ledger[id := fate])
  }

  /** Hand a datagram to a session's socket. */
  function Transmit(s: State, p: Packet, backend: Addr, now: int): State {
    Settle(s.(sent := s.sent + multiset{Send(p.id, backend, p.data, now)}), p.id, Forwarded(backend, p.data, now))
  }

  // ----- a datagram

  /** Relay one datagram: a session keeps its backend, and a new one is opened on `backend`. */
  function Forward(s: State, client: Addr, backend: Addr, p: Packet, now: int, bindOk: bool): State {
    if client in s.sessions then
      var session := s.sessions[client];
      Transmit(s.(sessions := s.sessions[client := session.(lastSeen := now)]), p, session.backend, now)
    else if bindOk then
      Transmit(s.(sessions := s.sessions[client := Session(p.id, backend, now)]), p, backend, now)
    else Settle(s, p.id, Unbound)
  }

  /** Hold a client's newest Initial, unless that would hold too many clients. */
  function Hold(s: State, a: Addr, client: Addr, p: Packet): State
    requires a in s.slots
  {
    var slot := s.slots[a];
    if client !in slot.held && |slot.held| >= MAX_HELD_CLIENTS then Settle(s, p.id, Dropped)
    else
      var t := s.(slots := s.slots[a := slot.(held := slot.held[client := p])]);
      if client in slot.held then Settle(t, slot.held[client].id, Superseded) else t
  }

  function SetLife(s: State, a: Addr, life: Life): State
    requires a in s.slots
  {
    s.(slots := s.slots[a := s.slots[a].(life := life)])
  }

  /** The slot a datagram belongs to: the client's session decides, then the server name. */
  function Target(r: Rules, s: State, client: Addr, data: seq<byte>): Addr {
    if client in s.sessions then s.sessions[client].backend else r.route(data)
  }

  /** Relay a datagram, hold it, or drop it, as its slot's state has it. */
  function Dispatch(s: State, a: Addr, client: Addr, p: Packet, now: int, bindOk: bool): (t: State)
    ensures t.slots.Keys == s.slots.Keys
  {
    hide IsQuicInitial;
    if a !in s.slots then Settle(s, p.id, Unroutable)
    else if s.slots[a].life == Running then Forward(s, client, a, p, now, bindOk)
    else if IsQuicInitial(p.data) then Hold(SetLife(s, a, Waking), a, client, p)
    else Settle(s, p.id, Dropped)
  }

  function HandleDatagram(r: Rules, s: State, client: Addr, data: seq<byte>, now: int, bindOk: bool): (t: State)
    ensures t.slots.Keys == s.slots.Keys
  {
    Dispatch(s.(arrivals := s.arrivals + [Arrival(client, data)]),
             Target(r, s, client, data), client, Packet(|s.arrivals|, data), now, bindOk)
  }

  // ----- a tick

  datatype Boot = Pending | Ready | BootFailed

  datatype Exit = Alive | Exited | CheckError

  /** The outside world during one tick: how each boot stands, how each exit check comes out,
  and whether a socket can be bound for a slot's held client. */
  datatype Outside = Outside(boot: Addr -> Boot, exit: Addr -> Exit, bindOk: (Addr, Addr) -> bool)

  function Reap(r: Rules, s: State, now: int): State {
    s.(sessions := map c | c in s.sessions && now - s.sessions[c].lastSeen < r.sessionTimeout :: s.sessions[c])
  }

  /** What delivery makes of one held Initial. */
  function Delivered(s: State, a: Addr, client: Addr, p: Packet, now: int, bindOk: bool): Fate {
    if client in s.sessions then Forwarded(s.sessions[client].backend, p.data, now)
    else if bindOk then Forwarded(a, p.data, now)
    else Unbound
  }

  function DeliveredSessions(
      s: State, a: Addr, held: map<Addr, Packet>, now: int, bindOk: (Addr, Addr) -> bool): map<Addr, Session>
  {
    map c | c in s.sessions.Keys + held.Keys && (c in s.sessions || bindOk(a, c)) ::
      if c in s.sessions then
        if c in held then s.sessions[c].(lastSeen := now) else s.sessions[c]
      else Session(held[c].id, a, now)
  }

  lemma DeliveredBackends(s: State, a: Addr, held: map<Addr, Packet>, now: int, bindOk: (Addr, Addr) -> bool)
    ensures var d := DeliveredSessions(s, a, held, now, bindOk);
            && (forall c <- s.sessions :: c in d && d[c].backend == s.sessions[c].backend)
            && (forall c <- d :: c in s.sessions || d[c].backend == a)
  {
  }

  /** Datagram number id is the one its client has in this hold. */
  predicate HeldUnder(arrivals: seq<Arrival>, held: map<Addr, Packet>, id: nat) {
    id < |arrivals| && arrivals[id].client in held && held[arrivals[id].client].id == id
  }

  function DeliveredFates(
      s: State, a: Addr, held: map<Addr, Packet>, now: int, bindOk: (Addr, Addr) -> bool): map<nat, Fate>
  {
    map id: nat | id < |s.arrivals| && HeldUnder(s.arrivals, held, id) ::
      var c := s.arrivals[id].client; Delivered(s, a, c, held[c], now, bindOk(a, c))
  }

  function ForwardedSends(fates: map<nat, Fate>): set<Send> {
    set id | id in fates && fates[id].Forwarded? :: Send(id, fates[id].backend, fates[id].data, fates[id].at)
  }

  /** One send for each datagram that is forwarded. */
  function SendsOf(fates: map<nat, Fate>): multiset<Send> {
    multiset(ForwardedSends(fates))
  }

  /** Forward every held Initial. They come from different clients, so the order is moot. */
  function DeliverHeld(s: State, a: Addr, held: map<Addr, Packet>, now: int, bindOk: (Addr, Addr) -> bool): State {
    s.(sessions := DeliveredSessions(s, a, held, now, bindOk),
       sent := s.sent + SendsOf(DeliveredFates(s, a, held, now, bindOk)),
       ledger := s.ledger + DeliveredFates(s, a, held, now, bindOk))
  }

  function DiscardedFates(s: State, held: map<Addr, Packet>): map<nat, Fate> {
    map id: nat | id < |s.arrivals| && HeldUnder(s.arrivals, held, id) :: Discarded
  }

  function DiscardHeld(s: State, held: map<Addr, Packet>): State {
    s.(ledger := s.ledger + DiscardedFates(s, held))
  }

  /** A successful boot: the slot runs, its idle clock starts, and what it held is delivered. */
  function Promote(s: State, a: Addr, now: int, bindOk: (Addr, Addr) -> bool): State
    requires a in s.slots
  {
    DeliverHeld(s.(slots := s.slots[a := Slot(Running, Some(now), map[])]), a, s.slots[a].held, now, bindOk)
  }

  /** The boot failed: the slot sleeps, and what it held is gone. */
  function LoseBoot(s: State, a: Addr): State
    requires a in s.slots
  {
    DiscardHeld(s.(slots := s.slots[a := Slot(Sleeping, s.slots[a].emptySince, map[])]), s.slots[a].held)
  }

  function BootTurn(s: State, a: Addr, io: Outside, now: int): State
    requires a in s.slots
  {
    if s.slots[a].life != Waking || io.boot(a) == Pending then s
    else if io.boot(a) == Ready then Promote(s, a, now, io.bindOk)
    else LoseBoot(s, a)
  }

  function SessionsOn(s: State, a: Addr): set<Addr> {
    set c | c in s.sessions && s.sessions[c].backend == a
  }

  function DropSessions(s: State, a: Addr): State {
    s.(sessions := map c | c in s.sessions && s.sessions[c].backend != a :: s.sessions[c])
  }

  function WithSlot(s: State, a: Addr, life: Life, emptySince: Option<int>): State
    requires a in s.slots
  {
    s.(slots := s.slots[a := s.slots[a].(life := life, emptySince := emptySince)])
  }

  /** The backend exited on its own: the slot sleeps, and no session leads to it. */
  function Gone(s: State, a: Addr): State
    requires a in s.slots
  {
    DropSessions(WithSlot(s, a, Sleeping, None), a)
  }

  /** When the slot ran out of sessions, as of a tick that finds none. */
  function Since(slot: Slot, now: int): int {
    if slot.emptySince.Some? then slot.emptySince.value else now
  }

  predicate IdleStops(r: Rules, s: State, a: Addr, now: int)
    requires a in s.slots
  {
    SessionsOn(s, a) == {} && now - Since(s.slots[a], now) >= r.idleTimeout
  }

  /** A running backend: gone, unknown, busy, idle, or idle for long enough to stop. */
  function RunTurn(r: Rules, s: State, a: Addr, io: Outside, now: int): State
    requires a in s.slots
  {
    if s.slots[a].life != Running || io.exit(a) == CheckError then s
    else if io.exit(a) == Exited then Gone(s, a)
    else if SessionsOn(s, a) != {} then WithSlot(s, a, Running, None)
    else if IdleStops(r, s, a, now) then WithSlot(s, a, Sleeping, None)
    else WithSlot(s, a, Running, Some(Since(s.slots[a], now)))
  }

  function Turn(r: Rules, s: State, a: Addr, io: Outside, now: int): State
    requires a in s.slots
  {
    BootTurnFrame(s, a, io, now);
    RunTurn(r, BootTurn(s, a, io, now), a, io, now)
  }

  // ----- what the pieces leave alone

  ghost predicate OnlySlotChanges(s: State, t: State, a: Addr) {
    && t.slots.Keys == s.slots.Keys && t.arrivals == s.arrivals
    && forall b <- s.slots | b != a :: t.slots[b] == s.slots[b]
  }

  lemma BootTurnFrame(s: State, a: Addr, io: Outside, now: int)
    requires a in s.slots
    ensures OnlySlotChanges(s, BootTurn(s, a, io, now), a)
  {
    hide DeliveredSessions, DeliveredFates, DiscardedFates;
  }

  lemma RunTurnFrame(r: Rules, s: State, a: Addr, io: Outside, now: int)
    requires a in s.slots
    ensures OnlySlotChanges(s, RunTurn(r, s, a, io, now), a)
    ensures RunTurn(r, s, a, io, now).ledger == s.ledger && RunTurn(r, s, a, io, now).sent == s.sent
  {
    hide SessionsOn, IdleStops;
  }

  lemma BootTurnSlot(s: State, a: Addr, io: Outside, now: int)
    requires a in s.slots && a in BootTurn(s, a, io, now).slots
    ensures var slot := s.slots[a];
            BootTurn(s, a, io, now).slots[a]
            == if slot.life != Waking || io.boot(a) == Pending then slot
               else if io.boot(a) == Ready then Slot(Running, Some(now), map[])
               else Slot(Sleeping, slot.emptySince, map[])
  {
    hide DeliveredSessions, DeliveredFates, DiscardedFates;
  }

  lemma RunTurnSlot(r: Rules, s: State, a: Addr, io: Outside, now: int)
    requires a in s.slots && a in RunTurn(r, s, a, io, now).slots
    ensures var slot := s.slots[a];
            RunTurn(r, s, a, io, now).slots[a]
            == if slot.life != Running || io.exit(a) == CheckError then slot
               else if io.exit(a) == Exited then Slot(Sleeping, None, slot.held)
               else if SessionsOn(s, a) != {} then Slot(Running, None, slot.held)
               else if IdleStops(r, s, a, now) then Slot(Sleeping, None, slot.held)
               else Slot(Running, Some(Since(slot, now)), slot.held)
  {
    hide SessionsOn, IdleStops;
  }

  lemma TurnFrame(r: Rules, s: State, a: Addr, io: Outside, now: int)
    requires a in s.slots
    ensures OnlySlotChanges(s, Turn(r, s, a, io, now), a)
  {
    hide BootTurn, RunTurn;
    BootTurnFrame(s, a, io, now);
    RunTurnFrame(r, BootTurn(s, a, io, now), a, io, now);
  }

  /** The slots take their turns in the order the map lists them. */
  function Turns(r: Rules, s: State, order: seq<Addr>, io: Outside, now: int): (t: State)
    requires forall a <- order :: a in s.slots
    ensures t.slots.Keys == s.slots.Keys && t.arrivals == s.arrivals
  {
    if order == [] then s
    else
      var before := Turns(r, s, order[..|order| - 1], io, now);
      TurnFrame(r, before, order[|order| - 1], io, now);
      Turn(r, before, order[|order| - 1], io, now)
  }

  ghost predicate Distinct(order: seq<Addr>) {
    forall i, j | 0 <= i < j < |order| :: order[i] != order[j]
  }

  lemma TurnsNext(r: Rules, s: State, order: seq<Addr>, io: Outside, now: int, i: nat)
    requires (forall a <- order :: a in s.slots) && i < |order|
    ensures order[i] in Turns(r, s, order[..i], io, now).slots
    ensures Turns(r, s, order[..i + 1], io, now) == Turn(r, Turns(r, s, order[..i], io, now), order[i], io, now)
  {
    hide Turn;
    assert order[..i + 1][..i] == order[..i];
  }

  /** Every key once. */
  ghost predicate Enumerates(order: seq<Addr>, keys: set<Addr>) {
    && (forall a <- order :: a in keys)
    && (forall a <- keys :: a in order)
    && Distinct(order)
  }

  function TickAll(r: Rules, s: State, order: seq<Addr>, io: Outside, now: int): (t: State)
    requires forall a <- order :: a in s.slots
    ensures t.slots.Keys == s.slots.Keys && t.arrivals == s.arrivals
  {
    Turns(r, Reap(r, s, now), order, io, now)
  }

  // ----- runs

  datatype What =
    | Datagram(client: Addr, data: seq<byte>, bindOk: bool)
    | Tick(order: seq<Addr>, io: Outside)

  datatype Event = Event(now: int, what: What)

  ghost predicate Possible(s: State, e: Event) {
    e.what.Tick? ==> Enumerates(e.what.order, s.slots.Keys)
  }

  ghost function Step(r: Rules, s: State, e: Event): (t: State)
    requires Possible(s, e)
    ensures t.slots.Keys == s.slots.Keys
  {
    hide HandleDatagram, TickAll;
    match e.what
    case Datagram(client, data, bindOk) => HandleDatagram(r, s, client, data, e.now, bindOk)
    case Tick(order, io) => TickAll(r, s, order, io, e.now)
  }

  /** States and the events between them, from the start, with a clock that never goes back. */
  ghost predicate IsRun(r: Rules, backends: set<Addr>, ss: seq<State>, es: seq<Event>) {
    && |ss| == |es| + 1 && ss[0] == Start(backends)
    && (forall i | 0 <= i < |es| :: Possible(ss[i], es[i]) && ss[i + 1] == Step(r, ss[i], es[i]))
    && (forall i, j | 0 <= i <= j < |es| :: es[i].now <= es[j].now)
  }

  lemma RunStep(r: Rules, backends: set<Addr>, ss: seq<State>, es: seq<Event>, j: nat, q: nat)
    requires IsRun(r, backends, ss, es) && j <= q < |es|
    ensures |ss| == |es| + 1 && Possible(ss[q], es[q]) && ss[q + 1] == Step(r, ss[q], es[q])
    ensures es[j].now <= es[q].now
  {
    hide Step;
  }

  lemma RunGrows(r: Rules, backends: set<Addr>, ss: seq<State>, es: seq<Event>, e: Event)
    requires IsRun(r, backends, ss, es) && Possible(ss[|es|], e)
    requires forall i | 0 <= i < |es| :: es[i].now <= e.now
    ensures IsRun(r, backends, ss + [Step(r, ss[|es|], e)], es + [e])
  {
    hide Step;
  }

  /** Every datagram is routed to a configured backend. */
  ghost predicate Configured(r: Rules, backends: set<Addr>) {
    forall data :: r.route(data) in backends
  }
}
