/** The proxy as it runs: mutable slots and a mutable relay, step by step the state machine. */
module Serving {
  import opened Accounts
  import opened Configuration
  import opened Knock
  import opened Lifecycle
  import opened PacketProtection
  import opened Relaying
  import opened Routing
  import opened Safety
  import opened Sends
  import opened Sni
  import opened Timing
  import opened Wire
  import opened Wrappers

  const MAX_DATAGRAM: nat := 64 * 1024

  type Datagrams = map<Addr, Lifecycle.Packet>

  class ManagedBackend {
    const config: BackendConfig
    var life: Life
    var emptySince: Option<int>
    var held: Datagrams

    constructor (config: BackendConfig)
      ensures this.config == config && AsSlot() == Slot(Sleeping, None, map[])
    {
      this.config := config;
      life, emptySince, held := Sleeping, None, map[];
    }

    function AsSlot(): Slot
      reads this
    {
      Slot(life, emptySince, held)
    }

    /** Put a packet under its client's name, replacing the one there; a ninth name is refused. */
    method Hold(client: Addr, p: Lifecycle.Packet) returns (kept: bool)
      modifies this
      ensures kept <==> client in old(held) || |old(held)| < MAX_HELD_CLIENTS
      ensures AsSlot() == old(AsSlot()).(held := if kept then old(held)[client := p] else old(held))
    {
      if client !in held && |held| >= MAX_HELD_CLIENTS {
        return false;
      }
      held := held[client := p];
      kept := true;
    }
  }

  /** One sleeping slot for each backend. */
  method NewSlots(configs: map<Addr, BackendConfig>) returns (slots: map<Addr, ManagedBackend>)
    ensures slots.Keys == configs.Keys && (forall a <- slots :: fresh(slots[a]))
    ensures forall a <- slots :: slots[a].config == configs[a] && slots[a].AsSlot() == Slot(Sleeping, None, map[])
  {
    slots := map[];
    var rest := configs.Keys;
    while rest != {}
      invariant rest <= configs.Keys && slots.Keys == configs.Keys - rest && (forall a <- slots :: fresh(slots[a]))
      invariant forall a <- slots :: slots[a].config == configs[a] && slots[a].AsSlot() == Slot(Sleeping, None, map[])
      decreases rest
    {
      var a :| a in rest;
      var slot := new ManagedBackend(configs[a]);
      slots := slots[a := slot];
      rest := rest - {a};
    }
  }

  class Proxy {
    const config: Config
    const crypto: Primitives
    const routes: Routes
    const backends: map<Addr, ManagedBackend>
    const relay: Relay
    var received: nat
    ghost var arrivals: seq<Arrival>
    ghost var ledger: map<nat, Fate>

    /** Each slot is keyed by its own address. */
    ghost predicate Wired() {
      && WellFormed(config) && crypto.Lawful() && routes == RoutesOf(config)
      && relay.sessionTimeout == config.sessionTimeout
      && (forall a <- backends :: backends[a].config.backend == a)
    }

    ghost function Slots(): map<Addr, Slot>
      reads backends.Values
    {
      map a | a in backends :: backends[a].AsSlot()
    }

    ghost function View(): State
      reads this, relay, backends.Values
    {
      State(Slots(), relay.sessions, arrivals, relay.sent, ledger)
    }

    ghost predicate Valid()
      reads this, relay, backends.Values
    {
      Wired() && received == |arrivals| && Balanced(View())
    }

    ghost function Ruled(): Rules
      requires Wired()
    {
      ProxyRules(config, crypto)
    }

    constructor (config: Config, crypto: Primitives)
      requires WellFormed(config) && crypto.Lawful()
      ensures Valid() && fresh(relay) && (forall a <- backends :: fresh(backends[a]))
      ensures this.config == config && this.crypto == crypto
      ensures View() == Start(SlotConfigs(config).Keys)
    {
      hide WellFormed, RoutesOf, NamedSlots, Balanced, ManagedBackend.AsSlot;
      NamedSlotEntries(config);
      var slots := NewSlots(SlotConfigs(config));
      this.config, this.crypto, routes, backends := config, crypto, RoutesOf(config), slots;
      relay := new Relay(config.sessionTimeout);
      received, arrivals, ledger := 0, [], map[];
      new;
      assert View().slots == Start(SlotConfigs(config).Keys).slots;
      StartBalanced(SlotConfigs(config).Keys);
    }

    lemma SlotIs(a: Addr)
      requires a in backends
      ensures a in Slots() && Slots()[a] == backends[a].AsSlot()
    {
    }

    lemma SlotKeys()
      ensures Slots().Keys == backends.Keys
    {
    }

    /** Changing one backend changes one slot. */
    twostate lemma SlotChanged(a: Addr)
      requires Wired() && a in backends
      requires forall b <- backends | backends[b] != backends[a] :: unchanged(backends[b])
      ensures Slots() == old(Slots())[a := backends[a].AsSlot()]
      ensures backends[a].AsSlot() == old(backends[a].AsSlot()) ==> Slots() == old(Slots())
    {
      forall b | b in backends && b != a ensures Slots()[b] == old(Slots())[b] {
        assert backends[b].config != backends[a].config;
      }
    }

    /** What became of a datagram goes on record. */
    ghost method Settle(id: nat, fate: Fate)
      modifies this`ledger
      ensures ledger == old(ledger)[id := fate]
    {
      ledger := ledger[id := fate];
    }

    method Forward(client: Addr, target: Addr, p: Lifecycle.Packet, now: int, bindOk: bool)
      modifies this`ledger, relay
      ensures View() == Lifecycle.Forward(old(View()), client, target, p, now, bindOk)
    {
      hide Lifecycle.Forward, ManagedBackend.AsSlot;
      var fate := relay.ForwardToBackend(client, target, p, now, bindOk, View());
      Settle(p.id, fate);
    }

    /** Hold an Initial, with what that means for the one it replaces. */
    method Keep(target: Addr, client: Addr, p: Lifecycle.Packet)
      requires Wired() && target in backends
      modifies this`ledger, backends[target]
      ensures View() == Lifecycle.Hold(old(View()), target, client, p)
    {
      hide Slots, Wired;
      SlotIs(target);
      ghost var before := backends[target].held;
      var kept := backends[target].Hold(client, p);
      SlotChanged(target);
      if !kept {
        Settle(p.id, Dropped);
      } else if client in before {
        Settle(before[client].id, Superseded);
      }
    }

    /** Target, with the server name read off the wire only when there is no session to ask. */
    method Select(client: Addr, data: Slice) returns (target: Addr)
      requires Wired()
      ensures target == Target(Ruled(), View(), client, data)
    {
      hide WellFormed, RoutesOf, PeekedName;
      var selected := relay.SessionBackend(client);
      if selected.Some? {
        return selected.value;
      }
      var name := PeekServerName(crypto, data);
      target := routes.Resolve(name).backend;
    }

    /** Number a datagram as it arrives. */
    method Arrive(client: Addr, data: Slice) returns (p: Lifecycle.Packet)
      requires received == |arrivals|
      modifies this`received, this`arrivals
      ensures received == |arrivals| && p == Lifecycle.Packet(|old(arrivals)|, data)
      ensures View() == old(View()).(arrivals := old(arrivals) + [Arrival(client, data)])
    {
      p := Lifecycle.Packet(received, data);
      received := received + 1;
      arrivals := arrivals + [Arrival(client, data)];
    }

    /** Handle one datagram received on the public socket. */
    method HandleDatagram(client: Addr, data: Slice, now: int, bindOk: bool)
      requires Valid()
      modifies this, relay, backends.Values
      ensures Valid()
      ensures View() == Lifecycle.HandleDatagram(Ruled(), old(View()), client, data, now, bindOk)
    {
      hide Wired, Balanced, Slots, Target, Lifecycle.Dispatch;
      StepBalanced(Ruled(), View(), Event(now, Datagram(client, data, bindOk)));
      var target := Select(client, data);
      var p := Arrive(client, data);
      Dispatch(target, client, p, now, bindOk);
    }

    /** Relay a datagram, hold it, or drop it, as the state of its backend has it. */
    method Dispatch(target: Addr, client: Addr, p: Lifecycle.Packet, now: int, bindOk: bool)
      requires Wired()
      modifies this`ledger, relay, backends.Values
      ensures View() == Lifecycle.Dispatch(old(View()), target, client, p, now, bindOk)
    {
      hide Wired, Slots, IsQuicInitial, Lifecycle.Forward, Lifecycle.Hold;
      SlotKeys();
      if target !in backends {
        Settle(p.id, Unroutable);
        return;
      }
      SlotIs(target);
      match backends[target].life
      case Running => Forward(client, target, p, now, bindOk);
      case Sleeping =>
        if IsQuicInitial(p.data) {
          backends[target].life := Waking;
          SlotChanged(target);
          Keep(target, client, p);
        } else {
          Settle(p.id, Dropped);
        }
      case Waking =>
        if IsQuicInitial(p.data) {
          SameLife(View(), target);
          Keep(target, client, p);
        } else {
          Settle(p.id, Dropped);
        }
    }

    /** Empty a hold into the relay, one client at a time, in any order. */
    method DeliverHeld(a: Addr, held: Datagrams, now: int, io: Outside)
      requires HoldTruthful(arrivals, held)
      modifies this`ledger, relay
      ensures View() == Lifecycle.DeliverHeld(old(View()), a, held, now, io.bindOk)
    {
      hide Lifecycle.Forward, Lifecycle.DeliverHeld, HoldTruthful, ManagedBackend.AsSlot;
      ghost var s := View();
      var rest := held.Keys;
      NothingDelivered(s, a, now, io.bindOk);
      assert held - rest == map[];
      while rest != {}
        invariant rest <= held.Keys
        invariant View() == Lifecycle.DeliverHeld(s, a, held - rest, now, io.bindOk)
        decreases rest
      {
        var client :| client in rest;
        Forward(client, a, held[client], now, io.bindOk(a, client));
        DeliverOneMore(s, a, held, rest, client, now, io.bindOk);
        rest := rest - {client};
      }
      assert held - rest == held;
    }

    /** Take up the outcome of a boot. */
    method FinishBoot(a: Addr, io: Outside, now: int)
      requires Wired() && a in backends && HoldTruthful(arrivals, backends[a].held)
      modifies this`ledger, relay, backends[a]
      ensures View() == BootTurn(old(View()), a, io, now)
    {
      hide Lifecycle.DeliverHeld, HoldTruthful, DiscardedFates, Slots, Wired;
      SlotIs(a);
      var slot := backends[a];
      if slot.life != Waking || io.boot(a) == Pending {
        return;
      }
      slot.life := Sleeping;
      var held := slot.held;
      if io.boot(a) == Ready {
        slot.life, slot.emptySince := Running, Some(now);
        slot.held := map[];
        SlotChanged(a);
        DeliverHeld(a, held, now, io);
      } else {
        slot.held := map[];
        SlotChanged(a);
        ledger := ledger + DiscardedFates(View(), held);
      }
    }

    /** Look after a running backend. */
    method CheckRunning(a: Addr, io: Outside, now: int)
      requires Wired() && a in backends
      modifies relay, backends[a]
      ensures View() == RunTurn(Ruled(), old(View()), a, io, now)
    {
      hide Slots, Wired, WellFormed;
      SlotIs(a);
      var slot := backends[a];
      if slot.life == Running {
        match io.exit(a)
        case CheckError =>
        case Exited =>
          slot.life := Sleeping;
          slot.emptySince := None;
          relay.DropSessionsFor(a);
        case Alive =>
          CheckIdle(a, now);
      }
      SlotChanged(a);
    }

    /** Run the idle clock of a backend that is alive, and stop the backend when it is time. */
    method CheckIdle(a: Addr, now: int)
      requires Wired() && a in backends && backends[a].life == Running
      modifies backends[a]
      ensures backends[a].AsSlot() == AfterTick(Ruled(), old(backends[a].AsSlot()), old(SessionsOn(View(), a)) != {}, now)
    {
      hide WellFormed, RoutesOf;
      var slot := backends[a];
      var count := relay.SessionCountFor(a);
      assert count == |SessionsOn(View(), a)|;
      if count == 0 {
        var since := if slot.emptySince.Some? then slot.emptySince.value else now;
        slot.emptySince := Some(since);
        if now - since >= config.idleTimeout {
          slot.life := Sleeping;
          slot.emptySince := None;
        }
      } else {
        slot.emptySince := None;
      }
    }

    /** TickAll, turn by turn, over the slot objects. */
    method Tick(order: seq<Addr>, io: Outside, now: int)
      requires Valid() && Enumerates(order, backends.Keys)
      modifies this, relay, backends.Values
      ensures Valid()
      ensures View() == TickAll(Ruled(), old(View()), order, io, now)
    {
      hide Wired, Balanced, Turn, Slots, HoldTruthful, Reap, BootTurn, RunTurn, Distinct;
      ghost var s := View();
      ReapAll(now);
      SlotKeys();
      ghost var reaped := Reap(Ruled(), s, now);
      ReapKeeps(Ruled(), s, now);
      ReapBalanced(Ruled(), s, now);
      assert order[..0] == [];
      hide Turns;
      for i := 0 to |order|
        invariant reaped.slots.Keys == backends.Keys
        invariant Wired() && received == |arrivals| && Balanced(View())
        invariant View() == Turns(Ruled(), reaped, order[..i], io, now)
      {
        TurnsNext(Ruled(), reaped, order, io, now, i);
        SlotTurn(order[i], io, now);
      }
      assert order[..|order|] == order;
    }

    /** One turn of the loop. */
    method Handle(e: Event)
      requires Valid() && Possible(View(), e) && (e.what.Datagram? ==> |e.what.data| <= MAX_DATAGRAM)
      modifies this, relay, backends.Values
      ensures Valid() && View() == Step(Ruled(), old(View()), e)
    {
      hide Wired, Balanced, Slots, Lifecycle.HandleDatagram, TickAll;
      SlotKeys();
      match e.what
      case Datagram(client, data, bindOk) => HandleDatagram(client, data, e.now, bindOk);
      case Tick(order, io) => Tick(order, io, e.now);
    }

    method ReapAll(now: int)
      requires Wired()
      modifies relay
      ensures View() == Reap(Ruled(), old(View()), now)
    {
      hide WellFormed, RoutesOf;
      var _ := relay.ReapIdle(now);
    }

    /** One slot's turn in a tick. */
    method SlotTurn(a: Addr, io: Outside, now: int)
      requires Wired() && a in backends && Balanced(View())
      modifies this`ledger, relay, backends[a]
      ensures View() == Turn(Ruled(), old(View()), a, io, now) && Balanced(View())
    {
      hide Wired, Balanced, Slots, HoldTruthful, BootTurn, RunTurn;
      SlotIs(a);
      BalancedHold(View(), a);
      TurnBalanced(Ruled(), View(), a, io, now);
      FinishBoot(a, io, now);
      CheckRunning(a, io, now);
    }
  }

  /** Events the loop can be given: real datagrams, ticks that visit every slot once, and a
  clock that never goes back. */
  ghost predicate Feasible(slots: set<Addr>, es: seq<Event>) {
    && (forall e <- es | e.what.Datagram? :: |e.what.data| <= MAX_DATAGRAM)
    && (forall e <- es | e.what.Tick? :: Enumerates(e.what.order, slots))
    && (forall i, j | 0 <= i <= j < |es| :: es[i].now <= es[j].now)
  }

  /** The loop: from a validated configuration, one event after another. What it passes
  through is a run of the state machine, so whatever holds of runs holds of the loop. */
  method Serve(config: Config, crypto: Primitives, es: seq<Event>) returns (proxy: Proxy, ghost ss: seq<State>)
    requires WellFormed(config) && crypto.Lawful() && Feasible(SlotConfigs(config).Keys, es)
    ensures IsServed(config, crypto, ss, es)
    ensures proxy.Valid() && proxy.View() == ss[|es|]
  {
    hide WellFormed, SlotConfigs, Step, ProxyRules, Balanced, Proxy.Wired, Proxy.View;
    proxy := new Proxy(config, crypto);
    ss := [proxy.View()];
    ghost var rules, slots := ProxyRules(config, crypto), SlotConfigs(config).Keys;
    assert es[..0] == [] && IsRun(rules, slots, ss, []);
    hide IsRun;
    for k := 0 to |es|
      invariant proxy.Valid() && proxy.config == config && proxy.crypto == crypto
      invariant |ss| == k + 1 && IsRun(rules, slots, ss, es[..k])
      invariant ss[k] == proxy.View() && ss[k].slots.Keys == slots
    {
      assert es[k] in es && es[..k + 1] == es[..k] + [es[k]];
      RunGrows(rules, slots, ss, es[..k], es[k]);
      proxy.Handle(es[k]);
      ss := ss + [proxy.View()];
    }
    assert es[..|es|] == es;
  }

  lemma SameLife(s: State, a: Addr)
    requires a in s.slots
    ensures SetLife(s, a, s.slots[a].life) == s
  {
    assert s.slots[a := s.slots[a]] == s.slots;
  }

  // ----- delivery, one held Initial at a time

  lemma NothingDelivered(s: State, a: Addr, now: int, bindOk: (Addr, Addr) -> bool)
    ensures Lifecycle.DeliverHeld(s, a, map[], now, bindOk) == s
  {
    assert DeliveredSessions(s, a, map[], now, bindOk) == s.sessions;
    assert DeliveredFates(s, a, map[], now, bindOk) == map[];
    assert s.ledger + map[] == s.ledger;
  }

  /** Forwarding one more of the held Initials is delivering a hold with one more client. */
  lemma DeliverOneMore(s: State, a: Addr, held: Datagrams, rest: set<Addr>, client: Addr, now: int,
      bindOk: (Addr, Addr) -> bool)
    requires HoldTruthful(s.arrivals, held) && client in rest && rest <= held.Keys
    ensures Lifecycle.Forward(
              Lifecycle.DeliverHeld(s, a, held - rest, now, bindOk), client, a, held[client], now, bindOk(a, client))
         == Lifecycle.DeliverHeld(s, a, held - (rest - {client}), now, bindOk)
  {
    hide DeliveredSessions, DeliveredFates, HoldTruthful, SendsOf, Delivered, Lifecycle.Forward;
    var p, few := held[client], DeliveredFates(s, a, held - rest, now, bindOk);
    var m := Lifecycle.DeliverHeld(s, a, held - rest, now, bindOk);
    OneMoreSession(s, a, held, rest, client, now, bindOk);
    OneMoreFate(s, a, held, rest, client, now, bindOk);
    SendsSettle(few, p.id, Delivered(s, a, client, p, now, bindOk(a, client)));
    SameDelivery(s, m, a, client, p, now, bindOk(a, client));
    ForwardDelivers(m, client, a, p, now, bindOk(a, client));
    assert (s.ledger + few)[p.id := Delivered(s, a, client, p, now, bindOk(a, client))]
        == s.ledger + few[p.id := Delivered(s, a, client, p, now, bindOk(a, client))];
  }

  /** A forward, put together from its session, its send and its fate. */
  lemma ForwardDelivers(s: State, client: Addr, a: Addr, p: Lifecycle.Packet, now: int, bindOk: bool)
    ensures var fate := Delivered(s, a, client, p, now, bindOk);
            var sessions :=
              if client in s.sessions then s.sessions[client := s.sessions[client].(lastSeen := now)]
              else if bindOk then s.sessions[client := Session(p.id, a, now)]
              else s.sessions;
            var sends := if fate.Forwarded? then multiset{Send(p.id, fate.backend, fate.data, fate.at)} else multiset{};
            Lifecycle.Forward(s, client, a, p, now, bindOk)
            == State(s.slots, sessions, s.arrivals, s.sent + sends, s.ledger[p.id := fate])
  {
  }

  lemma SameDelivery(s: State, t: State, a: Addr, client: Addr, p: Lifecycle.Packet, now: int, bindOk: bool)
    requires client in t.sessions <==> client in s.sessions
    requires client in s.sessions ==> t.sessions[client] == s.sessions[client]
    ensures Delivered(t, a, client, p, now, bindOk) == Delivered(s, a, client, p, now, bindOk)
  {
  }

  lemma OneMoreSession(s: State, a: Addr, held: Datagrams, rest: set<Addr>, client: Addr, now: int,
      bindOk: (Addr, Addr) -> bool)
    requires client in rest && rest <= held.Keys
    ensures var few := DeliveredSessions(s, a, held - rest, now, bindOk);
            && (client in few <==> client in s.sessions)
            && (client in s.sessions ==> few[client] == s.sessions[client])
            && DeliveredSessions(s, a, held - (rest - {client}), now, bindOk)
               == if client in s.sessions then few[client := s.sessions[client].(lastSeen := now)]
                  else if bindOk(a, client) then few[client := Session(held[client].id, a, now)]
                  else few
  {
  }

  lemma OneMoreFate(s: State, a: Addr, held: Datagrams, rest: set<Addr>, client: Addr, now: int,
      bindOk: (Addr, Addr) -> bool)
    requires HoldTruthful(s.arrivals, held) && client in rest && rest <= held.Keys
    ensures held[client].id !in DeliveredFates(s, a, held - rest, now, bindOk)
    ensures DeliveredFates(s, a, held - (rest - {client}), now, bindOk)
         == DeliveredFates(s, a, held - rest, now, bindOk)
              [held[client].id := Delivered(s, a, client, held[client], now, bindOk(a, client))]
  {
    hide Delivered;
    var few, more := held - rest, held - (rest - {client});
    forall id: nat
      ensures id < |s.arrivals| && HeldUnder(s.arrivals, more, id)
         <==> id == held[client].id || (id < |s.arrivals| && HeldUnder(s.arrivals, few, id))
    {
    }
    assert !HeldUnder(s.arrivals, few, held[client].id);
    hide HeldUnder;
  }
}
