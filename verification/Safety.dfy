/** What every reachable state of the proxy satisfies. */
module Safety {
  import opened Bits
  import opened Configuration
  import opened Knock
  import opened Lifecycle
  import opened Wrappers

  // ----- sessions only lead to running backends, and only waking slots hold anything

  ghost predicate SlotOk(slot: Slot) {
    && |slot.held| <= 8
    && (slot.held != map[] ==> slot.life == Waking)
    && (slot.emptySince.Some? ==> slot.life == Running)
  }

  ghost predicate SessionOk(s: State, c: Addr)
    requires c in s.sessions
  {
    var a := s.sessions[c].backend;
    a in s.slots && s.slots[a].life == Running
  }

  ghost predicate Sound(s: State) {
    && (forall a <- s.slots :: SlotOk(s.slots[a]))
    && (forall c <- s.sessions :: SessionOk(s, c))
  }

  lemma ForwardSound(s: State, client: Addr, a: Addr, p: Packet, now: int, bindOk: bool)
    requires Sound(s) && a in s.slots && s.slots[a].life == Running
    ensures Sound(Forward(s, client, a, p, now, bindOk))
  {
    hide SlotOk;
    if client in s.sessions {
      assert SessionOk(s, client);
    }
  }

  lemma CapKept(held: map<Addr, Packet>, client: Addr, p: Packet)
    requires |held| <= MAX_HELD_CLIENTS && (client in held || |held| < MAX_HELD_CLIENTS)
    ensures |held[client := p]| <= MAX_HELD_CLIENTS
  {
    assert held[client := p].Keys == held.Keys + {client};
  }

  lemma HoldSound(s: State, a: Addr, client: Addr, p: Packet)
    requires Sound(s) && a in s.slots && s.slots[a].life == Waking
    ensures Sound(Hold(s, a, client, p))
  {
    var t, held := Hold(s, a, client, p), s.slots[a].held;
    assert SlotOk(s.slots[a]);
    if client in held || |held| < MAX_HELD_CLIENTS {
      CapKept(held, client, p);
    }
    assert SlotOk(t.slots[a]);
    hide SlotOk;
    forall c | c in s.sessions ensures SessionOk(t, c) {
      assert SessionOk(s, c);
    }
  }

  lemma WakeSound(s: State, a: Addr)
    requires Sound(s) && a in s.slots && s.slots[a].life != Running
    ensures Sound(SetLife(s, a, Waking))
  {
    assert SlotOk(s.slots[a]);
    forall c | c in s.sessions ensures SessionOk(SetLife(s, a, Waking), c) {
      assert SessionOk(s, c);
    }
  }

  lemma DatagramSound(r: Rules, s: State, client: Addr, data: seq<byte>, now: int, bindOk: bool)
    requires Sound(s)
    ensures Sound(HandleDatagram(r, s, client, data, now, bindOk))
  {
    hide Forward, Hold, SetLife, IsQuicInitial, SlotOk;
    var a := Target(r, s, client, data);
    var p := Packet(|s.arrivals|, data);
    var t := s.(arrivals := s.arrivals + [Arrival(client, data)]);
    assert Sound(t);
    if a in s.slots && s.slots[a].life == Running {
      ForwardSound(t, client, a, p, now, bindOk);
    } else if a in s.slots && IsQuicInitial(data) {
      WakeSound(t, a);
      LifeIsSet(t, a, Waking);
      HoldSound(SetLife(t, a, Waking), a, client, p);
    }
  }

  lemma LifeIsSet(s: State, a: Addr, life: Life)
    requires a in s.slots
    ensures a in SetLife(s, a, life).slots && SetLife(s, a, life).slots[a] == s.slots[a].(life := life)
  {
  }

  lemma ReapSound(r: Rules, s: State, now: int)
    requires Sound(s)
    ensures Sound(Reap(r, s, now))
  {
    hide SlotOk;
    forall c | c in Reap(r, s, now).sessions ensures SessionOk(Reap(r, s, now), c) {
      assert SessionOk(s, c);
    }
  }

  lemma PromoteSound(s: State, a: Addr, now: int, bindOk: (Addr, Addr) -> bool)
    requires Sound(s) && a in s.slots && s.slots[a].life == Waking
    ensures Sound(Promote(s, a, now, bindOk))
  {
    hide DeliveredFates, DeliveredSessions;
    var t := Promote(s, a, now, bindOk);
    var cleared := s.(slots := s.slots[a := Slot(Running, Some(now), map[])]);
    DeliveredBackends(cleared, a, s.slots[a].held, now, bindOk);
    assert SlotOk(t.slots[a]);
    hide SlotOk;
    forall c | c in t.sessions ensures SessionOk(t, c) {
      assert c in s.sessions ==> SessionOk(s, c);
    }
  }

  lemma LoseBootSound(s: State, a: Addr)
    requires Sound(s) && a in s.slots && s.slots[a].life == Waking
    ensures Sound(LoseBoot(s, a))
  {
    hide DiscardedFates;
    var t := LoseBoot(s, a);
    forall b | b in t.slots ensures SlotOk(t.slots[b]) {
      assert SlotOk(s.slots[b]);
    }
    forall c | c in t.sessions ensures SessionOk(t, c) {
      assert SessionOk(s, c);
    }
  }

  lemma BootTurnSound(s: State, a: Addr, io: Outside, now: int)
    requires Sound(s) && a in s.slots
    ensures Sound(BootTurn(s, a, io, now))
  {
    hide Promote, LoseBoot, Sound;
    if s.slots[a].life == Waking {
      PromoteSound(s, a, now, io.bindOk);
      LoseBootSound(s, a);
    }
  }

  lemma GoneSound(s: State, a: Addr)
    requires Sound(s) && a in s.slots && s.slots[a].life == Running
    ensures Sound(Gone(s, a))
  {
    var t := Gone(s, a);
    forall b | b in t.slots ensures SlotOk(t.slots[b]) {
      assert SlotOk(s.slots[b]);
    }
    forall c | c in t.sessions ensures SessionOk(t, c) {
      assert SessionOk(s, c);
    }
  }

  /** The slot may only stop if no session leads to it. */
  lemma WithSlotSound(s: State, a: Addr, life: Life, emptySince: Option<int>)
    requires Sound(s) && a in s.slots && s.slots[a].life == Running
    requires life == Running || (SessionsOn(s, a) == {} && life == Sleeping && emptySince == None)
    ensures Sound(WithSlot(s, a, life, emptySince))
  {
    var t := WithSlot(s, a, life, emptySince);
    forall b | b in t.slots ensures SlotOk(t.slots[b]) {
      assert SlotOk(s.slots[b]);
    }
    forall c | c in t.sessions ensures SessionOk(t, c) {
      assert SessionOk(s, c);
      assert s.sessions[c].backend == a ==> c in SessionsOn(s, a);
    }
  }

  lemma RunTurnSound(r: Rules, s: State, a: Addr, io: Outside, now: int)
    requires Sound(s) && a in s.slots
    ensures Sound(RunTurn(r, s, a, io, now))
  {
    hide Gone, WithSlot, Sound, SessionsOn, SlotOk;
    if s.slots[a].life == Running {
      GoneSound(s, a);
      WithSlotSound(s, a, Running, None);
      WithSlotSound(s, a, Running, Some(Since(s.slots[a], now)));
      if SessionsOn(s, a) == {} {
        WithSlotSound(s, a, Sleeping, None);
      }
    }
  }

  lemma TurnSound(r: Rules, s: State, a: Addr, io: Outside, now: int)
    requires Sound(s) && a in s.slots
    ensures Sound(Turn(r, s, a, io, now))
  {
    hide BootTurn, RunTurn, Sound;
    BootTurnSound(s, a, io, now);
    BootTurnFrame(s, a, io, now);
    RunTurnSound(r, BootTurn(s, a, io, now), a, io, now);
  }

  lemma {:induction false} TurnsSound(r: Rules, s: State, order: seq<Addr>, io: Outside, now: int)
    requires Sound(s) && forall a <- order :: a in s.slots
    ensures Sound(Turns(r, s, order, io, now))
  {
    hide Turn, Sound;
    if order != [] {
      TurnsSound(r, s, order[..|order| - 1], io, now);
      TurnSound(r, Turns(r, s, order[..|order| - 1], io, now), order[|order| - 1], io, now);
    }
  }

  lemma StepSound(r: Rules, s: State, e: Event)
    requires Sound(s) && Possible(s, e)
    ensures Sound(Step(r, s, e))
  {
    hide HandleDatagram, Turns, Reap, Sound;
    match e.what
    case Datagram(client, data, bindOk) => DatagramSound(r, s, client, data, e.now, bindOk);
    case Tick(order, io) =>
      ReapSound(r, s, e.now);
      ReapKeeps(r, s, e.now);
      TurnsSound(r, Reap(r, s, e.now), order, io, e.now);
  }

  lemma ReapKeeps(r: Rules, s: State, now: int)
    ensures var t := Reap(r, s, now);
            t.slots == s.slots && t.arrivals == s.arrivals && t.sent == s.sent && t.ledger == s.ledger
  {
  }

  /** In every reachable state each session's backend is a configured slot that is running;
  so a sleeping or waking backend has no return path to any client. */
  lemma {:induction false} RunSound(r: Rules, backends: set<Addr>, ss: seq<State>, es: seq<Event>, i: nat)
    requires IsRun(r, backends, ss, es) && i < |ss|
    ensures Sound(ss[i]) && ss[i].slots.Keys == backends
  {
    hide Step;
    if i > 0 {
      RunSound(r, backends, ss, es, i - 1);
      StepSound(r, ss[i - 1], es[i - 1]);
    }
  }
}
