/** When a backend is stopped for being idle. */
module Timing {
  import opened Bits
  import opened Configuration
  import opened Knock
  import opened Lifecycle
  import opened Safety
  import opened Wrappers

  /** Some session on backend a was last seen at that time or later. */
  ghost predicate SeenSince(s: State, a: Addr, at: int) {
    exists c :: c in SessionsOn(s, a) && s.sessions[c].lastSeen >= at
  }

  /** The slot of a running backend after a tick in which it is found alive. */
  ghost function AfterTick(r: Rules, slot: Slot, busy: bool, now: int): Slot {
    if busy then Slot(Running, None, slot.held)
    else if now - Since(slot, now) >= r.idleTimeout then Slot(Sleeping, None, slot.held)
    else Slot(Running, Some(Since(slot, now)), slot.held)
  }

  /** The idle clock of a running slot runs exactly while no session leads to it. */
  ghost predicate ClockTells(s: State, a: Addr)
    requires a in s.slots
  {
    s.slots[a].life == Running ==> (s.slots[a].emptySince.None? <==> SessionsOn(s, a) != {})
  }

  // ----- one turn

  lemma PromoteOnSlot(s: State, x: Addr, now: int, bindOk: (Addr, Addr) -> bool, a: Addr, at: int)
    requires x in s.slots && at <= now
    ensures x != a ==> SessionsOn(Promote(s, x, now, bindOk), a) == SessionsOn(s, a)
    ensures SeenSince(s, a, at) ==> SeenSince(Promote(s, x, now, bindOk), a, at)
  {
    hide DeliveredFates;
    var t := Promote(s, x, now, bindOk);
    if x != a {
      forall c ensures c in SessionsOn(t, a) <==> c in SessionsOn(s, a) {
      }
    }
    if c :| c in SessionsOn(s, a) && s.sessions[c].lastSeen >= at {
      assert c in SessionsOn(t, a) && t.sessions[c].lastSeen >= at;
    }
  }

  lemma SameSessions(s: State, t: State, a: Addr, at: int)
    requires forall c | c in s.sessions && s.sessions[c].backend == a :: c in t.sessions && t.sessions[c] == s.sessions[c]
    requires forall c | c in t.sessions && t.sessions[c].backend == a :: c in s.sessions && t.sessions[c] == s.sessions[c]
    ensures SessionsOn(t, a) == SessionsOn(s, a)
    ensures SeenSince(s, a, at) ==> SeenSince(t, a, at)
  {
  }

  lemma BootTurnOnSlot(s: State, x: Addr, io: Outside, now: int, a: Addr, at: int)
    requires x in s.slots && at <= now
    ensures x != a ==> SessionsOn(BootTurn(s, x, io, now), a) == SessionsOn(s, a)
    ensures SeenSince(s, a, at) ==> SeenSince(BootTurn(s, x, io, now), a, at)
  {
    hide SessionsOn, SeenSince, Promote, DiscardedFates;
    if s.slots[x].life == Waking && io.boot(x) == Ready {
      PromoteOnSlot(s, x, now, io.bindOk, a, at);
    } else {
      SameSessions(s, BootTurn(s, x, io, now), a, at);
    }
  }

  lemma RunTurnOnSlot(r: Rules, s: State, x: Addr, io: Outside, now: int, a: Addr, at: int)
    requires x in s.slots && (x != a || io.exit(a) != Exited)
    ensures SessionsOn(RunTurn(r, s, x, io, now), a) == SessionsOn(s, a)
    ensures SeenSince(s, a, at) ==> SeenSince(RunTurn(r, s, x, io, now), a, at)
  {
    hide SessionsOn, IdleStops, SeenSince;
    SameSessions(s, RunTurn(r, s, x, io, now), a, at);
  }

  /** No turn loses a session's time, except the turn of a backend found to have exited. */
  lemma TurnKeeps(r: Rules, s: State, x: Addr, io: Outside, now: int, a: Addr, at: int)
    requires x in s.slots && (x != a || io.exit(a) != Exited) && at <= now
    ensures var t := Turn(r, s, x, io, now);
            && (SeenSince(s, a, at) ==> SeenSince(t, a, at))
            && (x != a ==> SessionsOn(t, a) == SessionsOn(s, a))
  {
    hide RunTurn, BootTurn, SessionsOn, SeenSince;
    BootTurnFrame(s, x, io, now);
    BootTurnOnSlot(s, x, io, now, a, at);
    RunTurnOnSlot(r, BootTurn(s, x, io, now), x, io, now, a, at);
  }

  /** A running slot's own turn. */
  lemma OwnTurn(r: Rules, s: State, io: Outside, now: int, a: Addr)
    requires a in s.slots
    ensures var t := Turn(r, s, a, io, now);
            && t.slots.Keys == s.slots.Keys
            && (io.exit(a) == Exited ==> t.slots[a].life != Running)
            && (s.slots[a].life == Running && io.exit(a) != Exited ==> SessionsOn(t, a) == SessionsOn(s, a))
            && (s.slots[a].life == Running && io.exit(a) == Alive ==>
                  t.slots[a] == AfterTick(r, s.slots[a], SessionsOn(s, a) != {}, now))
            && (io.exit(a) == Alive ==> ClockTells(t, a))
            && (s.slots[a].life == Running && io.exit(a) == CheckError ==> t.slots[a] == s.slots[a])
  {
    hide RunTurn, SessionsOn, SeenSince, Promote, LoseBoot;
    BootTurnFrame(s, a, io, now);
    BootTurnSlot(s, a, io, now);
    var m := BootTurn(s, a, io, now);
    RunTurnFrame(r, m, a, io, now);
    RunTurnSlot(r, m, a, io, now);
    if io.exit(a) != Exited {
      RunTurnOnSlot(r, m, a, io, now, a, now);
    }
  }

  // ----- one tick

  lemma {:induction false} TurnsOnSlot(r: Rules, s: State, order: seq<Addr>, io: Outside, now: int, a: Addr, at: int)
    requires (forall x <- order :: x in s.slots) && a in s.slots && at <= now
    requires Distinct(order)
    ensures var t := Turns(r, s, order, io, now);
            && (a !in order ==> t.slots[a] == s.slots[a])
            && (a in order && io.exit(a) == Exited ==> t.slots[a].life != Running)
            && (a !in order || (s.slots[a].life == Running && io.exit(a) != Exited) ==> SessionsOn(t, a) == SessionsOn(s, a))
            && (a !in order || io.exit(a) != Exited ==> SeenSince(s, a, at) ==> SeenSince(t, a, at))
            && (a in order && s.slots[a].life == Running && io.exit(a) == Alive ==>
                  t.slots[a] == AfterTick(r, s.slots[a], SessionsOn(s, a) != {}, now))
            && (a in order && io.exit(a) == Alive ==> ClockTells(t, a))
            && (s.slots[a].life == Running && io.exit(a) == CheckError ==> t.slots[a] == s.slots[a])
  {
    hide Turn, SessionsOn, SeenSince, AfterTick;
    if order != [] {
      var front, x := order[..|order| - 1], order[|order| - 1];
      assert order == front + [x];
      var m := Turns(r, s, front, io, now);
      TurnsOnSlot(r, s, front, io, now, a, at);
      TurnFrame(r, m, x, io, now);
      OwnTurn(r, m, io, now, a);
      if x != a || io.exit(a) != Exited {
        TurnKeeps(r, m, x, io, now, a, at);
      }
    }
  }

  lemma ReapOnSlot(r: Rules, s: State, now: int, a: Addr, at: int)
    ensures SeenSince(s, a, at) && now - at < r.sessionTimeout ==> SeenSince(Reap(r, s, now), a, at)
  {
    if SeenSince(s, a, at) && now - at < r.sessionTimeout {
      var c :| c in SessionsOn(s, a) && s.sessions[c].lastSeen >= at;
      assert c in SessionsOn(Reap(r, s, now), a);
    }
  }

  /** A tick that finds a backend alive leaves its idle clock telling the truth. */
  lemma TickSetsClock(r: Rules, s: State, e: Event, a: Addr)
    requires Possible(s, e) && e.what.Tick? && e.what.io.exit(a) == Alive && a in s.slots
    ensures ClockTells(Step(r, s, e), a)
  {
    hide Turns, Reap, SessionsOn, SeenSince, AfterTick, ClockTells;
    ReapKeeps(r, s, e.now);
    TurnsOnSlot(r, Reap(r, s, e.now), e.what.order, e.what.io, e.now, a, e.now);
  }

  /** What a whole tick does to a running slot. */
  lemma TickOnSlot(r: Rules, s: State, order: seq<Addr>, io: Outside, now: int, a: Addr, at: int)
    requires Enumerates(order, s.slots.Keys) && a in s.slots && s.slots[a].life == Running && at <= now
    ensures var t := TickAll(r, s, order, io, now);
            && (io.exit(a) == Exited ==> t.slots[a].life != Running)
            && (io.exit(a) != Exited && SeenSince(s, a, at) && now - at < r.sessionTimeout ==> SeenSince(t, a, at))
            && (io.exit(a) == Alive ==> t.slots[a] == AfterTick(r, s.slots[a], SessionsOn(t, a) != {}, now))
            && (io.exit(a) == CheckError ==> t.slots[a] == s.slots[a])
  {
    hide Turns, Reap, SessionsOn, SeenSince, AfterTick;
    ReapKeeps(r, s, now);
    ReapOnSlot(r, s, now, a, at);
    TurnsOnSlot(r, Reap(r, s, now), order, io, now, a, at);
  }

  // ----- what a forward leaves behind

  /** Between s and t, datagram number id was handed to a session on backend a. */
  ghost predicate NewlyForwarded(s: State, t: State, id: nat, a: Addr) {
    && id in t.ledger && t.ledger[id].Forwarded? && t.ledger[id].backend == a
    && (id !in s.ledger || s.ledger[id] != t.ledger[id])
  }

  lemma PromoteForwards(s: State, x: Addr, now: int, bindOk: (Addr, Addr) -> bool, id: nat, a: Addr)
    requires x in s.slots && NewlyForwarded(s, Promote(s, x, now, bindOk), id, a)
    ensures var t := Promote(s, x, now, bindOk); t.ledger[id].at == now && SeenSince(t, a, now)
  {
    var t, c := Promote(s, x, now, bindOk), s.arrivals[id].client;
    assert HeldUnder(s.arrivals, s.slots[x].held, id);
    assert c in SessionsOn(t, a) && t.sessions[c].lastSeen == now;
  }

  lemma TurnForwards(r: Rules, s: State, x: Addr, io: Outside, now: int, id: nat, a: Addr)
    requires x in s.slots && NewlyForwarded(s, Turn(r, s, x, io, now), id, a)
    ensures var t := Turn(r, s, x, io, now);
            t.ledger[id].at == now && (SeenSince(t, a, now) || (x == a && io.exit(a) == Exited))
  {
    hide RunTurn, Promote, SeenSince;
    BootTurnFrame(s, x, io, now);
    var m := BootTurn(s, x, io, now);
    RunTurnFrame(r, m, x, io, now);
    if s.slots[x].life == Waking && io.boot(x) == Ready {
      PromoteForwards(s, x, now, io.bindOk, id, a);
    }
    if x != a || io.exit(a) != Exited {
      RunTurnOnSlot(r, m, x, io, now, a, now);
    }
  }

  lemma {:induction false} TurnsForward(r: Rules, s: State, order: seq<Addr>, io: Outside, now: int, id: nat, a: Addr)
    requires (forall x <- order :: x in s.slots) && NewlyForwarded(s, Turns(r, s, order, io, now), id, a)
    ensures var t := Turns(r, s, order, io, now);
            t.ledger[id].at == now && (SeenSince(t, a, now) || io.exit(a) == Exited)
  {
    hide Turn, SeenSince;
    if order != [] {
      var m, x := Turns(r, s, order[..|order| - 1], io, now), order[|order| - 1];
      if NewlyForwarded(m, Turn(r, m, x, io, now), id, a) {
        TurnForwards(r, m, x, io, now, id, a);
      } else {
        TurnsForward(r, s, order[..|order| - 1], io, now, id, a);
        if x != a || io.exit(a) != Exited {
          TurnKeeps(r, m, x, io, now, a, now);
        }
      }
    }
  }

  /** A forwarded datagram leaves a session that has just been seen, unless this same tick
  finds that the backend has exited. */
  lemma StepForwards(r: Rules, s: State, e: Event, id: nat, a: Addr)
    requires Possible(s, e) && NewlyForwarded(s, Step(r, s, e), id, a)
    ensures var t := Step(r, s, e);
            && t.ledger[id].at == e.now
            && (SeenSince(t, a, e.now) || (e.what.Tick? && e.what.io.exit(a) == Exited))
  {
    hide Turns, Reap, SeenSince, HandleDatagram;
    match e.what
    case Datagram(client, data, bindOk) => DatagramForwards(r, s, client, data, e.now, bindOk, id, a);
    case Tick(order, io) =>
      ReapKeeps(r, s, e.now);
      TurnsForward(r, Reap(r, s, e.now), order, io, e.now, id, a);
  }

  lemma DatagramForwards(r: Rules, s: State, client: Addr, data: seq<byte>, now: int, bindOk: bool, id: nat, a: Addr)
    requires NewlyForwarded(s, HandleDatagram(r, s, client, data, now, bindOk), id, a)
    ensures var t := HandleDatagram(r, s, client, data, now, bindOk); t.ledger[id].at == now && SeenSince(t, a, now)
  {
    hide IsQuicInitial;
    var t := HandleDatagram(r, s, client, data, now, bindOk);
    assert client in SessionsOn(t, a) && t.sessions[client].lastSeen == now;
  }

  /** A datagram leaves a running slot as it is. */
  lemma DatagramOnSlot(r: Rules, s: State, client: Addr, data: seq<byte>, now: int, bindOk: bool, a: Addr, at: int)
    requires a in s.slots && s.slots[a].life == Running && at <= now
    ensures var t := HandleDatagram(r, s, client, data, now, bindOk);
            t.slots[a] == s.slots[a] && (SeenSince(s, a, at) ==> SeenSince(t, a, at))
  {
    hide IsQuicInitial;
    var t := HandleDatagram(r, s, client, data, now, bindOk);
    if c :| c in SessionsOn(s, a) && s.sessions[c].lastSeen >= at {
      assert c in SessionsOn(t, a) && t.sessions[c].lastSeen >= at;
    }
  }

  // ----- whole runs

  /** Backend a is running in every state after event j, up to the one before event k. */
  ghost predicate RunsThrough(ss: seq<State>, a: Addr, j: nat, k: nat) {
    forall m | j < m <= k && m < |ss| :: a in ss[m].slots && ss[m].slots[a].life == Running
  }

  /** Event k is a tick that finds backend a alive, and stops it. */
  ghost predicate IdleStopped(ss: seq<State>, es: seq<Event>, a: Addr, k: nat)
    requires k < |es| && |ss| == |es| + 1
  {
    && es[k].what.Tick? && es[k].what.io.exit(a) == Alive
    && a in ss[k].slots && ss[k].slots[a].life == Running
    && a in ss[k + 1].slots && ss[k + 1].slots[a].life != Running
  }

  /** What one event does to a running slot. */
  lemma StepOnSlot(r: Rules, s: State, e: Event, a: Addr, at: int)
    requires Possible(s, e) && a in s.slots && s.slots[a].life == Running && at <= e.now
    ensures var t := Step(r, s, e);
            match e.what
            case Datagram(_, _, _) => t.slots[a] == s.slots[a] && (SeenSince(s, a, at) ==> SeenSince(t, a, at))
            case Tick(_, io) =>
              && (io.exit(a) == Exited ==> t.slots[a].life != Running)
              && (io.exit(a) != Exited && SeenSince(s, a, at) && e.now - at < r.sessionTimeout ==> SeenSince(t, a, at))
              && (io.exit(a) == Alive ==> t.slots[a] == AfterTick(r, s.slots[a], SessionsOn(t, a) != {}, e.now))
              && (io.exit(a) == CheckError ==> t.slots[a] == s.slots[a])
  {
    hide HandleDatagram, TickAll, SeenSince, SessionsOn, AfterTick;
    match e.what
    case Datagram(client, data, bindOk) => DatagramOnSlot(r, s, client, data, e.now, bindOk, a, at);
    case Tick(order, io) => TickOnSlot(r, s, order, io, e.now, a, at);
  }

  lemma SeenIsBusy(s: State, a: Addr, at: int)
    requires SeenSince(s, a, at)
    ensures SessionsOn(s, a) != {}
  {
  }

  /** After a forward, either a session shows it or the session timeout is over. */
  lemma {:induction false} SeenUntilTimeout(
      r: Rules, backends: set<Addr>, ss: seq<State>, es: seq<Event>, a: Addr, id: nat, j: nat, m: nat)
    requires IsRun(r, backends, ss, es) && j < m < |ss|
    requires NewlyForwarded(ss[j], ss[j + 1], id, a) && RunsThrough(ss, a, j, m)
    ensures SeenSince(ss[m], a, es[j].now) || es[m - 1].now - es[j].now >= r.sessionTimeout
  {
    hide Step, SeenSince, NewlyForwarded, AfterTick;
    if m == j + 1 {
      StepForwards(r, ss[j], es[j], id, a);
      if es[j].what.Tick? && es[j].what.io.exit(a) == Exited {
        ExitEndsRunning(r, ss[j], es[j], a);
      }
    } else {
      SeenUntilTimeout(r, backends, ss, es, a, id, j, m - 1);
      StepOnSlot(r, ss[m - 1], es[m - 1], a, es[j].now);
      assert es[m - 2].now <= es[m - 1].now;
    }
  }

  lemma ExitEndsRunning(r: Rules, s: State, e: Event, a: Addr)
    requires Possible(s, e) && e.what.Tick? && e.what.io.exit(a) == Exited && a in s.slots
    ensures Step(r, s, e).slots[a].life != Running
  {
    hide Turns, Reap, SeenSince, AfterTick, SessionsOn;
    ReapKeeps(r, s, e.now);
    TurnsOnSlot(r, Reap(r, s, e.now), e.what.order, e.what.io, e.now, a, e.now);
  }

  /** Whenever a backend is stopped for being idle, every datagram ever forwarded to it while
  it was running is at least the session timeout old. Nothing is asked of the ticks or of
  the exit checks. */
  lemma StopIsQuiet(r: Rules, backends: set<Addr>, ss: seq<State>, es: seq<Event>, a: Addr, id: nat, j: nat, k: nat)
    requires IsRun(r, backends, ss, es) && j <= k < |es|
    requires NewlyForwarded(ss[j], ss[j + 1], id, a) && RunsThrough(ss, a, j, k) && IdleStopped(ss, es, a, k)
    ensures ss[j + 1].ledger[id].at == es[j].now
    ensures es[k].now - es[j].now >= r.sessionTimeout
  {
    hide Step, SeenSince, NewlyForwarded;
    StepForwards(r, ss[j], es[j], id, a);
    StepOnSlot(r, ss[k], es[k], a, es[j].now);
    if j < k {
      SeenUntilTimeout(r, backends, ss, es, a, id, j, k);
      assert es[k - 1].now <= es[k].now;
    }
    if SeenSince(ss[k + 1], a, es[j].now) {
      SeenIsBusy(ss[k + 1], a, es[j].now);
    }
  }
}
