/** What each event of a run does, spelled out in full. */
module Outcomes {
  import opened Accounts
  import opened Configuration
  import opened Delivery
  import opened Knock
  import opened Lifecycle
  import opened Safety
  import opened Sends
  import opened Timing
  import opened Wrappers

  // ----- a datagram

  /** A client with a session: one send to the session's backend, and the session refreshed. */
  lemma KnownClientIsServed(r: Rules, backends: set<Addr>, ss: seq<State>, es: seq<Event>, i: nat)
    requires IsRun(r, backends, ss, es) && i < |es|
    requires es[i].what.Datagram? && es[i].what.client in ss[i].sessions
    ensures var s, c, data, now := ss[i], es[i].what.client, es[i].what.data, es[i].now;
            var n, a, session := |s.arrivals|, s.sessions[c].backend, s.sessions[c];
            ss[i + 1] == State(
              s.slots, s.sessions[c := Session(session.opener, a, now)], s.arrivals + [Arrival(c, data)],
              s.sent + multiset{Send(n, a, data, now)}, s.ledger[n := Forwarded(a, data, now)])
  {
    hide IsQuicInitial;
    RunSound(r, backends, ss, es, i);
    assert SessionOk(ss[i], es[i].what.client);
  }

  /** A client without one, whose datagram is for a running backend: a session is opened there
  and the datagram sent by it, if a socket binds; otherwise nothing is sent. */
  lemma NewClientIsServed(r: Rules, backends: set<Addr>, ss: seq<State>, es: seq<Event>, i: nat, a: Addr)
    requires IsRun(r, backends, ss, es) && i < |es|
    requires es[i].what.Datagram? && es[i].what.client !in ss[i].sessions && r.route(es[i].what.data) == a
    requires a in ss[i].slots && ss[i].slots[a].life == Running
    ensures var s, c, data, now := ss[i], es[i].what.client, es[i].what.data, es[i].now;
            var n, bindOk := |s.arrivals|, es[i].what.bindOk;
            ss[i + 1] == State(
              s.slots, if bindOk then s.sessions[c := Session(n, a, now)] else s.sessions,
              s.arrivals + [Arrival(c, data)],
              if bindOk then s.sent + multiset{Send(n, a, data, now)} else s.sent,
              s.ledger[n := if bindOk then Forwarded(a, data, now) else Unbound])
  {
    hide IsQuicInitial;
  }

  /** A datagram that is no Initial, for a backend that is not running, is dropped. */
  lemma StrayIsDropped(r: Rules, backends: set<Addr>, ss: seq<State>, es: seq<Event>, i: nat, a: Addr)
    requires IsRun(r, backends, ss, es) && i < |es|
    requires es[i].what.Datagram? && es[i].what.client !in ss[i].sessions && r.route(es[i].what.data) == a
    requires a in ss[i].slots && ss[i].slots[a].life != Running && !IsQuicInitial(es[i].what.data)
    ensures var s := ss[i];
            ss[i + 1] == State(
              s.slots, s.sessions, s.arrivals + [Arrival(es[i].what.client, es[i].what.data)], s.sent,
              s.ledger[|s.arrivals| := Dropped])
  {
    hide IsQuicInitial;
  }

  /** An Initial for such a backend wakes it and is held, in place of its client's last one if
  there is one; unless eight other clients are held already. */
  lemma InitialIsHeld(r: Rules, backends: set<Addr>, ss: seq<State>, es: seq<Event>, i: nat, a: Addr)
    requires IsRun(r, backends, ss, es) && i < |es|
    requires es[i].what.Datagram? && es[i].what.client !in ss[i].sessions && r.route(es[i].what.data) == a
    requires a in ss[i].slots && ss[i].slots[a].life != Running && IsQuicInitial(es[i].what.data)
    ensures var s, c, data := ss[i], es[i].what.client, es[i].what.data;
            var n, held := |s.arrivals|, s.slots[a].held;
            var kept := c in held || |held| < 8;
            && ss[i + 1].sessions == s.sessions && ss[i + 1].sent == s.sent
            && ss[i + 1].arrivals == s.arrivals + [Arrival(c, data)]
            && ss[i + 1].slots
               == s.slots[a := Slot(Waking, None, if kept then held[c := Lifecycle.Packet(n, data)] else held)]
            && ss[i + 1].ledger
               == if !kept then s.ledger[n := Dropped]
                  else if c in held then s.ledger[held[c].id := Superseded]
                  else s.ledger
  {
    hide IsQuicInitial;
    RunSound(r, backends, ss, es, i);
    assert SlotOk(ss[i].slots[a]);
  }

  /** A datagram for a backend that is not configured changes nothing else. */
  lemma StrangerIsRecorded(r: Rules, backends: set<Addr>, ss: seq<State>, es: seq<Event>, i: nat)
    requires IsRun(r, backends, ss, es) && i < |es|
    requires es[i].what.Datagram? && es[i].what.client !in ss[i].sessions && r.route(es[i].what.data) !in ss[i].slots
    ensures var s := ss[i];
            ss[i + 1] == State(
              s.slots, s.sessions, s.arrivals + [Arrival(es[i].what.client, es[i].what.data)], s.sent,
              s.ledger[|s.arrivals| := Unroutable])
  {
    hide IsQuicInitial;
  }

  // ----- a slot through a tick

  /** A slot whose backend runs, once its exit has been checked and its idle clock looked at. */
  ghost function Checked(slot: Slot, exit: Exit, busy: bool, now: int, idleTimeout: nat): Slot {
    var since := if slot.emptySince.Some? then slot.emptySince.value else now;
    match exit
    case CheckError => slot
    case Exited => Slot(Sleeping, None, slot.held)
    case Alive =>
      if busy then Slot(Running, None, slot.held)
      else if now - since >= idleTimeout then Slot(Sleeping, None, slot.held)
      else Slot(Running, Some(since), slot.held)
  }

  /** A slot after a tick: a sleeping one as it was; a waking one as its boot has it, and if it
  is ready then checked like a running one whose idle clock has just started. */
  ghost function Ticked(slot: Slot, boot: Boot, exit: Exit, busy: bool, now: int, idleTimeout: nat): Slot {
    match slot.life
    case Sleeping => slot
    case Running => Checked(slot, exit, busy, now, idleTimeout)
    case Waking =>
      match boot
      case Pending => slot
      case BootFailed => Slot(Sleeping, slot.emptySince, map[])
      case Ready => Checked(Slot(Running, Some(now), map[]), exit, busy, now, idleTimeout)
  }

  lemma OwnTurnTicks(r: Rules, s: State, io: Outside, now: int, a: Addr)
    requires a in s.slots
    ensures var t := Turn(r, s, a, io, now);
            && t.slots.Keys == s.slots.Keys
            && t.slots[a] == Ticked(s.slots[a], io.boot(a), io.exit(a), SessionsOn(t, a) != {}, now, r.idleTimeout)
  {
    hide BootTurn, RunTurn, SessionsOn, SeenSince;
    BootTurnFrame(s, a, io, now);
    BootTurnSlot(s, a, io, now);
    var m := BootTurn(s, a, io, now);
    RunTurnFrame(r, m, a, io, now);
    RunTurnSlot(r, m, a, io, now);
    if io.exit(a) != Exited {
      RunTurnOnSlot(r, m, a, io, now, a, now);
    }
  }

  lemma OtherTurnKeeps(r: Rules, s: State, x: Addr, io: Outside, now: int, a: Addr)
    requires x in s.slots && a in s.slots && x != a
    ensures var t := Turn(r, s, x, io, now);
            t.slots.Keys == s.slots.Keys && t.slots[a] == s.slots[a] && SessionsOn(t, a) == SessionsOn(s, a)
  {
    hide Turn, SessionsOn, SeenSince;
    TurnFrame(r, s, x, io, now);
    TurnKeeps(r, s, x, io, now, a, now);
  }

  lemma {:induction false} TurnsTick(r: Rules, s: State, order: seq<Addr>, io: Outside, now: int, a: Addr)
    requires (forall x <- order :: x in s.slots) && a in s.slots && Distinct(order) && a in order
    ensures var t := Turns(r, s, order, io, now);
            t.slots[a] == Ticked(s.slots[a], io.boot(a), io.exit(a), SessionsOn(t, a) != {}, now, r.idleTimeout)
  {
    var front, x := order[..|order| - 1], order[|order| - 1];
    DistinctFront(s, order);
    assert order == front + [x];
    hide Turn, SessionsOn, Ticked, Distinct;
    var m := Turns(r, s, front, io, now);
    if x == a {
      TurnsElsewhere(r, s, front, io, now, a);
      OwnTurnTicks(r, m, io, now, a);
    } else {
      TurnsTick(r, s, front, io, now, a);
      OtherTurnKeeps(r, m, x, io, now, a);
    }
  }

  /** What a tick of a run does to every slot. */
  lemma SlotTicks(r: Rules, backends: set<Addr>, ss: seq<State>, es: seq<Event>, i: nat, a: Addr)
    requires IsRun(r, backends, ss, es) && i < |es| && es[i].what.Tick? && a in ss[i].slots && a in ss[i + 1].slots
    ensures ss[i + 1].slots[a]
         == Ticked(ss[i].slots[a], es[i].what.io.boot(a), es[i].what.io.exit(a), SessionsOn(ss[i + 1], a) != {},
                   es[i].now, r.idleTimeout)
  {
    hide IsRun, Turns, Reap, Ticked, SessionsOn;
    RunStep(r, backends, ss, es, i, i);
    var s, e := ss[i], es[i];
    ReapKeeps(r, s, e.now);
    TurnsTick(r, Reap(r, s, e.now), e.what.order, e.what.io, e.now, a);
  }

  // ----- the sessions through a tick

  /** A session of state t in a tick that began in state s at that time: one that was there,
  not too long unseen, with its backend and its socket; or one opened for a datagram that had
  not been settled before. */
  ghost predicate FromBefore(s: State, t: State, now: int, sessionTimeout: nat, c: Addr)
    requires c in t.sessions
  {
    || (&& c in s.sessions && now - s.sessions[c].lastSeen < sessionTimeout
        && t.sessions[c].backend == s.sessions[c].backend && t.sessions[c].opener == s.sessions[c].opener
        && (t.sessions[c].lastSeen == s.sessions[c].lastSeen || t.sessions[c].lastSeen == now))
    || (t.sessions[c].lastSeen == now && t.sessions[c].opener !in s.ledger)
  }

  ghost predicate AllFromBefore(s: State, t: State, now: int, sessionTimeout: nat) {
    forall c <- t.sessions :: FromBefore(s, t, now, sessionTimeout, c)
  }

  lemma TurnFromBefore(r: Rules, s0: State, s: State, x: Addr, io: Outside, now: int, sessionTimeout: nat)
    requires x in s.slots && Balanced(s) && AllFromBefore(s0, s, now, sessionTimeout)
    requires forall id <- s0.ledger :: id in s.ledger
    ensures AllFromBefore(s0, Turn(r, s, x, io, now), now, sessionTimeout)
  {
    hide RunTurn, Promote, Balanced;
    BootTurnFrame(s, x, io, now);
    if s.slots[x].life == Waking && io.boot(x) == Ready {
      PromoteFromBefore(s0, s, x, now, io.bindOk, sessionTimeout);
    }
    var m := BootTurn(s, x, io, now);
    assert AllFromBefore(s0, m, now, sessionTimeout);
    RunTurnFromBefore(r, s0, m, x, io, now, sessionTimeout);
  }

  lemma PromoteFromBefore(
      s0: State, s: State, x: Addr, now: int, bindOk: (Addr, Addr) -> bool, sessionTimeout: nat)
    requires x in s.slots && Balanced(s) && AllFromBefore(s0, s, now, sessionTimeout)
    requires forall id <- s0.ledger :: id in s.ledger
    ensures AllFromBefore(s0, Promote(s, x, now, bindOk), now, sessionTimeout)
  {
    hide Balanced, DeliveredFates, SendsOf, HeldBy;
    var t, held := Promote(s, x, now, bindOk), s.slots[x].held;
    forall c | c in t.sessions ensures FromBefore(s0, t, now, sessionTimeout, c) {
      if c in s.sessions {
        assert FromBefore(s0, s, now, sessionTimeout, c);
      } else {
        HeldUnsettled(s, x, c);
      }
    }
  }

  lemma HeldUnsettled(s: State, a: Addr, c: Addr)
    requires Balanced(s) && a in s.slots && c in s.slots[a].held
    ensures s.slots[a].held[c].id !in s.ledger
  {
    hide Sound, Account;
    OldOneIsHeld(s, a, c);
    HeldIsUnsettled(s, a, s.slots[a].held[c].id);
  }

  lemma RunTurnFromBefore(r: Rules, s0: State, s: State, x: Addr, io: Outside, now: int, sessionTimeout: nat)
    requires x in s.slots && AllFromBefore(s0, s, now, sessionTimeout)
    ensures AllFromBefore(s0, RunTurn(r, s, x, io, now), now, sessionTimeout)
  {
    hide SessionsOn, IdleStops, FromBefore;
    var t := RunTurn(r, s, x, io, now);
    forall c | c in t.sessions ensures FromBefore(s0, t, now, sessionTimeout, c) {
      SameFromBefore(s0, s, t, now, sessionTimeout, c);
    }
  }

  lemma SameFromBefore(s0: State, s: State, t: State, now: int, sessionTimeout: nat, c: Addr)
    requires c in s.sessions && c in t.sessions && t.sessions[c] == s.sessions[c]
    requires FromBefore(s0, s, now, sessionTimeout, c)
    ensures FromBefore(s0, t, now, sessionTimeout, c)
  {
  }

  lemma {:induction false} TurnsFromBefore(
      r: Rules, s0: State, s: State, order: seq<Addr>, io: Outside, now: int, sessionTimeout: nat)
    requires (forall x <- order :: x in s.slots) && Balanced(s) && AllFromBefore(s0, s, now, sessionTimeout)
    requires forall id <- s0.ledger :: id in s.ledger
    ensures var t := Turns(r, s, order, io, now);
            AllFromBefore(s0, t, now, sessionTimeout) && forall id <- s0.ledger :: id in t.ledger
  {
    hide Turn, Balanced, AllFromBefore;
    if order != [] {
      var front, x := order[..|order| - 1], order[|order| - 1];
      var m := Turns(r, s, front, io, now);
      TurnsFromBefore(r, s0, s, front, io, now, sessionTimeout);
      TurnsBalanced(r, s, front, io, now);
      TurnFromBefore(r, s0, m, x, io, now, sessionTimeout);
      forall id | id in s0.ledger ensures id in Turn(r, m, x, io, now).ledger {
        LaterTurnKeeps(r, m, x, io, now, id);
      }
    }
  }

  /** After a tick of a run every session was there before it, seen less than the timeout ago,
  or is new. */
  lemma SessionsTick(r: Rules, backends: set<Addr>, ss: seq<State>, es: seq<Event>, i: nat, c: Addr)
    requires IsRun(r, backends, ss, es) && i < |es| && es[i].what.Tick? && c in ss[i + 1].sessions
    ensures FromBefore(ss[i], ss[i + 1], es[i].now, r.sessionTimeout, c)
  {
    hide IsRun, Turns, Balanced;
    RunStep(r, backends, ss, es, i, i);
    RunBalanced(r, backends, ss, es, i);
    var s, e := ss[i], es[i];
    ReapBalanced(r, s, e.now);
    assert AllFromBefore(s, Reap(r, s, e.now), e.now, r.sessionTimeout);
    ReapKeeps(r, s, e.now);
    hide Reap, FromBefore;
    TurnsFromBefore(r, s, Reap(r, s, e.now), e.what.order, e.what.io, e.now, r.sessionTimeout);
  }

  /** And one seen less than the timeout ago is still there, unless its backend exits in the
  tick. */
  lemma SessionStays(r: Rules, backends: set<Addr>, ss: seq<State>, es: seq<Event>, i: nat, c: Addr)
    requires IsRun(r, backends, ss, es) && i < |es| && es[i].what.Tick? && c in ss[i].sessions
    requires es[i].now - ss[i].sessions[c].lastSeen < r.sessionTimeout
    requires es[i].what.io.exit(ss[i].sessions[c].backend) != Exited
    ensures c in ss[i + 1].sessions && ss[i + 1].sessions[c].backend == ss[i].sessions[c].backend
  {
    hide IsRun, Turns, Reap, LeadAfter;
    RunStep(r, backends, ss, es, i, i);
    TickLeads(r, ss[i], es[i].what.order, es[i].what.io, es[i].now, c);
    SessionDecides(ss[i], es[i].what.order, es[i].what.io, c, ss[i].sessions[c].backend);
  }

  // ----- what a failed boot held

  lemma OwnTurnDiscards(r: Rules, s: State, before: seq<Addr>, a: Addr, io: Outside, now: int, c: Addr)
    requires (forall x <- before :: x in s.slots) && Balanced(s) && a in s.slots && a !in before
    requires s.slots[a].life == Waking && io.boot(a) == BootFailed && c in s.slots[a].held
    ensures var id := s.slots[a].held[c].id; var t := Turn(r, Turns(r, s, before, io, now), a, io, now);
            id in t.ledger && t.ledger[id] == Discarded
  {
    hide Turns, Balanced, RunTurn, HoldTruthful;
    TurnsBalanced(r, s, before, io, now);
    TurnsElsewhere(r, s, before, io, now, a);
    BalancedHold(Turns(r, s, before, io, now), a);
    TurnDiscards(r, Turns(r, s, before, io, now), a, io, now, c);
  }

  lemma TurnDiscards(r: Rules, s: State, a: Addr, io: Outside, now: int, c: Addr)
    requires a in s.slots && s.slots[a].life == Waking && io.boot(a) == BootFailed && c in s.slots[a].held
    requires HoldTruthful(s.arrivals, s.slots[a].held)
    ensures var id := s.slots[a].held[c].id; var t := Turn(r, s, a, io, now);
            id in t.ledger && t.ledger[id] == Discarded
  {
    hide RunTurn;
    BootTurnFrame(s, a, io, now);
    RunTurnFrame(r, BootTurn(s, a, io, now), a, io, now);
    assert HeldUnder(s.arrivals, s.slots[a].held, s.slots[a].held[c].id);
  }

  /** A tick of a run that finds a boot failed throws away each Initial its slot holds. */
  lemma FailedBootDiscards(r: Rules, backends: set<Addr>, ss: seq<State>, es: seq<Event>, i: nat, a: Addr, c: Addr)
    requires IsRun(r, backends, ss, es) && i < |es| && es[i].what.Tick?
    requires a in ss[i].slots && ss[i].slots[a].life == Waking && es[i].what.io.boot(a) == BootFailed
    requires c in ss[i].slots[a].held
    ensures var id := ss[i].slots[a].held[c].id; id in ss[i + 1].ledger && ss[i + 1].ledger[id] == Discarded
  {
    var s, e := ss[i], es[i];
    hide IsRun, Balanced;
    RunStep(r, backends, ss, es, i, i);
    RunBalanced(r, backends, ss, es, i);
    ReapBalanced(r, s, e.now);
    ReapKeeps(r, s, e.now);
    hide Turn, Reap;
    var order, t := e.what.order, Reap(r, s, e.now);
    var n :| 0 <= n < |order| && order[n] == a;
    OwnTurnDiscards(r, t, order[..n], a, e.what.io, e.now, c);
    TurnsNext(r, t, order, e.what.io, e.now, n);
    hide Turns;
    TurnsKeep(r, t, order, e.what.io, e.now, n + 1, s.slots[a].held[c].id);
  }
}
