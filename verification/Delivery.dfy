/** What becomes of a held Initial in the tick that finds its backend ready. */
module Delivery {
  import opened Accounts
  import opened Bits
  import opened Configuration
  import opened IdleStop
  import opened Knock
  import opened Lifecycle
  import opened Safety
  import opened Sends
  import opened Wrappers

  /** The backend a client's session leads to. */
  ghost function Lead(s: State, c: Addr): Option<Addr> {
    if c in s.sessions then Some(s.sessions[c].backend) else None
  }

  /** Whether a slot delivers what it holds for a client in this tick. */
  ghost predicate Delivers(slot: Slot, x: Addr, io: Outside, c: Addr) {
    slot.life == Waking && io.boot(x) == Ready && c in slot.held
  }

  /** Whether a slot's backend is found gone in this tick. */
  ghost predicate Exits(slot: Slot, x: Addr, io: Outside) {
    io.exit(x) == Exited && (slot.life == Running || (slot.life == Waking && io.boot(x) == Ready))
  }

  /** Where a client's session leads after the turn of slot x, from where it led before. */
  ghost function LeadAfterTurn(slot: Slot, x: Addr, io: Outside, c: Addr, lead: Option<Addr>): Option<Addr> {
    var reached := if Delivers(slot, x, io, c) && lead.None? && io.bindOk(x, c) then Some(x) else lead;
    if Exits(slot, x, io) && reached == Some(x) then None else reached
  }

  /** And after the turns of several slots, each as it stood when the tick began. */
  ghost function LeadAfter(s: State, order: seq<Addr>, io: Outside, c: Addr, lead: Option<Addr>): Option<Addr> {
    if order == [] then lead
    else
      var x, before := order[|order| - 1], LeadAfter(s, order[..|order| - 1], io, c, lead);
      if x in s.slots then LeadAfterTurn(s.slots[x], x, io, c, before) else before
  }

  /** Where it leads once the tick has reaped. */
  ghost function LeadReaped(r: Rules, s: State, now: int, c: Addr): Option<Addr> {
    if c in s.sessions && now - s.sessions[c].lastSeen < r.sessionTimeout then Some(s.sessions[c].backend) else None
  }

  lemma DistinctFront(s: State, order: seq<Addr>)
    requires Distinct(order) && order != [] && forall x <- order :: x in s.slots
    ensures var front, x := order[..|order| - 1], order[|order| - 1];
            Distinct(front) && x !in front && x in s.slots && forall y <- front :: y in s.slots
  {
  }

  // ----- sessions through a tick

  lemma BootTurnLead(s: State, x: Addr, io: Outside, now: int, c: Addr)
    requires x in s.slots
    ensures Lead(BootTurn(s, x, io, now), c)
         == if Delivers(s.slots[x], x, io, c) && Lead(s, c).None? && io.bindOk(x, c) then Some(x) else Lead(s, c)
  {
    hide DeliveredFates, DiscardedFates, SendsOf;
  }

  lemma RunTurnLead(r: Rules, s: State, x: Addr, io: Outside, now: int, c: Addr)
    requires x in s.slots
    ensures Lead(RunTurn(r, s, x, io, now), c)
         == if s.slots[x].life == Running && io.exit(x) == Exited && Lead(s, c) == Some(x) then None else Lead(s, c)
  {
    hide SessionsOn, IdleStops;
  }

  lemma TurnLead(r: Rules, s: State, x: Addr, io: Outside, now: int, c: Addr)
    requires x in s.slots
    ensures Lead(Turn(r, s, x, io, now), c) == LeadAfterTurn(s.slots[x], x, io, c, Lead(s, c))
  {
    hide BootTurn, RunTurn, Lead;
    BootTurnFrame(s, x, io, now);
    BootTurnSlot(s, x, io, now);
    BootTurnLead(s, x, io, now, c);
    RunTurnLead(r, BootTurn(s, x, io, now), x, io, now, c);
  }

  lemma {:induction false} TurnsLead(r: Rules, s: State, order: seq<Addr>, io: Outside, now: int, c: Addr)
    requires forall x <- order :: x in s.slots
    requires Distinct(order)
    ensures Lead(Turns(r, s, order, io, now), c) == LeadAfter(s, order, io, c, Lead(s, c))
  {
    hide Turn, Lead, LeadAfterTurn, Distinct;
    if order != [] {
      var front, x := order[..|order| - 1], order[|order| - 1];
      DistinctFront(s, order);
      var m := Turns(r, s, front, io, now);
      TurnsLead(r, s, front, io, now, c);
      TurnsElsewhere(r, s, front, io, now, x);
      TurnLead(r, m, x, io, now, c);
    }
  }

  lemma {:induction false} TurnsElsewhere(r: Rules, s: State, order: seq<Addr>, io: Outside, now: int, a: Addr)
    requires (forall x <- order :: x in s.slots) && a in s.slots && a !in order
    ensures Turns(r, s, order, io, now).slots[a] == s.slots[a]
  {
    hide Turn;
    if order != [] {
      var front, x := order[..|order| - 1], order[|order| - 1];
      TurnsElsewhere(r, s, front, io, now, a);
      TurnFrame(r, Turns(r, s, front, io, now), x, io, now);
    }
  }

  /** Where every client's session leads after a tick. */
  lemma TickLeads(r: Rules, s: State, order: seq<Addr>, io: Outside, now: int, c: Addr)
    requires Enumerates(order, s.slots.Keys)
    ensures Lead(TickAll(r, s, order, io, now), c) == LeadAfter(s, order, io, c, LeadReaped(r, s, now, c))
  {
    hide Turns, LeadAfterTurn;
    ReapKeeps(r, s, now);
    TurnsLead(r, Reap(r, s, now), order, io, now, c);
    SameSlotsSameLead(s, Reap(r, s, now), order, io, c, LeadReaped(r, s, now, c));
  }

  lemma {:induction false} SameSlotsSameLead(
      s: State, t: State, order: seq<Addr>, io: Outside, c: Addr, lead: Option<Addr>)
    requires t.slots == s.slots
    ensures LeadAfter(t, order, io, c, lead) == LeadAfter(s, order, io, c, lead)
  {
    hide LeadAfterTurn;
    if order != [] {
      SameSlotsSameLead(s, t, order[..|order| - 1], io, c, lead);
    }
  }

  // ----- the held Initial itself

  /** What delivery makes of a held Initial when its client's session leads there. */
  function FateOf(p: Packet, a: Addr, lead: Option<Addr>, now: int, bindOk: bool): Fate {
    if lead.Some? then Forwarded(lead.value, p.data, now)
    else if bindOk then Forwarded(a, p.data, now)
    else Unbound
  }

  lemma TurnDelivers(r: Rules, s: State, a: Addr, io: Outside, now: int, c: Addr)
    requires a in s.slots && Delivers(s.slots[a], a, io, c) && HoldTruthful(s.arrivals, s.slots[a].held)
    ensures var p, t := s.slots[a].held[c], Turn(r, s, a, io, now);
            p.id in t.ledger && t.ledger[p.id] == FateOf(p, a, Lead(s, c), now, io.bindOk(a, c))
  {
    hide RunTurn, DeliveredSessions, SendsOf;
    BootTurnFrame(s, a, io, now);
    RunTurnFrame(r, BootTurn(s, a, io, now), a, io, now);
    assert HeldUnder(s.arrivals, s.slots[a].held, s.slots[a].held[c].id);
  }

  /** The fate of an Initial that slot a holds for a client, when its turn comes after these. */
  ghost function FateAfter(s: State, before: seq<Addr>, a: Addr, io: Outside, now: int, c: Addr): Fate
    requires a in s.slots && c in s.slots[a].held
  {
    FateOf(s.slots[a].held[c], a, LeadAfter(s, before, io, c, Lead(s, c)), now, io.bindOk(a, c))
  }

  lemma OwnTurnDelivers(r: Rules, s: State, before: seq<Addr>, a: Addr, io: Outside, now: int, c: Addr)
    requires (forall x <- before :: x in s.slots) && Balanced(s) && a in s.slots && a !in before
    requires Distinct(before)
    requires Delivers(s.slots[a], a, io, c)
    ensures var id := s.slots[a].held[c].id; var t := Turn(r, Turns(r, s, before, io, now), a, io, now);
            id in t.ledger && t.ledger[id] == FateAfter(s, before, a, io, now, c)
  {
    hide Turn, Turns, Balanced, LeadAfter, HoldTruthful;
    TurnsBalanced(r, s, before, io, now);
    TurnsElsewhere(r, s, before, io, now, a);
    TurnsLead(r, s, before, io, now, c);
    BalancedHold(Turns(r, s, before, io, now), a);
    TurnDelivers(r, Turns(r, s, before, io, now), a, io, now, c);
  }

  lemma LaterTurnKeeps(r: Rules, s: State, x: Addr, io: Outside, now: int, id: nat)
    requires Balanced(s) && x in s.slots && id in s.ledger
    ensures id in Turn(r, s, x, io, now).ledger && Turn(r, s, x, io, now).ledger[id] == s.ledger[id]
  {
    hide Truthful, Account, Sound, Turn;
    TurnAccount(r, s, x, io, now, id);
  }

  lemma {:induction false} TurnsKeep(r: Rules, s: State, order: seq<Addr>, io: Outside, now: int, n: nat, id: nat)
    requires (forall x <- order :: x in s.slots) && Balanced(s) && n <= |order|
    requires id in Turns(r, s, order[..n], io, now).ledger
    ensures var t, u := Turns(r, s, order[..n], io, now), Turns(r, s, order, io, now);
            id in u.ledger && u.ledger[id] == t.ledger[id]
    decreases |order|
  {
    hide Turn, Balanced;
    if n == |order| {
      assert order[..n] == order;
    } else {
      var front := order[..|order| - 1];
      assert front[..n] == order[..n];
      TurnsKeep(r, s, front, io, now, n, id);
      TurnsBalanced(r, s, front, io, now);
      LaterTurnKeeps(r, Turns(r, s, front, io, now), order[|order| - 1], io, now, id);
    }
  }

  lemma TurnsDeliver(r: Rules, s: State, order: seq<Addr>, io: Outside, now: int, n: nat, c: Addr)
    requires (forall x <- order :: x in s.slots) && Balanced(s) && n < |order|
    requires Distinct(order)
    requires Delivers(s.slots[order[n]], order[n], io, c)
    ensures var id, t := s.slots[order[n]].held[c].id, Turns(r, s, order, io, now);
            id in t.ledger && t.ledger[id] == FateAfter(s, order[..n], order[n], io, now, c)
  {
    hide Turn, Balanced, FateAfter;
    var before, a := order[..n], order[n];
    OwnTurnDelivers(r, s, before, a, io, now, c);
    assert order[..n + 1] == before + [a] && order[..n + 1][..n] == before;
    assert Turns(r, s, order[..n + 1], io, now) == Turn(r, Turns(r, s, before, io, now), a, io, now);
    hide Turns;
    TurnsKeep(r, s, order, io, now, n + 1, s.slots[a].held[c].id);
  }

  /** In any run, the tick that finds a waking backend ready forwards each Initial it holds,
  and no tick before it did: by the session its client has when the slot's turn comes,
  wherever that leads, or else by a new one on this backend if a socket binds. */
  lemma ReadinessDelivers(
      r: Rules, backends: set<Addr>, ss: seq<State>, es: seq<Event>, i: nat, n: nat, c: Addr)
    requires IsRun(r, backends, ss, es) && i < |es| < |ss| && es[i].what.Tick?
    requires n < |es[i].what.order| && es[i].what.order[n] in ss[i].slots
    requires Delivers(ss[i].slots[es[i].what.order[n]], es[i].what.order[n], es[i].what.io, c)
    ensures var e, a := es[i], es[i].what.order[n];
            var p := ss[i].slots[a].held[c];
            var lead := LeadAfter(ss[i], e.what.order[..n], e.what.io, c, LeadReaped(r, ss[i], e.now, c));
            && p.id !in ss[i].ledger && p.id in ss[i + 1].ledger
            && ss[i + 1].ledger[p.id] == FateOf(p, a, lead, e.now, e.what.io.bindOk(a, c))
  {
    hide IsRun, Turns, Delivers, FateOf, LeadAfterTurn, Balanced, HoldTruthful, HeldBy, HeldUnder;
    var s, e := ss[i], es[i];
    RunStep(r, backends, ss, es, i, i);
    RunBalanced(r, backends, ss, es, i);
    ReapBalanced(r, s, e.now);
    ReapKeeps(r, s, e.now);
    TurnsDeliver(r, Reap(r, s, e.now), e.what.order, e.what.io, e.now, n, c);
    SameSlotsSameLead(s, Reap(r, s, e.now), e.what.order[..n], e.what.io, c, LeadReaped(r, s, e.now, c));
    HeldIsHeld(s, e.what.order[n], e.what.io, c);
  }

  lemma HeldIsHeld(s: State, a: Addr, io: Outside, c: Addr)
    requires Balanced(s) && a in s.slots && Delivers(s.slots[a], a, io, c)
    ensures s.slots[a].held[c].id !in s.ledger
  {
    hide Sound, Account;
    OldOneIsHeld(s, a, c);
    HeldIsUnsettled(s, a, s.slots[a].held[c].id);
  }

  // ----- in plain cases

  /** A session that outlives the tick's reaping, on a backend that does not exit in it, keeps
  its client. */
  lemma {:induction false} SessionDecides(s: State, order: seq<Addr>, io: Outside, c: Addr, b: Addr)
    requires io.exit(b) != Exited
    ensures LeadAfter(s, order, io, c, Some(b)) == Some(b)
  {
    if order != [] {
      SessionDecides(s, order[..|order| - 1], io, c, b);
    }
  }

  /** And a client with none gets none from slots that do not deliver for it. */
  lemma {:induction false} NobodyElseOpens(s: State, order: seq<Addr>, io: Outside, c: Addr)
    requires forall x <- order | x in s.slots :: !(Delivers(s.slots[x], x, io, c) && io.bindOk(x, c))
    ensures LeadAfter(s, order, io, c, None) == None
  {
    if order != [] {
      NobodyElseOpens(s, order[..|order| - 1], io, c);
    }
  }

  // ----- a held Initial that follows its client elsewhere

  lemma KnockHeld(r: Rules, s: State, c: Addr, data: seq<byte>, now: int, a: Addr)
    requires r.route(data) == a && IsQuicInitial(data) && c !in s.sessions
    requires a in s.slots && s.slots[a] == Slot(Sleeping, None, map[])
    ensures HandleDatagram(r, s, c, data, now, true)
         == s.(slots := s.slots[a := Slot(Waking, None, map[c := Packet(|s.arrivals|, data)])],
               arrivals := s.arrivals + [Arrival(c, data)])
  {
    hide IsQuicInitial;
  }

  lemma {:induction false} TurnsPending(r: Rules, s: State, order: seq<Addr>, io: Outside, now: int, a: Addr)
    requires (forall x <- order :: x in s.slots) && a in s.slots
    requires s.slots[a].life == Waking && io.boot(a) == Pending
    ensures Turns(r, s, order, io, now).slots[a] == s.slots[a]
  {
    hide BootTurn, RunTurn;
    if order != [] {
      var front, x := order[..|order| - 1], order[|order| - 1];
      var m := Turns(r, s, front, io, now);
      TurnsPending(r, s, front, io, now, a);
      TurnFrame(r, m, x, io, now);
      if x == a {
        BootTurnFrame(m, a, io, now);
        BootTurnSlot(m, a, io, now);
        RunTurnSlot(r, BootTurn(m, a, io, now), a, io, now);
      }
    }
  }

  /** A tick in which every backend is alive, those given are ready, and every socket binds. */
  function ReadyTick(order: seq<Addr>, ready: set<Addr>): Event {
    Event(0, Tick(order, Outside(x => if x in ready then Ready else Pending, _ => Alive, (_, _) => true)))
  }

  /** The events: a client asks for a, then for b; b is ready first, and a after it. */
  function AsksTwice(a: Addr, b: Addr, c: Addr, da: seq<byte>, db: seq<byte>): seq<Event> {
    [Event(0, Datagram(c, da, true)), Event(0, Datagram(c, db, true)), ReadyTick([a, b], {b}), ReadyTick([a, b], {a})]
  }

  /** The two knocks are held by the two slots. */
  lemma BothHeld(r: Rules, a: Addr, b: Addr, c: Addr, da: seq<byte>, db: seq<byte>)
    requires a != b && r.route(da) == a && r.route(db) == b && IsQuicInitial(da) && IsQuicInitial(db)
    ensures var s := HandleDatagram(r, Start({a, b}), c, da, 0, true);
            var t := HandleDatagram(r, s, c, db, 0, true);
            && t.slots.Keys == {a, b} && t.sessions == map[]
            && t.slots[a] == Slot(Waking, None, map[c := Packet(0, da)])
            && t.slots[b] == Slot(Waking, None, map[c := Packet(1, db)])
  {
    hide HandleDatagram, IsQuicInitial;
    var s0 := Start({a, b});
    KnockHeld(r, s0, c, da, 0, a);
    KnockHeld(r, HandleDatagram(r, s0, c, da, 0, true), c, db, 0, b);
  }

  /** The first tick gives the client a session on b, and leaves a with what it holds. */
  lemma OtherFirst(r: Rules, s: State, a: Addr, b: Addr, c: Addr)
    requires a != b && s.slots.Keys == {a, b} && s.sessions == map[] && r.sessionTimeout > 0
    requires s.slots[a].life == Waking && s.slots[b].life == Waking && s.slots[b].emptySince.None?
    requires c in s.slots[a].held && c in s.slots[b].held
    ensures var t := Step(r, s, ReadyTick([a, b], {b}));
            && t.slots[a] == s.slots[a] && Lead(t, c) == Some(b) && LeadReaped(r, t, 0, c) == Some(b)
  {
    hide Turns, Reap;
    var e := ReadyTick([a, b], {b});
    var io := e.what.io;
    assert Enumerates([a, b], s.slots.Keys);
    ReapKeeps(r, s, 0);
    TurnsPending(r, Reap(r, s, 0), [a, b], io, 0, a);
    TickLeads(r, s, [a, b], io, 0, c);
    assert [a, b][..1] == [a] && [a][..0] == [];
    assert LeadAfter(s, [a], io, c, None) == None;
    TickFresh(r, s, [a, b], io, 0, b);
  }

  /** So this does happen: a client is held at one backend while its session leads to another,
  and when the first is ready the held Initial goes to the other. */
  lemma HeldFollowsSession(r: Rules, a: Addr, b: Addr, c: Addr, da: seq<byte>, db: seq<byte>)
    returns (ss: seq<State>, es: seq<Event>)
    requires a != b && r.route(da) == a && r.route(db) == b && IsQuicInitial(da) && IsQuicInitial(db)
    requires r.sessionTimeout > 0
    ensures IsRun(r, {a, b}, ss, es) && |es| == 4
    ensures c in ss[3].sessions && ss[3].sessions[c].backend == b
    ensures a in ss[3].slots && ss[3].slots[a] == Slot(Waking, None, map[c := Packet(0, da)])
    ensures 0 in ss[4].ledger && ss[4].ledger[0] == Forwarded(b, da, 0)
  {
    hide IsQuicInitial, HandleDatagram, TickAll, LeadReaped;
    es := AsksTwice(a, b, c, da, db);
    assert Enumerates([a, b], {a, b});
    var s0 := Start({a, b});
    var s1 := Step(r, s0, es[0]);
    var s2 := Step(r, s1, es[1]);
    BothHeld(r, a, b, c, da, db);
    OtherFirst(r, s2, a, b, c);
    var s3 := Step(r, s2, es[2]);
    ss := [s0, s1, s2, s3, Step(r, s3, es[3])];
    hide Step;
    assert IsRun(r, {a, b}, ss, es);
    hide IsRun;
    assert [a, b][..0] == [];
    ReadinessDelivers(r, {a, b}, ss, es, 3, 0, c);
  }
}
