/** Counting the datagrams of a run, and following its sessions. */
module Conservation {
  import opened Bits
  import opened Configuration
  import opened Knock
  import opened Lifecycle
  import opened Safety
  import opened Accounts
  import opened Sends
  import opened Wrappers

  // ----- conservation

  datatype Kind = IsForwarded | IsUnbound | IsDropped | IsSuperseded | IsDiscarded | IsUnroutable

  function KindOf(f: Fate): Kind {
    match f
    case Forwarded(_, _, _) => IsForwarded
    case Unbound => IsUnbound
    case Dropped => IsDropped
    case Superseded => IsSuperseded
    case Discarded => IsDiscarded
    case Unroutable => IsUnroutable
  }

  ghost function Having(s: State, kind: Kind): set<nat> {
    set id | id in s.ledger && KindOf(s.ledger[id]) == kind
  }

  ghost function HeldIds(s: State): set<nat> {
    set id: nat | id < |s.arrivals| && HeldSomewhere(s, id)
  }

  /** The entries of all holds, by slot and client. */
  ghost function HeldEntries(s: State): set<(Addr, Addr)> {
    set a, c | a in s.slots && c in s.slots[a].held :: (a, c)
  }

  ghost function Numbers(n: nat): (r: set<nat>)
    ensures |r| == n && forall i: nat :: i in r <==> i < n
  {
    if n == 0 then {} else Numbers(n - 1) + {n - 1}
  }

  lemma SettledOrHeld(s: State)
    requires Balanced(s)
    ensures Numbers(|s.arrivals|) == s.ledger.Keys + HeldIds(s) && s.ledger.Keys !! HeldIds(s)
  {
    hide Truthful, Sound, HeldSomewhere;
    forall id: nat ensures id < |s.arrivals| <==> id in s.ledger.Keys + HeldIds(s) {
      assert Account(s, id);
    }
    forall id | id in s.ledger ensures id !in HeldIds(s) {
      assert Account(s, id);
    }
  }

  lemma {:induction false} EntryCount(s: State, entries: set<(Addr, Addr)>, ids: set<nat>)
    requires Balanced(s) && entries <= HeldEntries(s)
    requires forall e <- entries :: s.slots[e.0].held[e.1].id in ids
    requires forall id <- ids :: exists e <- entries :: s.slots[e.0].held[e.1].id == id
    ensures |ids| == |entries|
  {
    hide Balanced;
    if entries == {} {
      assert ids == {};
    } else {
      var e :| e in entries;
      var id := s.slots[e.0].held[e.1].id;
      forall e' | e' in entries - {e} ensures s.slots[e'.0].held[e'.1].id in ids - {id} {
        EntriesDiffer(s, e, e');
      }
      EntryCount(s, entries - {e}, ids - {id});
    }
  }

  lemma EntriesDiffer(s: State, e: (Addr, Addr), f: (Addr, Addr))
    requires Balanced(s) && e in HeldEntries(s) && f in HeldEntries(s) && e != f
    ensures s.slots[e.0].held[e.1].id != s.slots[f.0].held[f.1].id
  {
    hide Sound;
    assert HoldTruthful(s.arrivals, s.slots[e.0].held);
    assert HoldTruthful(s.arrivals, s.slots[f.0].held);
    var id := s.slots[e.0].held[e.1].id;
    assert Account(s, id);
    assert HeldBy(s, e.0, id);
    assert s.slots[f.0].held[f.1].id == id ==> HeldBy(s, f.0, id);
  }

  lemma HeldCount(s: State)
    requires Balanced(s)
    ensures |HeldIds(s)| == |HeldEntries(s)|
  {
    hide Sound, Account;
    forall e | e in HeldEntries(s) ensures s.slots[e.0].held[e.1].id in HeldIds(s) {
      assert HoldTruthful(s.arrivals, s.slots[e.0].held);
      assert HeldBy(s, e.0, s.slots[e.0].held[e.1].id);
    }
    forall id | id in HeldIds(s) ensures exists e <- HeldEntries(s) :: s.slots[e.0].held[e.1].id == id {
      var a :| HeldBy(s, a, id);
      assert (a, s.arrivals[id].client) in HeldEntries(s);
    }
    EntryCount(s, HeldEntries(s), HeldIds(s));
  }

  ghost function Others(s: State, kinds: seq<Kind>): set<nat> {
    set id | id in s.ledger && KindOf(s.ledger[id]) !in kinds
  }

  lemma CountKind(s: State, kinds: seq<Kind>, kind: Kind)
    requires kind !in kinds
    ensures |Others(s, kinds)| == |Having(s, kind)| + |Others(s, kinds + [kind])|
  {
    hide KindOf;
    assert Others(s, kinds) == Having(s, kind) + Others(s, kinds + [kind]);
    assert Having(s, kind) !! Others(s, kinds + [kind]);
  }

  lemma LedgerCount(s: State)
    requires Routable(s)
    ensures |s.ledger.Keys| == |Having(s, IsForwarded)| + |Having(s, IsUnbound)|
      + |Having(s, IsDropped)| + |Having(s, IsSuperseded)| + |Having(s, IsDiscarded)|
  {
    assert Others(s, []) == s.ledger.Keys;
    var k1 := [] + [IsForwarded];
    var k2 := k1 + [IsUnbound];
    var k3 := k2 + [IsDropped];
    var k4 := k3 + [IsSuperseded];
    CountKind(s, [], IsForwarded);
    CountKind(s, k1, IsUnbound);
    CountKind(s, k2, IsDropped);
    CountKind(s, k3, IsSuperseded);
    assert Others(s, k4) == Having(s, IsDiscarded);
  }

  ghost predicate Routable(s: State) {
    forall id <- s.ledger :: !s.ledger[id].Unroutable?
  }

  /** With every route configured, no datagram is ever selected for an unknown backend. */
  lemma {:induction false} NothingUnroutable(r: Rules, backends: set<Addr>, ss: seq<State>, es: seq<Event>, i: nat)
    requires IsRun(r, backends, ss, es) && Configured(r, backends) && i < |ss|
    ensures Routable(ss[i])
  {
    hide Step, Sound;
    if i > 0 {
      NothingUnroutable(r, backends, ss, es, i - 1);
      RunSound(r, backends, ss, es, i - 1);
      StepRoutable(r, ss[i - 1], es[i - 1]);
    }
  }

  lemma TargetExists(r: Rules, s: State, client: Addr, data: seq<byte>)
    requires Sound(s) && Configured(r, s.slots.Keys)
    ensures Target(r, s, client, data) in s.slots
  {
    if client in s.sessions {
      assert SessionOk(s, client);
    }
  }

  lemma DatagramRoutable(r: Rules, s: State, client: Addr, data: seq<byte>, now: int, bindOk: bool)
    requires Target(r, s, client, data) in s.slots && Routable(s)
    ensures Routable(HandleDatagram(r, s, client, data, now, bindOk))
  {
    hide Target, IsQuicInitial;
  }

  lemma StepRoutable(r: Rules, s: State, e: Event)
    requires Sound(s) && Possible(s, e) && Configured(r, s.slots.Keys) && Routable(s)
    ensures Routable(Step(r, s, e))
  {
    hide Sound, Configured, HandleDatagram, Turns, Target;
    match e.what
    case Datagram(client, data, bindOk) =>
      TargetExists(r, s, client, data);
      DatagramRoutable(r, s, client, data, e.now, bindOk);
    case Tick(order, io) =>
      TurnsRoutable(r, Reap(r, s, e.now), order, io, e.now);
  }

  lemma {:induction false} TurnsRoutable(r: Rules, s: State, order: seq<Addr>, io: Outside, now: int)
    requires (forall a <- order :: a in s.slots) && Routable(s)
    ensures Routable(Turns(r, s, order, io, now))
  {
    if order != [] {
      TurnsRoutable(r, s, order[..|order| - 1], io, now);
      var m, a := Turns(r, s, order[..|order| - 1], io, now), order[|order| - 1];
      BootTurnRoutable(m, a, io, now);
      BootTurnFrame(m, a, io, now);
      RunTurnFrame(r, BootTurn(m, a, io, now), a, io, now);
      hide BootTurn, RunTurn;
    }
  }

  lemma BootTurnRoutable(s: State, a: Addr, io: Outside, now: int)
    requires a in s.slots && Routable(s)
    ensures Routable(BootTurn(s, a, io, now))
  {
    hide DeliveredSessions, DeliveredFates, HeldUnder;
    if s.slots[a].life == Waking && io.boot(a) == Ready {
      var cleared := s.(slots := s.slots[a := Slot(Running, Some(now), map[])]);
      DeliveredIsRoutable(cleared, a, s.slots[a].held, now, io.bindOk);
    }
  }

  lemma DeliveredIsRoutable(s: State, a: Addr, held: map<Addr, Packet>, now: int, bindOk: (Addr, Addr) -> bool)
    ensures var fates := DeliveredFates(s, a, held, now, bindOk);
            forall id <- fates :: !fates[id].Unroutable?
  {
  }

  /** Received = sent to a backend + without a socket + dropped + superseded while held +
  discarded with a failed boot + held now, in every reachable state; and every send counts. */
  lemma DatagramsAreConserved(r: Rules, backends: set<Addr>, ss: seq<State>, es: seq<Event>, i: nat)
    requires IsRun(r, backends, ss, es) && Configured(r, backends) && i < |ss|
    ensures var s := ss[i];
      |s.arrivals| == |s.sent| + |Having(s, IsUnbound)| + |Having(s, IsDropped)|
        + |Having(s, IsSuperseded)| + |Having(s, IsDiscarded)| + |HeldEntries(s)|
  {
    hide Step, Balanced, IsRun, Routable, SentAsRecorded;
    RunSends(r, backends, ss, es, i);
    SendsCounted(ss[i]);
    assert ForwardedIds(ss[i]) == Having(ss[i], IsForwarded);
    RunBalanced(r, backends, ss, es, i);
    NothingUnroutable(r, backends, ss, es, i);
    SettledOrHeld(ss[i]);
    HeldCount(ss[i]);
    LedgerCount(ss[i]);
  }

  // ----- sessions from opening to removal

  /** Datagram number id is the one a client's session was last seen by. */
  ghost predicate LastSeenBy(s: State, c: Addr, id: nat)
    requires c in s.sessions
  {
    var session := s.sessions[c];
    && id < |s.arrivals| && s.arrivals[id].client == c
    && id in s.ledger && s.ledger[id].Forwarded?
    && s.ledger[id].backend == session.backend && s.ledger[id].at == session.lastSeen
  }

  /** A session was opened for its client's own datagram, which was forwarded to the
  session's backend; and nothing but such a datagram refreshes it. */
  ghost predicate OpenedFor(s: State, c: Addr)
    requires c in s.sessions
  {
    var session := s.sessions[c];
    && session.opener < |s.arrivals| && s.arrivals[session.opener].client == c
    && session.opener in s.ledger && s.ledger[session.opener].Forwarded?
    && s.ledger[session.opener].backend == session.backend
    && exists id :: LastSeenBy(s, c, id)
  }

  ghost predicate Traceable(s: State) {
    forall c <- s.sessions :: OpenedFor(s, c)
  }

  /** Sessions that were there stay traceable while the ledger only grows. */
  lemma KeptTraceable(s: State, t: State, c: Addr)
    requires Traceable(s) && Extends(s, t)
    requires c in s.sessions && c in t.sessions
    requires t.sessions[c].opener == s.sessions[c].opener && t.sessions[c].backend == s.sessions[c].backend
    requires t.sessions[c].lastSeen == s.sessions[c].lastSeen || exists id :: LastSeenBy(t, c, id)
    ensures OpenedFor(t, c)
  {
    assert OpenedFor(s, c);
    if t.sessions[c].lastSeen == s.sessions[c].lastSeen {
      var id :| LastSeenBy(s, c, id);
      assert LastSeenBy(t, c, id);
    }
  }

  lemma DatagramTraceable(r: Rules, s: State, client: Addr, data: seq<byte>, now: int, bindOk: bool)
    requires Traceable(s) && Extends(s, HandleDatagram(r, s, client, data, now, bindOk))
    ensures Traceable(HandleDatagram(r, s, client, data, now, bindOk))
  {
    hide Traceable, IsQuicInitial, Extends;
    var t := HandleDatagram(r, s, client, data, now, bindOk);
    forall c | c in t.sessions ensures OpenedFor(t, c) {
      assert c !in s.sessions || s.sessions[c] != t.sessions[c] ==> LastSeenBy(t, c, |s.arrivals|);
      if c in s.sessions {
        KeptTraceable(s, t, c);
      }
    }
    assert Traceable(t) by { AllTraceable(t); }
  }

  lemma AllTraceable(t: State)
    requires forall c <- t.sessions :: OpenedFor(t, c)
    ensures Traceable(t)
  {
  }

  lemma PromoteTraceable(s: State, a: Addr, now: int, bindOk: (Addr, Addr) -> bool)
    requires Traceable(s) && a in s.slots && HoldTruthful(s.arrivals, s.slots[a].held)
    requires Extends(s, Promote(s, a, now, bindOk))
    ensures Traceable(Promote(s, a, now, bindOk))
  {
    var t, held := Promote(s, a, now, bindOk), s.slots[a].held;
    forall c | c in t.sessions ensures OpenedFor(t, c) {
      if c in held {
        assert HeldUnder(s.arrivals, held, held[c].id);
        assert LastSeenBy(t, c, held[c].id);
      }
      if c in s.sessions {
        KeptTraceable(s, t, c);
      }
    }
  }

  lemma TurnTraceable(r: Rules, s: State, a: Addr, io: Outside, now: int)
    requires Traceable(s) && Balanced(s) && a in s.slots
    ensures Traceable(Turn(r, s, a, io, now))
  {
    hide Traceable, Sound, Account, Truthful, BootTurn, RunTurn;
    var m := BootTurn(s, a, io, now);
    forall id: nat
      ensures Truthful(m) && Account(m, id)
      ensures id in s.ledger ==> id in m.ledger && m.ledger[id] == s.ledger[id]
    {
      BootTurnAccount(s, a, io, now, id);
    }
    BootTurnFrame(s, a, io, now);
    BootTurnTraceable(s, a, io, now);
    RunTurnTraceable(r, m, a, io, now);
  }

  lemma BootTurnTraceable(s: State, a: Addr, io: Outside, now: int)
    requires Traceable(s) && Truthful(s) && a in s.slots && Extends(s, BootTurn(s, a, io, now))
    ensures Traceable(BootTurn(s, a, io, now))
  {
    hide Promote, HoldTruthful, OpenedFor;
    assert HoldTruthful(s.arrivals, s.slots[a].held);
    if s.slots[a].life == Waking && io.boot(a) == Ready {
      PromoteTraceable(s, a, now, io.bindOk);
    } else {
      var t := BootTurn(s, a, io, now);
      forall c | c in t.sessions ensures OpenedFor(t, c) {
        KeptTraceable(s, t, c);
      }
    }
  }

  lemma RunTurnTraceable(r: Rules, s: State, a: Addr, io: Outside, now: int)
    requires Traceable(s) && a in s.slots
    ensures Traceable(RunTurn(r, s, a, io, now))
  {
    hide SessionsOn, IdleStops, OpenedFor;
    var t := RunTurn(r, s, a, io, now);
    forall c | c in t.sessions ensures OpenedFor(t, c) {
      KeptTraceable(s, t, c);
    }
  }

  lemma {:induction false} TurnsTraceable(r: Rules, s: State, order: seq<Addr>, io: Outside, now: int)
    requires Traceable(s) && Balanced(s) && forall a <- order :: a in s.slots
    ensures Traceable(Turns(r, s, order, io, now))
  {
    hide Traceable, Balanced, Turn;
    if order != [] {
      TurnsTraceable(r, s, order[..|order| - 1], io, now);
      TurnsBalanced(r, s, order[..|order| - 1], io, now);
      TurnTraceable(r, Turns(r, s, order[..|order| - 1], io, now), order[|order| - 1], io, now);
    }
  }

  lemma ReapTraceable(r: Rules, s: State, now: int)
    requires Traceable(s) && Balanced(s)
    ensures Traceable(Reap(r, s, now)) && Balanced(Reap(r, s, now))
  {
    hide OpenedFor, Balanced;
    var t := Reap(r, s, now);
    forall c | c in t.sessions ensures OpenedFor(t, c) {
      KeptTraceable(s, t, c);
    }
    ReapBalanced(r, s, now);
  }

  lemma StepTraceable(r: Rules, s: State, e: Event)
    requires Traceable(s) && Balanced(s) && Possible(s, e)
    ensures Traceable(Step(r, s, e))
  {
    hide Traceable, Balanced, HandleDatagram, Turns, Reap, Extends;
    StepBalanced(r, s, e);
    match e.what
    case Datagram(client, data, bindOk) => DatagramTraceable(r, s, client, data, e.now, bindOk);
    case Tick(order, io) =>
      ReapTraceable(r, s, e.now);
      ReapKeeps(r, s, e.now);
      TurnsTraceable(r, Reap(r, s, e.now), order, io, e.now);
  }

  lemma {:induction false} RunTraceable(r: Rules, backends: set<Addr>, ss: seq<State>, es: seq<Event>, i: nat)
    requires IsRun(r, backends, ss, es) && i < |ss|
    ensures Traceable(ss[i])
  {
    hide Step, Balanced;
    if i > 0 {
      RunTraceable(r, backends, ss, es, i - 1);
      RunBalanced(r, backends, ss, es, i - 1);
      hide Traceable;
      StepTraceable(r, ss[i - 1], es[i - 1]);
    }
  }

  /** A session keeps its client and its backend from opening to removal, and its socket is
  never another session's. */
  lemma SessionsArePinned(
      r: Rules, backends: set<Addr>, ss: seq<State>, es: seq<Event>, i: nat, j: nat, c: Addr, d: Addr)
    requires IsRun(r, backends, ss, es) && i <= j < |ss|
    requires c in ss[i].sessions && d in ss[j].sessions
    requires ss[i].sessions[c].opener == ss[j].sessions[d].opener
    ensures c == d && ss[i].sessions[c].backend == ss[j].sessions[d].backend
  {
    hide IsRun;
    RunTraceable(r, backends, ss, es, i);
    RunTraceable(r, backends, ss, es, j);
    FateIsFinal(r, backends, ss, es, i, j);
    assert OpenedFor(ss[i], c) && OpenedFor(ss[j], d);
  }
}
