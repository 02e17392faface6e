/** What becomes of every datagram, over whole runs. */
module Accounts {
  import opened Bits
  import opened Configuration
  import opened Knock
  import opened Lifecycle
  import opened Safety
  import opened Wrappers

  /** Every held packet is the datagram it says it is. */
  ghost predicate HoldTruthful(arrivals: seq<Arrival>, held: map<Addr, Packet>) {
    forall c <- held :: held[c].id < |arrivals| && arrivals[held[c].id] == Arrival(c, held[c].data)
  }

  ghost predicate Truthful(s: State) {
    forall a <- s.slots :: HoldTruthful(s.arrivals, s.slots[a].held)
  }

  ghost predicate HeldBy(s: State, a: Addr, id: nat) {
    a in s.slots && HeldUnder(s.arrivals, s.slots[a].held, id)
  }

  ghost predicate HeldSomewhere(s: State, id: nat) {
    exists a :: HeldBy(s, a, id)
  }

  /** A received datagram is settled, or held by exactly one slot, and never both; and what
  was forwarded is what was received. */
  ghost predicate Account(s: State, id: nat) {
    && (id in s.ledger ==> id < |s.arrivals|)
    && (id < |s.arrivals| ==> (id in s.ledger <==> !HeldSomewhere(s, id)))
    && (forall a, b | HeldBy(s, a, id) && HeldBy(s, b, id) :: a == b)
    && (id in s.ledger && s.ledger[id].Forwarded? ==> s.ledger[id].data == s.arrivals[id].data)
  }

  /** The ledger is written once. */
  ghost predicate Extends(s: State, t: State) {
    && (forall id <- s.ledger :: id in t.ledger && t.ledger[id] == s.ledger[id])
    && s.arrivals <= t.arrivals
  }

  // ----- a datagram

  lemma HeldAfterArrival(s: State, t: State, a: Addr, id: nat, x: Arrival)
    requires Truthful(s) && t.arrivals == s.arrivals + [x]
    requires a in s.slots && a in t.slots && t.slots[a].held == s.slots[a].held
    ensures HeldBy(t, a, id) <==> HeldBy(s, a, id)
  {
    assert HoldTruthful(s.arrivals, s.slots[a].held);
  }

  /** A datagram that is settled at once touches nobody else's account. */
  lemma SettledAtOnce(s: State, t: State, x: Arrival, fate: Fate, id: nat)
    requires Truthful(s) && Account(s, id) && Account(s, |s.arrivals|)
    requires t.arrivals == s.arrivals + [x] && t.slots.Keys == s.slots.Keys
    requires forall a <- s.slots :: t.slots[a].held == s.slots[a].held
    requires t.ledger == s.ledger[|s.arrivals| := fate]
    requires fate.Forwarded? ==> fate.data == x.data
    ensures Truthful(t) && Account(t, id) && Extends(s, t)
  {
    hide HoldTruthful, HeldUnder;
    forall a ensures HeldBy(t, a, id) <==> HeldBy(s, a, id) {
      if a in s.slots {
        HeldAfterArrival(s, t, a, id, x);
      }
    }
    forall a | a in t.slots ensures HoldTruthful(t.arrivals, t.slots[a].held) {
      TruthfulLater(s.arrivals, t.arrivals, s.slots[a].held);
    }
    hide HeldBy;
    assert HeldSomewhere(t, id) <==> HeldSomewhere(s, id);
    NothingHeldYet(s);
  }

  lemma TruthfulLater(before: seq<Arrival>, after: seq<Arrival>, held: map<Addr, Packet>)
    requires HoldTruthful(before, held) && before <= after
    ensures HoldTruthful(after, held)
  {
  }

  lemma NothingHeldYet(s: State)
    ensures !HeldSomewhere(s, |s.arrivals|)
  {
  }

  /** The state after a newest Initial has been put in the hold of slot a. */
  lemma Replaced(s: State, t: State, a: Addr, x: Arrival, id: nat)
    requires Truthful(s) && a in s.slots && t.arrivals == s.arrivals + [x]
    requires OnlySlotChanges(s.(arrivals := t.arrivals), t, a)
    requires t.slots[a].held == s.slots[a].held[x.client := Packet(|s.arrivals|, x.data)]
    ensures Truthful(t)
    ensures forall b | b != a :: HeldBy(t, b, id) <==> HeldBy(s, b, id)
    ensures HeldBy(t, a, id)
       <==> (id == |s.arrivals|
             || (HeldBy(s, a, id) && !(x.client in s.slots[a].held && s.slots[a].held[x.client].id == id)))
  {
    forall b | b in t.slots ensures HoldTruthful(t.arrivals, t.slots[b].held) {
      assert HoldTruthful(s.arrivals, s.slots[b].held);
    }
    forall b | b != a ensures HeldBy(t, b, id) <==> HeldBy(s, b, id) {
      if b in s.slots {
        HeldAfterArrival(s, t, b, id, x);
      }
    }
    assert HoldTruthful(s.arrivals, s.slots[a].held);
  }

  lemma OldOneIsHeld(s: State, a: Addr, client: Addr)
    requires Truthful(s) && a in s.slots && client in s.slots[a].held
    ensures HeldBy(s, a, s.slots[a].held[client].id) && s.slots[a].held[client].id < |s.arrivals|
  {
    assert HoldTruthful(s.arrivals, s.slots[a].held);
  }

  /** After a Hold that kept the datagram: it is held, and what it replaced is superseded. */
  lemma HeldNow(s: State, t: State, a: Addr, x: Arrival, id: nat)
    requires Truthful(s) && Account(s, id) && a in s.slots && t.arrivals == s.arrivals + [x]
    requires OnlySlotChanges(s.(arrivals := t.arrivals), t, a)
    requires t.slots[a].held == s.slots[a].held[x.client := Packet(|s.arrivals|, x.data)]
    requires x.client !in s.slots[a].held ==> t.ledger == s.ledger
    requires x.client in s.slots[a].held ==> t.ledger == s.ledger[s.slots[a].held[x.client].id := Superseded]
    requires x.client in s.slots[a].held ==> Account(s, s.slots[a].held[x.client].id)
    ensures Truthful(t) && Account(t, id) && Extends(s, t)
  {
    hide HoldTruthful, HeldUnder;
    Replaced(s, t, a, x, id);
    if x.client in s.slots[a].held {
      OldOneIsHeld(s, a, x.client);
    }
    hide HeldBy;
    NothingHeldYet(s);
    if b :| HeldBy(s, b, id) && b != a {
      assert HeldBy(t, b, id);
    }
    if HeldBy(t, a, id) {
      assert HeldSomewhere(t, id);
    }
    assert HeldSomewhere(t, id)
      <==> (id == |s.arrivals|
            || (HeldSomewhere(s, id) && !(x.client in s.slots[a].held && s.slots[a].held[x.client].id == id)));
  }

  lemma DatagramAccount(r: Rules, s: State, client: Addr, data: seq<byte>, now: int, bindOk: bool, id: nat)
    requires Truthful(s) && Sound(s) && forall k :: Account(s, k)
    ensures var t := HandleDatagram(r, s, client, data, now, bindOk);
            Truthful(t) && Account(t, id) && Extends(s, t)
  {
    hide Truthful, Account, IsQuicInitial, Extends, Sound;
    var a, x := Target(r, s, client, data), Arrival(client, data);
    var t := HandleDatagram(r, s, client, data, now, bindOk);
    if a in s.slots && s.slots[a].life != Running && IsQuicInitial(data)
       && (client in s.slots[a].held || |s.slots[a].held| < MAX_HELD_CLIENTS) {
      assert OnlySlotChanges(s.(arrivals := t.arrivals), t, a);
      HeldNow(s, t, a, x, id);
    } else {
      assert Account(s, |s.arrivals|);
      SettledAtOnce(s, t, x, t.ledger[|s.arrivals|], id);
    }
  }

  // ----- a tick

  /** A slot lets go of everything it held, each with a fate. */
  lemma Released(s: State, t: State, a: Addr, fates: map<nat, Fate>, id: nat)
    requires Truthful(s) && Account(s, id) && a in s.slots
    requires OnlySlotChanges(s, t, a) && t.slots[a].held == map[]
    requires t.ledger == s.ledger + fates
    requires id in fates <==> HeldUnder(s.arrivals, s.slots[a].held, id)
    requires id in fates && fates[id].Forwarded?
         ==> fates[id].data == s.slots[a].held[s.arrivals[id].client].data
    ensures Truthful(t) && Account(t, id)
    ensures id in s.ledger ==> id in t.ledger && t.ledger[id] == s.ledger[id]
  {
    assert HoldTruthful(s.arrivals, s.slots[a].held);
    assert HeldBy(s, a, id) <==> id in fates;
    assert !HeldBy(t, a, id);
    hide HoldTruthful, HeldUnder;
    forall b | b != a ensures HeldBy(t, b, id) <==> HeldBy(s, b, id) {
      assert b in s.slots <==> b in t.slots;
    }
    hide HeldBy;
    if id in fates {
      assert HeldSomewhere(s, id);
    }
    if b :| HeldBy(s, b, id) && b != a {
      assert HeldBy(t, b, id);
    }
    assert HeldSomewhere(t, id) <==> HeldSomewhere(s, id) && id !in fates;
  }

  /** Nothing about the holds, the ledger or the arrivals has changed. */
  lemma Untouched(s: State, t: State, id: nat)
    requires Truthful(s) && Account(s, id)
    requires t.slots.Keys == s.slots.Keys && forall a <- s.slots :: t.slots[a].held == s.slots[a].held
    requires t.ledger == s.ledger && t.arrivals == s.arrivals
    ensures Truthful(t) && Account(t, id)
  {
    hide HoldTruthful, HeldUnder;
    forall a | a in t.slots ensures HoldTruthful(t.arrivals, t.slots[a].held) {
      assert HoldTruthful(s.arrivals, s.slots[a].held);
    }
    assert forall a :: HeldBy(t, a, id) <==> HeldBy(s, a, id);
    hide HeldBy;
    assert HeldSomewhere(t, id) <==> HeldSomewhere(s, id);
  }

  lemma BootTurnAccount(s: State, a: Addr, io: Outside, now: int, id: nat)
    requires Truthful(s) && Account(s, id) && a in s.slots
    ensures var t := BootTurn(s, a, io, now);
            && Truthful(t) && Account(t, id)
            && (id in s.ledger ==> id in t.ledger && t.ledger[id] == s.ledger[id])
  {
    hide Truthful, Account, DeliveredSessions;
    BootTurnFrame(s, a, io, now);
    var t, held := BootTurn(s, a, io, now), s.slots[a].held;
    if s.slots[a].life == Waking && io.boot(a) == Ready {
      var cleared := s.(slots := s.slots[a := Slot(Running, Some(now), map[])]);
      Released(s, t, a, DeliveredFates(cleared, a, held, now, io.bindOk), id);
    } else if s.slots[a].life == Waking && io.boot(a) == BootFailed {
      Released(s, t, a, DiscardedFates(s, held), id);
    }
  }

  lemma TurnAccount(r: Rules, s: State, a: Addr, io: Outside, now: int, id: nat)
    requires Truthful(s) && Account(s, id) && a in s.slots
    ensures var t := Turn(r, s, a, io, now);
            && Truthful(t) && Account(t, id)
            && (id in s.ledger ==> id in t.ledger && t.ledger[id] == s.ledger[id])
  {
    hide Truthful, Account, BootTurn;
    BootTurnFrame(s, a, io, now);
    BootTurnAccount(s, a, io, now, id);
    var m := BootTurn(s, a, io, now);
    RunTurnFrame(r, m, a, io, now);
    RunTurnHolds(r, m, a, io, now);
    hide RunTurn;
    Untouched(m, RunTurn(r, m, a, io, now), id);
  }

  lemma RunTurnHolds(r: Rules, s: State, a: Addr, io: Outside, now: int)
    requires a in s.slots
    ensures RunTurn(r, s, a, io, now).slots[a].held == s.slots[a].held
  {
    hide SessionsOn, IdleStops;
  }

  lemma {:induction false} TurnsAccount(r: Rules, s: State, order: seq<Addr>, io: Outside, now: int, id: nat)
    requires Truthful(s) && Account(s, id) && forall a <- order :: a in s.slots
    ensures var t := Turns(r, s, order, io, now);
            && Truthful(t) && Account(t, id)
            && (id in s.ledger ==> id in t.ledger && t.ledger[id] == s.ledger[id])
  {
    hide Truthful, Account, Turn;
    if order != [] {
      var m := Turns(r, s, order[..|order| - 1], io, now);
      TurnsAccount(r, s, order[..|order| - 1], io, now, id);
      TurnAccount(r, m, order[|order| - 1], io, now, id);
    }
  }

  lemma TickAccount(r: Rules, s: State, order: seq<Addr>, io: Outside, now: int, id: nat)
    requires Truthful(s) && Account(s, id) && forall a <- order :: a in s.slots
    ensures var t := TickAll(r, s, order, io, now);
            && Truthful(t) && Account(t, id)
            && (id in s.ledger ==> id in t.ledger && t.ledger[id] == s.ledger[id])
  {
    hide Truthful, Account, Turns;
    Untouched(s, Reap(r, s, now), id);
    TurnsAccount(r, Reap(r, s, now), order, io, now, id);
  }

  // ----- whole runs

  ghost predicate Balanced(s: State) {
    Truthful(s) && Sound(s) && forall id :: Account(s, id)
  }

  lemma TurnBalanced(r: Rules, s: State, a: Addr, io: Outside, now: int)
    requires Balanced(s) && a in s.slots
    ensures Balanced(Turn(r, s, a, io, now))
  {
    hide Truthful, Account, Sound, Turn;
    var t := Turn(r, s, a, io, now);
    forall id: nat ensures Truthful(t) && Account(t, id) {
      TurnAccount(r, s, a, io, now, id);
    }
    TurnAccount(r, s, a, io, now, 0);
    TurnSound(r, s, a, io, now);
  }

  lemma {:induction false} TurnsBalanced(r: Rules, s: State, order: seq<Addr>, io: Outside, now: int)
    requires Balanced(s) && forall a <- order :: a in s.slots
    ensures Balanced(Turns(r, s, order, io, now))
  {
    hide Balanced, Turn;
    if order != [] {
      TurnsBalanced(r, s, order[..|order| - 1], io, now);
      TurnBalanced(r, Turns(r, s, order[..|order| - 1], io, now), order[|order| - 1], io, now);
    }
  }

  lemma ReapBalanced(r: Rules, s: State, now: int)
    requires Balanced(s)
    ensures Balanced(Reap(r, s, now))
  {
    hide Truthful, Account, Sound, Reap;
    ReapKeeps(r, s, now);
    ReapSound(r, s, now);
    var t := Reap(r, s, now);
    forall id: nat ensures Truthful(t) && Account(t, id) {
      Untouched(s, t, id);
    }
    Untouched(s, t, 0);
  }

  lemma BalancedHold(s: State, a: Addr)
    requires Balanced(s) && a in s.slots
    ensures HoldTruthful(s.arrivals, s.slots[a].held)
  {
    hide Account, Sound, HoldTruthful;
  }

  lemma StepBalanced(r: Rules, s: State, e: Event)
    requires Balanced(s) && Possible(s, e)
    ensures Balanced(Step(r, s, e)) && Extends(s, Step(r, s, e))
  {
    hide Truthful, Account, Sound, HandleDatagram, TickAll;
    StepSound(r, s, e);
    var t := Step(r, s, e);
    match e.what
    case Datagram(client, data, bindOk) =>
      forall id ensures Truthful(t) && Account(t, id) && Extends(s, t) {
        DatagramAccount(r, s, client, data, e.now, bindOk, id);
      }
      DatagramAccount(r, s, client, data, e.now, bindOk, 0);
    case Tick(order, io) =>
      forall id: nat
        ensures Truthful(t) && Account(t, id)
        ensures id in s.ledger ==> id in t.ledger && t.ledger[id] == s.ledger[id]
      {
        TickAccount(r, s, order, io, e.now, id);
      }
      TickAccount(r, s, order, io, e.now, 0);
  }

  lemma StartBalanced(backends: set<Addr>)
    ensures Balanced(Start(backends))
  {
  }

  /** In every reachable state every datagram received is settled, or held by exactly one
  slot; and what was forwarded is what was received, byte for byte. */
  lemma {:induction false} RunBalanced(r: Rules, backends: set<Addr>, ss: seq<State>, es: seq<Event>, i: nat)
    requires IsRun(r, backends, ss, es) && i < |ss|
    ensures Balanced(ss[i])
  {
    hide Balanced, Step;
    if i == 0 {
      StartBalanced(backends);
    } else {
      RunBalanced(r, backends, ss, es, i - 1);
      StepBalanced(r, ss[i - 1], es[i - 1]);
    }
  }

  /** And a fate, once recorded, is final. That no datagram is sent twice is not told here, but
  by Sends.SentExactlyOnce. */
  lemma {:induction false} FateIsFinal(r: Rules, backends: set<Addr>, ss: seq<State>, es: seq<Event>, i: nat, j: nat)
    requires IsRun(r, backends, ss, es) && i <= j < |ss|
    ensures Extends(ss[i], ss[j])
    decreases j
  {
    hide Balanced, Step;
    if i < j {
      FateIsFinal(r, backends, ss, es, i, j - 1);
      RunBalanced(r, backends, ss, es, j - 1);
      StepBalanced(r, ss[j - 1], es[j - 1]);
    }
  }
}
