/** What the proxy sends to its backends, counted send by send, over whole runs. */
module Sends {
  import opened Accounts
  import opened Bits
  import opened Configuration
  import opened Knock
  import opened Lifecycle
  import opened Safety
  import opened Wrappers

  /** The ledger has this very send on record. */
  ghost predicate Recorded(s: State, x: Send) {
    x.id in s.ledger && s.ledger[x.id] == Forwarded(x.backend, x.data, x.at)
  }

  /** One send has been made for each datagram the ledger calls forwarded, and no other. */
  ghost predicate SentAsRecorded(s: State) {
    s.sent == SendsOf(s.ledger)
  }

  // ----- the ledger and its sends grow together

  lemma UnionOfSends(a: set<Send>, b: set<Send>)
    requires a !! b
    ensures multiset(a + b) == multiset(a) + multiset(b)
  {
  }

  lemma SendsMerge(ledger: map<nat, Fate>, fates: map<nat, Fate>)
    requires ledger.Keys !! fates.Keys
    ensures SendsOf(ledger + fates) == SendsOf(ledger) + SendsOf(fates)
  {
    var a, b, c := ForwardedSends(ledger), ForwardedSends(fates), ForwardedSends(ledger + fates);
    forall x ensures x in c <==> x in a + b {
      if x in a + b {
        assert x.id in ledger + fates;
      }
    }
    forall x | x in a ensures x !in b {
      assert x.id in ledger.Keys && x.id !in fates.Keys;
    }
    assert c == a + b;
    UnionOfSends(a, b);
  }

  lemma SendsSettle(ledger: map<nat, Fate>, id: nat, fate: Fate)
    requires id !in ledger
    ensures SendsOf(ledger[id := fate])
         == SendsOf(ledger)
            + if fate.Forwarded? then multiset{Send(id, fate.backend, fate.data, fate.at)} else multiset{}
  {
    var one := map[id := fate];
    assert ledger[id := fate] == ledger + one;
    SendsMerge(ledger, one);
    assert ForwardedSends(one)
        == if fate.Forwarded? then {Send(id, fate.backend, fate.data, fate.at)} else {};
  }

  // ----- one event

  lemma DispatchSends(s: State, a: Addr, client: Addr, p: Packet, now: int, bindOk: bool)
    requires SentAsRecorded(s) && p.id !in s.ledger
    requires a in s.slots && client in s.slots[a].held ==> s.slots[a].held[client].id !in s.ledger
    ensures SentAsRecorded(Dispatch(s, a, client, p, now, bindOk))
  {
    hide SentAsRecorded, IsQuicInitial, Forward, Hold, Settle;
    ForwardSends(s, client, a, p, now, bindOk);
    SettleSends(s, p.id, Unroutable);
    SettleSends(s, p.id, Dropped);
    if a in s.slots {
      var awake := SetLife(s, a, Waking);
      SameSends(s, awake);
      HoldSends(awake, a, client, p);
    }
  }

  lemma ForwardSends(s: State, client: Addr, a: Addr, p: Packet, now: int, bindOk: bool)
    requires SentAsRecorded(s) && p.id !in s.ledger
    ensures SentAsRecorded(Forward(s, client, a, p, now, bindOk))
  {
    hide SendsOf;
    var t := Forward(s, client, a, p, now, bindOk);
    SendsSettle(s.ledger, p.id, t.ledger[p.id]);
  }

  lemma SameSends(s: State, t: State)
    requires SentAsRecorded(s) && t.sent == s.sent && t.ledger == s.ledger
    ensures SentAsRecorded(t)
  {
  }

  lemma SettleSends(s: State, id: nat, fate: Fate)
    requires SentAsRecorded(s) && id !in s.ledger && !fate.Forwarded?
    ensures SentAsRecorded(Settle(s, id, fate))
  {
    hide SendsOf;
    SendsSettle(s.ledger, id, fate);
  }

  lemma HoldSends(s: State, a: Addr, client: Addr, p: Packet)
    requires SentAsRecorded(s) && a in s.slots && p.id !in s.ledger
    requires client in s.slots[a].held ==> s.slots[a].held[client].id !in s.ledger
    ensures SentAsRecorded(Hold(s, a, client, p))
  {
    hide SentAsRecorded, Settle;
    var slot := s.slots[a];
    var t := s.(slots := s.slots[a := slot.(held := slot.held[client := p])]);
    SameSends(s, t);
    SettleSends(s, p.id, Dropped);
    if client in slot.held {
      SettleSends(t, slot.held[client].id, Superseded);
    }
  }

  lemma DatagramSends(r: Rules, s: State, client: Addr, data: seq<byte>, now: int, bindOk: bool)
    requires SentAsRecorded(s) && Balanced(s)
    ensures SentAsRecorded(HandleDatagram(r, s, client, data, now, bindOk))
  {
    hide Target, Dispatch, SendsOf, Sound, Truthful;
    var a := Target(r, s, client, data);
    var t := s.(arrivals := s.arrivals + [Arrival(client, data)]);
    assert Account(s, |s.arrivals|);
    if a in s.slots && client in s.slots[a].held {
      OldOneIsHeld(s, a, client);
      HeldIsUnsettled(s, a, s.slots[a].held[client].id);
    }
    DispatchSends(t, a, client, Packet(|s.arrivals|, data), now, bindOk);
  }

  lemma HeldIsUnsettled(s: State, a: Addr, id: nat)
    requires Balanced(s) && HeldBy(s, a, id)
    ensures id !in s.ledger
  {
    hide Truthful, Sound, HeldBy;
    assert Account(s, id);
    assert HeldSomewhere(s, id);
  }

  /** What a slot lets go of was not settled before. */
  lemma ReleasedUnsettled(s: State, a: Addr, fates: map<nat, Fate>)
    requires Balanced(s) && a in s.slots
    requires forall id <- fates :: HeldUnder(s.arrivals, s.slots[a].held, id)
    ensures s.ledger.Keys !! fates.Keys
  {
    hide Balanced;
    forall id | id in fates ensures id !in s.ledger {
      HeldIsUnsettled(s, a, id);
    }
  }

  lemma BootTurnSends(s: State, a: Addr, io: Outside, now: int)
    requires SentAsRecorded(s) && Balanced(s) && a in s.slots
    ensures SentAsRecorded(BootTurn(s, a, io, now))
  {
    hide Balanced, SendsOf, DeliveredSessions, HeldUnder, Delivered;
    var held := s.slots[a].held;
    if s.slots[a].life == Waking && io.boot(a) == Ready {
      var cleared := s.(slots := s.slots[a := Slot(Running, Some(now), map[])]);
      var fates := DeliveredFates(cleared, a, held, now, io.bindOk);
      ReleasedUnsettled(s, a, fates);
      SendsMerge(s.ledger, fates);
    } else if s.slots[a].life == Waking && io.boot(a) == BootFailed {
      var fates := DiscardedFates(s, held);
      ReleasedUnsettled(s, a, fates);
      SendsMerge(s.ledger, fates);
      NothingSent(fates);
    }
  }

  lemma NothingSent(fates: map<nat, Fate>)
    requires forall id <- fates :: !fates[id].Forwarded?
    ensures SendsOf(fates) == multiset{}
  {
    assert ForwardedSends(fates) == {};
  }

  lemma TurnSends(r: Rules, s: State, a: Addr, io: Outside, now: int)
    requires SentAsRecorded(s) && Balanced(s) && a in s.slots
    ensures SentAsRecorded(Turn(r, s, a, io, now))
  {
    hide Balanced, SendsOf, BootTurn, RunTurn;
    BootTurnFrame(s, a, io, now);
    BootTurnSends(s, a, io, now);
    RunTurnFrame(r, BootTurn(s, a, io, now), a, io, now);
  }

  lemma {:induction false} TurnsSends(r: Rules, s: State, order: seq<Addr>, io: Outside, now: int)
    requires SentAsRecorded(s) && Balanced(s) && forall a <- order :: a in s.slots
    ensures SentAsRecorded(Turns(r, s, order, io, now))
  {
    hide Balanced, SentAsRecorded, Turn;
    if order != [] {
      var m, a := Turns(r, s, order[..|order| - 1], io, now), order[|order| - 1];
      TurnsSends(r, s, order[..|order| - 1], io, now);
      TurnsBalanced(r, s, order[..|order| - 1], io, now);
      TurnSends(r, m, a, io, now);
    }
  }

  lemma StepSends(r: Rules, s: State, e: Event)
    requires SentAsRecorded(s) && Balanced(s) && Possible(s, e)
    ensures SentAsRecorded(Step(r, s, e))
  {
    hide Balanced, SendsOf, HandleDatagram, Turns, Reap;
    match e.what
    case Datagram(client, data, bindOk) => DatagramSends(r, s, client, data, e.now, bindOk);
    case Tick(order, io) =>
      ReapKeeps(r, s, e.now);
      ReapBalanced(r, s, e.now);
      TurnsSends(r, Reap(r, s, e.now), order, io, e.now);
  }

  // ----- whole runs

  lemma {:induction false} RunSends(r: Rules, backends: set<Addr>, ss: seq<State>, es: seq<Event>, i: nat)
    requires IsRun(r, backends, ss, es) && i < |ss|
    ensures SentAsRecorded(ss[i])
  {
    hide Balanced, SendsOf, Step;
    if i == 0 {
      NothingSent(map[]);
    } else {
      RunSends(r, backends, ss, es, i - 1);
      RunBalanced(r, backends, ss, es, i - 1);
      StepSends(r, ss[i - 1], es[i - 1]);
    }
  }

  lemma CountOfSend(s: State, x: Send)
    requires SentAsRecorded(s)
    ensures s.sent[x] == if Recorded(s, x) then 1 else 0
  {
    assert x in ForwardedSends(s.ledger) <==> Recorded(s, x);
  }

  /** In every reachable state each datagram has been sent once if the ledger calls it
  forwarded, to that backend and at that time, and otherwise not at all; and what was sent is
  what was received. */
  lemma SentExactlyOnce(r: Rules, backends: set<Addr>, ss: seq<State>, es: seq<Event>, i: nat, x: Send)
    requires IsRun(r, backends, ss, es) && i < |ss|
    ensures ss[i].sent[x] == if Recorded(ss[i], x) then 1 else 0
    ensures x in ss[i].sent ==> x.id < |ss[i].arrivals| && x.data == ss[i].arrivals[x.id].data
    ensures forall y | x in ss[i].sent && y in ss[i].sent && x.id == y.id :: x == y
  {
    hide IsRun, Truthful, Sound, SentAsRecorded;
    RunSends(r, backends, ss, es, i);
    RunBalanced(r, backends, ss, es, i);
    CountOfSend(ss[i], x);
    assert Account(ss[i], x.id);
    forall y | x in ss[i].sent && y in ss[i].sent && x.id == y.id ensures x == y {
      CountOfSend(ss[i], y);
    }
  }

  /** And a send is never taken back: every later state has made it too. */
  lemma SendsOnlyGrow(r: Rules, backends: set<Addr>, ss: seq<State>, es: seq<Event>, i: nat, j: nat)
    requires IsRun(r, backends, ss, es) && i <= j < |ss|
    ensures ss[i].sent <= ss[j].sent
  {
    hide IsRun, SentAsRecorded;
    RunSends(r, backends, ss, es, i);
    RunSends(r, backends, ss, es, j);
    FateIsFinal(r, backends, ss, es, i, j);
    forall x ensures ss[i].sent[x] <= ss[j].sent[x] {
      CountOfSend(ss[i], x);
      CountOfSend(ss[j], x);
    }
  }

  lemma {:induction false} SendCount(fates: map<nat, Fate>, ids: set<nat>, sends: set<Send>)
    requires forall id <- ids :: id in fates && fates[id].Forwarded?
    requires sends == set id | id in ids :: Send(id, fates[id].backend, fates[id].data, fates[id].at)
    ensures |sends| == |ids|
  {
    if ids != {} {
      var id :| id in ids;
      var x := Send(id, fates[id].backend, fates[id].data, fates[id].at);
      assert sends - {x} == set k | k in ids - {id} :: Send(k, fates[k].backend, fates[k].data, fates[k].at);
      SendCount(fates, ids - {id}, sends - {x});
    }
  }

  lemma {:induction false} MultisetSize(s: set<Send>)
    ensures |multiset(s)| == |s|
  {
    if s != {} {
      var x :| x in s;
      MultisetSize(s - {x});
      UnionOfSends(s - {x}, {x});
      assert s == s - {x} + {x};
      assert multiset({x}) == multiset{x};
    }
  }

  ghost function ForwardedIds(s: State): set<nat> {
    set id | id in s.ledger && s.ledger[id].Forwarded?
  }

  /** As many sends have been made as datagrams have been forwarded. */
  lemma SendsCounted(s: State)
    requires SentAsRecorded(s)
    ensures |s.sent| == |ForwardedIds(s)|
  {
    var ids := ForwardedIds(s);
    var sends := ForwardedSends(s.ledger);
    assert sends == set id | id in ids :: Send(id, s.ledger[id].backend, s.ledger[id].data, s.ledger[id].at);
    SendCount(s.ledger, ids, sends);
    MultisetSize(sends);
  }
}
