/** What a waking slot holds, told from the run alone. */
module Holding {
  import opened Bits
  import opened Configuration
  import opened Knock
  import opened Lifecycle
  import opened Safety
  import opened Wrappers

  /** An Initial routed to a slot. */
  datatype Offer = Offer(client: Addr, packet: Packet)

  /** The clients of a list of offers, each once, in the order they first appear. */
  ghost function Clients(offers: seq<Offer>): seq<Addr> {
    if offers == [] then []
    else
      var before, c := Clients(offers[..|offers| - 1]), offers[|offers| - 1].client;
      if c in before then before else before + [c]
  }

  /** The last offer a client made. */
  ghost function Newest(offers: seq<Offer>, c: Addr): Packet
    requires c in Clients(offers)
  {
    var last := offers[|offers| - 1];
    if last.client == c then last.packet else Newest(offers[..|offers| - 1], c)
  }

  ghost function FirstEight(cs: seq<Addr>): seq<Addr> {
    if |cs| <= 8 then cs else cs[..8]
  }

  /** The newest offer of each of the first eight distinct clients. */
  ghost function NewestOfFirstEight(offers: seq<Offer>): map<Addr, Packet> {
    map c | c in Clients(offers) && c in FirstEight(Clients(offers)) :: Newest(offers, c)
  }

  lemma {:induction false} ClientsDistinct(offers: seq<Offer>)
    ensures forall i, j | 0 <= i < j < |Clients(offers)| :: Clients(offers)[i] != Clients(offers)[j]
  {
    if offers != [] {
      ClientsDistinct(offers[..|offers| - 1]);
    }
  }

  lemma {:induction false} DistinctCount(cs: seq<Addr>)
    requires forall i, j | 0 <= i < j < |cs| :: cs[i] != cs[j]
    ensures |set c | c in cs| == |cs|
  {
    if cs != [] {
      var front, last := cs[..|cs| - 1], cs[|cs| - 1];
      DistinctCount(front);
      assert (set c | c in cs) == (set c | c in front) + {last};
    }
  }

  lemma HeldCount(offers: seq<Offer>)
    ensures |NewestOfFirstEight(offers)| == |FirstEight(Clients(offers))|
  {
    ClientsDistinct(offers);
    DistinctCount(FirstEight(Clients(offers)));
    assert NewestOfFirstEight(offers).Keys == set c | c in FirstEight(Clients(offers));
  }

  /** Holding one more Initial, cap and all, is what one more offer asks for. */
  lemma HoldFollowsOffers(offers: seq<Offer>, x: Offer)
    ensures var held := NewestOfFirstEight(offers);
            NewestOfFirstEight(offers + [x])
            == if x.client !in held && |held| >= MAX_HELD_CLIENTS then held else held[x.client := x.packet]
  {
    HeldCount(offers);
    var more := offers + [x];
    assert more[..|more| - 1] == offers;
    var cs, ds := Clients(offers), Clients(more);
    assert ds == if x.client in cs then cs else cs + [x.client];
    var held := NewestOfFirstEight(offers);
    var after := if x.client !in held && |held| >= MAX_HELD_CLIENTS then held else held[x.client := x.packet];
    forall c ensures c in NewestOfFirstEight(more) <==> c in after {
      if x.client !in cs {
        FirstEightGrows(cs, x.client, c);
      }
    }
    forall c | c in after ensures NewestOfFirstEight(more)[c] == after[c] {
      if c != x.client {
        assert Newest(more, c) == Newest(offers, c);
      }
    }
  }

  lemma FirstEightGrows(cs: seq<Addr>, x: Addr, c: Addr)
    requires x !in cs
    ensures c in FirstEight(cs + [x]) <==> c in FirstEight(cs) || (c == x && |cs| < MAX_HELD_CLIENTS)
  {
    if |cs| >= MAX_HELD_CLIENTS {
      assert (cs + [x])[..MAX_HELD_CLIENTS] == cs[..MAX_HELD_CLIENTS];
    }
  }

  /** The Initials routed to slot a since the knock that woke it. */
  ghost function SinceKnock(r: Rules, ss: seq<State>, es: seq<Event>, a: Addr, i: nat): seq<Offer>
    requires i < |ss| == |es| + 1
  {
    if i == 0 || a !in ss[i].slots || ss[i].slots[a].life != Waking then []
    else SinceKnock(r, ss, es, a, i - 1) + OfferedBy(r, ss[i - 1], es[i - 1], a)
  }

  ghost function OfferedBy(r: Rules, s: State, e: Event, a: Addr): seq<Offer> {
    if e.what.Datagram? && Target(r, s, e.what.client, e.what.data) == a && IsQuicInitial(e.what.data)
    then [Offer(e.what.client, Packet(|s.arrivals|, e.what.data))]
    else []
  }

  lemma TurnWaking(r: Rules, s: State, a: Addr, io: Outside, now: int)
    requires a in s.slots && a in Turn(r, s, a, io, now).slots && Turn(r, s, a, io, now).slots[a].life == Waking
    ensures Turn(r, s, a, io, now).slots[a] == s.slots[a]
  {
    hide BootTurn, RunTurn;
    BootTurnFrame(s, a, io, now);
    BootTurnSlot(s, a, io, now);
    RunTurnSlot(r, BootTurn(s, a, io, now), a, io, now);
  }

  lemma {:induction false} TurnsWaking(r: Rules, s: State, order: seq<Addr>, io: Outside, now: int, a: Addr)
    requires a in s.slots && forall b <- order :: b in s.slots
    requires Turns(r, s, order, io, now).slots[a].life == Waking
    ensures Turns(r, s, order, io, now).slots[a] == s.slots[a]
  {
    hide Turn;
    if order != [] {
      var m, b := Turns(r, s, order[..|order| - 1], io, now), order[|order| - 1];
      TurnFrame(r, m, b, io, now);
      if b == a {
        TurnWaking(r, m, a, io, now);
      }
      TurnsWaking(r, s, order[..|order| - 1], io, now, a);
    }
  }

  lemma {:induction false} TurnsSleeping(r: Rules, s: State, order: seq<Addr>, io: Outside, now: int, a: Addr)
    requires a in s.slots && s.slots[a].life == Sleeping && forall b <- order :: b in s.slots
    ensures Turns(r, s, order, io, now).slots[a] == s.slots[a]
  {
    hide BootTurn, RunTurn;
    if order != [] {
      TurnsSleeping(r, s, order[..|order| - 1], io, now, a);
      var m, b := Turns(r, s, order[..|order| - 1], io, now), order[|order| - 1];
      TurnFrame(r, m, b, io, now);
      if b == a {
        BootTurnFrame(m, a, io, now);
        BootTurnSlot(m, a, io, now);
        RunTurnSlot(r, BootTurn(m, a, io, now), a, io, now);
      }
    }
  }

  /** A sleeping backend is woken by an Initial routed to it, and by nothing else; and that
  Initial is then all it holds. */
  lemma WakesExactlyOnKnock(r: Rules, s: State, e: Event, a: Addr)
    requires Possible(s, e) && a in s.slots && SlotOk(s.slots[a]) && s.slots[a].life == Sleeping
    ensures var t := Step(r, s, e);
            if OfferedBy(r, s, e, a) == [] then t.slots[a] == s.slots[a]
            else t.slots[a] == Slot(Waking, None, map[e.what.client := Packet(|s.arrivals|, e.what.data)])
  {
    hide IsQuicInitial, Target, Turns, Reap;
    match e.what
    case Datagram(client, data, bindOk) =>
    case Tick(order, io) =>
      ReapKeeps(r, s, e.now);
      TurnsSleeping(r, Reap(r, s, e.now), order, io, e.now, a);
  }

  lemma DatagramWaking(r: Rules, s: State, client: Addr, data: seq<byte>, now: int, bindOk: bool, a: Addr)
    requires a in s.slots && SlotOk(s.slots[a])
    requires HandleDatagram(r, s, client, data, now, bindOk).slots[a].life == Waking
    ensures var held, after := s.slots[a].held, HandleDatagram(r, s, client, data, now, bindOk).slots[a].held;
            if Target(r, s, client, data) == a && IsQuicInitial(data)
            then after == if client !in held && |held| >= MAX_HELD_CLIENTS then held
                          else held[client := Packet(|s.arrivals|, data)]
            else after == held && s.slots[a].life == Waking
  {
    hide Target, IsQuicInitial;
  }

  /** While a slot is waking it holds exactly the newest Initial of each of the first eight
  distinct clients routed to it since the knock. */
  lemma {:induction false} HoldRefinesRun(
      r: Rules, backends: set<Addr>, ss: seq<State>, es: seq<Event>, a: Addr, i: nat)
    requires IsRun(r, backends, ss, es) && a in backends && i < |ss|
    ensures a in ss[i].slots
    ensures ss[i].slots[a].life == Waking
        ==> ss[i].slots[a].held == NewestOfFirstEight(SinceKnock(r, ss, es, a, i))
    ensures ss[i].slots[a].life != Waking ==> ss[i].slots[a].held == map[]
  {
    hide IsRun, Step, SlotOk, NewestOfFirstEight, SinceKnock, Possible;
    RunSlotOk(r, backends, ss, es, a, i);
    HoldsOnlyWaking(ss[i].slots[a]);
    if i > 0 && ss[i].slots[a].life == Waking {
      HoldRefinesRun(r, backends, ss, es, a, i - 1);
      RunSlotOk(r, backends, ss, es, a, i - 1);
      RunStep(r, backends, ss, es, i - 1, i - 1);
      StepHolds(r, ss, es, a, i);
    }
  }

  lemma HoldsOnlyWaking(slot: Slot)
    requires SlotOk(slot)
    ensures slot.life != Waking ==> slot.held == map[]
  {
  }

  lemma RunSlotOk(r: Rules, backends: set<Addr>, ss: seq<State>, es: seq<Event>, a: Addr, i: nat)
    requires IsRun(r, backends, ss, es) && a in backends && i < |ss|
    ensures a in ss[i].slots && SlotOk(ss[i].slots[a])
    ensures |ss| == |es| + 1 && (i == 0 ==> ss[i].slots[a].life == Sleeping)
  {
    hide Step, SlotOk, SessionOk;
    RunSound(r, backends, ss, es, i);
  }

  /** The induction step of the refinement. */
  lemma StepHolds(r: Rules, ss: seq<State>, es: seq<Event>, a: Addr, i: nat)
    requires 0 < i < |ss| == |es| + 1 && a in ss[i - 1].slots && a in ss[i].slots
    requires Possible(ss[i - 1], es[i - 1]) && ss[i] == Step(r, ss[i - 1], es[i - 1])
    requires SlotOk(ss[i - 1].slots[a]) && ss[i].slots[a].life == Waking
    requires ss[i - 1].slots[a].life == Waking
         ==> ss[i - 1].slots[a].held == NewestOfFirstEight(SinceKnock(r, ss, es, a, i - 1))
    ensures ss[i].slots[a].held == NewestOfFirstEight(SinceKnock(r, ss, es, a, i))
  {
    hide HandleDatagram, Turns, Reap, NewestOfFirstEight, IsQuicInitial, Target;
    var s, e := ss[i - 1], es[i - 1];
    var offers := SinceKnock(r, ss, es, a, i - 1);
    NoOffersNothingHeld();
    assert s.slots[a].held == NewestOfFirstEight(offers);
    match e.what
    case Datagram(client, data, bindOk) =>
      DatagramWaking(r, s, client, data, e.now, bindOk, a);
      HoldFollowsOffers(offers, Offer(client, Packet(|s.arrivals|, data)));
      assert offers + [] == offers;
    case Tick(order, io) =>
      ReapKeeps(r, s, e.now);
      TurnsWaking(r, Reap(r, s, e.now), order, io, e.now, a);
      assert offers + [] == offers;
  }

  lemma NoOffersNothingHeld()
    ensures NewestOfFirstEight([]) == map[]
  {
  }
}
