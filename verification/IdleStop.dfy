/** How long a backend that nobody talks to keeps running. */
module IdleStop {
  import opened Accounts
  import opened Bits
  import opened Configuration
  import opened Conservation
  import opened Knock
  import opened Lifecycle
  import opened Safety
  import opened Timing
  import opened Wrappers

  /** The time of the last tick among the first k events. */
  ghost function LastTick(es: seq<Event>, k: nat): Option<int>
    requires k <= |es|
  {
    if k == 0 then None
    else if es[k - 1].what.Tick? then Some(es[k - 1].now)
    else LastTick(es, k - 1)
  }

  ghost predicate NoTickIn(es: seq<Event>, j: nat, k: nat) {
    forall m | j < m < k && m < |es| :: !es[m].what.Tick?
  }

  /** No exit check of backend a errs between events j and k. */
  ghost predicate Checked(es: seq<Event>, a: Addr, j: nat, k: nat) {
    forall m | j < m < k && m < |es| && es[m].what.Tick? :: es[m].what.io.exit(a) != CheckError
  }

  /** After event j and up to event k, a tick comes less than gap after the one before. */
  ghost predicate TicksCloserThan(es: seq<Event>, gap: int, j: nat, k: nat) {
    forall m | j < m <= k && m < |es| && es[m].what.Tick? && LastTick(es, m).Some? ::
      es[m].now - LastTick(es, m).value < gap
  }

  /** After event j and up to event k, nothing happens more than gap after the last tick. */
  ghost predicate TicksWithin(es: seq<Event>, gap: int, j: nat, k: nat) {
    forall m | j < m <= k && m < |es| && LastTick(es, m).Some? :: es[m].now - LastTick(es, m).value <= gap
  }

  // ----- ticks

  lemma {:induction false} LastTickPast(es: seq<Event>, k: nat, now: int)
    requires k <= |es| && forall i | 0 <= i < k :: es[i].now <= now
    ensures LastTick(es, k).Some? ==> LastTick(es, k).value <= now
  {
    if k > 0 {
      LastTickPast(es, k - 1, now);
    }
  }

  lemma {:induction false} LastTickSkips(es: seq<Event>, j: nat, k: nat)
    requires j < k <= |es| && NoTickIn(es, j, k)
    ensures LastTick(es, k) == LastTick(es, j + 1)
  {
    if j + 1 < k {
      LastTickSkips(es, j, k - 1);
    }
  }

  lemma DatagramStartsNothing(r: Rules, s: State, client: Addr, data: seq<byte>, now: int, bindOk: bool, a: Addr)
    requires a in s.slots && HandleDatagram(r, s, client, data, now, bindOk).slots[a].life == Running
    ensures HandleDatagram(r, s, client, data, now, bindOk).slots[a] == s.slots[a]
  {
    hide IsQuicInitial, Target;
  }

  /** Only a tick makes a backend run. */
  lemma {:induction false} RunningHasTicked(
      r: Rules, backends: set<Addr>, ss: seq<State>, es: seq<Event>, a: Addr, i: nat)
    requires IsRun(r, backends, ss, es) && i < |ss| && a in ss[i].slots && ss[i].slots[a].life == Running
    ensures LastTick(es, i).Some?
  {
    hide HandleDatagram, TickAll;
    if i > 0 && es[i - 1].what.Datagram? {
      var e := es[i - 1];
      DatagramStartsNothing(r, ss[i - 1], e.what.client, e.what.data, e.now, e.what.bindOk, a);
      RunningHasTicked(r, backends, ss, es, a, i - 1);
    }
  }

  // ----- no sooner

  /** Once it has been stopped after a forward, the idle clock does not start again before the
  session timeout is over. */
  lemma {:induction false} IdleClockStartsLate(
      r: Rules, backends: set<Addr>, ss: seq<State>, es: seq<Event>, a: Addr, id: nat, j: nat, m: nat, q: nat)
    requires IsRun(r, backends, ss, es) && j < m <= q < |ss| == |es| + 1
    requires NewlyForwarded(ss[j], ss[j + 1], id, a) && RunsThrough(ss, a, j, q)
    requires ss[m].slots[a].emptySince.None?
    ensures ss[q].slots[a].emptySince.Some? ==> ss[q].slots[a].emptySince.value >= es[j].now + r.sessionTimeout
    decreases q
  {
    hide IsRun, SeenSince, NewlyForwarded, RunsThrough, Step, Possible;
    if m < q {
      RunsBefore(ss, a, j, q);
      IdleClockStartsLate(r, backends, ss, es, a, id, j, m, q - 1);
      SeenUntilTimeout(r, backends, ss, es, a, id, j, q);
      RunStep(r, backends, ss, es, j, q - 1);
      LateStep(r, ss[q - 1], es[q - 1], a, es[j].now);
    }
  }

  lemma RunsBefore(ss: seq<State>, a: Addr, j: nat, q: nat)
    requires RunsThrough(ss, a, j, q) && j + 1 < q < |ss|
    ensures RunsThrough(ss, a, j, q - 1)
    ensures a in ss[q].slots && ss[q].slots[a].life == Running
    ensures a in ss[q - 1].slots && ss[q - 1].slots[a].life == Running
  {
  }

  lemma LateStep(r: Rules, s: State, e: Event, a: Addr, at: int)
    requires Possible(s, e) && a in s.slots && s.slots[a].life == Running && at <= e.now
    requires Step(r, s, e).slots[a].life == Running
    requires s.slots[a].emptySince.Some? ==> s.slots[a].emptySince.value >= at + r.sessionTimeout
    requires SeenSince(Step(r, s, e), a, at) || e.now - at >= r.sessionTimeout
    ensures var slot := Step(r, s, e).slots[a];
            slot.emptySince.Some? ==> slot.emptySince.value >= at + r.sessionTimeout
  {
    hide Step, SeenSince, AfterTick, SessionsOn;
    StepOnSlot(r, s, e, a, at);
    if e.what.Tick? && e.what.io.exit(a) == Alive {
      if SeenSince(Step(r, s, e), a, at) {
        SeenIsBusy(Step(r, s, e), a, at);
      }
      LateTick(r, s.slots[a], SessionsOn(Step(r, s, e), a) != {}, e.now, at + r.sessionTimeout);
    }
  }

  lemma LateTick(r: Rules, slot: Slot, busy: bool, now: int, bound: int)
    requires slot.emptySince.Some? ==> slot.emptySince.value >= bound
    requires busy || now >= bound
    ensures var after := AfterTick(r, slot, busy, now);
            after.emptySince.Some? ==> after.emptySince.value >= bound
  {
  }

  /** A backend whose idle clock has been stopped at any time after a forward is not stopped
  before the session timeout plus the idle timeout after that forward. */
  lemma StoppedClockDelays(
      r: Rules, backends: set<Addr>, ss: seq<State>, es: seq<Event>, a: Addr, id: nat, j: nat, m: nat, k: nat)
    requires IsRun(r, backends, ss, es) && j < m <= k < |es| < |ss|
    requires NewlyForwarded(ss[j], ss[j + 1], id, a) && RunsThrough(ss, a, j, k) && IdleStopped(ss, es, a, k)
    requires ss[m].slots[a].emptySince.None?
    ensures es[k].now - es[j].now >= r.sessionTimeout + r.idleTimeout
  {
    hide IsRun, Step, NewlyForwarded, SessionsOn;
    RunStep(r, backends, ss, es, j, k);
    StopIsQuiet(r, backends, ss, es, a, id, j, k);
    IdleClockStartsLate(r, backends, ss, es, a, id, j, m, k);
    StepOnSlot(r, ss[k], es[k], a, es[j].now);
  }

  /** One tick that finds the backend alive less than the session timeout after a forward, or
  in the very event that made it, stops the idle clock; nothing is asked of any other tick. */
  lemma OneCheckIsEnough(
      r: Rules, backends: set<Addr>, ss: seq<State>, es: seq<Event>, a: Addr, id: nat, j: nat, t: nat, k: nat)
    requires IsRun(r, backends, ss, es) && j <= t < k < |es| < |ss|
    requires NewlyForwarded(ss[j], ss[j + 1], id, a) && RunsThrough(ss, a, j, k) && IdleStopped(ss, es, a, k)
    requires es[t].what.Tick? && es[t].what.io.exit(a) == Alive
    requires t == j || es[t].now - es[j].now < r.sessionTimeout
    ensures es[k].now - es[j].now >= r.sessionTimeout + r.idleTimeout
  {
    hide IsRun, Step, NewlyForwarded, SessionsOn, SeenSince;
    RunStep(r, backends, ss, es, j, j);
    RunStep(r, backends, ss, es, j, t);
    SlotExists(r, backends, ss, es, a, j, t);
    TickSetsClock(r, ss[t], es[t], a);
    if t == j {
      StepForwards(r, ss[j], es[j], id, a);
    } else {
      SeenUntilTimeout(r, backends, ss, es, a, id, j, t + 1);
    }
    SeenIsBusy(ss[t + 1], a, es[j].now);
    StoppedClockDelays(r, backends, ss, es, a, id, j, t + 1, k);
  }

  lemma SlotExists(r: Rules, backends: set<Addr>, ss: seq<State>, es: seq<Event>, a: Addr, j: nat, t: nat)
    requires IsRun(r, backends, ss, es) && j <= t < |es| && a in ss[j + 1].slots
    ensures a in ss[t].slots
  {
    hide IsRun, Sound;
    assert |ss| == |es| + 1 by {
      RunStep(r, backends, ss, es, j, t);
    }
    RunSound(r, backends, ss, es, j + 1);
    RunSound(r, backends, ss, es, t);
  }

  /** So an early stop has only one cause: since the forward no tick has found the backend
  alive within the session timeout, and the idle clock has been running all along. */
  lemma EarlyStopWasUnchecked(
      r: Rules, backends: set<Addr>, ss: seq<State>, es: seq<Event>, a: Addr, id: nat, j: nat, k: nat)
    requires IsRun(r, backends, ss, es) && j <= k < |es| < |ss|
    requires NewlyForwarded(ss[j], ss[j + 1], id, a) && RunsThrough(ss, a, j, k) && IdleStopped(ss, es, a, k)
    requires es[k].now - es[j].now < r.sessionTimeout + r.idleTimeout
    ensures forall m | j < m <= k :: ss[m].slots[a].emptySince.Some?
    ensures forall t | j <= t < k && es[t].what.Tick? && es[t].now - es[j].now < r.sessionTimeout ::
              es[t].what.io.exit(a) != Alive
  {
    hide IsRun, NewlyForwarded, IdleStopped;
    forall m | j < m <= k ensures ss[m].slots[a].emptySince.Some? {
      if ss[m].slots[a].emptySince.None? {
        StoppedClockDelays(r, backends, ss, es, a, id, j, m, k);
      }
    }
    forall t | j <= t < k && es[t].what.Tick? && es[t].now - es[j].now < r.sessionTimeout
      ensures es[t].what.io.exit(a) != Alive
    {
      if es[t].what.io.exit(a) == Alive {
        OneCheckIsEnough(r, backends, ss, es, a, id, j, t, k);
      }
    }
  }

  /** The first tick after event j is less than the timeout after event j. */
  lemma FirstTickFindsSession(r: Rules, backends: set<Addr>, ss: seq<State>, es: seq<Event>, a: Addr, j: nat, q: nat)
    requires IsRun(r, backends, ss, es) && j < q < |es| && RunsThrough(ss, a, j, q)
    requires TicksCloserThan(es, r.sessionTimeout, j, q) && NoTickIn(es, j, q) && es[q].what.Tick?
    ensures es[q].now - es[j].now < r.sessionTimeout
  {
    hide Step;
    RunningHasTicked(r, backends, ss, es, a, j + 1);
    LastTickSkips(es, j, q);
    LastTickPast(es, j + 1, es[j].now);
  }

  lemma {:induction false} FirstTick(es: seq<Event>, j: nat, k: nat) returns (t: nat)
    requires j < k <= |es| && !NoTickIn(es, j, k)
    ensures j < t < k && es[t].what.Tick? && NoTickIn(es, j, t)
  {
    if NoTickIn(es, j, k - 1) {
      t := k - 1;
    } else {
      t := FirstTick(es, j, k - 1);
    }
  }

  /** In particular, with ticks less than the session timeout apart and exit checks that never
  err, a backend is stopped for being idle no sooner than the session timeout plus the idle
  timeout after any datagram forwarded to it. */
  lemma StopIsNotEarly(r: Rules, backends: set<Addr>, ss: seq<State>, es: seq<Event>, a: Addr, id: nat, j: nat, k: nat)
    requires IsRun(r, backends, ss, es) && j <= k < |es| < |ss|
    requires NewlyForwarded(ss[j], ss[j + 1], id, a) && RunsThrough(ss, a, j, k) && IdleStopped(ss, es, a, k)
    requires Checked(es, a, j, k) && TicksCloserThan(es, r.sessionTimeout, j, k)
    ensures es[k].now - es[j].now >= r.sessionTimeout + r.idleTimeout
  {
    hide IsRun, Step, NewlyForwarded, IdleStopped;
    RunStep(r, backends, ss, es, j, k);
    StopIsQuiet(r, backends, ss, es, a, id, j, k);
    if j == k {
      StopSendsNothing(r, backends, ss, es, a, id, k);
    } else if NoTickIn(es, j, k) {
      StopIsTick(ss, es, a, k);
      FirstTickFindsSession(r, backends, ss, es, a, j, k);
    } else {
      var t := FirstTick(es, j, k);
      FirstTickFindsSession(r, backends, ss, es, a, j, t);
      RunStep(r, backends, ss, es, j, t);
      if es[t].what.io.exit(a) == Exited {
        ExitEndsRunning(r, ss[t], es[t], a);
      }
      OneCheckIsEnough(r, backends, ss, es, a, id, j, t, k);
    }
  }

  lemma StopIsTick(ss: seq<State>, es: seq<Event>, a: Addr, k: nat)
    requires k < |es| && |ss| == |es| + 1 && IdleStopped(ss, es, a, k)
    ensures es[k].what.Tick?
  {
  }

  /** The tick that stops a backend forwards nothing to it. */
  lemma StopSendsNothing(r: Rules, backends: set<Addr>, ss: seq<State>, es: seq<Event>, a: Addr, id: nat, k: nat)
    requires IsRun(r, backends, ss, es) && k < |es| < |ss| && IdleStopped(ss, es, a, k)
    ensures !NewlyForwarded(ss[k], ss[k + 1], id, a)
  {
    hide IsRun, Step, NewlyForwarded, SessionsOn, SeenSince;
    if NewlyForwarded(ss[k], ss[k + 1], id, a) {
      RunStep(r, backends, ss, es, k, k);
      StepForwards(r, ss[k], es[k], id, a);
      SeenIsBusy(ss[k + 1], a, es[k].now);
      StepOnSlot(r, ss[k], es[k], a, es[k].now);
    }
  }

  // ----- and no later

  /** The idle clock never reads a time to come. */
  ghost predicate ClockPast(s: State, a: Addr, now: int)
    requires a in s.slots
  {
    s.slots[a].emptySince.Some? ==> s.slots[a].emptySince.value <= now
  }

  /** No session has outlived its timeout. */
  ghost predicate Fresh(r: Rules, s: State, now: int) {
    forall c <- s.sessions :: s.sessions[c].lastSeen == now || now - s.sessions[c].lastSeen < r.sessionTimeout
  }

  lemma TurnFresh(r: Rules, s: State, x: Addr, io: Outside, now: int, a: Addr)
    requires x in s.slots && a in s.slots && Fresh(r, s, now) && ClockPast(s, a, now)
    ensures Turn(r, s, x, io, now).slots.Keys == s.slots.Keys
    ensures Fresh(r, Turn(r, s, x, io, now), now) && ClockPast(Turn(r, s, x, io, now), a, now)
  {
    hide BootTurn, RunTurn, IdleStops;
    TurnFrame(r, s, x, io, now);
    BootTurnFrame(s, x, io, now);
    BootTurnSlot(s, x, io, now);
    BootTurnFresh(r, s, x, io, now);
    RunTurnSlot(r, BootTurn(s, x, io, now), x, io, now);
    RunTurnFresh(r, BootTurn(s, x, io, now), x, io, now);
  }

  lemma BootTurnFresh(r: Rules, s: State, x: Addr, io: Outside, now: int)
    requires x in s.slots && Fresh(r, s, now)
    ensures Fresh(r, BootTurn(s, x, io, now), now)
  {
    hide DeliveredFates, DiscardedFates;
  }

  lemma RunTurnFresh(r: Rules, s: State, x: Addr, io: Outside, now: int)
    requires x in s.slots && Fresh(r, s, now)
    ensures Fresh(r, RunTurn(r, s, x, io, now), now)
  {
    hide SessionsOn, IdleStops;
  }

  lemma {:induction false} TurnsFresh(r: Rules, s: State, order: seq<Addr>, io: Outside, now: int, a: Addr)
    requires (forall x <- order :: x in s.slots) && a in s.slots && Fresh(r, s, now) && ClockPast(s, a, now)
    ensures Fresh(r, Turns(r, s, order, io, now), now) && ClockPast(Turns(r, s, order, io, now), a, now)
  {
    hide Turn, Fresh, ClockPast;
    if order != [] {
      TurnsFresh(r, s, order[..|order| - 1], io, now, a);
      TurnFresh(r, Turns(r, s, order[..|order| - 1], io, now), order[|order| - 1], io, now, a);
    }
  }

  lemma TickFresh(r: Rules, s: State, order: seq<Addr>, io: Outside, now: int, a: Addr)
    requires Enumerates(order, s.slots.Keys) && a in s.slots && ClockPast(s, a, now)
    ensures Fresh(r, TickAll(r, s, order, io, now), now) && ClockPast(TickAll(r, s, order, io, now), a, now)
  {
    hide Turns;
    TurnsFresh(r, Reap(r, s, now), order, io, now, a);
  }

  lemma DatagramClock(r: Rules, s: State, client: Addr, data: seq<byte>, now: int, bindOk: bool, a: Addr)
    requires a in s.slots
    ensures HandleDatagram(r, s, client, data, now, bindOk).slots[a].emptySince == s.slots[a].emptySince
  {
    hide IsQuicInitial, Target;
  }

  lemma {:induction false} RunClockPast(
      r: Rules, backends: set<Addr>, ss: seq<State>, es: seq<Event>, a: Addr, i: nat, now: int)
    requires IsRun(r, backends, ss, es) && i < |ss| && a in ss[i].slots
    requires forall m | 0 <= m < i :: es[m].now <= now
    ensures ClockPast(ss[i], a, now)
  {
    hide HandleDatagram, TickAll, Fresh;
    if i > 0 {
      var e := es[i - 1];
      RunClockPast(r, backends, ss, es, a, i - 1, e.now);
      match e.what
      case Datagram(client, data, bindOk) => DatagramClock(r, ss[i - 1], client, data, e.now, bindOk, a);
      case Tick(order, io) => TickFresh(r, ss[i - 1], order, io, e.now, a);
    }
  }

  /** No datagram is forwarded to backend a after that time. */
  ghost predicate LastForwardBy(s: State, a: Addr, at: int) {
    forall id <- s.ledger | s.ledger[id].Forwarded? && s.ledger[id].backend == a :: s.ledger[id].at <= at
  }

  lemma SessionsSeenBy(r: Rules, backends: set<Addr>, ss: seq<State>, es: seq<Event>, a: Addr, m: nat, k: nat, at: int)
    requires IsRun(r, backends, ss, es) && m <= k < |ss| && LastForwardBy(ss[k], a, at)
    ensures forall c <- SessionsOn(ss[m], a) :: ss[m].sessions[c].lastSeen <= at
  {
    hide IsRun;
    RunTraceable(r, backends, ss, es, m);
    FateIsFinal(r, backends, ss, es, m, k);
    forall c | c in SessionsOn(ss[m], a) ensures ss[m].sessions[c].lastSeen <= at {
      assert OpenedFor(ss[m], c);
      var id :| LastSeenBy(ss[m], c, id);
    }
  }

  /** Where the idle clock of a running backend stands after its last datagram. */
  ghost predicate ClockOnTime(r: Rules, slot: Slot, tick: int, last: int, gap: int) {
    match slot.emptySince
    case None => tick <= last + r.sessionTimeout
    case Some(since) => since <= last + r.sessionTimeout + gap && (tick <= last || tick - since < r.idleTimeout)
  }

  lemma {:induction false} IdleClockStartsOnTime(
      r: Rules, backends: set<Addr>, ss: seq<State>, es: seq<Event>, a: Addr, j: nat, m: nat, k: nat, gap: nat)
    requires IsRun(r, backends, ss, es) && j < m <= k < |es| < |ss|
    requires RunsThrough(ss, a, j, k) && LastForwardBy(ss[k], a, es[j].now)
    requires Checked(es, a, j, k) && TicksWithin(es, gap, j, k)
    ensures LastTick(es, m).Some? && ClockOnTime(r, ss[m].slots[a], LastTick(es, m).value, es[j].now, gap)
  {
    hide IsRun, Step, LastForwardBy, SessionsOn, ClockOnTime;
    var last := es[j].now;
    RunningHasTicked(r, backends, ss, es, a, m);
    if m == j + 1 {
      ClockUpTo(r, backends, ss, es, a, j);
      OnTimeAtFirst(r, ss[m].slots[a], LastTick(es, m).value, last, gap);
    } else {
      var q := m - 1;
      IdleClockStartsOnTime(r, backends, ss, es, a, j, q, k, gap);
      RunStep(r, backends, ss, es, j, q);
      if es[q].what.Tick? && SessionsOn(ss[m], a) != {} {
        BusyMeansRecent(r, backends, ss, es, a, j, q, k);
      }
      OnTimeStep(r, ss[q], es[q], a, LastTick(es, q).value, last, gap);
    }
  }

  lemma OnTimeAtFirst(r: Rules, slot: Slot, tick: int, last: int, gap: nat)
    requires tick <= last && (slot.emptySince.Some? ==> slot.emptySince.value <= last)
    ensures ClockOnTime(r, slot, tick, last, gap)
  {
  }

  lemma OnTimeStep(r: Rules, s: State, e: Event, a: Addr, tick: int, last: int, gap: int)
    requires Possible(s, e) && a in s.slots && s.slots[a].life == Running && Step(r, s, e).slots[a].life == Running
    requires ClockOnTime(r, s.slots[a], tick, last, gap) && last <= e.now && e.now - tick <= gap
    requires e.what.Tick? ==> e.what.io.exit(a) != CheckError
    requires e.what.Tick? && SessionsOn(Step(r, s, e), a) != {} ==> e.now <= last + r.sessionTimeout
    ensures ClockOnTime(r, Step(r, s, e).slots[a], if e.what.Tick? then e.now else tick, last, gap)
  {
    hide Step, SessionsOn, AfterTick, ClockOnTime;
    StepOnSlot(r, s, e, a, last);
    if e.what.Tick? {
      OnTimeTick(r, s.slots[a], tick, last, gap, SessionsOn(Step(r, s, e), a) != {}, e.now);
    }
  }

  lemma ClockUpTo(r: Rules, backends: set<Addr>, ss: seq<State>, es: seq<Event>, a: Addr, j: nat)
    requires IsRun(r, backends, ss, es) && j < |es| && a in ss[j + 1].slots
    ensures ClockPast(ss[j + 1], a, es[j].now)
    ensures LastTick(es, j + 1).Some? ==> LastTick(es, j + 1).value <= es[j].now
  {
    hide Step;
    RunClockPast(r, backends, ss, es, a, j + 1, es[j].now);
    LastTickPast(es, j + 1, es[j].now);
  }

  lemma OnTimeTick(r: Rules, slot: Slot, tick: int, last: int, gap: int, busy: bool, now: int)
    requires ClockOnTime(r, slot, tick, last, gap) && now - tick <= gap
    requires AfterTick(r, slot, busy, now).life == Running && (busy ==> now <= last + r.sessionTimeout)
    ensures ClockOnTime(r, AfterTick(r, slot, busy, now), now, last, gap)
  {
  }

  lemma BusyMeansRecent(r: Rules, backends: set<Addr>, ss: seq<State>, es: seq<Event>, a: Addr, j: nat, q: nat, k: nat)
    requires IsRun(r, backends, ss, es) && j < q < k < |es| && es[q].what.Tick?
    requires LastForwardBy(ss[k], a, es[j].now) && SessionsOn(ss[q + 1], a) != {} && a in ss[q].slots
    ensures es[q].now <= es[j].now + r.sessionTimeout
  {
    hide TickAll, LastForwardBy;
    SessionsSeenBy(r, backends, ss, es, a, q + 1, k, es[j].now);
    RunClockPast(r, backends, ss, es, a, q, es[q].now);
    TickFresh(r, ss[q], es[q].what.order, es[q].what.io, es[q].now, a);
    var c :| c in SessionsOn(ss[q + 1], a);
    assert c in ss[q + 1].sessions;
  }

  /** With nothing happening more than gap after the last tick, and no exit check that errs, a
  backend that no datagram is forwarded to after event j is stopped within the session
  timeout plus the idle timeout plus two gaps: any later event still finding it running is
  before that, and so is the one that stops it. */
  lemma StopIsNotLate(r: Rules, backends: set<Addr>, ss: seq<State>, es: seq<Event>, a: Addr, j: nat, k: nat, gap: nat)
    requires IsRun(r, backends, ss, es) && j < k < |es| && gap > 0
    requires RunsThrough(ss, a, j, k) && LastForwardBy(ss[k], a, es[j].now)
    requires Checked(es, a, j, k) && TicksWithin(es, gap, j, k)
    ensures es[k].now - es[j].now < r.sessionTimeout + r.idleTimeout + 2 * gap
  {
    hide Step, LastForwardBy;
    IdleClockStartsOnTime(r, backends, ss, es, a, j, k, k, gap);
  }
}
