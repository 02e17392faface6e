/** When a backend can be stopped sooner than its two timeouts allow. */
module EarlyStop {
  import opened Bits
  import opened Configuration
  import opened IdleStop
  import opened Knock
  import opened Lifecycle
  import opened Safety
  import opened Sends
  import opened Timing
  import opened Wrappers

  // ----- exactly when it can happen after a forward

  lemma {:induction false} Order(keys: set<Addr>) returns (order: seq<Addr>)
    ensures Enumerates(order, keys)
  {
    if keys == {} {
      order := [];
    } else {
      var a :| a in keys;
      var rest := Order(keys - {a});
      order := [a] + rest;
    }
  }

  /** Every forward on the ledger lies in the past. */
  lemma {:induction false} ForwardsPast(
      r: Rules, backends: set<Addr>, ss: seq<State>, es: seq<Event>, a: Addr, i: nat, now: int)
    requires IsRun(r, backends, ss, es) && i < |ss| && forall m | 0 <= m < i :: es[m].now <= now
    ensures LastForwardBy(ss[i], a, now)
  {
    hide Step;
    if i > 0 {
      ForwardsPast(r, backends, ss, es, a, i - 1, now);
      forall id | id in ss[i].ledger && ss[i].ledger[id].Forwarded? && ss[i].ledger[id].backend == a
        ensures ss[i].ledger[id].at <= now
      {
        if NewlyForwarded(ss[i - 1], ss[i], id, a) {
          StepForwards(r, ss[i - 1], es[i - 1], id, a);
        }
      }
    }
  }

  /** A tick with nothing going on but the passing of time. */
  function QuietTick(order: seq<Addr>, now: int): Event {
    Event(now, Tick(order, Outside(_ => Pending, _ => Alive, (_, _) => false)))
  }

  /** Once every session's timeout is over, a tick finds none. */
  lemma QuietTickFindsNone(r: Rules, s: State, order: seq<Addr>, now: int, a: Addr)
    requires Enumerates(order, s.slots.Keys) && a in s.slots && s.slots[a].life == Running
    requires forall c <- SessionsOn(s, a) :: now - s.sessions[c].lastSeen >= r.sessionTimeout
    ensures Step(r, s, QuietTick(order, now)).slots[a] == AfterTick(r, s.slots[a], false, now)
  {
    hide Turns, AfterTick;
    var io := QuietTick(order, now).what.io;
    ReapKeeps(r, s, now);
    assert SessionsOn(Reap(r, s, now), a) == {};
    hide SessionsOn, Reap;
    TurnsOnSlot(r, Reap(r, s, now), order, io, now, a, now);
  }

  /** This continuation of a run stops backend a early after the run's last event. */
  ghost predicate StopsEarly(
      r: Rules, backends: set<Addr>, ss: seq<State>, es: seq<Event>, a: Addr, ts: seq<State>, fs: seq<Event>, k: nat)
    requires es != []
  {
    var j := |es| - 1;
    && IsRun(r, backends, ts, fs) && ss <= ts && es <= fs && j < k < |fs| < |ts|
    && RunsThrough(ts, a, j, k) && IdleStopped(ts, fs, a, k)
    && fs[k].now - es[j].now < r.sessionTimeout + r.idleTimeout
  }

  /** Right after a forward, an early stop can still come if and only if the idle clock is
  running. */
  lemma EarlyStopExactly(r: Rules, backends: set<Addr>, ss: seq<State>, es: seq<Event>, a: Addr, id: nat)
    requires IsRun(r, backends, ss, es) && es != [] && |es| < |ss|
    requires NewlyForwarded(ss[|es| - 1], ss[|es|], id, a)
    requires a in ss[|es|].slots && ss[|es|].slots[a].life == Running
    requires r.sessionTimeout > 0 && r.idleTimeout > 0
    ensures ss[|es|].slots[a].emptySince.Some?
       <==> exists ts, fs, k :: StopsEarly(r, backends, ss, es, a, ts, fs, k)
  {
    hide IsRun, NewlyForwarded, Step;
    if ss[|es|].slots[a].emptySince.Some? {
      var ts, fs := QuietContinuation(r, backends, ss, es, a);
      assert StopsEarly(r, backends, ss, es, a, ts, fs, |es|);
    }
    if ts, fs, k :| StopsEarly(r, backends, ss, es, a, ts, fs, k) {
      assert ts[|es| - 1] == ss[|es| - 1] && ts[|es|] == ss[|es|] && fs[|es| - 1] == es[|es| - 1];
      EarlyStopWasUnchecked(r, backends, ts, fs, a, id, |es| - 1, k);
    }
  }

  /** One quiet tick, late enough, does it. */
  lemma QuietContinuation(r: Rules, backends: set<Addr>, ss: seq<State>, es: seq<Event>, a: Addr)
    returns (ts: seq<State>, fs: seq<Event>)
    requires IsRun(r, backends, ss, es) && es != [] && |es| < |ss|
    requires a in ss[|es|].slots && ss[|es|].slots[a].life == Running && ss[|es|].slots[a].emptySince.Some?
    requires r.sessionTimeout > 0 && r.idleTimeout > 0
    ensures StopsEarly(r, backends, ss, es, a, ts, fs, |es|)
  {
    hide Step, AfterTick, LastForwardBy, Sound, SessionsOn, ClockPast;
    var n := |es|;
    var s, last := ss[n], es[n - 1].now;
    ClockUpTo(r, backends, ss, es, a, n - 1);
    ForwardsPast(r, backends, ss, es, a, n, last);
    SessionsSeenBy(r, backends, ss, es, a, n, n, last);
    var order := Order(s.slots.Keys);
    var now := QuietTime(r, s.slots[a], last);
    var e := QuietTick(order, now);
    QuietTimeIsEarly(r, s, a, last);
    QuietTickFindsNone(r, s, order, now, a);
    ts, fs := ss + [Step(r, s, e)], es + [e];
    RunGrows(r, backends, ss, es, e);
    StoppedThen(r, s.slots[a], now);
  }

  function QuietTime(r: Rules, slot: Slot, last: int): int
    requires slot.emptySince.Some?
  {
    if last + r.sessionTimeout >= slot.emptySince.value + r.idleTimeout then last + r.sessionTimeout
    else slot.emptySince.value + r.idleTimeout
  }

  lemma QuietTimeIsEarly(r: Rules, s: State, a: Addr, last: int)
    requires a in s.slots && s.slots[a].emptySince.Some? && ClockPast(s, a, last)
    requires r.sessionTimeout > 0 && r.idleTimeout > 0
    ensures var now := QuietTime(r, s.slots[a], last);
            && last + r.sessionTimeout <= now < last + r.sessionTimeout + r.idleTimeout
            && now - s.slots[a].emptySince.value >= r.idleTimeout
  {
  }

  lemma StoppedThen(r: Rules, slot: Slot, now: int)
    requires slot.emptySince.Some? && now - slot.emptySince.value >= r.idleTimeout
    ensures AfterTick(r, slot, false, now).life == Sleeping
  {
  }

  // ----- and exactly when it can happen while the ticks come close together

  /** A tick in which nothing is settled: no boot ends, and every exit check errs. */
  function StalledTick(order: seq<Addr>, now: int): Event {
    Event(now, Tick(order, Outside(_ => Pending, _ => CheckError, (_, _) => false)))
  }

  lemma {:induction false} StalledTurns(r: Rules, s: State, order: seq<Addr>, now: int)
    requires forall x <- order :: x in s.slots
    ensures Turns(r, s, order, StalledTick(order, now).what.io, now) == s
  {
    StalledPrefix(r, s, order, StalledTick(order, now).what.io, now);
  }

  lemma {:induction false} StalledPrefix(r: Rules, s: State, order: seq<Addr>, io: Outside, now: int)
    requires forall x <- order :: x in s.slots
    requires forall x :: io.boot(x) == Pending && io.exit(x) == CheckError
    ensures Turns(r, s, order, io, now) == s
  {
    hide Promote, LoseBoot, Gone, WithSlot, SessionsOn, IdleStops;
    if order != [] {
      StalledPrefix(r, s, order[..|order| - 1], io, now);
    }
  }

  lemma StalledStep(r: Rules, s: State, order: seq<Addr>, now: int)
    requires Enumerates(order, s.slots.Keys)
    ensures Step(r, s, StalledTick(order, now)) == Reap(r, s, now)
  {
    hide Turns, Reap;
    ReapKeeps(r, s, now);
    StalledTurns(r, Reap(r, s, now), order, now);
  }

  lemma {:induction false} LastTickOfPrefix(es: seq<Event>, fs: seq<Event>, k: nat)
    requires es <= fs && k <= |es|
    ensures LastTick(fs, k) == LastTick(es, k)
  {
    if k > 0 {
      LastTickOfPrefix(es, fs, k - 1);
      assert fs[k - 1] == es[k - 1];
    }
  }

  /** A run gone on with, its ticks close and backend a untouched, up to time end. */
  ghost predicate Stalls(
      r: Rules, backends: set<Addr>, ss: seq<State>, es: seq<Event>, a: Addr, end: int, ts: seq<State>, fs: seq<Event>)
    requires |ss| == |es| + 1 && es != []
  {
    && IsRun(r, backends, ts, fs) && |ts| == |fs| + 1 && ss <= ts && es <= fs
    && (forall i | 0 <= i < |fs| :: fs[i].now <= end)
    && ts[|fs|].slots.Keys == ss[|es|].slots.Keys
    && (forall m | |es| <= m < |ts| :: a in ts[m].slots && a in ss[|es|].slots && ts[m].slots[a] == ss[|es|].slots[a])
    && (forall c <- ts[|fs|].sessions :: c in ss[|es|].sessions && ts[|fs|].sessions[c] == ss[|es|].sessions[c])
    && TicksCloserThan(fs, r.sessionTimeout, |es| - 1, |fs| - 1)
    && LastTick(fs, |fs|).Some? && end - LastTick(fs, |fs|).value < r.sessionTimeout
  }

  lemma {:induction false} Stall(
      r: Rules, backends: set<Addr>, ss: seq<State>, es: seq<Event>, a: Addr, order: seq<Addr>, now: int, end: int)
    returns (ts: seq<State>, fs: seq<Event>)
    requires IsRun(r, backends, ss, es) && |ss| == |es| + 1 && es != []
    requires a in ss[|es|].slots && Enumerates(order, ss[|es|].slots.Keys) && r.sessionTimeout > 1
    requires (forall i | 0 <= i < |es| :: es[i].now <= now) && now <= end
    requires LastTick(es, |es|).Some? && now - LastTick(es, |es|).value < r.sessionTimeout
    ensures Stalls(r, backends, ss, es, a, end, ts, fs)
    decreases end - now
  {
    hide IsRun, Step, Enumerates;
    if now == end {
      ts, fs := ss, es;
    } else {
      var e, s := StalledTick(order, now), ss[|es|];
      var t := Step(r, s, e);
      StalledStep(r, s, order, now);
      StalledKeeps(r, s, now);
      RunGrows(r, backends, ss, es, e);
      var ss1, es1 := ss + [t], es + [e];
      ts, fs := Stall(r, backends, ss1, es1, a, order, now + 1, end);
      StallsOn(r, backends, ss, es, a, end, ss1, es1, ts, fs);
    }
  }

  lemma StalledKeeps(r: Rules, s: State, now: int)
    ensures var t := Reap(r, s, now);
            t.slots == s.slots && forall c <- t.sessions :: c in s.sessions && t.sessions[c] == s.sessions[c]
  {
  }

  lemma StallsOn(
      r: Rules, backends: set<Addr>, ss: seq<State>, es: seq<Event>, a: Addr, end: int,
      ss1: seq<State>, es1: seq<Event>, ts: seq<State>, fs: seq<Event>)
    requires |ss| == |es| + 1 && es != [] && |ss1| == |es1| + 1 && |es1| == |es| + 1 && ss <= ss1 && es <= es1
    requires a in ss[|es|].slots && ss1[|es1|].slots == ss[|es|].slots
    requires forall c <- ss1[|es1|].sessions :: c in ss[|es|].sessions && ss1[|es1|].sessions[c] == ss[|es|].sessions[c]
    requires LastTick(es, |es|).Some? && es1[|es|].now - LastTick(es, |es|).value < r.sessionTimeout
    requires Stalls(r, backends, ss1, es1, a, end, ts, fs)
    ensures Stalls(r, backends, ss, es, a, end, ts, fs)
  {
    hide IsRun;
    LastTickOfPrefix(es, fs, |es|);
    assert fs[|es|] == es1[|es|] && ts[|es|] == ss1[|es|] == ss[|es|];
  }

  /** Right after a forward, an early stop with every tick less than the session timeout after
  the one before can still come if and only if the idle clock is running and the tick that is
  due can still be in time. */
  lemma EarlyStopWithCloseTicksExactly(
      r: Rules, backends: set<Addr>, ss: seq<State>, es: seq<Event>, a: Addr, id: nat)
    requires IsRun(r, backends, ss, es) && es != [] && |es| < |ss|
    requires NewlyForwarded(ss[|es| - 1], ss[|es|], id, a)
    requires a in ss[|es|].slots && ss[|es|].slots[a].life == Running
    requires r.sessionTimeout > 1 && r.idleTimeout > 0
    ensures LastTick(es, |es|).Some?
    ensures ss[|es|].slots[a].emptySince.Some? && es[|es| - 1].now - LastTick(es, |es|).value < r.sessionTimeout
       <==> exists ts, fs, k ::
              StopsEarly(r, backends, ss, es, a, ts, fs, k) && TicksCloserThan(fs, r.sessionTimeout, |es| - 1, k)
  {
    hide IsRun, NewlyForwarded, Step, StopsEarly, TicksCloserThan;
    RunningHasTicked(r, backends, ss, es, a, |es|);
    if ss[|es|].slots[a].emptySince.Some? && es[|es| - 1].now - LastTick(es, |es|).value < r.sessionTimeout {
      var ts, fs, k := StalledContinuation(r, backends, ss, es, a);
    }
    if ts, fs, k :|
      StopsEarly(r, backends, ss, es, a, ts, fs, k) && TicksCloserThan(fs, r.sessionTimeout, |es| - 1, k)
    {
      EarlyStopExactly(r, backends, ss, es, a, id);
      NextTickWasInTime(r, backends, ss, es, a, ts, fs, k);
    }
  }

  lemma NextTickWasInTime(
      r: Rules, backends: set<Addr>, ss: seq<State>, es: seq<Event>, a: Addr, ts: seq<State>, fs: seq<Event>, k: nat)
    requires es != [] && StopsEarly(r, backends, ss, es, a, ts, fs, k)
    requires TicksCloserThan(fs, r.sessionTimeout, |es| - 1, k) && LastTick(es, |es|).Some?
    ensures es[|es| - 1].now - LastTick(es, |es|).value < r.sessionTimeout
  {
    hide IsRun;
    var j := |es| - 1;
    var t := FirstTick(fs, j, k + 1);
    LastTickSkips(fs, j, t);
    LastTickOfPrefix(es, fs, |es|);
    RunStep(r, backends, ts, fs, j, t);
    assert fs[j] == es[j];
  }

  /** Ticks one time unit apart that settle nothing, and a last one that finds the backend
  alive. */
  lemma StalledContinuation(r: Rules, backends: set<Addr>, ss: seq<State>, es: seq<Event>, a: Addr)
    returns (ts: seq<State>, fs: seq<Event>, k: nat)
    requires IsRun(r, backends, ss, es) && es != [] && |es| < |ss|
    requires a in ss[|es|].slots && ss[|es|].slots[a].life == Running && ss[|es|].slots[a].emptySince.Some?
    requires LastTick(es, |es|).Some? && es[|es| - 1].now - LastTick(es, |es|).value < r.sessionTimeout
    requires r.sessionTimeout > 1 && r.idleTimeout > 0
    ensures StopsEarly(r, backends, ss, es, a, ts, fs, k)
    ensures TicksCloserThan(fs, r.sessionTimeout, |es| - 1, k)
  {
    hide Step, AfterTick, LastForwardBy, SessionsOn, ClockPast, Stalls, TicksCloserThan, QuietTime;
    var n := |es|;
    var s, last := ss[n], es[n - 1].now;
    ClockUpTo(r, backends, ss, es, a, n - 1);
    ForwardsPast(r, backends, ss, es, a, n, last);
    SessionsSeenBy(r, backends, ss, es, a, n, n, last);
    var order := Order(s.slots.Keys);
    var end := QuietTime(r, s.slots[a], last);
    QuietTimeIsEarly(r, s, a, last);
    var ms, gs := Stall(r, backends, ss, es, a, order, last, end);
    EndKeys(r, backends, ss, es, a, end, ms, gs);
    hide IsRun, Enumerates;
    ts, fs, k := StoppedAtLast(r, backends, ss, es, a, order, last, end, ms, gs);
  }

  lemma EndKeys(
      r: Rules, backends: set<Addr>, ss: seq<State>, es: seq<Event>, a: Addr, end: int, ms: seq<State>, gs: seq<Event>)
    requires |ss| == |es| + 1 && es != [] && Stalls(r, backends, ss, es, a, end, ms, gs)
    ensures |ms| == |gs| + 1 && ms[|gs|].slots.Keys == ss[|es|].slots.Keys
  {
    hide IsRun;
  }

  lemma StoppedAtLast(
      r: Rules, backends: set<Addr>, ss: seq<State>, es: seq<Event>, a: Addr, order: seq<Addr>, last: int, end: int,
      ms: seq<State>, gs: seq<Event>)
    returns (ts: seq<State>, fs: seq<Event>, k: nat)
    requires |ss| == |es| + 1 && |ms| == |gs| + 1 && es != [] && Stalls(r, backends, ss, es, a, end, ms, gs)
    requires a in ss[|es|].slots && ss[|es|].slots[a].life == Running && ss[|es|].slots[a].emptySince.Some?
    requires Enumerates(order, ms[|gs|].slots.Keys)
    requires forall c <- SessionsOn(ss[|es|], a) :: ss[|es|].sessions[c].lastSeen <= last
    requires es[|es| - 1].now == last && last + r.sessionTimeout <= end < last + r.sessionTimeout + r.idleTimeout
    requires end - ss[|es|].slots[a].emptySince.value >= r.idleTimeout
    ensures StopsEarly(r, backends, ss, es, a, ts, fs, k)
    ensures TicksCloserThan(fs, r.sessionTimeout, |es| - 1, k)
  {
    hide IsRun, Step, AfterTick;
    var m, e := ms[|gs|], QuietTick(order, end);
    forall c | c in SessionsOn(m, a) ensures end - m.sessions[c].lastSeen >= r.sessionTimeout {
      assert c in SessionsOn(ss[|es|], a);
    }
    QuietTickFindsNone(r, m, order, end, a);
    StoppedThen(r, m.slots[a], end);
    RunGrows(r, backends, ms, gs, e);
    ts, fs, k := ms + [Step(r, m, e)], gs + [e], |gs|;
    CloserStill(r.sessionTimeout, gs, e, |es| - 1);
  }

  lemma CloserStill(gap: int, gs: seq<Event>, e: Event, j: nat)
    requires j < |gs| && TicksCloserThan(gs, gap, j, |gs| - 1)
    requires LastTick(gs, |gs|).Some? && e.now - LastTick(gs, |gs|).value < gap
    ensures TicksCloserThan(gs + [e], gap, j, |gs|)
  {
    var fs := gs + [e];
    forall m | j < m <= |gs| && fs[m].what.Tick? && LastTick(fs, m).Some?
      ensures fs[m].now - LastTick(fs, m).value < gap
    {
      LastTickOfPrefix(gs, fs, m);
    }
  }

  /** And such a stop is the work of an exit check that erred. */
  lemma CloseTicksNeedAnError(
      r: Rules, backends: set<Addr>, ss: seq<State>, es: seq<Event>, a: Addr, id: nat,
      ts: seq<State>, fs: seq<Event>, k: nat)
    requires es != [] && |es| < |ss| && NewlyForwarded(ss[|es| - 1], ss[|es|], id, a)
    requires StopsEarly(r, backends, ss, es, a, ts, fs, k) && TicksCloserThan(fs, r.sessionTimeout, |es| - 1, k)
    ensures exists m | |es| <= m < k :: fs[m].what.Tick? && fs[m].what.io.exit(a) == CheckError
  {
    hide IsRun, NewlyForwarded;
    if IdleStop.Checked(fs, a, |es| - 1, k) {
      assert ts[|es| - 1] == ss[|es| - 1] && ts[|es|] == ss[|es|] && fs[|es| - 1] == es[|es| - 1];
      StopIsNotEarly(r, backends, ts, fs, a, id, |es| - 1, k);
    }
  }

  // ----- a run in which failing exit checks hurry a stop

  const READY_ALL: Addr -> Boot := _ => Ready

  const BIND_ALL: (Addr, Addr) -> bool := (_, _) => true

  /** The longer of the two timeouts. */
  function Span(r: Rules): nat {
    if r.sessionTimeout >= r.idleTimeout then r.sessionTimeout else r.idleTimeout
  }

  function HurryKnock(c: Addr, data: seq<byte>): Event {
    Event(0, Datagram(c, data, true))
  }

  /** The tick at time n: every exit check errs, except the one at the end of the span. */
  function HurryTick(r: Rules, a: Addr, n: nat): Event {
    Event(n, Tick([a], Outside(READY_ALL, _ => if n < Span(r) then CheckError else Alive, BIND_ALL)))
  }

  function Knocked(a: Addr, c: Addr, data: seq<byte>): State {
    State(map[a := Slot(Waking, None, map[c := Packet(0, data)])], map[], [Arrival(c, data)], multiset{}, map[])
  }

  /** After the tick at time n, the only session gone once its timeout is over. */
  function Hurried(r: Rules, a: Addr, c: Addr, data: seq<byte>, n: nat, slot: Slot): State {
    State(map[a := slot], if n < r.sessionTimeout then map[c := Session(0, a, 0)] else map[], [Arrival(c, data)],
          multiset{Send(0, a, data, 0)}, map[0 := Forwarded(a, data, 0)])
  }

  const IDLE_SINCE_START: Slot := Slot(Running, Some(0), map[])

  const STOPPED: Slot := Slot(Sleeping, None, map[])

  lemma TickOfOne(r: Rules, s: State, io: Outside, now: int, a: Addr)
    requires s.slots.Keys == {a}
    ensures TickAll(r, s, [a], io, now) == Turn(r, Reap(r, s, now), a, io, now)
  {
    hide Turn;
    assert [a][..0] == [] && Turns(r, Reap(r, s, now), [], io, now) == Reap(r, s, now);
  }

  lemma KnockStep(r: Rules, a: Addr, c: Addr, data: seq<byte>)
    requires r.route(data) == a && IsQuicInitial(data)
    ensures Step(r, Start({a}), HurryKnock(c, data)) == Knocked(a, c, data)
  {
    hide IsQuicInitial;
    var s := Start({a});
    assert s.slots == map[a := Slot(Sleeping, None, map[])];
  }

  lemma FirstTickStep(r: Rules, a: Addr, c: Addr, data: seq<byte>)
    requires r.sessionTimeout > 0 && r.idleTimeout > 0
    ensures Step(r, Knocked(a, c, data), HurryTick(r, a, 0)) == Hurried(r, a, c, data, 0, IDLE_SINCE_START)
  {
    var s, io := Knocked(a, c, data), HurryTick(r, a, 0).what.io;
    TickOfOne(r, s, io, 0, a);
    assert Reap(r, s, 0) == s;
    PromoteAlone(a, c, data);
  }

  lemma PromoteAlone(a: Addr, c: Addr, data: seq<byte>)
    ensures var t := Promote(Knocked(a, c, data), a, 0, BIND_ALL);
            && t.slots == map[a := IDLE_SINCE_START] && t.sessions == map[c := Session(0, a, 0)]
            && t.arrivals == [Arrival(c, data)]
            && t.sent == multiset{Send(0, a, data, 0)} && t.ledger == map[0 := Forwarded(a, data, 0)]
  {
    var s, held := Knocked(a, c, data), map[c := Packet(0, data)];
    var fates := DeliveredFates(s.(slots := map[a := IDLE_SINCE_START]), a, held, 0, BIND_ALL);
    assert HeldUnder(s.arrivals, held, 0);
    assert fates == map[0 := Forwarded(a, data, 0)];
    OneSend(fates, 0, fates[0]);
  }

  lemma OneSend(fates: map<nat, Fate>, id: nat, fate: Fate)
    requires fates == map[id := fate] && fate.Forwarded?
    ensures SendsOf(fates) == multiset{Send(id, fate.backend, fate.data, fate.at)}
  {
    NothingSent(map[]);
    SendsSettle(map[], id, fate);
    assert fates == map[][id := fate];
  }

  lemma ReapHurried(r: Rules, a: Addr, c: Addr, data: seq<byte>, n: nat, slot: Slot)
    ensures Reap(r, Hurried(r, a, c, data, n, slot), n + 1) == Hurried(r, a, c, data, n + 1, slot)
    ensures n + 1 >= r.sessionTimeout ==> SessionsOn(Hurried(r, a, c, data, n + 1, slot), a) == {}
  {
  }

  lemma TurnHurried(r: Rules, s: State, a: Addr, io: Outside, now: int)
    requires s.slots == map[a := IDLE_SINCE_START]
    ensures io.exit(a) == CheckError ==> Turn(r, s, a, io, now) == s
    ensures io.exit(a) == Alive && SessionsOn(s, a) == {} && now >= r.idleTimeout ==>
              Turn(r, s, a, io, now) == s.(slots := map[a := STOPPED])
  {
    hide SessionsOn, DeliverHeld, DiscardHeld;
    assert map[a := IDLE_SINCE_START][a := STOPPED] == map[a := STOPPED];
  }

  lemma NextTickStep(r: Rules, a: Addr, c: Addr, data: seq<byte>, n: nat)
    requires n + 1 <= Span(r) && r.idleTimeout > 0
    ensures Step(r, Hurried(r, a, c, data, n, IDLE_SINCE_START), HurryTick(r, a, n + 1))
         == Hurried(r, a, c, data, n + 1, if n + 1 < Span(r) then IDLE_SINCE_START else STOPPED)
  {
    hide Hurried, Reap, Turn;
    HurriedSlots(r, a, c, data, n);
    ReapHurried(r, a, c, data, n, IDLE_SINCE_START);
    var s, e := Hurried(r, a, c, data, n, IDLE_SINCE_START), HurryTick(r, a, n + 1);
    TickOfOne(r, s, e.what.io, n + 1, a);
    TurnHurried(r, Reap(r, s, n + 1), a, e.what.io, n + 1);
  }

  lemma HurriedSlots(r: Rules, a: Addr, c: Addr, data: seq<byte>, n: nat)
    ensures Hurried(r, a, c, data, n, IDLE_SINCE_START).slots == map[a := IDLE_SINCE_START]
    ensures Hurried(r, a, c, data, n + 1, IDLE_SINCE_START).slots == map[a := IDLE_SINCE_START]
    ensures Hurried(r, a, c, data, n + 1, IDLE_SINCE_START).(slots := map[a := STOPPED])
         == Hurried(r, a, c, data, n + 1, STOPPED)
  {
  }

  function HurriedSlot(r: Rules, n: nat): Slot {
    if n < Span(r) then IDLE_SINCE_START else STOPPED
  }

  function HurryEvents(r: Rules, a: Addr, c: Addr, data: seq<byte>): seq<Event> {
    [HurryKnock(c, data)] + seq(Span(r) + 1, n requires 0 <= n => HurryTick(r, a, n))
  }

  function HurryStates(r: Rules, a: Addr, c: Addr, data: seq<byte>): seq<State> {
    [Start({a}), Knocked(a, c, data)]
    + seq(Span(r) + 1, n requires 0 <= n => Hurried(r, a, c, data, n, HurriedSlot(r, n)))
  }

  lemma HurryIsRun(r: Rules, a: Addr, c: Addr, data: seq<byte>)
    requires r.route(data) == a && IsQuicInitial(data) && r.sessionTimeout > 0 && r.idleTimeout > 0
    ensures IsRun(r, {a}, HurryStates(r, a, c, data), HurryEvents(r, a, c, data))
  {
    hide Step, Hurried, Knocked, IsQuicInitial;
    var ss, es := HurryStates(r, a, c, data), HurryEvents(r, a, c, data);
    forall i | 0 <= i < |es| ensures Possible(ss[i], es[i]) && ss[i + 1] == Step(r, ss[i], es[i]) {
      HurrySlotKeys(r, a, c, data, i);
      if i == 0 {
        KnockStep(r, a, c, data);
      } else if i == 1 {
        FirstTickStep(r, a, c, data);
      } else {
        NextTickStep(r, a, c, data, i - 2);
      }
    }
  }

  lemma HurrySlotKeys(r: Rules, a: Addr, c: Addr, data: seq<byte>, i: nat)
    requires i < |HurryEvents(r, a, c, data)|
    ensures Possible(HurryStates(r, a, c, data)[i], HurryEvents(r, a, c, data)[i])
  {
  }

  /** From event j to event k there are only ticks whose check of backend a errs, one time unit
  apart, and event k comes one unit after the last of them. */
  ghost predicate ErringEveryUnit(es: seq<Event>, a: Addr, j: nat, k: nat) {
    forall i | j <= i < k && i + 1 < |es| ::
      es[i].what.Tick? && es[i].what.io.exit(a) == CheckError && es[i + 1].now == es[i].now + 1
  }

  lemma HurryErrs(r: Rules, a: Addr, c: Addr, data: seq<byte>)
    ensures ErringEveryUnit(HurryEvents(r, a, c, data), a, 1, Span(r) + 1)
  {
  }

  lemma UnitTicksAreClose(es: seq<Event>, a: Addr, gap: int, j: nat, k: nat)
    requires gap > 1 && k < |es| && ErringEveryUnit(es, a, j, k)
    ensures TicksCloserThan(es, gap, j, k)
  {
    forall m | j < m <= k && es[m].what.Tick? && LastTick(es, m).Some?
      ensures es[m].now - LastTick(es, m).value < gap
    {
      assert es[m - 1].what.Tick? && es[m - 1 + 1].now == es[m - 1].now + 1;
    }
  }

  lemma HurryTimes(r: Rules, a: Addr, c: Addr, data: seq<byte>)
    ensures |HurryStates(r, a, c, data)| == |HurryEvents(r, a, c, data)| + 1 == Span(r) + 3
    ensures HurryEvents(r, a, c, data)[1].now == 0 && HurryEvents(r, a, c, data)[Span(r) + 1].now == Span(r)
  {
  }

  lemma HurryStops(r: Rules, a: Addr, c: Addr, data: seq<byte>)
    requires r.sessionTimeout > 0 && r.idleTimeout > 0
    ensures var ss, es, k := HurryStates(r, a, c, data), HurryEvents(r, a, c, data), Span(r) + 1;
            && NewlyForwarded(ss[1], ss[2], 0, a) && RunsThrough(ss, a, 1, k) && IdleStopped(ss, es, a, k)
  {
    var ss, k := HurryStates(r, a, c, data), Span(r) + 1;
    forall m | 1 < m <= k ensures a in ss[m].slots && ss[m].slots[a].life == Running {
      assert ss[m] == Hurried(r, a, c, data, m - 2, HurriedSlot(r, m - 2));
    }
    assert ss[k + 1] == Hurried(r, a, c, data, k - 1, HurriedSlot(r, k - 1));
  }

  /** For a session timeout above one unit and any positive idle timeout, there is a run in
  which the stop comes when the longer of them is over, and not their sum: the tick that finds
  the backend ready delivers its held Initial, and every exit check errs until that time. */
  lemma FailingChecksHurryStop(r: Rules, a: Addr, c: Addr, data: seq<byte>)
    returns (ss: seq<State>, es: seq<Event>, k: nat)
    requires r.route(data) == a && IsQuicInitial(data) && r.sessionTimeout > 1 && r.idleTimeout > 0
    ensures IsRun(r, {a}, ss, es) && 1 < k < |es|
    ensures NewlyForwarded(ss[1], ss[2], 0, a) && RunsThrough(ss, a, 1, k) && IdleStopped(ss, es, a, k)
    ensures ErringEveryUnit(es, a, 1, k) && TicksCloserThan(es, r.sessionTimeout, 1, k)
    ensures es[k].now - es[1].now == Span(r) < r.sessionTimeout + r.idleTimeout
  {
    hide IsRun, NewlyForwarded, RunsThrough, IdleStopped, TicksCloserThan, ErringEveryUnit, IsQuicInitial;
    hide HurryStates, HurryEvents;
    ss, es, k := HurryStates(r, a, c, data), HurryEvents(r, a, c, data), Span(r) + 1;
    HurryTimes(r, a, c, data);
    HurryErrs(r, a, c, data);
    UnitTicksAreClose(es, a, r.sessionTimeout, 1, k);
    HurryStops(r, a, c, data);
    HurryIsRun(r, a, c, data);
  }
}
