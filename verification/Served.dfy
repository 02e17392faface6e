/** What a configuration promises: the theorems about runs, in the configuration's own terms. */
module Served {
  import opened Configuration
  import opened IdleStop
  import opened Lifecycle
  import opened Outcomes
  import opened PacketProtection
  import opened Routing
  import opened Timing
  import opened Wrappers

  lemma Timeouts(c: Config, crypto: Primitives)
    requires WellFormed(c) && crypto.Lawful()
    ensures ProxyRules(c, crypto).sessionTimeout == c.sessionTimeout
    ensures ProxyRules(c, crypto).idleTimeout == c.idleTimeout
  {
  }

  /** What a tick does to every slot, under the configured idle timeout. */
  lemma SlotsTick(c: Config, crypto: Primitives, ss: seq<State>, es: seq<Event>, i: nat, a: Addr)
    requires WellFormed(c) && crypto.Lawful() && IsServed(c, crypto, ss, es)
    requires i < |es| && i + 1 < |ss| && es[i].what.Tick? && a in ss[i].slots && a in ss[i + 1].slots
    ensures ss[i + 1].slots[a]
         == Ticked(ss[i].slots[a], es[i].what.io.boot(a), es[i].what.io.exit(a), SessionsOn(ss[i + 1], a) != {},
                   es[i].now, c.idleTimeout)
  {
    hide IsRun, ProxyRules, SlotConfigs, WellFormed, Ticked, SessionsOn;
    Timeouts(c, crypto);
    SlotTicks(ProxyRules(c, crypto), SlotConfigs(c).Keys, ss, es, i, a);
  }

  /** No session leads to backend a. */
  ghost predicate NobodyOn(s: State, a: Addr) {
    forall d <- s.sessions :: s.sessions[d].backend != a
  }

  /** In a tick that finds a running backend alive with no session on it, the backend is stopped
  if and only if its idle clock has run for the configured idle timeout. */
  lemma IdleBackendStops(c: Config, crypto: Primitives, ss: seq<State>, es: seq<Event>, i: nat, a: Addr)
    requires WellFormed(c) && crypto.Lawful() && IsServed(c, crypto, ss, es)
    requires i < |es| && i + 1 < |ss| && es[i].what.Tick? && es[i].what.io.exit(a) == Alive
    requires a in ss[i].slots && a in ss[i + 1].slots && ss[i].slots[a].life == Running
    requires NobodyOn(ss[i + 1], a)
    ensures var clock := ss[i].slots[a].emptySince;
            var since := if clock.Some? then clock.value else es[i].now;
            if es[i].now - since >= c.idleTimeout then ss[i + 1].slots[a] == Slot(Sleeping, None, ss[i].slots[a].held)
            else ss[i + 1].slots[a] == Slot(Running, Some(since), ss[i].slots[a].held)
  {
    hide IsServed, WellFormed;
    SlotsTick(c, crypto, ss, es, i, a);
    assert SessionsOn(ss[i + 1], a) == {};
  }

  /** No session unseen for the configured session timeout outlives a tick: one its client has
  afterwards was opened in that tick. */
  lemma StaleSessionsEnd(c: Config, crypto: Primitives, ss: seq<State>, es: seq<Event>, i: nat, d: Addr)
    requires WellFormed(c) && crypto.Lawful() && IsServed(c, crypto, ss, es)
    requires i < |es| && i + 1 < |ss| && es[i].what.Tick? && d in ss[i].sessions
    requires es[i].now - ss[i].sessions[d].lastSeen >= c.sessionTimeout
    ensures d in ss[i + 1].sessions ==>
              ss[i + 1].sessions[d].lastSeen == es[i].now && ss[i + 1].sessions[d].opener !in ss[i].ledger
  {
    hide IsRun, ProxyRules, SlotConfigs, WellFormed;
    Timeouts(c, crypto);
    if d in ss[i + 1].sessions {
      SessionsTick(ProxyRules(c, crypto), SlotConfigs(c).Keys, ss, es, i, d);
    }
  }

  /** And one seen since then outlives it, unless its backend is found to have exited. */
  lemma FreshSessionsStay(c: Config, crypto: Primitives, ss: seq<State>, es: seq<Event>, i: nat, d: Addr)
    requires WellFormed(c) && crypto.Lawful() && IsServed(c, crypto, ss, es)
    requires i < |es| && i + 1 < |ss| && es[i].what.Tick? && d in ss[i].sessions
    requires es[i].now - ss[i].sessions[d].lastSeen < c.sessionTimeout
    requires es[i].what.io.exit(ss[i].sessions[d].backend) != Exited
    ensures d in ss[i + 1].sessions && ss[i + 1].sessions[d].backend == ss[i].sessions[d].backend
  {
    hide IsRun, ProxyRules, SlotConfigs, WellFormed;
    Timeouts(c, crypto);
    SessionStays(ProxyRules(c, crypto), SlotConfigs(c).Keys, ss, es, i, d);
  }

  /** An idle stop comes at least the configured session timeout after every forward. */
  lemma StopIsQuietAsConfigured(
      c: Config, crypto: Primitives, ss: seq<State>, es: seq<Event>, a: Addr, id: nat, j: nat, k: nat)
    requires WellFormed(c) && crypto.Lawful() && IsServed(c, crypto, ss, es) && j <= k < |es| < |ss| == |es| + 1
    requires NewlyForwarded(ss[j], ss[j + 1], id, a) && RunsThrough(ss, a, j, k) && IdleStopped(ss, es, a, k)
    ensures es[k].now - es[j].now >= c.sessionTimeout
  {
    hide IsRun, ProxyRules, SlotConfigs, WellFormed, NewlyForwarded;
    Timeouts(c, crypto);
    StopIsQuiet(ProxyRules(c, crypto), SlotConfigs(c).Keys, ss, es, a, id, j, k);
  }

  /** With ticks closer than the session timeout and no failing exit check, it comes at least
  both configured timeouts after every forward. */
  lemma StopIsNotEarlyAsConfigured(
      c: Config, crypto: Primitives, ss: seq<State>, es: seq<Event>, a: Addr, id: nat, j: nat, k: nat)
    requires WellFormed(c) && crypto.Lawful() && IsServed(c, crypto, ss, es) && j <= k < |es| < |ss| == |es| + 1
    requires NewlyForwarded(ss[j], ss[j + 1], id, a) && RunsThrough(ss, a, j, k) && IdleStopped(ss, es, a, k)
    requires IdleStop.Checked(es, a, j, k) && TicksCloserThan(es, c.sessionTimeout, j, k)
    ensures es[k].now - es[j].now >= c.sessionTimeout + c.idleTimeout
  {
    hide IsRun, ProxyRules, SlotConfigs, WellFormed, NewlyForwarded;
    Timeouts(c, crypto);
    StopIsNotEarly(ProxyRules(c, crypto), SlotConfigs(c).Keys, ss, es, a, id, j, k);
  }

  /** With ticks no more than a gap apart and no failing exit check, it comes before the last
  datagram's time plus both configured timeouts and two gaps. */
  lemma StopIsNotLateAsConfigured(
      c: Config, crypto: Primitives, ss: seq<State>, es: seq<Event>, a: Addr, j: nat, k: nat, gap: nat)
    requires WellFormed(c) && crypto.Lawful() && IsServed(c, crypto, ss, es) && j < k < |es| < |ss| && gap > 0
    requires RunsThrough(ss, a, j, k) && LastForwardBy(ss[k], a, es[j].now)
    requires IdleStop.Checked(es, a, j, k) && TicksWithin(es, gap, j, k)
    ensures es[k].now - es[j].now < c.sessionTimeout + c.idleTimeout + 2 * gap
  {
    hide IsRun, ProxyRules, SlotConfigs, WellFormed, LastForwardBy;
    Timeouts(c, crypto);
    StopIsNotLate(ProxyRules(c, crypto), SlotConfigs(c).Keys, ss, es, a, j, k, gap);
  }
}
