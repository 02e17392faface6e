/** The relay: one session per client address, each with a socket of its own. */
module Relaying {
  import opened Configuration
  import opened Lifecycle
  import opened Wrappers

  class Relay {
    const sessionTimeout: nat
    var sessions: map<Addr, Session>
    ghost var sent: multiset<Send>

    constructor (sessionTimeout: nat)
      ensures this.sessionTimeout == sessionTimeout && sessions == map[] && sent == multiset{}
    {
      this.sessionTimeout := sessionTimeout;
      sessions, sent := map[], multiset{};
    }

    /** Where a client is pinned. */
    function SessionBackend(client: Addr): Option<Addr>
      reads this
    {
      if client in sessions then Some(sessions[client].backend) else None
    }

    /** The session a datagram leaves by: the client's own if it has one, whatever backend is
    asked for, and otherwise a new one on that backend, if a socket can be bound. */
    method SessionFor(client: Addr, backend: Addr, opener: nat, now: int, bindOk: bool)
      returns (session: Option<Session>)
      modifies this`sessions
      ensures session.Some? <==> client in old(sessions) || bindOk
      ensures session.None? ==> sessions == old(sessions)
      ensures session.Some? ==> sessions == old(sessions)[client := session.value] && session.value.lastSeen == now
      ensures client in old(sessions) ==> session == Some(old(sessions)[client].(lastSeen := now))
      ensures client !in old(sessions) && bindOk ==> session == Some(Session(opener, backend, now))
    {
      if client in sessions {
        sessions := sessions[client := sessions[client].(lastSeen := now)];
        return Some(sessions[client]);
      }
      if !bindOk {
        return None;
      }
      session := Some(Session(opener, backend, now));
      sessions := sessions[client := session.value];
    }

    /** Hand a datagram to a session's socket; a copy handed over twice is sent twice. */
    method SendTo(p: Packet, backend: Addr, now: int)
      modifies this`sent
      ensures sent == old(sent) + multiset{Send(p.id, backend, p.data, now)}
    {
      sent := sent + multiset{Send(p.id, backend, p.data, now)};
    }

    /** Take the machine's Forward step: one send if there is a session to send by, else none. */
    method ForwardToBackend(client: Addr, backend: Addr, p: Packet, now: int, bindOk: bool, ghost s: State)
      returns (fate: Fate)
      requires s.sessions == sessions && s.sent == sent
      modifies this
      ensures Forward(s, client, backend, p, now, bindOk)
           == s.(sessions := sessions, sent := sent, ledger := s.ledger[p.id := fate])
    {
      var session := SessionFor(client, backend, p.id, now, bindOk);
      if session.None? {
        return Unbound;
      }
      SendTo(p, session.value.backend, now);
      fate := Forwarded(session.value.backend, p.data, now);
    }

    /** Keep exactly the sessions seen less than the timeout ago. */
    method ReapIdle(now: int) returns (left: nat)
      modifies this`sessions
      ensures sessions == map c | c in old(sessions) && now - old(sessions)[c].lastSeen < sessionTimeout :: old(sessions)[c]
      ensures left == |sessions|
    {
      var rest := sessions.Keys;
      while rest != {}
        invariant rest <= old(sessions).Keys
        invariant forall c :: c in sessions <==>
                    c in old(sessions) && (c in rest || now - old(sessions)[c].lastSeen < sessionTimeout)
        invariant forall c <- sessions :: sessions[c] == old(sessions)[c]
        decreases rest
      {
        var client :| client in rest;
        if now - sessions[client].lastSeen >= sessionTimeout {
          sessions := sessions - {client};
        }
        rest := rest - {client};
      }
      left := |sessions|;
    }

    /** How many sessions lead to a backend. */
    method SessionCountFor(backend: Addr) returns (n: nat)
      ensures n == |set c | c in sessions && sessions[c].backend == backend|
    {
      n := 0;
      var rest := sessions.Keys;
      ghost var counted: set<Addr> := {};
      while rest != {}
        invariant rest <= sessions.Keys
        invariant forall c :: c in counted <==> c in sessions && c !in rest && sessions[c].backend == backend
        invariant n == |counted|
        decreases rest
      {
        var client :| client in rest;
        if sessions[client].backend == backend {
          n := n + 1;
          counted := counted + {client};
        }
        rest := rest - {client};
      }
      assert counted == set c | c in sessions && sessions[c].backend == backend;
    }

    /** Keep exactly the sessions on other backends. */
    method DropSessionsFor(backend: Addr)
      modifies this`sessions
      ensures sessions == map c | c in old(sessions) && old(sessions)[c].backend != backend :: old(sessions)[c]
    {
      var rest := sessions.Keys;
      while rest != {}
        invariant rest <= old(sessions).Keys
        invariant forall c :: c in sessions <==> c in old(sessions) && (c in rest || old(sessions)[c].backend != backend)
        invariant forall c <- sessions :: sessions[c] == old(sessions)[c]
        decreases rest
      {
        var client :| client in rest;
        if sessions[client].backend == backend {
          sessions := sessions - {client};
        }
        rest := rest - {client};
      }
    }
  }
}
