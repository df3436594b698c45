/** The session of the CDP client. */
module CdpSession {
  import opened Text
  import opened CdpClient

  // ---- Sending ----

  /** The command's name ends in ".enable". */
  ghost predicate Enables(command: string) {
    exists domain :: command == domain + ".enable"
  }

  lemma EnablesIff(command: string)
    ensures IsEnable(command) <==> Enables(command)
  {
    if IsEnable(command) {
      assert command == command[..|command| - 7] + ".enable";
    }
  }

  /** One command is pending under the next id, with a timer of its own. */
  ghost predicate Issues(s: State, t: State, command: string) {
    && t.nextId == s.nextId + 1 && t.nextTimer == s.nextTimer + 1
    && t.pending == s.pending[s.nextId := Pending(command, s.nextTimer)]
    && t.timers == s.timers[s.nextTimer := s.nextId] && t.settled == s.settled
  }

  /** One command is rejected at once. */
  ghost predicate Refuses(s: State, t: State) {
    && t.nextId == s.nextId + 1 && t.pending == s.pending - {s.nextId} && t.timers == s.timers - {s.nextTimer}
    && t.settled == s.settled + [Settlement(s.nextId, Rejected(SendFailed))]
  }

  /** No command is concerned. */
  predicate SameBooks(s: State, t: State) {
    && t.nextId == s.nextId && t.nextTimer == s.nextTimer && t.pending == s.pending && t.timers == s.timers
    && t.settled == s.settled
  }

  /**
   A command that enables a domain is remembered, whether it can be sent or not. Without a connection nothing else
   happens, and the error tells a client that has given up from one that has not; with one, the command is pending, or
   rejected if the socket refuses it.
   */
  lemma SendMeans(s: State, command: string, throws: bool)
    ensures var (t, r) := SendStep(s, command, throws);
            && (r == Issued(s.nextId) <==> s.link.connected)
            && (r == Exhausted <==> !s.link.connected && s.link.permanentlyDisconnected)
            && (r == NotConnected <==> !s.link.connected && !s.link.permanentlyDisconnected)
            && t.link == s.link && t.sessionId == s.sessionId
            && (forall d :: d in t.enabledDomains <==> d in s.enabledDomains || (d == command && Enables(d)))
            && (if !s.link.connected then SameBooks(s, t) else if throws then Refuses(s, t) else Issues(s, t, command))
  {
    EnablesIff(command);
    SendDomains(s, command, throws, IsEnable(command));
    SendBooks(s, command, throws, IsEnable(command));
  }

  lemma SendDomains(s: State, command: string, throws: bool, enables: bool)
    requires enables == IsEnable(command)
    ensures var (t, r) := SendStep(s, command, throws);
            && (r == Issued(s.nextId) <==> s.link.connected)
            && (r == Exhausted <==> !s.link.connected && s.link.permanentlyDisconnected)
            && (r == NotConnected <==> !s.link.connected && !s.link.permanentlyDisconnected)
            && t.link == s.link && t.sessionId == s.sessionId
            && t.enabledDomains == s.enabledDomains + if enables then {command} else {}
  {
  }

  lemma SendBooks(s: State, command: string, throws: bool, enables: bool)
    requires enables == IsEnable(command)
    ensures var t := SendStep(s, command, throws).0;
            if !s.link.connected then SameBooks(s, t) else if throws then Refuses(s, t) else Issues(s, t, command)
  {
    if s.link.connected && throws {
      var issued := Issue(if enables then s.(enabledDomains := s.enabledDomains + {command}) else s, command);
      assert issued.pending[s.nextId].timer == s.nextTimer;
      assert issued.pending - {s.nextId} == s.pending - {s.nextId};
      assert issued.timers - {s.nextTimer} == s.timers - {s.nextTimer};
    }
  }

  // ---- Answers and the session ----

  /** The event is an answer with this session id to a pending attach command. */
  predicate Attaches(s: State, e: Event, session: string) {
    && e.EResponse? && e.reply == Reply.Result(Some(session))
    && e.id in s.pending && s.pending[e.id].command == "Target.attachToTarget"
  }

  /** How a pending command is settled by a reply; an attach command is not, by a reply that carries nothing. */
  function Settled(id: nat, command: string, reply: Reply): seq<Settlement> {
    if reply.Error? then [Settlement(id, Rejected(RemoteError(reply.code)))]
    else if reply.Result? then [Settlement(id, Resolved(reply.sessionId))]
    else if command == "Target.attachToTarget" then []
    else [Settlement(id, Resolved(None))]
  }

  lemma RespondMeans(s: State, id: nat, reply: Reply)
    ensures var t := Respond(s, id, reply);
            if id !in s.pending then t == s
            else
              && t.link == s.link && t.enabledDomains == s.enabledDomains
              && t.nextId == s.nextId && t.nextTimer == s.nextTimer
              && t.settled == s.settled + Settled(id, s.pending[id].command, reply)
              && t.pending == s.pending - {id} && t.timers == s.timers - {s.pending[id].timer}
              && t.sessionId == if s.pending[id].command == "Target.attachToTarget" && reply.Result?
                                   && reply.sessionId.Some?
                                then reply.sessionId else s.sessionId
  {
    assert s.settled + [] == s.settled;
  }

  /** Only an answer to an attach command sets the session; only a close or a disconnect takes it away. */
  lemma SessionStep(s: State, e: Event)
    ensures var session := Step(s, e).sessionId;
            && (e.EClose? || e.EDisconnect? ==> session == None)
            && (forall x :: Attaches(s, e, x) ==> session == Some(x))
            && (!e.EClose? && !e.EDisconnect? && (forall x :: !Attaches(s, e, x)) ==> session == s.sessionId)
  {
    match e {
      case EClose => RejectKeepsRest(Unlinked(s, s.link.(connected := false)), 0);
      case EDisconnect => RejectKeepsRest(Unlinked(s, AskDisconnect(s.link)), 0);
      case EResponse(id, reply) =>
        RespondMeans(s, id, reply);
        if reply.Result? && reply.sessionId.Some? {
          assert Attaches(s, e, reply.sessionId.value) <==>
                 id in s.pending && s.pending[id].command == "Target.attachToTarget";
        }
      case _ =>
    }
  }

  lemma {:induction false} RunPush(s: State, es: seq<Event>, e: Event)
    ensures Run(s, es + [e]) == Step(Run(s, es), e)
    decreases |es|
  {
    if es == [] {
      assert ([] + [e])[1..] == [] && ([] + [e])[0] == e;
      assert Run(Step(s, e), []) == Step(s, e);
    } else {
      assert (es + [e])[1..] == es[1..] + [e];
      RunPush(Step(s, es[0]), es[1..], e);
    }
  }

  /** Event `k` is the last that has to do with the session: an answer to an attach command with this session id. */
  ghost predicate LastAttach(es: seq<Event>, k: int, session: string) {
    && 0 <= k < |es| && Attaches(Run(Initial, es[..k]), es[k], session)
    && forall j | k < j < |es| ::
         !es[j].EClose? && !es[j].EDisconnect? && forall x :: !Attaches(Run(Initial, es[..j]), es[j], x)
  }

  lemma LastAttachGrows(es: seq<Event>, e: Event, k: int, session: string)
    requires 0 <= k < |es| && !e.EClose? && !e.EDisconnect? && forall x :: !Attaches(Run(Initial, es), e, x)
    ensures LastAttach(es + [e], k, session) <==> LastAttach(es, k, session)
  {
    var all := es + [e];
    assert all[..|es|] == es && all[|es|] == e;
    forall j | 0 <= j < |es| ensures all[..j] == es[..j] && all[j] == es[j] {
    }
  }

  lemma NoLastAttach(es: seq<Event>, e: Event, k: int, session: string)
    requires LastAttach(es + [e], k, session)
    ensures if k == |es| then Attaches(Run(Initial, es), e, session)
            else !e.EClose? && !e.EDisconnect? && forall x :: !Attaches(Run(Initial, es), e, x)
  {
    var all := es + [e];
    assert all[..|es|] == es && all[|es|] == e;
  }

  /**
   After any run the client has a session id exactly when an attach command was answered with it and since then no other
   one was, and the connection was neither closed nor given up.
   */
  lemma {:induction false} SessionIff(es: seq<Event>, session: string)
    ensures Run(Initial, es).sessionId == Some(session) <==> exists k :: LastAttach(es, k, session)
    decreases |es|
  {
    if es != [] {
      var front, e := es[..|es| - 1], es[|es| - 1];
      var s := Run(Initial, front);
      assert es == front + [e] && es[..|front|] == front;
      RunPush(Initial, front, e);
      SessionStep(s, e);
      SessionIff(front, session);
      if k :| LastAttach(es, k, session) {
        NoLastAttach(front, e, k, session);
        if k < |front| {
          LastAttachGrows(front, e, k, session);
        }
      }
      if Run(Initial, es).sessionId == Some(session) {
        if Attaches(s, e, session) {
          assert LastAttach(es, |front|, session);
        } else {
          var k :| LastAttach(front, k, session);
          LastAttachGrows(front, e, k, session);
        }
      }
    }
  }

  // ---- Domains ----

  lemma DomainsStep(s: State, e: Event, domain: string)
    ensures domain in Step(s, e).enabledDomains <==>
            domain in s.enabledDomains || (e.ESend? && e.command == domain && Enables(domain))
  {
    match e {
      case ESend(command, throws) => SendMeans(s, command, throws);
      case EResponse(id, reply) => RespondMeans(s, id, reply);
      case EClose => RejectKeepsRest(Unlinked(s, s.link.(connected := false)), 0);
      case EDisconnect => RejectKeepsRest(Unlinked(s, AskDisconnect(s.link)), 0);
      case _ =>
    }
  }

  /** The domains to enable again on a new socket are those of all commands ever given that enable one. */
  lemma {:induction false} DomainsIff(s: State, es: seq<Event>, domain: string)
    ensures domain in Run(s, es).enabledDomains <==>
            domain in s.enabledDomains || (Enables(domain) && exists e :: e in es && e.ESend? && e.command == domain)
    decreases |es|
  {
    if es != [] {
      DomainsStep(s, es[0], domain);
      DomainsIff(Step(s, es[0]), es[1..], domain);
      assert es == [es[0]] + es[1..];
    }
  }

  // ---- Closing and disconnecting ----

  lemma {:induction false} RejectsAll(s: State, id: nat)
    requires forall k | k in s.pending :: k < s.nextId
    ensures forall k | k in s.pending && k >= id ::
              Settlement(k, Rejected(SocketClosed)) in RejectFrom(s, id).settled
    decreases s.nextId - id
  {
    if id < s.nextId {
      var next := if id in s.pending then Settle(s, id, Rejected(SocketClosed)) else s;
      RejectsAll(next, id + 1);
      RejectKeepsRest(next, id + 1);
      if id in s.pending {
        assert Settlement(id, Rejected(SocketClosed)) in next.settled;
      }
    }
  }

  /** Every pending command is rejected, and the session is over. */
  ghost predicate Ends(s: State, t: State) {
    && t.sessionId == None && t.pending == map[] && t.timers == map[] && !t.link.connected
    && t.enabledDomains == s.enabledDomains && t.nextId == s.nextId && s.settled <= t.settled
    && forall id | id in s.pending :: Settlement(id, Rejected(SocketClosed)) in t.settled
  }

  /** A closed socket is replaced, unless a disconnect was asked for or that is being done already. */
  lemma CloseMeans(es: seq<Event>)
    ensures var s := Run(Initial, es);
            var t := Close(s);
            && Ends(s, t)
            && t.link.disconnectRequested == s.link.disconnectRequested && t.link.connecting == s.link.connecting
            && t.link.permanentlyDisconnected == s.link.permanentlyDisconnected
            && t.link.reconnection == if s.link.reconnection == Idle && !s.link.disconnectRequested
                                      then Opening(1) else s.link.reconnection
  {
    var s := Run(Initial, es);
    var start := Unlinked(s, s.link.(connected := false));
    CommandsAccounted(es);
    NothingLeftBehind(es);
    RejectKeepsRest(start, 0);
    RejectsAll(start, 0);
  }

  /** A disconnect stays asked for, and starts nothing. */
  lemma DisconnectMeans(es: seq<Event>)
    ensures var s := Run(Initial, es);
            var t := DisconnectStep(s);
            && Ends(s, t) && t.link.disconnectRequested && t.link.permanentlyDisconnected
            && t.link.reconnection == s.link.reconnection && t.link.connecting == s.link.connecting
  {
    var s := Run(Initial, es);
    var start := Unlinked(s, AskDisconnect(s.link));
    CommandsAccounted(es);
    NothingLeftBehind(es);
    RejectKeepsRest(start, 0);
    RejectsAll(start, 0);
  }

  // ---- Connecting ----

  /** What a call of `connect` and the end of its attempt make of the connection. */
  lemma ConnectMeans(l: Link, opens: bool)
    ensures AttemptStep(l, Connect) ==
            if l.connected || l.connecting then l else Link(false, false, false, true, l.reconnection)
    ensures l.connecting ==>
              AttemptStep(l, ConnectEnds(opens)) ==
              Link(l.connected || opens, l.disconnectRequested, l.permanentlyDisconnected, false, l.reconnection)
  {
  }

  /** The links after one, two and three failed attempts of a reconnection. */
  lemma ThreeAttempts(l: Link)
    requires l.reconnection == Idle && !l.disconnectRequested
    ensures var closed := LinkStep(l, EClose);
            var once := LinkStep(closed, EAttempt(AttemptFails));
            var twice := LinkStep(once, EAttempt(AttemptFails));
            var thrice := LinkStep(twice, EAttempt(AttemptFails));
            && closed == Link(false, false, l.permanentlyDisconnected, l.connecting, Opening(1))
            && once == closed.(reconnection := Opening(2)) && twice == closed.(reconnection := Opening(3))
            && thrice == closed.(reconnection := Idle, permanentlyDisconnected := true)
  {
  }

  /** An attempt that opens its socket connects the client, and ends the reconnection when all domains are enabled. */
  lemma AttemptSucceeds(l: Link, n: nat)
    requires l.reconnection == Opening(n)
    ensures var open := LinkStep(l, EAttempt(Reopen));
            && open == l.(connected := true, reconnection := Enabling(n))
            && LinkStep(open, EAttempt(ReconnectEnds)) ==
               l.(connected := true, reconnection := Idle, permanentlyDisconnected := false)
  {
  }
}
