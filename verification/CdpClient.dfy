/** The CDP client: pending commands, their timers, and the connection under reconnects. */
module CdpClient {
  import opened Text

  datatype Pending = Pending(command: string, timer: nat)

  datatype Reason = TimedOut | SocketClosed | SendFailed | RemoteError(code: int)

  /** A response's result matters only for the session id it may carry. */
  datatype Outcome = Resolved(sessionId: Option<string>) | Rejected(reason: Reason)

  /** One call of a command's `resolve` or `reject`. */
  datatype Settlement = Settlement(id: nat, outcome: Outcome)

  /** What a response carries: an error, a result, or neither (no result, a null one, or a malformed error alone). */
  datatype Reply = Error(code: int) | Result(sessionId: Option<string>) | Nothing

  /** The reconnection loop: waiting for a socket to open in some attempt, or enabling domains on an open one. */
  datatype Reconnection = Idle | Opening(attempt: nat) | Enabling(attempt: nat)

  /** The connection; `connecting` says that a call of `connect` is under way. */
  datatype Link = Link(
    connected: bool, disconnectRequested: bool, permanentlyDisconnected: bool, connecting: bool,
    reconnection: Reconnection)

  /** `timers` are the live command timers by handle; `settled` lists the calls of resolve and reject so far. */
  datatype State = State(
    link: Link, nextId: nat, sessionId: Option<string>, enabledDomains: set<string>,
    pending: map<nat, Pending>, timers: map<nat, nat>, nextTimer: nat, settled: seq<Settlement>)

  const Initial := State(Link(false, false, false, false, Idle), 1, None, {}, map[], map[], 0, [])

  datatype SendResult = Issued(id: nat) | NotConnected | Exhausted

  const MAX_ATTEMPTS := 3
  const ATTACH := "Target.attachToTarget"

  predicate IsEnable(command: string) {
    var suffix := ".enable";
    |command| >= |suffix| && command[|command| - |suffix|..] == suffix
  }

  /** Takes a command out of the pending ones, clears its timer and settles it. */
  function Settle(s: State, id: nat, outcome: Outcome): State
    requires id in s.pending
  {
    s.(pending := s.pending - {id},
       timers := s.timers - {s.pending[id].timer},
       settled := s.settled + [Settlement(id, outcome)])
  }

  /** The state with the next command pending under a new timer. */
  function Issue(s: State, command: string): State {
    s.(nextId := s.nextId + 1,
       nextTimer := s.nextTimer + 1,
       timers := s.timers[s.nextTimer := s.nextId],
       pending := s.pending[s.nextId := Pending(command, s.nextTimer)])
  }

  /** `send`; `throws` says that the socket refuses the message. */
  function SendStep(s: State, command: string, throws: bool): (State, SendResult) {
    var s1 := if IsEnable(command) then s.(enabledDomains := s.enabledDomains + {command}) else s;
    if !s.link.connected then (s1, if s.link.permanentlyDisconnected then Exhausted else NotConnected)
    else if throws then (Settle(Issue(s1, command), s.nextId, Rejected(SendFailed)), Issued(s.nextId))
    else (Issue(s1, command), Issued(s.nextId))
  }

  /** Takes a command out of the pending ones and clears its timer, but settles nothing. */
  function Drop(s: State, id: nat): State
    requires id in s.pending
  {
    s.(pending := s.pending - {id}, timers := s.timers - {s.pending[id].timer})
  }

  /** The response makes the command's `resolve` throw before it settles: an attach command reads its result. */
  predicate Drops(s: State, id: nat, reply: Reply) {
    id in s.pending && s.pending[id].command == ATTACH && reply.Nothing?
  }

  /** `handleResponse` */
  function Respond(s: State, id: nat, reply: Reply): State {
    if id !in s.pending then s
    else
      match reply
      case Error(code) => Settle(s, id, Rejected(RemoteError(code)))
      case Result(sessionId) =>
        var s1 := Settle(s, id, Resolved(sessionId));
        if s.pending[id].command == ATTACH && sessionId.Some? then s1.(sessionId := sessionId) else s1
      case Nothing => if s.pending[id].command == ATTACH then Drop(s, id) else Settle(s, id, Resolved(None))
  }

  /** A command timer fires; only live ones can. */
  function Fire(s: State, timer: nat): State {
    if timer !in s.timers || s.timers[timer] !in s.pending then s
    else Settle(s, s.timers[timer], Rejected(TimedOut))
  }

  /** `rejectAllPending` from `id` on: the map is walked in insertion order, which is id order. */
  function RejectFrom(s: State, id: nat): State
    decreases s.nextId - id
  {
    if id >= s.nextId then s
    else RejectFrom(if id in s.pending then Settle(s, id, Rejected(SocketClosed)) else s, id + 1)
  }

  /** `handleClose` starts a reconnection unless a disconnect was asked for or one is under way. */
  function StartReconnection(l: Link): Link {
    if l.disconnectRequested || !l.reconnection.Idle? then l else l.(reconnection := Opening(1))
  }

  function Unlinked(s: State, l: Link): State {
    s.(link := l, sessionId := None)
  }

  /** `handleClose` */
  function Close(s: State): State {
    var s1 := RejectFrom(Unlinked(s, s.link.(connected := false)), 0);
    s1.(link := StartReconnection(s1.link))
  }

  function AskDisconnect(l: Link): Link {
    l.(disconnectRequested := true, permanentlyDisconnected := true)
  }

  /** `disconnect` */
  function DisconnectStep(s: State): State {
    var s1 := RejectFrom(Unlinked(s, AskDisconnect(s.link)), 0);
    s1.(link := s1.link.(connected := false))
  }

  /**
   What happens to attempts to connect: `connect` is called; its attempt ends, with an open socket or without; the
   current attempt of `reconnect` opens its socket; it fails, before that or while domains are enabled; all domains are
   enabled again.
   */
  datatype Attempt = Connect | ConnectEnds(opens: bool) | Reopen | AttemptFails | ReconnectEnds

  /** No flag is looked at before a socket opens; the last failed attempt of `reconnect` ends it. */
  function AttemptStep(l: Link, a: Attempt): Link {
    match a
    case Connect =>
      if l.connected || l.connecting then l
      else l.(disconnectRequested := false, permanentlyDisconnected := false, connecting := true)
    case ConnectEnds(opens) => if !l.connecting then l else l.(connecting := false, connected := l.connected || opens)
    case Reopen =>
      if l.reconnection.Opening? then l.(connected := true, reconnection := Enabling(l.reconnection.attempt)) else l
    case AttemptFails =>
      if l.reconnection.Idle? then l
      else if l.reconnection.attempt < MAX_ATTEMPTS then l.(reconnection := Opening(l.reconnection.attempt + 1))
      else l.(reconnection := Idle, permanentlyDisconnected := true)
    case ReconnectEnds =>
      if l.reconnection.Enabling? then l.(reconnection := Idle, permanentlyDisconnected := false) else l
  }

  function AfterAttempt(s: State, a: Attempt): State {
    s.(link := AttemptStep(s.link, a))
  }

  datatype Event =
    | ESend(command: string, throws: bool)
    | EResponse(id: nat, reply: Reply)
    | ETimer(timer: nat)
    | EClose
    | EDisconnect
    | EAttempt(attempt: Attempt)

  function Step(s: State, e: Event): State {
    match e
    case ESend(command, throws) => SendStep(s, command, throws).0
    case EResponse(id, reply) => Respond(s, id, reply)
    case ETimer(timer) => Fire(s, timer)
    case EClose => Close(s)
    case EDisconnect => DisconnectStep(s)
    case EAttempt(attempt) => AfterAttempt(s, attempt)
  }

  function Run(s: State, es: seq<Event>): State
    decreases |es|
  {
    if es == [] then s else Run(Step(s, es[0]), es[1..])
  }

  lemma RunOn(s: State, e: Event, es: seq<Event>)
    ensures Run(s, [e] + es) == Run(Step(s, e), es)
  {
    assert ([e] + es)[1..] == es;
  }

  // ---- Conservation of commands ----

  function SettledIds(settled: seq<Settlement>): set<nat> {
    set x | x in settled :: x.id
  }

  /** The commands that responses took out without settling them. */
  function Lost(s: State, es: seq<Event>): set<nat>
    decreases |es|
  {
    if es == [] then {}
    else LostBy(s, es[0]) + Lost(Step(s, es[0]), es[1..])
  }

  function LostBy(s: State, e: Event): set<nat> {
    if e.EResponse? && Drops(s, e.id, e.reply) then {e.id} else {}
  }

  /** Every issued command is in exactly one of pending, settled and lost, and is settled at most once. */
  ghost predicate Conserved(s: State, lost: set<nat>) {
    && (forall id :: 1 <= id < s.nextId <==> id in s.pending || id in SettledIds(s.settled) || id in lost)
    && (forall id | id in s.pending :: id !in SettledIds(s.settled))
    && (forall id | id in lost :: id !in SettledIds(s.settled) && id !in s.pending)
    && (forall i, j | 0 <= i < j < |s.settled| :: s.settled[i].id != s.settled[j].id)
  }

  /** Live timers and pending commands correspond one to one. */
  ghost predicate TimersMatch(s: State) {
    && (forall id | id in s.pending :: s.pending[id].timer in s.timers && s.timers[s.pending[id].timer] == id)
    && (forall t | t in s.timers :: t < s.nextTimer && s.timers[t] in s.pending && s.pending[s.timers[t]].timer == t)
  }

  ghost predicate Inv(s: State, lost: set<nat>) {
    s.nextId >= 1 && Conserved(s, lost) && TimersMatch(s)
  }

  lemma SettledPush(settled: seq<Settlement>, x: Settlement)
    ensures SettledIds(settled + [x]) == SettledIds(settled) + {x.id}
  {
    assert forall y :: y in settled + [x] <==> y in settled || y == x;
    assert x in settled + [x];
  }

  lemma SettleKeepsInv(s: State, lost: set<nat>, id: nat, outcome: Outcome)
    requires Inv(s, lost) && id in s.pending
    ensures Inv(Settle(s, id, outcome), lost)
  {
    SettledPush(s.settled, Settlement(id, outcome));
    assert forall x | x in s.settled :: x.id in SettledIds(s.settled);
  }

  lemma DropKeepsInv(s: State, lost: set<nat>, id: nat)
    requires Inv(s, lost) && id in s.pending
    ensures Inv(Drop(s, id), lost + {id})
  {
  }

  lemma IssueKeepsInv(s: State, lost: set<nat>, command: string)
    requires Inv(s, lost)
    ensures Inv(Issue(s, command), lost)
  {
  }

  /** Rejecting touches nothing but the pending commands, their timers and the settlements. */
  lemma {:induction false} RejectKeepsRest(s: State, id: nat)
    ensures var r := RejectFrom(s, id);
            && r == s.(pending := r.pending, timers := r.timers, settled := r.settled)
            && s.settled <= r.settled
    decreases s.nextId - id
  {
    if id < s.nextId {
      RejectKeepsRest(if id in s.pending then Settle(s, id, Rejected(SocketClosed)) else s, id + 1);
    }
  }

  lemma {:induction false} RejectPending(s: State, id: nat)
    requires forall k | k in s.pending :: k < s.nextId
    ensures forall k :: k in RejectFrom(s, id).pending <==> k in s.pending && k < id
    decreases s.nextId - id
  {
    if id < s.nextId {
      RejectPending(if id in s.pending then Settle(s, id, Rejected(SocketClosed)) else s, id + 1);
    }
  }

  lemma RejectOneKeepsInv(s: State, lost: set<nat>, id: nat)
    requires Inv(s, lost)
    ensures Inv(if id in s.pending then Settle(s, id, Rejected(SocketClosed)) else s, lost)
  {
    if id in s.pending {
      SettleKeepsInv(s, lost, id, Rejected(SocketClosed));
    }
  }

  lemma {:induction false} RejectKeepsInv(s: State, lost: set<nat>, id: nat)
    requires Inv(s, lost)
    ensures Inv(RejectFrom(s, id), lost)
    decreases s.nextId - id
  {
    if id < s.nextId {
      RejectOneKeepsInv(s, lost, id);
      RejectKeepsInv(if id in s.pending then Settle(s, id, Rejected(SocketClosed)) else s, lost, id + 1);
    }
  }

  /** The two states differ in no command. */
  lemma SameCommands(s: State, lost: set<nat>, t: State)
    requires Inv(s, lost) && t.nextId == s.nextId && t.pending == s.pending && t.timers == s.timers
    requires t.nextTimer == s.nextTimer && t.settled == s.settled
    ensures Inv(t, lost)
  {
  }

  /** A step keeps the invariant, takes back no id and unsettles nothing. */
  ghost predicate Advances(s: State, t: State, lost: set<nat>) {
    Inv(t, lost) && s.nextId <= t.nextId && s.settled <= t.settled
  }

  lemma SendKeepsInv(s: State, lost: set<nat>, command: string, throws: bool)
    requires Inv(s, lost)
    ensures Advances(s, SendStep(s, command, throws).0, lost)
  {
    var s1 := if IsEnable(command) then s.(enabledDomains := s.enabledDomains + {command}) else s;
    SameCommands(s, lost, s1);
    IssueKeepsInv(s1, lost, command);
    SettleKeepsInv(Issue(s1, command), lost, s.nextId, Rejected(SendFailed));
  }

  /** Closing and disconnecting leave no command and no timer behind. */
  ghost predicate Cleared(s: State, t: State, lost: set<nat>) {
    Advances(s, t, lost) && t.pending == map[] && t.timers == map[] && !t.link.connected
  }

  lemma CloseKeepsInv(s: State, lost: set<nat>)
    requires Inv(s, lost)
    ensures Cleared(s, Close(s), lost)
  {
    var start := Unlinked(s, s.link.(connected := false));
    SameCommands(s, lost, start);
    RejectKeepsInv(start, lost, 0);
    RejectPending(start, 0);
    RejectKeepsRest(start, 0);
    SameCommands(RejectFrom(start, 0), lost, Close(s));
    NoPendingNoTimer(Close(s));
  }

  lemma DisconnectKeepsInv(s: State, lost: set<nat>)
    requires Inv(s, lost)
    ensures Cleared(s, DisconnectStep(s), lost)
  {
    var start := Unlinked(s, AskDisconnect(s.link));
    SameCommands(s, lost, start);
    RejectKeepsInv(start, lost, 0);
    RejectPending(start, 0);
    RejectKeepsRest(start, 0);
    SameCommands(RejectFrom(start, 0), lost, DisconnectStep(s));
    NoPendingNoTimer(DisconnectStep(s));
  }

  lemma NoPendingNoTimer(s: State)
    requires TimersMatch(s) && forall k :: k !in s.pending
    ensures s.pending == map[] && s.timers == map[]
  {
  }

  lemma AnswerKeepsInv(s: State, lost: set<nat>, id: nat, reply: Reply)
    requires Inv(s, lost) && id in s.pending && !Drops(s, id, reply)
    ensures Advances(s, Respond(s, id, reply), lost)
  {
    var outcome := OutcomeOf(reply);
    var t := Settle(s, id, outcome);
    SettleKeepsInv(s, lost, id, outcome);
    AnswerIs(s, id, reply);
    SameCommands(t, lost, Respond(s, id, reply));
  }

  function OutcomeOf(reply: Reply): Outcome {
    match reply
    case Error(code) => Rejected(RemoteError(code))
    case Result(sessionId) => Resolved(sessionId)
    case Nothing => Resolved(None)
  }

  lemma AnswerIs(s: State, id: nat, reply: Reply)
    requires id in s.pending && !Drops(s, id, reply)
    ensures var r := Respond(s, id, reply); r == Settle(s, id, OutcomeOf(reply)).(sessionId := r.sessionId)
  {
  }

  lemma FireKeepsInv(s: State, lost: set<nat>, timer: nat)
    requires Inv(s, lost)
    ensures Advances(s, Fire(s, timer), lost)
  {
    if timer in s.timers {
      SettleKeepsInv(s, lost, s.timers[timer], Rejected(TimedOut));
    }
  }

  lemma StepKeepsInv(s: State, lost: set<nat>, e: Event, lostNow: set<nat>)
    requires Inv(s, lost) && lostNow == lost + LostBy(s, e)
    ensures Advances(s, Step(s, e), lostNow)
  {
    if e.EResponse? && Drops(s, e.id, e.reply) {
      DropKeepsInv(s, lost, e.id);
    } else {
      assert lostNow == lost;
      match e {
        case ESend(command, throws) => SendKeepsInv(s, lost, command, throws);
        case EResponse(id, reply) => if id in s.pending { AnswerKeepsInv(s, lost, id, reply); }
        case ETimer(timer) => FireKeepsInv(s, lost, timer);
        case EClose => CloseKeepsInv(s, lost);
        case EDisconnect => DisconnectKeepsInv(s, lost);
        case EAttempt(a) => SameCommands(s, lost, Step(s, e));
      }
    }
  }

  lemma {:induction false} RunKeepsInv(s: State, lost: set<nat>, es: seq<Event>)
    requires Inv(s, lost)
    ensures Advances(s, Run(s, es), lost + Lost(s, es))
    decreases |es|
  {
    if es == [] {
      assert lost + {} == lost;
    } else {
      StepKeepsInv(s, lost, es[0], lost + LostBy(s, es[0]));
      RunKeepsInv(Step(s, es[0]), lost + LostBy(s, es[0]), es[1..]);
      assert lost + LostBy(s, es[0]) + Lost(Step(s, es[0]), es[1..]) == lost + Lost(s, es);
    }
  }

  /**
   Over every interleaving of sends, responses (also repeated, unknown or empty ones), timeouts, socket closes,
   disconnects, connects and reconnects: each issued command is in exactly one of pending, resolved, rejected and
   lost, its promise is settled at most once, and the live command timers are exactly those of the pending commands.
   */
  lemma CommandsAccounted(es: seq<Event>)
    ensures Inv(Run(Initial, es), Lost(Initial, es))
  {
    RunKeepsInv(Initial, {}, es);
    assert {} + Lost(Initial, es) == Lost(Initial, es);
  }

  /** No response without error and result comes for an attach command that is pending. */
  predicate AttachesAnswered(s: State, es: seq<Event>)
    decreases |es|
  {
    es == [] || (!(es[0].EResponse? && Drops(s, es[0].id, es[0].reply)) && AttachesAnswered(Step(s, es[0]), es[1..]))
  }

  lemma {:induction false} LostNothingIff(s: State, es: seq<Event>)
    ensures Lost(s, es) == {} <==> AttachesAnswered(s, es)
    decreases |es|
  {
    if es != [] {
      LostNothingIff(Step(s, es[0]), es[1..]);
      assert LostBy(s, es[0]) <= Lost(s, es);
    }
  }

  /**
   Each issued command is in exactly one of pending, resolved and rejected if and only if no pending attach command
   is answered with neither an error nor a result.
   */
  lemma CommandsConservedIff(es: seq<Event>)
    ensures Inv(Run(Initial, es), {}) <==> AttachesAnswered(Initial, es)
  {
    var (s, lost) := (Run(Initial, es), Lost(Initial, es));
    CommandsAccounted(es);
    LostNothingIff(Initial, es);
    if id :| id in lost {
      assert 1 <= id < s.nextId && id !in s.pending && id !in SettledIds(s.settled);
    }
  }

  /** A run that loses a command: it is neither pending nor settled, and no timer is left for it. */
  lemma AttachLost()
    ensures var answered := [ESend(ATTACH, false)] + ([EResponse(1, Nothing)] + []);
            var s := Run(Initial, [EAttempt(Connect)] + ([EAttempt(ConnectEnds(true))] + answered));
            s.nextId == 2 && s.pending == map[] && s.timers == map[] && s.settled == []
  {
    var last := [EResponse(1, Nothing)] + [];
    var up := Step(Step(Initial, EAttempt(Connect)), EAttempt(ConnectEnds(true)));
    var sent := Step(up, ESend(ATTACH, false));
    RunOn(Initial, EAttempt(Connect), [EAttempt(ConnectEnds(true))] + ([ESend(ATTACH, false)] + last));
    RunOn(Step(Initial, EAttempt(Connect)), EAttempt(ConnectEnds(true)), [ESend(ATTACH, false)] + last);
    RunOn(up, ESend(ATTACH, false), last);
    RunOn(sent, EResponse(1, Nothing), []);
  }

  /** An id handed out by `send` is never handed out again, over any later run, reconnects included. */
  lemma IdsNeverReused(es: seq<Event>, command: string, throws: bool, later: seq<Event>, command': string,
                       throws': bool)
    ensures var s := Run(Initial, es);
            var (s1, first) := SendStep(s, command, throws);
            var second := SendStep(Run(s1, later), command', throws').1;
            first.Issued? && second.Issued? ==> first.id < second.id
  {
    var s := Run(Initial, es);
    var lost := Lost(Initial, es);
    CommandsAccounted(es);
    SendKeepsInv(s, lost, command, throws);
    RunKeepsInv(SendStep(s, command, throws).0, lost, later);
  }

  // ---- Why commands are settled ----

  /** The event is what the outcome claims. */
  ghost predicate Causes(e: Event, x: Settlement) {
    match x.outcome
    case Resolved(sessionId) =>
      e == EResponse(x.id, Result(sessionId)) || (sessionId.None? && e == EResponse(x.id, Nothing))
    case Rejected(RemoteError(code)) => e == EResponse(x.id, Error(code))
    case Rejected(TimedOut) => e.ETimer?
    case Rejected(SocketClosed) => e.EClose? || e.EDisconnect?
    case Rejected(SendFailed) => e.ESend? && e.throws
  }

  lemma {:induction false} RejectSettles(s: State, id: nat)
    ensures forall x | x in RejectFrom(s, id).settled :: x in s.settled || x.outcome == Rejected(SocketClosed)
    decreases s.nextId - id
  {
    if id < s.nextId {
      RejectSettles(if id in s.pending then Settle(s, id, Rejected(SocketClosed)) else s, id + 1);
    }
  }

  lemma SendSettles(s: State, command: string, throws: bool)
    ensures forall x | x in SendStep(s, command, throws).0.settled ::
              x in s.settled || (throws && x.outcome == Rejected(SendFailed))
  {
  }

  lemma StepSettles(s: State, e: Event)
    ensures forall x | x in Step(s, e).settled :: x in s.settled || Causes(e, x)
  {
    match e {
      case EClose => RejectSettles(Unlinked(s, s.link.(connected := false)), 0);
      case EDisconnect => RejectSettles(Unlinked(s, AskDisconnect(s.link)), 0);
      case ESend(command, throws) => SendSettles(s, command, throws);
      case _ =>
    }
  }

  lemma {:induction false} RunSettles(s: State, es: seq<Event>)
    ensures forall x | x in Run(s, es).settled :: x in s.settled || exists e :: e in es && Causes(e, x)
    decreases |es|
  {
    if es != [] {
      StepSettles(s, es[0]);
      RunSettles(Step(s, es[0]), es[1..]);
      assert es[0] in es && forall e | e in es[1..] :: e in es;
    }
  }

  /**
   Over every interleaving, a command is resolved only by a response that carries its id and no error, and rejected
   only by an error response with its id, a timer, a close or disconnect, or a socket that refused it.
   */
  lemma SettledForAReason(es: seq<Event>, x: Settlement)
    requires x in Run(Initial, es).settled
    ensures exists e :: e in es && Causes(e, x)
  {
    RunSettles(Initial, es);
  }

  /** After any run a timer rejects the one command it was set for; a timer that was cleared does nothing. */
  lemma TimeoutIsLocal(es: seq<Event>, timer: nat)
    ensures var s := Run(Initial, es);
            if timer in s.timers then
              var id := s.timers[timer];
              && id in s.pending && s.pending[id].timer == timer
              && Fire(s, timer).settled == s.settled + [Settlement(id, Rejected(TimedOut))]
              && Fire(s, timer).pending == map k | k in s.pending && k != id :: s.pending[k]
            else Fire(s, timer) == s
  {
    CommandsAccounted(es);
  }

  /** Only this command and its timer are gone. */
  ghost predicate TakesOut(s: State, id: nat, after: State) {
    && (forall k :: k in after.pending <==> k in s.pending && k != id)
    && (forall k | k in after.pending :: after.pending[k] == s.pending[k])
    && (forall t :: t in after.timers <==> t in s.timers && s.timers[t] != id)
  }

  /** One settlement is added, the first of the command. */
  ghost predicate SettlesFirst(before: seq<Settlement>, after: seq<Settlement>, id: nat) {
    (exists outcome :: after == before + [Settlement(id, outcome)]) && forall x | x in before :: x.id != id
  }

  lemma TakenOut(s: State, lost: set<nat>, id: nat, reply: Reply)
    requires Inv(s, lost) && id in s.pending
    ensures TakesOut(s, id, Respond(s, id, reply))
  {
    if !Drops(s, id, reply) { AnswerIs(s, id, reply); }
  }

  /**
   After any run a response to a pending command takes out that command and its timer, leaves every other command and
   timer alone, and settles no other command: it settles its own for the first time, unless that is an attach command
   and the response carries neither an error nor a result. A second response then does nothing.
   */
  lemma ResponseIsLocal(es: seq<Event>, id: nat, reply: Reply, again: Reply)
    requires id in Run(Initial, es).pending
    ensures var (s, after) := (Run(Initial, es), Respond(Run(Initial, es), id, reply));
            && TakesOut(s, id, after)
            && (if s.pending[id].command == ATTACH && reply.Nothing? then after.settled == s.settled
                else SettlesFirst(s.settled, after.settled, id))
            && Respond(after, id, again) == after
  {
    CommandsAccounted(es);
    var s := Run(Initial, es);
    TakenOut(s, Lost(Initial, es), id, reply);
    if !Drops(s, id, reply) { AnswerIs(s, id, reply); }
    assert forall x | x in s.settled :: x.id in SettledIds(s.settled);
  }

  /** When the socket closes or the client disconnects, no command and no timer is left over. */
  lemma NothingLeftBehind(es: seq<Event>)
    ensures var s := Run(Initial, es);
            && Close(s).pending == map[] && Close(s).timers == map[] && !Close(s).link.connected
            && DisconnectStep(s).pending == map[] && DisconnectStep(s).timers == map[]
            && !DisconnectStep(s).link.connected
  {
    CommandsAccounted(es);
    CloseKeepsInv(Run(Initial, es), Lost(Initial, es));
    DisconnectKeepsInv(Run(Initial, es), Lost(Initial, es));
  }

  // ---- Connected in spite of a disconnect ----

  /** What an event does to the connection. */
  function LinkStep(l: Link, e: Event): Link {
    match e
    case EClose => StartReconnection(l.(connected := false))
    case EDisconnect => AskDisconnect(l).(connected := false)
    case EAttempt(a) => AttemptStep(l, a)
    case _ => l
  }

  function LinkRun(l: Link, es: seq<Event>): Link
    decreases |es|
  {
    if es == [] then l else LinkRun(LinkStep(l, es[0]), es[1..])
  }

  lemma StepLink(s: State, e: Event)
    ensures Step(s, e).link == LinkStep(s.link, e)
  {
    match e {
      case EClose => RejectKeepsRest(Unlinked(s, s.link.(connected := false)), 0);
      case EDisconnect => RejectKeepsRest(Unlinked(s, AskDisconnect(s.link)), 0);
      case _ =>
    }
  }

  lemma {:induction false} RunLink(s: State, es: seq<Event>)
    ensures Run(s, es).link == LinkRun(s.link, es)
    decreases |es|
  {
    if es != [] {
      StepLink(s, es[0]);
      RunLink(Step(s, es[0]), es[1..]);
    }
  }

  /** A socket may still open: `connect` is under way, or `reconnect` waits for one or has attempts left. */
  predicate UnderWay(l: Link) {
    || l.connecting || l.reconnection.Opening?
    || (l.reconnection.Enabling? && l.reconnection.attempt < MAX_ATTEMPTS)
  }

  predicate NoConnect(es: seq<Event>) {
    forall e | e in es :: e != EAttempt(Connect)
  }

  /** The event opens a socket. */
  predicate Opens(l: Link, e: Event) {
    (e == EAttempt(ConnectEnds(true)) && l.connecting) || (e == EAttempt(Reopen) && l.reconnection.Opening?)
  }

  /** Some event of the run opens a socket. */
  predicate SomeOpens(l: Link, es: seq<Event>)
    decreases |es|
  {
    es != [] && (Opens(l, es[0]) || SomeOpens(LinkStep(l, es[0]), es[1..]))
  }

  /** Some prefix of the run leaves the client connected. */
  ghost predicate EverConnected(l: Link, es: seq<Event>) {
    exists k :: 0 <= k <= |es| && LinkRun(l, es[..k]).connected
  }

  lemma EverConnectedNext(l: Link, es: seq<Event>)
    requires es != [] && !l.connected
    ensures EverConnected(l, es) <==> EverConnected(LinkStep(l, es[0]), es[1..])
  {
    var (next, rest) := (LinkStep(l, es[0]), es[1..]);
    forall k | 0 < k <= |es| ensures LinkRun(l, es[..k]) == LinkRun(next, rest[..k - 1]) {
      assert es[..k][1..] == rest[..k - 1];
    }
    if k :| 0 <= k <= |es| && LinkRun(l, es[..k]).connected {
      assert LinkRun(next, rest[..k - 1]).connected;
    }
    if k :| 0 <= k <= |rest| && LinkRun(next, rest[..k]).connected {
      assert LinkRun(l, es[..k + 1]).connected;
    }
  }

  /** A client without socket gets one at some moment of a run if and only if an attempt opens one. */
  lemma {:induction false} ConnectedIffOpens(l: Link, es: seq<Event>)
    requires !l.connected
    ensures EverConnected(l, es) <==> SomeOpens(l, es)
    decreases |es|
  {
    if es != [] {
      var (next, rest) := (LinkStep(l, es[0]), es[1..]);
      EverConnectedNext(l, es);
      if next.connected {
        assert LinkRun(next, rest[..0]).connected;
      } else {
        ConnectedIffOpens(next, rest);
      }
    }
  }

  /** After a disconnect no attempt is started until the next `connect`. */
  lemma {:induction false} OpensOnlyUnderWay(l: Link, es: seq<Event>)
    requires l.disconnectRequested && NoConnect(es) && SomeOpens(l, es)
    ensures UnderWay(l)
    decreases |es|
  {
    assert es[0] in es && forall e | e in es[1..] :: e in es;
    if !Opens(l, es[0]) {
      OpensOnlyUnderWay(LinkStep(l, es[0]), es[1..]);
    }
  }

  /**
   Over every run before the disconnect and every run after it without a further `connect`: the client is connected at
   some moment after the disconnect if and only if an attempt that was under way at the disconnect opens its socket.
   */
  lemma ConnectedAfterDisconnectIff(before: seq<Event>, es: seq<Event>)
    requires NoConnect(es)
    ensures var s := Run(Initial, before);
            (exists k :: 0 <= k <= |es| && Run(DisconnectStep(s), es[..k]).link.connected) <==>
            UnderWay(s.link) && SomeOpens(DisconnectStep(s).link, es)
  {
    var s := Run(Initial, before);
    var l := DisconnectStep(s).link;
    StepLink(s, EDisconnect);
    ConnectedIffOpens(l, es);
    if SomeOpens(l, es) { OpensOnlyUnderWay(l, es); }
    forall k | 0 <= k <= |es| ensures Run(DisconnectStep(s), es[..k]).link == LinkRun(l, es[..k]) {
      RunLink(DisconnectStep(s), es[..k]);
    }
  }

  lemma LinkOn(l: Link, e: Event, es: seq<Event>)
    ensures LinkRun(l, [e] + es) == LinkRun(LinkStep(l, e), es)
  {
    assert ([e] + es)[1..] == es;
  }

  /** The events that let an attempt under way open its socket. */
  function WayToOpen(l: Link): seq<Event> {
    if l.connecting then [EAttempt(ConnectEnds(true))] + []
    else if l.reconnection.Opening? then [EAttempt(Reopen)] + []
    else [EAttempt(AttemptFails)] + ([EAttempt(Reopen)] + [])
  }

  lemma WayOpens(l: Link)
    requires UnderWay(l)
    ensures NoConnect(WayToOpen(l)) && LinkRun(l, WayToOpen(l)).connected
  {
    if l.connecting {
      LinkOn(l, EAttempt(ConnectEnds(true)), []);
    } else if l.reconnection.Opening? {
      LinkOn(l, EAttempt(Reopen), []);
    } else {
      LinkOn(l, EAttempt(AttemptFails), [EAttempt(Reopen)] + []);
      LinkOn(AttemptStep(l, AttemptFails), EAttempt(Reopen), []);
    }
  }

  /** A disconnect is final, until the next `connect`, if and only if no attempt is under way. */
  lemma DisconnectFinalIff(s: State)
    ensures (forall es | NoConnect(es) :: !Run(DisconnectStep(s), es).link.connected) <==> !UnderWay(s.link)
  {
    var d := DisconnectStep(s);
    StepLink(s, EDisconnect);
    if UnderWay(s.link) {
      WayOpens(d.link);
      RunLink(d, WayToOpen(d.link));
    } else {
      forall es | NoConnect(es) ensures !Run(d, es).link.connected {
        RunLink(d, es);
        ConnectedIffOpens(d.link, es);
        if SomeOpens(d.link, es) { OpensOnlyUnderWay(d.link, es); }
        assert es[..|es|] == es;
      }
    }
  }

  /** Both kinds of attempt occur: a `connect` under way, and the reconnection after a closed socket. */
  lemma AttemptsOccur()
    ensures UnderWay(Run(Initial, [EAttempt(Connect)] + []).link)
    ensures var l := Run(Initial, [EAttempt(Connect)] + ([EAttempt(ConnectEnds(true))] + ([EClose] + []))).link;
            UnderWay(l) && !l.connecting
  {
    var es := [EAttempt(ConnectEnds(true))] + ([EClose] + []);
    var connecting := LinkStep(Initial.link, EAttempt(Connect));
    var up := LinkStep(connecting, EAttempt(ConnectEnds(true)));
    RunLink(Initial, [EAttempt(Connect)] + []);
    RunLink(Initial, [EAttempt(Connect)] + es);
    LinkOn(Initial.link, EAttempt(Connect), []);
    LinkOn(Initial.link, EAttempt(Connect), es);
    LinkOn(connecting, EAttempt(ConnectEnds(true)), [EClose] + []);
    LinkOn(up, EClose, []);
  }

  // ---- The object ----

  class Client {
    var connected: bool
    var isDisconnectRequested: bool
    var permanentlyDisconnected: bool
    var connecting: bool
    var reconnection: Reconnection
    var nextId: nat
    var currentSessionId: Option<string>
    var enabledDomains: set<string>
    var pending: map<nat, Pending>
    /** The live command timers by handle, and the next handle. */
    var timers: map<nat, nat>
    var nextTimer: nat
    /** The calls of the commands' resolve and reject functions. */
    var settled: seq<Settlement>

    ghost function Snapshot(): State
      reads this
    {
      State(Link(connected, isDisconnectRequested, permanentlyDisconnected, connecting, reconnection), nextId,
            currentSessionId, enabledDomains, pending, timers, nextTimer, settled)
    }

    constructor ()
      ensures Snapshot() == Initial
    {
      connected, isDisconnectRequested, permanentlyDisconnected := false, false, false;
      connecting, reconnection := false, Idle;
      nextId, currentSessionId, enabledDomains := 1, None, {};
      pending, timers, nextTimer, settled := map[], map[], 0, [];
    }

    /** A command under a new id with a new timer. */
    method Register(command: string) returns (id: nat)
      modifies this`nextId, this`nextTimer, this`timers, this`pending
      ensures Snapshot() == Issue(old(Snapshot()), command) && id == old(nextId)
    {
      id := nextId;
      nextId := nextId + 1;
      var timer := nextTimer;
      nextTimer := nextTimer + 1;
      timers := timers[timer := id];
      pending := pending[id := Pending(command, timer)];
    }

    /** The socket has refused the message. */
    method SendFails(id: nat)
      requires id in pending
      modifies this`timers, this`pending, this`settled
      ensures Snapshot() == Settle(old(Snapshot()), id, Rejected(SendFailed))
    {
      timers := timers - {pending[id].timer};
      pending := pending - {id};
      settled := settled + [Settlement(id, Rejected(SendFailed))];
    }

    method Send(command: string, throws: bool) returns (r: SendResult)
      modifies this
      ensures (Snapshot(), r) == SendStep(old(Snapshot()), command, throws)
    {
      if IsEnable(command) {
        enabledDomains := enabledDomains + {command};
      }
      if !connected {
        return if permanentlyDisconnected then Exhausted else NotConnected;
      }
      var id := Register(command);
      if throws {
        SendFails(id);
      }
      r := Issued(id);
    }

    /** The result says whether the command's `resolve` throws. */
    method HandleResponse(id: nat, reply: Reply) returns (throws: bool)
      modifies this
      ensures Snapshot() == Respond(old(Snapshot()), id, reply) && throws == Drops(old(Snapshot()), id, reply)
    {
      if id !in pending {
        return false;
      }
      var command := pending[id];
      timers := timers - {command.timer};
      pending := pending - {id};
      if reply.Error? {
        settled := settled + [Settlement(id, Rejected(RemoteError(reply.code)))];
        return false;
      }
      if command.command == ATTACH {
        if reply.Nothing? {
          return true;
        }
        if reply.sessionId.Some? {
          currentSessionId := reply.sessionId;
        }
      }
      settled := settled + [Settlement(id, Resolved(if reply.Nothing? then None else reply.sessionId))];
      throws := false;
    }

    method CommandTimeout(timer: nat)
      requires timer in timers && timers[timer] in pending && pending[timers[timer]].timer == timer
      modifies this
      ensures Snapshot() == Fire(old(Snapshot()), timer)
    {
      var id := timers[timer];
      timers := timers - {timer};
      pending := pending - {id};
      settled := settled + [Settlement(id, Rejected(TimedOut))];
    }

    method RejectAllPending()
      modifies this`pending, this`timers, this`settled
      ensures Snapshot() == RejectFrom(old(Snapshot()), 0)
    {
      for id := 0 to nextId
        invariant nextId == old(nextId)
        invariant RejectFrom(Snapshot(), id) == RejectFrom(old(Snapshot()), 0)
      {
        if id in pending {
          timers := timers - {pending[id].timer};
          settled := settled + [Settlement(id, Rejected(SocketClosed))];
          pending := pending - {id};
        }
      }
    }

    method HandleClose()
      modifies this
      ensures Snapshot() == Close(old(Snapshot()))
    {
      connected := false;
      currentSessionId := None;
      RejectAllPending();
      if isDisconnectRequested {
        return;
      }
      if reconnection.Idle? {
        reconnection := Opening(1);
      }
    }

    method Disconnect()
      modifies this
      ensures Snapshot() == DisconnectStep(old(Snapshot()))
    {
      isDisconnectRequested := true;
      permanentlyDisconnected := true;
      currentSessionId := None;
      RejectAllPending();
      connected := false;
    }

    /** `connect`, up to its first wait. */
    method Connect()
      modifies this
      ensures Snapshot() == AfterAttempt(old(Snapshot()), Attempt.Connect)
    {
      if connected {
        return;
      }
      if connecting {
        return;
      }
      isDisconnectRequested := false;
      permanentlyDisconnected := false;
      connecting := true;
    }

    /** The rest of `connect`: its socket opens, or the attempt fails. */
    method FinishConnect(opens: bool)
      requires connecting
      modifies this`connected, this`connecting
      ensures Snapshot() == AfterAttempt(old(Snapshot()), ConnectEnds(opens))
    {
      if opens {
        connected := true;
      }
      connecting := false;
    }

    /** The socket of a reconnection attempt opens. */
    method ReconnectOpened()
      requires reconnection.Opening?
      modifies this`connected, this`reconnection
      ensures Snapshot() == AfterAttempt(old(Snapshot()), Reopen)
    {
      connected := true;
      reconnection := Enabling(reconnection.attempt);
    }

    /** A reconnection attempt fails; the loop goes on or gives up. */
    method ReconnectFailed()
      requires !reconnection.Idle?
      modifies this`permanentlyDisconnected, this`reconnection
      ensures Snapshot() == AfterAttempt(old(Snapshot()), AttemptFails)
    {
      if reconnection.attempt < MAX_ATTEMPTS {
        reconnection := Opening(reconnection.attempt + 1);
        return;
      }
      permanentlyDisconnected := true;
      reconnection := Idle;
    }

    /** A reconnection attempt has enabled all domains again. */
    method ReconnectDone()
      requires reconnection.Enabling?
      modifies this`permanentlyDisconnected, this`reconnection
      ensures Snapshot() == AfterAttempt(old(Snapshot()), ReconnectEnds)
    {
      permanentlyDisconnected := false;
      reconnection := Idle;
    }
  }
}
