/**
 Subscriptions to the event streams of assistant messages, and what each subscriber receives, however they interleave.
 */
module StreamRegistry {
  import opened Text
  import opened Generation

  /** An event of the stream of one assistant message. */
  datatype Notice = Notice(conversation: string, message: string, event: Event)

  datatype Op =
    | Subscribe(conversation: string, message: string, who: nat)
    | Unsubscribe(conversation: string, message: string, who: nat)
    | Emit(conversation: string, message: string, event: Event)
    | Clear

  /** The subscribers by stream key, and what each has received. */
  datatype State = State(streams: map<string, set<nat>>, inboxes: map<nat, seq<Notice>>)

  function StreamKey(conversation: string, message: string): string {
    conversation + [':'] + message
  }

  lemma StreamKeyInjective(conversation: string, message: string, conversation': string, message': string)
    requires ':' !in conversation && ':' !in conversation'
    ensures StreamKey(conversation, message) == StreamKey(conversation', message') <==>
            conversation == conversation' && message == message'
  {
    if StreamKey(conversation, message) == StreamKey(conversation', message') {
      CutFirst(conversation, message, conversation', message', ':');
    }
  }

  function Subscribers(s: State, key: string): set<nat> {
    if key in s.streams then s.streams[key] else {}
  }

  function Inbox(s: State, who: nat): seq<Notice> {
    if who in s.inboxes then s.inboxes[who] else []
  }

  /** A stream without subscribers is not listed. */
  function Listed(streams: map<string, set<nat>>, key: string, who: set<nat>): map<string, set<nat>> {
    if who == {} then streams - {key} else streams[key := who]
  }

  /** `emit`: every subscriber receives the event; a terminal event ends the subscriptions. */
  function EmitStep(s: State, n: Notice): State {
    var key := StreamKey(n.conversation, n.message);
    var who := Subscribers(s, key);
    State(if IsTerminal(n.event.body) then s.streams - {key} else s.streams,
          map w | w in s.inboxes.Keys + who :: Inbox(s, w) + (if w in who then [n] else []))
  }

  function Step(s: State, op: Op): State {
    match op
    case Subscribe(c, m, who) =>
      s.(streams := s.streams[StreamKey(c, m) := Subscribers(s, StreamKey(c, m)) + {who}])
    case Unsubscribe(c, m, who) =>
      s.(streams := Listed(s.streams, StreamKey(c, m), Subscribers(s, StreamKey(c, m)) - {who}))
    case Emit(c, m, event) => EmitStep(s, Notice(c, m, event))
    case Clear => s.(streams := map[])
  }

  function Run(s: State, ops: seq<Op>): State
    decreases |ops|
  {
    if ops == [] then s else Run(Step(s, ops[0]), ops[1..])
  }

  // ---- One subscriber of one stream, on its own ----

  /** A subscriber and the stream it follows. */
  datatype Follower = Follower(conversation: string, message: string, who: nat)

  /** Whether the follower listens after an operation, given whether it did before. */
  predicate Listens(f: Follower, op: Op, before: bool) {
    match op
    case Subscribe(c, m, who) => before || f == Follower(c, m, who)
    case Unsubscribe(c, m, who) => before && f != Follower(c, m, who)
    case Emit(c, m, event) => before && !(c == f.conversation && m == f.message && IsTerminal(event.body))
    case Clear => false
  }

  /** The event of the follower's stream that an operation brings, if it does. */
  function OwnEvent(f: Follower, op: Op): seq<Event> {
    if op.Emit? && op.conversation == f.conversation && op.message == f.message then [op.event] else []
  }

  /** The events of its stream that reach a follower. */
  function Heard(f: Follower, ops: seq<Op>, listening: bool): seq<Event> {
    if ops == [] then []
    else (if listening then OwnEvent(f, ops[0]) else []) + Heard(f, ops[1..], Listens(f, ops[0], listening))
  }

  /** All events of the follower's stream. */
  function EventsOf(f: Follower, ops: seq<Op>): seq<Event> {
    if ops == [] then [] else OwnEvent(f, ops[0]) + EventsOf(f, ops[1..])
  }

  predicate ColonFree(op: Op) {
    op.Clear? || ':' !in op.conversation
  }

  predicate Listening(f: Follower, s: State) {
    f.who in Subscribers(s, StreamKey(f.conversation, f.message))
  }

  /** What a follower has received of its stream. */
  function Of(f: Follower, inbox: seq<Notice>): seq<Event> {
    if inbox == [] then []
    else
      var last := inbox[|inbox| - 1];
      Of(f, inbox[..|inbox| - 1])
      + (if last.conversation == f.conversation && last.message == f.message then [last.event] else [])
  }

  lemma StepFollowed(s: State, op: Op, f: Follower)
    requires ColonFree(op) && ':' !in f.conversation
    ensures Listening(f, Step(s, op)) == Listens(f, op, Listening(f, s))
    ensures Of(f, Inbox(Step(s, op), f.who)) ==
            Of(f, Inbox(s, f.who)) + (if Listening(f, s) then OwnEvent(f, op) else [])
  {
    if !op.Clear? {
      StreamKeyInjective(op.conversation, op.message, f.conversation, f.message);
    }
    if op.Emit? {
      var n := Notice(op.conversation, op.message, op.event);
      assert (Inbox(s, f.who) + [n])[..|Inbox(s, f.who)|] == Inbox(s, f.who);
      assert Inbox(s, f.who) + [] == Inbox(s, f.who);
    }
  }

  /**
   Streams and subscribers do not disturb each other: over every interleaving of operations each subscriber
   receives of its stream exactly what it would receive were it alone.
   */
  lemma {:induction false} FollowersAreIndependent(s: State, ops: seq<Op>, f: Follower)
    requires ':' !in f.conversation && forall op | op in ops :: ColonFree(op)
    ensures Of(f, Inbox(Run(s, ops), f.who)) == Of(f, Inbox(s, f.who)) + Heard(f, ops, Listening(f, s))
    decreases |ops|
  {
    if ops != [] {
      StepFollowed(s, ops[0], f);
      FollowersAreIndependent(Step(s, ops[0]), ops[1..], f);
      var now := if Listening(f, s) then OwnEvent(f, ops[0]) else [];
      Assoc(Of(f, Inbox(s, f.who)), now, Heard(f, ops[1..], Listens(f, ops[0], Listening(f, s))));
    } else {
      assert Of(f, Inbox(s, f.who)) + [] == Of(f, Inbox(s, f.who));
    }
  }

  /** The follower is not unsubscribed by anyone. */
  predicate Stays(f: Follower, op: Op) {
    !op.Clear? && op != Unsubscribe(f.conversation, f.message, f.who)
  }

  lemma {:induction false} HearsUntilTerminal(f: Follower, ops: seq<Op>)
    requires forall op | op in ops :: Stays(f, op)
    requires forall i | 0 <= i < |EventsOf(f, ops)| - 1 :: !IsTerminal(EventsOf(f, ops)[i].body)
    ensures Heard(f, ops, true) == EventsOf(f, ops)
    decreases |ops|
  {
    if ops != [] {
      var rest := EventsOf(f, ops[1..]);
      var own := OwnEvent(f, ops[0]) != [];
      forall i | 0 <= i < |rest| - 1 ensures !IsTerminal(rest[i].body) {
        assert rest[i] == EventsOf(f, ops)[if own then i + 1 else i];
      }
      assert ops[0] in ops;
      HearsUntilTerminal(f, ops[1..]);
      if own && IsTerminal(ops[0].event.body) {
        assert EventsOf(f, ops)[0] == ops[0].event;
        HearsNothing(f, ops[1..]);
      }
    }
  }

  lemma {:induction false} HearsNothing(f: Follower, ops: seq<Op>)
    requires EventsOf(f, ops) == []
    ensures forall listening :: Heard(f, ops, listening) == []
  {
    if ops != [] {
      HearsNothing(f, ops[1..]);
    }
  }

  /**
   Whoever subscribes to a generation's stream before its first event and is not unsubscribed receives exactly the
   events the generation publishes, each once and in order, whatever other subscribers and streams do meanwhile.
   */
  lemma SubscriberSeesWholeStream(s: State, f: Follower, ops: seq<Op>, x: Execution)
    requires ':' !in f.conversation && forall op | op in ops :: ColonFree(op) && Stays(f, op)
    requires Of(f, Inbox(s, f.who)) == [] && EventsOf(f, ops) == Numbered(Narrative(x))
    ensures var after := Run(Step(s, Subscribe(f.conversation, f.message, f.who)), ops);
            Of(f, Inbox(after, f.who)) == Numbered(Narrative(x))
  {
    var subscribed := Step(s, Subscribe(f.conversation, f.message, f.who));
    StreamShape(x);
    HearsUntilTerminal(f, ops);
    FollowersAreIndependent(subscribed, ops, f);
  }

  class Registry {
    var streams: map<string, set<nat>>
    /** What each subscriber's callback has been given. */
    var inboxes: map<nat, seq<Notice>>

    ghost function Snapshot(): State
      reads this
    {
      State(streams, inboxes)
    }

    constructor ()
      ensures Snapshot() == State(map[], map[])
    {
      streams, inboxes := map[], map[];
    }

    method Subscribe(conversation: string, message: string, who: nat)
      modifies this`streams
      ensures Snapshot() == Step(old(Snapshot()), Op.Subscribe(conversation, message, who))
    {
      var key := StreamKey(conversation, message);
      var subscribers := if key in streams then streams[key] else {};
      streams := streams[key := subscribers + {who}];
    }

    method Unsubscribe(conversation: string, message: string, who: nat)
      modifies this`streams
      ensures Snapshot() == Step(old(Snapshot()), Op.Unsubscribe(conversation, message, who))
    {
      var key := StreamKey(conversation, message);
      if key in streams {
        var subscribers := streams[key] - {who};
        streams := streams[key := subscribers];
        if |subscribers| == 0 {
          streams := streams - {key};
        }
      } else {
        assert streams - {key} == streams;
      }
    }

    method Emit(conversation: string, message: string, event: Event)
      modifies this`streams, this`inboxes
      ensures Snapshot() == Step(old(Snapshot()), Op.Emit(conversation, message, event))
    {
      var key := StreamKey(conversation, message);
      if key !in streams {
        assert forall w | w in inboxes :: inboxes[w] + [] == inboxes[w];
        assert streams - {key} == streams;
        return;
      }
      var notice := Notice(conversation, message, event);
      var todo := streams[key];
      ghost var before := Snapshot();
      while todo != {}
        invariant streams == old(streams) && todo <= streams[key]
        invariant inboxes.Keys == before.inboxes.Keys + (streams[key] - todo)
        invariant forall w | w in inboxes ::
                    inboxes[w] == Inbox(before, w) + (if w in streams[key] - todo then [notice] else [])
      {
        var subscriber :| subscriber in todo;
        inboxes := inboxes[subscriber := (if subscriber in inboxes then inboxes[subscriber] else []) + [notice]];
        todo := todo - {subscriber};
      }
      if IsTerminal(event.body) {
        streams := streams - {key};
      }
    }

    method Clear()
      modifies this`streams
      ensures Snapshot() == Step(old(Snapshot()), Op.Clear)
    {
      streams := map[];
    }
  }
}
