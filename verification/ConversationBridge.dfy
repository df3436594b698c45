/** The channel bridge's de-duplication of redelivered messages. */
module ConversationBridge {
  import opened Text

  datatype Role = User | Assistant | System | Tool

  datatype Platform = Tui | Telegram | Discord

  datatype Source = Source(platform: Platform, channelId: string)

  /** The `channelSource` object of a message's metadata; `None` for a field that is not a string. */
  datatype RawSource = RawSource(platform: Option<string>, channelId: Option<string>)

  /** `messageId` is the `channelMessageId` when that is a string. */
  datatype Metadata = Metadata(source: Option<RawSource>, messageId: Option<string>)

  /** What makes two deliveries the same channel message. */
  datatype Identity = Identity(conversation: string, role: Role, source: Source, messageId: string)

  /** A message of a conversation. Generated message ids are the serial numbers of their creation. */
  datatype Stored = Stored(id: nat, role: Role, source: Option<Source>, messageId: Option<string>)

  /** A message creation, and whether the manager's call returned (it may also throw after storing). */
  datatype Creation = Creation(who: Option<Identity>, acknowledged: bool)

  datatype Adding = Stores | Rejects | StoresThenThrows

  /** Whether the history can be read, and what becomes of adding a message. */
  datatype Io = Io(readable: bool, adding: Adding)

  /** `since` is the number of messages created before the bridge was started. */
  datatype State = State(
    known: map<string, nat>, conversations: map<string, seq<Stored>>, created: seq<Creation>, since: nat)

  const HISTORY_LIMIT := 200
  const Empty := State(map[], map[], [], 0)

  // ---- Keys ----

  function RoleText(r: Role): string {
    match r case User => "user" case Assistant => "assistant" case System => "system" case Tool => "tool"
  }

  function PlatformText(p: Platform): string {
    match p case Tui => "tui" case Telegram => "telegram" case Discord => "discord"
  }

  function PlatformOf(t: string): Option<Platform> {
    if t == "tui" then Some(Tui)
    else if t == "telegram" then Some(Telegram)
    else if t == "discord" then Some(Discord)
    else None
  }

  /** `parseChannelSource` */
  function ParseSource(meta: Metadata): Option<Source> {
    match meta.source
    case Some(RawSource(Some(platform), Some(channelId))) =>
      if PlatformOf(platform).Some? && channelId != "" then Some(Source(PlatformOf(platform).value, channelId))
      else None
    case _ => None
  }

  function Who(conversation: string, role: Role, source: Option<Source>, messageId: Option<string>): Option<Identity> {
    if source.Some? && messageId.Some? && messageId.value != ""
    then Some(Identity(conversation, role, source.value, messageId.value))
    else None
  }

  /** The channel and message part of a key. */
  function Tail(channelId: string, messageId: string): string {
    channelId + [':'] + messageId
  }

  /** `buildDedupeKey` */
  function Key(i: Identity): string {
    i.conversation + [':'] + (RoleText(i.role) + [':'] + (PlatformText(i.source.platform) + [':']
    + Tail(i.source.channelId, i.messageId)))
  }

  /** Two keys with colon-free conversation ids are equal exactly when only the last colon can be misplaced. */
  lemma KeysEqualIff(i: Identity, j: Identity)
    requires ':' !in i.conversation && ':' !in j.conversation
    ensures Key(i) == Key(j) <==>
            && i.conversation == j.conversation && i.role == j.role && i.source.platform == j.source.platform
            && Tail(i.source.channelId, i.messageId) == Tail(j.source.channelId, j.messageId)
  {
    if Key(i) == Key(j) {
      var x := PlatformText(i.source.platform) + [':'] + Tail(i.source.channelId, i.messageId);
      var y := PlatformText(j.source.platform) + [':'] + Tail(j.source.channelId, j.messageId);
      CutFirst(i.conversation, RoleText(i.role) + [':'] + x, j.conversation, RoleText(j.role) + [':'] + y, ':');
      CutFirst(RoleText(i.role), x, RoleText(j.role), y, ':');
      CutFirst(PlatformText(i.source.platform), Tail(i.source.channelId, i.messageId),
               PlatformText(j.source.platform), Tail(j.source.channelId, j.messageId), ':');
      assert RoleText(i.role)[0] == RoleText(j.role)[0];
      assert PlatformText(i.source.platform)[1] == PlatformText(j.source.platform)[1];
    }
  }

  /** No channel id is the part of another before one of its colons. */
  predicate Separable(channels: set<string>) {
    forall a, b | a in channels && b in channels && a != b :: !(a + [':'] <= b)
  }

  lemma ColonFreeSeparable(channels: set<string>)
    requires forall a | a in channels :: ':' !in a
    ensures Separable(channels)
  {
    forall a, b | a + [':'] <= b ensures ':' in b {
      assert b[|a|] == ':';
    }
  }

  lemma TailPrefix(a: string, b: string, m: string, n: string)
    requires a != b && Tail(a, m) == Tail(b, n) && |a| <= |b|
    ensures a + [':'] <= b
  {
    var t := Tail(a, m);
    assert t[..|a|] == a && t[..|b|] == b && t[|a|] == ':';
    assert |a| < |b|;
    assert t[..|a| + 1] == a + [':'];
    assert b[..|a| + 1] == t[..|a| + 1];
  }

  /** Two channels can share a key if and only if they are not separable. */
  lemma ChannelsShareKeyIff(a: string, b: string)
    requires a != b
    ensures Separable({a, b}) <==> !(exists m, n :: m != "" && n != "" && Tail(a, m) == Tail(b, n))
  {
    if m, n :| m != "" && n != "" && Tail(a, m) == Tail(b, n) {
      if |a| <= |b| { TailPrefix(a, b, m, n); } else { TailPrefix(b, a, n, m); }
    }
    if a + [':'] <= b {
      var rest := b[|a| + 1..];
      assert Tail(a, Tail(rest, "1")) == Tail(b, "1");
    }
    if b + [':'] <= a {
      var rest := a[|b| + 1..];
      assert Tail(b, Tail(rest, "1")) == Tail(a, "1");
    }
  }

  lemma KeyInjective(i: Identity, j: Identity)
    requires ':' !in i.conversation && ':' !in j.conversation
    requires Separable({i.source.channelId, j.source.channelId}) && Key(i) == Key(j)
    ensures i == j
  {
    KeysEqualIff(i, j);
    var a, b := i.source.channelId, j.source.channelId;
    if a == b {
      assert Tail(a, i.messageId)[|a| + 1..] == i.messageId && Tail(b, j.messageId)[|a| + 1..] == j.messageId;
    } else if |a| <= |b| {
      TailPrefix(a, b, i.messageId, j.messageId);
    } else {
      TailPrefix(b, a, j.messageId, i.messageId);
    }
  }

  // ---- Steps ----

  type Keying = Identity -> string

  /** The keys the bridge uses. */
  const KEY: Keying := (i) => Key(i)

  /** The last messages, as many as the bridge asks for. */
  function Recent(ms: seq<Stored>): seq<Stored> {
    if |ms| <= HISTORY_LIMIT then ms else ms[|ms| - HISTORY_LIMIT..]
  }

  predicate Matches(m: Stored, i: Identity) {
    m.role == i.role && m.messageId == Some(i.messageId) && m.source == Some(i.source)
  }

  /** The id of the first message that matches. */
  function Find(ms: seq<Stored>, i: Identity): Option<nat> {
    if ms == [] then None else if Matches(ms[0], i) then Some(ms[0].id) else Find(ms[1..], i)
  }

  /** The conversation manager's `addMessage`: `None` when it throws. */
  function Add(s: State, conversation: string, role: Role, meta: Metadata, io: Io): (State, Option<nat>) {
    if conversation !in s.conversations || io.adding.Rejects? then (s, None)
    else
      var id := |s.created|;
      var source := ParseSource(meta);
      var message := Stored(id, role, source, meta.messageId);
      (s.(conversations := s.conversations[conversation := s.conversations[conversation] + [message]],
          created := s.created + [Creation(Who(conversation, role, source, meta.messageId), io.adding.Stores?)]),
       if io.adding.Stores? then Some(id) else None)
  }

  /** The bridge's `addMessage`: the message id it returns, or `None` when it throws. */
  function Deliver(key: Keying, s: State, conversation: string, role: Role, meta: Metadata, io: Io)
    : (State, Option<nat>)
  {
    match Who(conversation, role, ParseSource(meta), meta.messageId)
    case None => Add(s, conversation, role, meta, io)
    case Some(who) =>
      var k := key(who);
      if k in s.known then (s, Some(s.known[k]))
      else if conversation !in s.conversations || !io.readable then (s, None)
      else
        match Find(Recent(s.conversations[conversation]), who)
        case Some(id) => (s.(known := s.known[k := id]), Some(id))
        case None =>
          var (after, id) := Add(s, conversation, role, meta, io);
          (if id.Some? then after.(known := after.known[k := id.value]) else after, id)
  }

  function Keep(ms: seq<Stored>, gone: set<nat>): seq<Stored> {
    if ms == [] then []
    else Keep(ms[..|ms| - 1], gone) + (if ms[|ms| - 1].id !in gone then [ms[|ms| - 1]] else [])
  }

  /** A delivery; a conversation opened; messages removed from one (as compaction does); a restart of the bridge. */
  datatype Op =
    | Delivery(conversation: string, role: Role, meta: Metadata, io: Io)
    | Opening(conversation: string)
    | Removal(conversation: string, gone: set<nat>)
    | Restart

  function Step(key: Keying, s: State, op: Op): State {
    match op
    case Delivery(conversation, role, meta, io) => Deliver(key, s, conversation, role, meta, io).0
    case Opening(c) => if c in s.conversations then s else s.(conversations := s.conversations[c := []])
    case Removal(c, gone) =>
      if c !in s.conversations then s
      else s.(conversations := s.conversations[c := Keep(s.conversations[c], gone)])
    case Restart => s.(known := map[], since := |s.created|)
  }

  function Run(key: Keying, s: State, ops: seq<Op>): State
    decreases |ops|
  {
    if ops == [] then s else Run(key, Step(key, s, ops[0]), ops[1..])
  }

  // ---- What every run keeps ----

  ghost predicate KnownInv(key: Keying, s: State) {
    forall k | k in s.known ::
      && s.known[k] < |s.created| && s.created[s.known[k]].who.Some? && key(s.created[s.known[k]].who.value) == k
  }

  ghost predicate CreatedInv(key: Keying, s: State) {
    forall a: nat | s.since <= a < |s.created| && s.created[a].acknowledged && s.created[a].who.Some? ::
      && key(s.created[a].who.value) in s.known && s.known[key(s.created[a].who.value)] == a
  }

  ghost predicate Described(created: seq<Creation>, c: string, m: Stored) {
    m.id < |created| && created[m.id].who == Who(c, m.role, m.source, m.messageId)
  }

  ghost predicate Listed(created: seq<Creation>, c: string, ms: seq<Stored>) {
    && (forall m | m in ms :: Described(created, c, m))
    && (forall p, q | 0 <= p < q < |ms| :: ms[p].id < ms[q].id)
  }

  ghost predicate Inv(key: Keying, s: State) {
    && KnownInv(key, s) && CreatedInv(key, s)
    && forall c | c in s.conversations :: Listed(s.created, c, s.conversations[c])
  }

  lemma {:induction false} FindSound(ms: seq<Stored>, i: Identity)
    ensures Find(ms, i).Some? ==> exists m :: m in ms && m.id == Find(ms, i).value && Matches(m, i)
    ensures Find(ms, i).None? ==> forall m | m in ms :: !Matches(m, i)
  {
    if ms != [] {
      FindSound(ms[1..], i);
      assert ms[0] in ms;
    }
  }

  lemma {:induction false} KeepListed(created: seq<Creation>, c: string, ms: seq<Stored>, gone: set<nat>)
    requires Listed(created, c, ms)
    ensures Listed(created, c, Keep(ms, gone))
    ensures forall m | m in Keep(ms, gone) :: m in ms
  {
    if ms != [] {
      var (front, last) := (ms[..|ms| - 1], ms[|ms| - 1]);
      assert ms == front + [last];
      KeepListed(created, c, front, gone);
      assert forall m | m in front :: m.id < last.id;
    }
  }

  lemma AddKeepsListed(key: Keying, s: State, c: string, role: Role, meta: Metadata, io: Io)
    requires Inv(key, s)
    ensures var t := Add(s, c, role, meta, io).0;
            forall d | d in t.conversations :: Listed(t.created, d, t.conversations[d])
  {
    var t := Add(s, c, role, meta, io).0;
    forall d | d in t.conversations ensures Listed(t.created, d, t.conversations[d]) {
      var ms := s.conversations[d];
      assert Listed(s.created, d, ms);
      if d == c && t != s {
        assert t.conversations[d] == ms + [Stored(|s.created|, role, ParseSource(meta), meta.messageId)];
        assert forall p | 0 <= p < |ms| :: ms[p] in ms && Described(s.created, d, ms[p]);
      }
    }
  }

  /** A delivery of an unknown message that the history does not show either. */
  lemma NewMeans(key: Keying, s: State, c: string, role: Role, meta: Metadata, io: Io)
    requires Inv(key, s)
    requires var who := Who(c, role, ParseSource(meta), meta.messageId); who.Some? ==> key(who.value) !in s.known
    ensures var who := Who(c, role, ParseSource(meta), meta.messageId);
            var (added, id) := Add(s, c, role, meta, io);
            var t := if id.Some? && who.Some? then added.(known := added.known[key(who.value) := id.value]) else added;
            && Inv(key, t) && (id.Some? ==> id.value < |t.created| && t.created[id.value].who == who)
  {
    AddKeepsListed(key, s, c, role, meta, io);
  }

  /** A delivery of an unknown message that the history shows. */
  lemma FoundMeans(key: Keying, s: State, c: string, who: Identity)
    requires Inv(key, s) && who.conversation == c && who.messageId != "" && key(who) !in s.known
    requires c in s.conversations && Find(Recent(s.conversations[c]), who).Some?
    ensures var id := Find(Recent(s.conversations[c]), who).value;
            && id < |s.created| && s.created[id].who == Some(who)
            && Inv(key, s.(known := s.known[key(who) := id]))
  {
    var ms := Recent(s.conversations[c]);
    FindSound(ms, who);
    var m :| m in ms && m.id == Find(ms, who).value && Matches(m, who);
    assert m in s.conversations[c];
    assert Described(s.created, c, m);
  }

  /** Where the id that a delivery returns comes from. */
  lemma DeliverMeans(key: Keying, s: State, c: string, role: Role, meta: Metadata, io: Io)
    requires Inv(key, s)
    ensures var (t, id) := Deliver(key, s, c, role, meta, io);
            var who := Who(c, role, ParseSource(meta), meta.messageId);
            && Inv(key, t) && s.created <= t.created
            && (forall k | k in s.known :: k in t.known && t.known[k] == s.known[k])
            && (id.Some? ==> id.value < |t.created|)
            && (id.Some? && who.Some? ==> key(who.value) in t.known && t.known[key(who.value)] == id.value)
            && (id.Some? && (who.None? || key(who.value) !in s.known) ==> t.created[id.value].who == who)
  {
    var who := Who(c, role, ParseSource(meta), meta.messageId);
    if who.None? || key(who.value) !in s.known {
      NewMeans(key, s, c, role, meta, io);
      if who.Some? && c in s.conversations && Find(Recent(s.conversations[c]), who.value).Some? {
        FoundMeans(key, s, c, who.value);
      }
    }
  }

  lemma StepKeepsInv(key: Keying, s: State, op: Op)
    requires Inv(key, s)
    ensures Inv(key, Step(key, s, op)) && s.created <= Step(key, s, op).created
    ensures !op.Restart? ==>
              forall k | k in s.known :: k in Step(key, s, op).known && Step(key, s, op).known[k] == s.known[k]
  {
    match op
    case Delivery(c, role, meta, io) => DeliverMeans(key, s, c, role, meta, io);
    case Opening(c) =>
    case Removal(c, gone) => if c in s.conversations { KeepListed(s.created, c, s.conversations[c], gone); }
    case Restart =>
  }

  lemma {:induction false} RunKeepsInv(key: Keying, s: State, ops: seq<Op>)
    requires Inv(key, s)
    ensures Inv(key, Run(key, s, ops)) && s.created <= Run(key, s, ops).created
    decreases |ops|
  {
    if ops != [] {
      StepKeepsInv(key, s, ops[0]);
      RunKeepsInv(key, Step(key, s, ops[0]), ops[1..]);
    }
  }

  predicate NoRestart(ops: seq<Op>) {
    forall op | op in ops :: !op.Restart?
  }

  lemma {:induction false} RunKeepsKnown(key: Keying, s: State, ops: seq<Op>)
    requires Inv(key, s) && NoRestart(ops)
    ensures Run(key, s, ops).since == s.since
    ensures forall k | k in s.known :: k in Run(key, s, ops).known && Run(key, s, ops).known[k] == s.known[k]
    decreases |ops|
  {
    if ops != [] {
      assert ops[0] in ops;
      StepKeepsInv(key, s, ops[0]);
      RunKeepsKnown(key, Step(key, s, ops[0]), ops[1..]);
    }
  }

  /**
   After any run, a conversation holds at most one message of a given identity, not counting messages whose
   addition threw after storing them and those stored before the bridge was last started.
   */
  lemma StoredAtMostOnce(key: Keying, ops: seq<Op>, c: string, p: nat, q: nat)
    requires c in Run(key, Empty, ops).conversations && p < q < |Run(key, Empty, ops).conversations[c]|
    requires var ms := Run(key, Empty, ops).conversations[c];
             && Who(c, ms[p].role, ms[p].source, ms[p].messageId).Some?
             && Who(c, ms[p].role, ms[p].source, ms[p].messageId) == Who(c, ms[q].role, ms[q].source, ms[q].messageId)
    ensures var (s, ms) := (Run(key, Empty, ops), Run(key, Empty, ops).conversations[c]);
            && ms[p].id < |s.created| && ms[q].id < |s.created|
            && (!s.created[ms[p].id].acknowledged || !s.created[ms[q].id].acknowledged || ms[p].id < s.since)
  {
    RunKeepsInv(key, Empty, ops);
    var ms := Run(key, Empty, ops).conversations[c];
    assert ms[p] in ms && ms[q] in ms;
  }

  /** Indeed one bridge has the manager add such a message successfully at most once. */
  lemma AddedAtMostOnce(key: Keying, ops: seq<Op>, a: nat, b: nat)
    requires Run(key, Empty, ops).since <= a < |Run(key, Empty, ops).created|
    requires Run(key, Empty, ops).since <= b < |Run(key, Empty, ops).created|
    requires var created := Run(key, Empty, ops).created;
             && created[a].who.Some? && created[a].who == created[b].who
             && created[a].acknowledged && created[b].acknowledged
    ensures a == b
  {
    RunKeepsInv(key, Empty, ops);
  }

  predicate NeverTorn(ops: seq<Op>) {
    forall op | op in ops :: op.Delivery? ==> !op.io.adding.StoresThenThrows?
  }

  lemma {:induction false} AllAcknowledged(key: Keying, s: State, ops: seq<Op>)
    requires NeverTorn(ops) && forall k | 0 <= k < |s.created| :: s.created[k].acknowledged
    ensures forall k | 0 <= k < |Run(key, s, ops).created| :: Run(key, s, ops).created[k].acknowledged
    decreases |ops|
  {
    if ops != [] {
      assert ops[0] in ops;
      AllAcknowledged(key, Step(key, s, ops[0]), ops[1..]);
    }
  }

  /** When no addition throws after storing and nothing restarts, the bound holds of every message in the store. */
  lemma StoredOnceWhenNeverTorn(key: Keying, ops: seq<Op>, c: string, p: nat, q: nat)
    requires NeverTorn(ops) && NoRestart(ops) && c in Run(key, Empty, ops).conversations
    requires p < q < |Run(key, Empty, ops).conversations[c]|
    ensures var ms := Run(key, Empty, ops).conversations[c];
            Who(c, ms[p].role, ms[p].source, ms[p].messageId) == Who(c, ms[q].role, ms[q].source, ms[q].messageId)
            ==> Who(c, ms[p].role, ms[p].source, ms[p].messageId).None?
  {
    var ms := Run(key, Empty, ops).conversations[c];
    if Who(c, ms[p].role, ms[p].source, ms[p].messageId) == Who(c, ms[q].role, ms[q].source, ms[q].messageId)
       && Who(c, ms[p].role, ms[p].source, ms[p].messageId).Some? {
      StoredAtMostOnce(key, ops, c, p, q);
      RunKeepsKnown(key, Empty, ops);
      AllAcknowledged(key, Empty, ops);
    }
  }

  /**
   Once a delivery has returned an id, every later delivery of the same channel message to the same bridge returns that
   id and adds nothing, whatever happens in between, even if the message has left the conversation.
   */
  lemma RedeliveryReturnsOriginal(key: Keying, before: seq<Op>, between: seq<Op>, c: string, role: Role,
                                  meta: Metadata, io: Io, again: Metadata, later: Io)
    requires Who(c, role, ParseSource(meta), meta.messageId).Some?
    requires Who(c, role, ParseSource(again), again.messageId) == Who(c, role, ParseSource(meta), meta.messageId)
    requires Deliver(key, Run(key, Empty, before), c, role, meta, io).1.Some? && NoRestart(between)
    ensures var (after, id) := Deliver(key, Run(key, Empty, before), c, role, meta, io);
            Deliver(key, Run(key, after, between), c, role, again, later) == (Run(key, after, between), id)
  {
    RunKeepsInv(key, Empty, before);
    DeliverMeans(key, Run(key, Empty, before), c, role, meta, io);
    RunKeepsKnown(key, Deliver(key, Run(key, Empty, before), c, role, meta, io).0, between);
  }

  lemma {:induction false} FindLast(ms: seq<Stored>, m: Stored, i: Identity)
    requires Matches(m, i) && Find(ms, i).None?
    ensures Find(ms + [m], i) == Some(m.id)
  {
    if ms == [] {
      assert ms + [m] == [m];
    } else {
      assert (ms + [m])[1..] == ms[1..] + [m];
      FindLast(ms[1..], m, i);
    }
  }

  /** An addition that threw after storing is found again in the history: redelivery returns its id, adds nothing. */
  lemma RedeliveryAfterTornAdd(key: Keying, s: State, c: string, role: Role, meta: Metadata, later: Io)
    requires var who := Who(c, role, ParseSource(meta), meta.messageId);
             && who.Some? && key(who.value) !in s.known
             && c in s.conversations && Find(Recent(s.conversations[c]), who.value).None? && later.readable
    ensures var (torn, none) := Deliver(key, s, c, role, meta, Io(true, StoresThenThrows));
            var (after, id) := Deliver(key, torn, c, role, meta, later);
            && none == None && |torn.created| == |s.created| + 1
            && id == Some(|s.created|) && after.created == torn.created && after.conversations == torn.conversations
  {
    var who := Who(c, role, ParseSource(meta), meta.messageId).value;
    var ms := s.conversations[c];
    var m := Stored(|s.created|, role, ParseSource(meta), meta.messageId);
    if |ms| < HISTORY_LIMIT {
      FindLast(ms, m, who);
      assert Recent(ms + [m]) == ms + [m];
    } else {
      var recent := Recent(ms);
      assert !Matches(recent[0], who);
      FindLast(recent[1..], m, who);
      assert Recent(ms + [m]) == recent[1..] + [m];
    }
  }

  /** The key is unknown, and exactly the creation `r` is of this message. */
  ghost predicate Forgotten(key: Keying, s: State, who: Identity, r: nat) {
    && key(who) !in s.known && who.conversation in s.conversations
    && r < |s.created| && s.created[r].who == Some(who)
    && (forall k | 0 <= k < |s.created| && k != r :: s.created[k].who != Some(who))
  }

  /** The operation delivers no message with the key of this one. */
  predicate OtherKey(key: Keying, op: Op, who: Identity) {
    op.Delivery? ==>
      var other := Who(op.conversation, op.role, ParseSource(op.meta), op.meta.messageId);
      other.Some? ==> key(other.value) != key(who)
  }

  lemma StepKeepsForgotten(key: Keying, s: State, op: Op, who: Identity, r: nat)
    requires Forgotten(key, s, who, r) && OtherKey(key, op, who)
    ensures Forgotten(key, Step(key, s, op), who, r)
  {
  }

  lemma {:induction false} RunKeepsForgotten(key: Keying, s: State, ops: seq<Op>, who: Identity, r: nat)
    requires Forgotten(key, s, who, r) && forall op | op in ops :: OtherKey(key, op, who)
    ensures Forgotten(key, Run(key, s, ops), who, r)
    decreases |ops|
  {
    if ops != [] {
      assert ops[0] in ops;
      StepKeepsForgotten(key, s, ops[0], who, r);
      RunKeepsForgotten(key, Step(key, s, ops[0]), ops[1..], who, r);
    }
  }

  predicate Shown(ms: seq<Stored>, id: nat) {
    exists m | m in ms :: m.id == id
  }

  lemma FoundIffShown(key: Keying, s: State, who: Identity, r: nat)
    requires Inv(key, s) && Forgotten(key, s, who, r) && who.messageId != ""
    ensures Find(Recent(s.conversations[who.conversation]), who) ==
            if Shown(Recent(s.conversations[who.conversation]), r) then Some(r) else None
  {
    var all := s.conversations[who.conversation];
    var ms := Recent(all);
    FindSound(ms, who);
    forall m | m in ms ensures Matches(m, who) <==> m.id == r {
      assert m in all && Described(s.created, who.conversation, m);
    }
  }

  /**
   A message whose addition threw after storing it, delivered again after any operations that do not deliver its key:
   it is stored a second time if and only if it is no longer among the last 200 messages of its conversation, and is
   answered with its first id otherwise.
   */
  lemma TornRedeliveryIff(key: Keying, s: State, who: Identity, r: nat, between: seq<Op>, meta: Metadata, later: Io)
    requires Inv(key, s) && Forgotten(key, s, who, r) && forall op | op in between :: OtherKey(key, op, who)
    requires Who(who.conversation, who.role, ParseSource(meta), meta.messageId) == Some(who)
    requires later == Io(true, Stores)
    ensures var now := Run(key, s, between);
            var (after, id) := Deliver(key, now, who.conversation, who.role, meta, later);
            && who.conversation in now.conversations
            && if Shown(Recent(now.conversations[who.conversation]), r)
               then id == Some(r) && after.created == now.created
               else id == Some(|now.created|) && after.created == now.created + [Creation(Some(who), true)]
  {
    RunKeepsInv(key, s, between);
    RunKeepsForgotten(key, s, between, who, r);
    FoundIffShown(key, Run(key, s, between), who, r);
  }

  /** Messages are created in conversations that exist. */
  ghost predicate Placed(s: State) {
    forall k | 0 <= k < |s.created| && s.created[k].who.Some? ::
      s.created[k].who.value.conversation in s.conversations
  }

  lemma StepKeepsPlaces(key: Keying, s: State, op: Op)
    requires Placed(s)
    ensures Placed(Step(key, s, op))
  {
  }

  lemma {:induction false} RunKeepsPlaces(key: Keying, s: State, ops: seq<Op>)
    requires Placed(s)
    ensures Placed(Run(key, s, ops))
    decreases |ops|
  {
    if ops != [] {
      StepKeepsPlaces(key, s, ops[0]);
      RunKeepsPlaces(key, Step(key, s, ops[0]), ops[1..]);
    }
  }

  /** A restart leaves a message that was stored once in the store only. */
  lemma RestartForgets(key: Keying, before: seq<Op>, who: Identity, r: nat)
    requires NeverTorn(before) && NoRestart(before)
    requires r < |Run(key, Empty, before).created| && Run(key, Empty, before).created[r].who == Some(who)
    ensures var s := Step(key, Run(key, Empty, before), Restart); Inv(key, s) && Forgotten(key, s, who, r)
  {
    var s := Run(key, Empty, before);
    RunKeepsInv(key, Empty, before);
    RunKeepsKnown(key, Empty, before);
    RunKeepsPlaces(key, Empty, before);
    AllAcknowledged(key, Empty, before);
    forall k | 0 <= k < |s.created| && k != r ensures s.created[k].who != Some(who) {
      if s.created[k].who == Some(who) {
        AddedAtMostOnce(key, before, k, r);
      }
    }
  }

  /**
   A stored message that is delivered again after a restart, and after any operations that do not deliver its key: it
   is stored a second time if and only if it is no longer among the last 200 messages of its conversation.
   */
  lemma RestartRedeliveryIff(key: Keying, before: seq<Op>, who: Identity, r: nat, between: seq<Op>, meta: Metadata,
                             later: Io)
    requires NeverTorn(before) && NoRestart(before)
    requires r < |Run(key, Empty, before).created| && Run(key, Empty, before).created[r].who == Some(who)
    requires forall op | op in between :: OtherKey(key, op, who)
    requires Who(who.conversation, who.role, ParseSource(meta), meta.messageId) == Some(who)
    requires later == Io(true, Stores)
    ensures var now := Run(key, Step(key, Run(key, Empty, before), Restart), between);
            var (after, id) := Deliver(key, now, who.conversation, who.role, meta, later);
            && who.conversation in now.conversations
            && if Shown(Recent(now.conversations[who.conversation]), r)
               then id == Some(r) && after.created == now.created
               else id == Some(|now.created|) && after.created == now.created + [Creation(Some(who), true)]
  {
    RestartForgets(key, before, who, r);
    TornRedeliveryIff(key, Step(key, Run(key, Empty, before), Restart), who, r, between, meta, later);
  }

  /** The state after an addition that threw after storing, of a message never seen before. */
  lemma TornState(key: Keying, before: seq<Op>, who: Identity, meta: Metadata)
    requires Who(who.conversation, who.role, ParseSource(meta), meta.messageId) == Some(who)
    requires var s := Run(key, Empty, before);
             && key(who) !in s.known && who.conversation in s.conversations
             && forall k | 0 <= k < |s.created| :: s.created[k].who != Some(who)
    ensures var s := Run(key, Empty, before);
            var torn := Deliver(key, s, who.conversation, who.role, meta, Io(true, StoresThenThrows)).0;
            && Inv(key, torn) && Forgotten(key, torn, who, |s.created|)
            && torn.conversations[who.conversation] ==
               s.conversations[who.conversation] + [Stored(|s.created|, who.role, ParseSource(meta), meta.messageId)]
  {
    var s := Run(key, Empty, before);
    var all := s.conversations[who.conversation];
    RunKeepsInv(key, Empty, before);
    FindSound(Recent(all), who);
    forall m | m in Recent(all) ensures !Matches(m, who) {
      assert m in all && Described(s.created, who.conversation, m);
    }
    DeliverMeans(key, s, who.conversation, who.role, meta, Io(true, StoresThenThrows));
  }

  /** As many messages from elsewhere than a channel. */
  function Fill(c: string, n: nat): seq<Op> {
    if n == 0 then [] else [Delivery(c, User, Metadata(None, None), Io(true, Stores))] + Fill(c, n - 1)
  }

  lemma {:induction false} FillAdds(key: Keying, s: State, c: string, n: nat)
    requires c in s.conversations
    ensures var now := Run(key, s, Fill(c, n));
            && c in now.conversations && |now.conversations[c]| == |s.conversations[c]| + n
            && s.conversations[c] <= now.conversations[c]
            && (forall i | |s.conversations[c]| <= i < |now.conversations[c]| ::
                  now.conversations[c][i].id >= |s.created|)
    ensures forall op, who | op in Fill(c, n) :: OtherKey(key, op, who)
    decreases n
  {
    if n > 0 {
      var op := Delivery(c, User, Metadata(None, None), Io(true, Stores));
      assert Fill(c, n)[1..] == Fill(c, n - 1);
      FillAdds(key, Step(key, s, op), c, n - 1);
    }
  }

  /** After 200 further messages a torn one is stored a second time. */
  lemma TornStoredTwice(key: Keying, who: Identity, meta: Metadata)
    requires Who(who.conversation, who.role, ParseSource(meta), meta.messageId) == Some(who)
    ensures var c := who.conversation;
            var torn := Deliver(key, Run(key, Empty, [Opening(c)]), c, who.role, meta, Io(true, StoresThenThrows)).0;
            var now := Run(key, torn, Fill(c, 200));
            var after := Deliver(key, now, c, who.role, meta, Io(true, Stores)).0;
            && |now.created| > 0 && now.created[0].who == Some(who)
            && after.created == now.created + [Creation(Some(who), true)]
  {
    var c := who.conversation;
    var start := Run(key, Empty, [Opening(c)]);
    var ops := [Opening(c)];
    assert ops[1..] == [];
    assert Run(key, Empty, ops) == Run(key, Step(key, Empty, ops[0]), ops[1..]) == Step(key, Empty, ops[0]);
    TornState(key, [Opening(c)], who, meta);
    var torn := Deliver(key, start, c, who.role, meta, Io(true, StoresThenThrows)).0;
    FillAdds(key, torn, c, HISTORY_LIMIT);
    TornRedeliveryIff(key, torn, who, 0, Fill(c, HISTORY_LIMIT), meta, Io(true, Stores));
    RunKeepsForgotten(key, torn, Fill(c, HISTORY_LIMIT), who, 0);
    var now := Run(key, torn, Fill(c, HISTORY_LIMIT));
    assert forall i | 0 <= i < HISTORY_LIMIT :: Recent(now.conversations[c])[i] == now.conversations[c][i + 1];
    assert !Shown(Recent(now.conversations[c]), 0);
  }

  lemma RunOfTwo(key: Keying, s: State, a: Op, b: Op)
    ensures Run(key, s, [a, b]) == Step(key, Step(key, s, a), b)
  {
    assert [a, b][1..] == [b] && [b][1..] == [];
    assert Run(key, Step(key, s, a), [b]) == Step(key, Step(key, s, a), b);
  }

  /** So is one that was acknowledged, when the bridge has restarted. */
  lemma RestartStoredTwice(key: Keying, who: Identity, meta: Metadata)
    requires Who(who.conversation, who.role, ParseSource(meta), meta.messageId) == Some(who)
    ensures var c := who.conversation;
            var first := Run(key, Empty, [Opening(c), Delivery(c, who.role, meta, Io(true, Stores))]);
            var now := Run(key, Step(key, first, Restart), Fill(c, 200));
            var after := Deliver(key, now, c, who.role, meta, Io(true, Stores)).0;
            && first.created == [Creation(Some(who), true)] && first.created <= now.created
            && after.created == now.created + [Creation(Some(who), true)]
  {
    var c := who.conversation;
    var (open, add) := (Opening(c), Delivery(c, who.role, meta, Io(true, Stores)));
    RunOfTwo(key, Empty, open, add);
    var first := Run(key, Empty, [open, add]);
    assert first.conversations[c] == [] + [Stored(0, who.role, ParseSource(meta), meta.messageId)];
    var again := Step(key, first, Restart);
    FillAdds(key, again, c, HISTORY_LIMIT);
    RestartForgets(key, [open, add], who, 0);
    RunKeepsInv(key, again, Fill(c, HISTORY_LIMIT));
    RestartRedeliveryIff(key, [open, add], who, 0, Fill(c, HISTORY_LIMIT), meta, Io(true, Stores));
    var now := Run(key, again, Fill(c, HISTORY_LIMIT));
    assert forall i | 0 <= i < HISTORY_LIMIT :: Recent(now.conversations[c])[i] == now.conversations[c][i + 1];
    assert !Shown(Recent(now.conversations[c]), 0);
  }

  // ---- Different messages are not merged ----

  ghost predicate Distinguishable(created: seq<Creation>, channels: set<string>) {
    forall x | x in created && x.who.Some? ::
      ':' !in x.who.value.conversation && x.who.value.source.channelId in channels
  }

  /** The conversation ids have no colon, as generated ones do not, and the channels are among the given ones. */
  predicate Within(ops: seq<Op>, channels: set<string>) {
    forall op | op in ops && op.Delivery? ::
      && ':' !in op.conversation && (ParseSource(op.meta).Some? ==> ParseSource(op.meta).value.channelId in channels)
  }

  lemma {:induction false} RunDistinguishable(key: Keying, s: State, ops: seq<Op>, channels: set<string>)
    requires Within(ops, channels) && Distinguishable(s.created, channels)
    ensures Distinguishable(Run(key, s, ops).created, channels)
    decreases |ops|
  {
    if ops != [] {
      assert ops[0] in ops;
      RunDistinguishable(key, Step(key, s, ops[0]), ops[1..], channels);
    }
  }

  lemma KnownIsOwn(s: State, channels: set<string>, who: Identity)
    requires KnownInv(KEY, s) && Distinguishable(s.created, channels) && Separable(channels)
    requires ':' !in who.conversation && who.source.channelId in channels && KEY(who) in s.known
    ensures s.known[KEY(who)] < |s.created| && s.created[s.known[KEY(who)]].who == Some(who)
  {
    var other := s.created[s.known[KEY(who)]];
    assert other in s.created;
    KeyInjective(who, other.who.value);
  }

  /**
   With separable channels, colon-free ones in particular, the id that a delivery returns was created for a message
   with the same conversation, role, platform, channel and channel message id (or for one without, when it has none).
   */
  lemma NeverMerged(ops: seq<Op>, channels: set<string>, c: string, role: Role, meta: Metadata, io: Io)
    requires Separable(channels) && Within(ops, channels) && ':' !in c
    requires ParseSource(meta).Some? ==> ParseSource(meta).value.channelId in channels
    ensures var (after, id) := Deliver(KEY, Run(KEY, Empty, ops), c, role, meta, io);
            id.Some? ==> id.value < |after.created|
                         && after.created[id.value].who == Who(c, role, ParseSource(meta), meta.messageId)
  {
    var s := Run(KEY, Empty, ops);
    var who := Who(c, role, ParseSource(meta), meta.messageId);
    RunKeepsInv(KEY, Empty, ops);
    RunDistinguishable(KEY, Empty, ops, channels);
    if who.Some? && KEY(who.value) in s.known {
      KnownIsOwn(s, channels, who.value);
    } else {
      DeliverMeans(KEY, s, c, role, meta, io);
    }
  }

  /** A delivery is answered with the id of another message that the bridge added if and only if the keys are equal. */
  lemma MergedIffKeysEqual(ops: seq<Op>, c: string, role: Role, meta: Metadata, io: Io, a: nat)
    requires Run(KEY, Empty, ops).since <= a < |Run(KEY, Empty, ops).created|
    requires Run(KEY, Empty, ops).created[a].acknowledged
    requires var (who, other) := (Who(c, role, ParseSource(meta), meta.messageId), Run(KEY, Empty, ops).created[a].who);
             who.Some? && other.Some? && who != other
    ensures Deliver(KEY, Run(KEY, Empty, ops), c, role, meta, io).1 == Some(a) <==>
            Key(Who(c, role, ParseSource(meta), meta.messageId).value) == Key(Run(KEY, Empty, ops).created[a].who.value)
  {
    RunKeepsInv(KEY, Empty, ops);
    DeliverMeans(KEY, Run(KEY, Empty, ops), c, role, meta, io);
  }

  // ---- The objects ----

  class Manager {
    var conversations: map<string, seq<Stored>>
    var created: seq<Creation>

    constructor ()
      ensures conversations == map[] && created == []
    {
      conversations, created := map[], [];
    }

    method Create(id: string)
      modifies this`conversations
      ensures conversations ==
              if id in old(conversations) then old(conversations) else old(conversations)[id := []]
    {
      if id !in conversations {
        conversations := conversations[id := []];
      }
    }

    method GetHistory(conversation: string, io: Io) returns (history: Option<seq<Stored>>)
      ensures history ==
              if conversation in conversations && io.readable then Some(Recent(conversations[conversation])) else None
    {
      if conversation !in conversations || !io.readable {
        return None;
      }
      var messages := conversations[conversation];
      history := Some(if |messages| > HISTORY_LIMIT then messages[|messages| - HISTORY_LIMIT..] else messages);
    }

    method AddMessage(conversation: string, role: Role, meta: Metadata, io: Io, ghost known: map<string, nat>,
                      ghost since: nat)
      returns (id: Option<nat>)
      modifies this
      ensures (State(known, conversations, created, since), id) ==
              Add(old(State(known, conversations, created, since)), conversation, role, meta, io)
    {
      if conversation !in conversations || io.adding.Rejects? {
        return None;
      }
      var source := ParseSource(meta);
      var message := Stored(|created|, role, source, meta.messageId);
      conversations := conversations[conversation := conversations[conversation] + [message]];
      created := created + [Creation(Who(conversation, role, source, meta.messageId), io.adding.Stores?)];
      id := if io.adding.Stores? then Some(message.id) else None;
    }
  }

  class Bridge {
    const manager: Manager
    var known: map<string, nat>
    ghost const since: nat

    ghost function Snapshot(): State
      reads this, manager
    {
      State(known, manager.conversations, manager.created, since)
    }

    /** A bridge over a conversation manager that may already hold messages, as after a restart. */
    constructor (manager: Manager, ghost before: State)
      requires before.conversations == manager.conversations && before.created == manager.created
      ensures this.manager == manager && Snapshot() == Step(KEY, before, Restart)
    {
      this.manager := manager;
      known, since := map[], |manager.created|;
    }

    method AddMessage(conversation: string, role: Role, meta: Metadata, io: Io) returns (id: Option<nat>)
      modifies this, manager
      ensures (Snapshot(), id) == Deliver(KEY, old(Snapshot()), conversation, role, meta, io)
    {
      var who := Who(conversation, role, ParseSource(meta), meta.messageId);
      if who.Some? {
        var key := Key(who.value);
        if key in known {
          return Some(known[key]);
        }
        var history := manager.GetHistory(conversation, io);
        if history.None? {
          return None;
        }
        var duplicate := Find(history.value, who.value);
        if duplicate.Some? {
          known := known[key := duplicate.value];
          return duplicate;
        }
      }
      id := manager.AddMessage(conversation, role, meta, io, known, since);
      if who.Some? && id.Some? {
        known := known[Key(who.value) := id.value];
      }
    }
  }
}
