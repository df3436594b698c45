/** Deliveries to the bridge. */
module BridgeDeliveries {
  import opened Text
  import opened ConversationBridge

  // ---- Identities ----

  /** The metadata name one of the three platforms, a channel and a message of it. */
  predicate FromChannel(meta: Metadata) {
    && meta.source.Some? && meta.source.value.platform.Some? && meta.source.value.channelId.Some?
    && meta.messageId.Some?
    && meta.source.value.platform.value in ["tui", "telegram", "discord"]
    && meta.source.value.channelId.value != "" && meta.messageId.value != ""
  }

  predicate Names(platform: Platform, text: string) {
    match platform
    case Tui => text == "tui"
    case Telegram => text == "telegram"
    case Discord => text == "discord"
  }

  /** The source names the platform and the channel of the metadata. */
  predicate TakenFrom(source: Source, raw: RawSource) {
    && raw.platform.Some? && Names(source.platform, raw.platform.value)
    && raw.channelId == Some(source.channelId) && source.channelId != ""
  }

  /**
   A message has an identity exactly when its metadata name a platform, a channel and a message; the identity is made
   of exactly these, the conversation and the role.
   */
  lemma IdentityIff(c: string, role: Role, meta: Metadata, i: Identity)
    ensures Who(c, role, ParseSource(meta), meta.messageId).Some? <==> FromChannel(meta)
    ensures Who(c, role, ParseSource(meta), meta.messageId) == Some(i) <==>
            && FromChannel(meta) && i.conversation == c && i.role == role
            && TakenFrom(i.source, meta.source.value) && meta.messageId == Some(i.messageId)
  {
    SourceIff(meta, i.source);
  }

  lemma SourceIff(meta: Metadata, source: Source)
    ensures ParseSource(meta) == Some(source) <==> meta.source.Some? && TakenFrom(source, meta.source.value)
    ensures ParseSource(meta).Some? <==>
            && meta.source.Some? && meta.source.value.platform.Some? && meta.source.value.channelId.Some?
            && meta.source.value.platform.value in ["tui", "telegram", "discord"]
            && meta.source.value.channelId.value != ""
  {
  }

  // ---- What is stored ----

  /** `m` is the message that an addition stores. */
  predicate StoredAs(m: Stored, id: nat, role: Role, meta: Metadata) {
    && m.id == id && m.role == role && m.messageId == meta.messageId
    && (m.source.Some? ==> meta.source.Some? && TakenFrom(m.source.value, meta.source.value))
    && (FromChannel(meta) ==> m.source.Some?)
  }

  /** One message more, at the end of the conversation; all else is as before. */
  ghost predicate Grown(s: State, t: State, c: string, role: Role, meta: Metadata) {
    && c in s.conversations && t.conversations.Keys == s.conversations.Keys
    && (forall d | d in s.conversations && d != c :: t.conversations[d] == s.conversations[d])
    && |t.conversations[c]| == |s.conversations[c]| + 1 && s.conversations[c] <= t.conversations[c]
    && StoredAs(t.conversations[c][|s.conversations[c]|], |s.created|, role, meta)
    && |t.created| == |s.created| + 1 && s.created <= t.created && t.since == s.since
  }

  /** The manager stores a message in a conversation that exists, and returns its id unless it throws. */
  lemma AddMeans(s: State, c: string, role: Role, meta: Metadata, io: Io)
    ensures var (t, id) := Add(s, c, role, meta, io);
            && (id.Some? <==> c in s.conversations && io.adding == Stores)
            && (id.Some? ==> id == Some(|s.created|))
            && (c !in s.conversations || io.adding == Rejects ==> t == s)
            && (c in s.conversations && io.adding != Rejects ==> Grown(s, t, c, role, meta) && t.known == s.known)
  {
    if c in s.conversations && io.adding != Rejects {
      var t := Add(s, c, role, meta, io).0;
      var m := t.conversations[c][|s.conversations[c]|];
      if m.source.Some? {
        SourceIff(meta, m.source.value);
      }
      SourceIff(meta, Source(Tui, ""));
      assert t.conversations.Keys == s.conversations.Keys;
    }
  }

  /** The message is one of the last 200 of its conversation. */
  ghost predicate AmongLast(ms: seq<Stored>, m: Stored) {
    exists k :: 0 <= k < |ms| && k >= |ms| - 200 && ms[k] == m
  }

  lemma RecentMeans(ms: seq<Stored>, m: Stored)
    ensures m in Recent(ms) <==> AmongLast(ms, m)
  {
    var from := if |ms| <= 200 then 0 else |ms| - 200;
    if m in Recent(ms) {
      var j :| 0 <= j < |Recent(ms)| && Recent(ms)[j] == m;
      assert ms[from + j] == m;
    }
    if AmongLast(ms, m) {
      var k :| 0 <= k < |ms| && k >= |ms| - 200 && ms[k] == m;
      assert Recent(ms)[k - from] == m;
    }
  }

  lemma {:induction false} KeepMeans(ms: seq<Stored>, gone: set<nat>, m: Stored)
    ensures m in Keep(ms, gone) <==> m in ms && m.id !in gone
  {
    if ms != [] {
      KeepMeans(ms[..|ms| - 1], gone, m);
      assert ms == ms[..|ms| - 1] + [ms[|ms| - 1]];
    }
  }

  /** A message stored from the same platform, channel and message, in the same role. */
  ghost predicate SameMessage(m: Stored, role: Role, meta: Metadata) {
    && m.role == role && m.messageId == meta.messageId
    && m.source.Some? && meta.source.Some? && TakenFrom(m.source.value, meta.source.value)
  }

  lemma MatchesIff(m: Stored, c: string, role: Role, meta: Metadata)
    requires FromChannel(meta)
    ensures var who := Who(c, role, ParseSource(meta), meta.messageId);
            who.Some? && (Matches(m, who.value) <==> SameMessage(m, role, meta))
  {
    var who := Who(c, role, ParseSource(meta), meta.messageId);
    IdentityIff(c, role, meta, Identity(c, role, Source(Tui, ""), ""));
    SourceIff(meta, who.value.source);
    if m.source.Some? {
      SourceIff(meta, m.source.value);
    }
  }

  // ---- What a delivery comes to ----

  /** The history that the bridge reads shows the message already. */
  ghost predicate AlreadyThere(s: State, c: string, role: Role, meta: Metadata, id: nat) {
    c in s.conversations
    && exists m :: AmongLast(s.conversations[c], m) && SameMessage(m, role, meta) && m.id == id
  }

  lemma FindMeans(s: State, c: string, role: Role, meta: Metadata)
    requires FromChannel(meta) && c in s.conversations
    ensures var who := Who(c, role, ParseSource(meta), meta.messageId);
            && who.Some?
            && (Find(Recent(s.conversations[c]), who.value).Some? ==>
                  AlreadyThere(s, c, role, meta, Find(Recent(s.conversations[c]), who.value).value))
            && (Find(Recent(s.conversations[c]), who.value).None? ==> forall id :: !AlreadyThere(s, c, role, meta, id))
  {
    var ms := s.conversations[c];
    forall m: Stored
      ensures var who := Who(c, role, ParseSource(meta), meta.messageId);
              who.Some? && (Matches(m, who.value) <==> SameMessage(m, role, meta))
      ensures m in Recent(ms) <==> AmongLast(ms, m)
    {
      MatchesIff(m, c, role, meta);
      RecentMeans(ms, m);
    }
    FindSound(Recent(ms), Who(c, role, ParseSource(meta), meta.messageId).value);
  }

  /** The messages stored are as they were. */
  predicate SameStore(s: State, t: State) {
    t.conversations == s.conversations && t.created == s.created && t.since == s.since
  }

  /** A message from elsewhere than a channel is added each time it is delivered. */
  lemma PlainDelivery(key: Keying, s: State, c: string, role: Role, meta: Metadata, io: Io)
    requires !FromChannel(meta)
    ensures var (t, id) := Deliver(key, s, c, role, meta, io);
            && (id == None <==> c !in s.conversations || io.adding != Stores)
            && (if c in s.conversations && io.adding != Rejects then Grown(s, t, c, role, meta) else t == s)
            && (id.Some? ==> id == Some(|s.created|)) && t.known == s.known
  {
    IdentityIff(c, role, meta, Identity(c, role, Source(Tui, ""), ""));
    AddMeans(s, c, role, meta, io);
  }

  /**
   A channel message whose key the bridge does not know is looked for in the history: if it is there, its id is the
   answer, and nothing is added; if it is not, it is added. From then on the bridge knows the id that it has returned.
   Without a conversation or its history the delivery throws.
   */
  lemma ChannelDelivery(key: Keying, s: State, c: string, role: Role, meta: Metadata, io: Io, i: Identity)
    requires Who(c, role, ParseSource(meta), meta.messageId) == Some(i) && key(i) !in s.known
    ensures FromChannel(meta)
    ensures var (t, id) := Deliver(key, s, c, role, meta, io);
            if c !in s.conversations || !io.readable then t == s && id == None
            else if exists one: nat :: AlreadyThere(s, c, role, meta, one) then
              id.Some? && AlreadyThere(s, c, role, meta, id.value) && SameStore(s, t)
              && t.known == s.known[key(i) := id.value]
            else
              && (id == None <==> io.adding != Stores) && (id.Some? ==> id == Some(|s.created|))
              && (if io.adding == Rejects then t == s else Grown(s, t, c, role, meta))
              && t.known == if id.Some? then s.known[key(i) := id.value] else s.known
  {
    IdentityIff(c, role, meta, i);
    AddMeans(s, c, role, meta, io);
    if c in s.conversations {
      FindMeans(s, c, role, meta);
    }
  }

  /**
   Once a delivery from a channel has returned an id, every later delivery with the same metadata to the same bridge
   returns that id and adds nothing, whatever happens in between.
   */
  lemma ChannelRedelivery(key: Keying, before: seq<Op>, between: seq<Op>, c: string, role: Role, meta: Metadata, io: Io,
                          later: Io)
    requires FromChannel(meta) && NoRestart(between)
    requires Deliver(key, Run(key, Empty, before), c, role, meta, io).1.Some?
    ensures var (after, id) := Deliver(key, Run(key, Empty, before), c, role, meta, io);
            Deliver(key, Run(key, after, between), c, role, meta, later) == (Run(key, after, between), id)
  {
    IdentityIff(c, role, meta, Identity(c, role, Source(Tui, ""), ""));
    RedeliveryReturnsOriginal(key, before, between, c, role, meta, io, meta, later);
  }

  /** The text that stands for a message, in front of the texts for the channel and the message in it. */
  lemma KeyMeans(c: string, role: Role, meta: Metadata, i: Identity)
    requires Who(c, role, ParseSource(meta), meta.messageId) == Some(i)
    ensures var roleText := match role case User => "user" case Assistant => "assistant"
                                       case System => "system" case Tool => "tool";
            KEY(i) == c + ":" + roleText + ":" + meta.source.value.platform.value + ":"
                      + meta.source.value.channelId.value + ":" + meta.messageId.value
  {
    IdentityIff(c, role, meta, i);
    var (a, b) := (RoleText(role), PlatformText(i.source.platform));
    var (d, e) := (i.source.channelId, i.messageId);
    assert c + [':'] + (a + [':'] + (b + [':'] + (d + [':'] + e))) ==
           c + ":" + a + ":" + b + ":" + d + ":" + e;
  }
}
