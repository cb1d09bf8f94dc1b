/** The per-channel event registry as values: the in-memory `activeEvents`
    map and the persisted document, and what each handler makes of them. The
    class in module Bot performs these transitions in place; the lemmas here
    relate several of them. */
module Lifecycle {
  import opened Events

  datatype Registry = Registry(active: map<ChannelId, ActiveEvent>, store: Store)

  /** Every participant Set lists each user once. */
  predicate WellFormed(active: map<ChannelId, ActiveEvent>)
  {
    forall ch :: ch in active ==> Distinct(active[ch].participants)
  }

  // ---------------------------------------------------------------- start

  predicate IsTextChannel(channel: Option<Channel>)
  {
    channel.Some? && channel.value.isText
  }

  function EndTime(req: StartRequest, now: int): (endTime: int)
  {
    now + req.duration * MsPerMinute
  }

  function NewEvent(req: StartRequest, now: int): (ev: ActiveEvent)
  {
    ActiveEvent(EndTime(req, now), req.winners, req.prize, [], req.role,
                Multiplier(req.multiplier), req.guildId)
  }

  function NewRecord(req: StartRequest, now: int): (rec: SavedEvent)
    requires req.channel.Some?
  {
    SavedEvent(req.channel.value.id, EndTime(req, now), req.winners, req.prize,
               map[], req.guildId, req.role, Multiplier(req.multiplier))
  }

  /** `/startevent`: a non-text channel is refused; otherwise the channel's
      entry is overwritten, running or not, in memory and in the document. */
  function AfterStart(reg: Registry, req: StartRequest, now: int, g: Gist): (r: Registry)
    ensures !IsTextChannel(req.channel) ==> r == reg
    ensures IsTextChannel(req.channel) ==> r.active.Keys == reg.active.Keys + {req.channel.value.id}
  {
    if !IsTextChannel(req.channel) then reg
    else
      var ch := req.channel.value.id;
      Registry(reg.active[ch := NewEvent(req, now)],
               Save(reg.store, Load(reg.store, g)[ch := NewRecord(req, now)], g))
  }

  // --------------------------------------------------------------- record

  /** One `messageCreate` event, with the author's roles and the outcome of
      the handler's load and save. */
  datatype Message = Message(channel: ChannelId, author: Author, roles: set<RoleId>, gist: Gist)

  /** Whether the message is ignored: a bot author, no event in the channel,
      or an author already in the participant Set. */
  predicate Ignored(reg: Registry, m: Message)
  {
    m.author.bot || m.channel !in reg.active || m.author.id in reg.active[m.channel].participants
  }

  /** `messageCreate`: a new participant joins the Set; their weight is
      written to the channel's persisted record when the document has one. */
  function AfterRecord(reg: Registry, m: Message): (r: Registry)
    ensures r.active.Keys == reg.active.Keys
    ensures r.store.Keys == reg.store.Keys
    ensures Ignored(reg, m) ==> r == reg
  {
    if Ignored(reg, m) then reg
    else
      var ev := reg.active[m.channel];
      var active := reg.active[m.channel := ev.(participants := ev.participants + [m.author.id])];
      var saved := Load(reg.store, m.gist);
      if m.channel in saved then
        var rec := saved[m.channel];
        var rec' := rec.(participants := rec.participants[m.author.id := EntryWeight(ev, m.roles)]);
        Registry(active, Save(reg.store, saved[m.channel := rec'], m.gist))
      else
        Registry(active, reg.store)
  }

  /** A run of messages, handled one after the other. */
  function AfterMessages(reg: Registry, msgs: seq<Message>): (r: Registry)
    decreases |msgs|
  {
    if msgs == [] then reg else AfterMessages(AfterRecord(reg, msgs[0]), msgs[1..])
  }

  // ------------------------------------------------------------------ end

  /** `endEvent` and `/endevent` alike: with no event nothing happens;
      otherwise the channel leaves `activeEvents` and the loaded document. */
  function AfterEnd(reg: Registry, ch: ChannelId, g: Gist): (r: Registry)
    ensures ch !in r.active
    ensures r.active == reg.active - {ch}
  {
    if ch !in reg.active then reg
    else Registry(reg.active - {ch}, Save(reg.store, Load(reg.store, g) - {ch}, g))
  }

  // --------------------------------------------------------------- resume

  /** Whether a saved event survives the restart: time is left and its
      channel can be fetched. */
  predicate Live(ch: ChannelId, s: SavedEvent, now: int, fetchable: set<ChannelId>)
  {
    s.endTime - now > 0 && ch in fetchable
  }

  /** The saved events that the `ready` handler does not delete. */
  function Kept(saved: Store, now: int, fetchable: set<ChannelId>): (kept: Store)
    ensures kept.Keys <= saved.Keys
    ensures forall ch :: ch in saved ==> (ch in kept <==> Live(ch, saved[ch], now, fetchable))
    ensures forall ch :: ch in kept ==> kept[ch] == saved[ch]
  {
    map ch | ch in saved && Live(ch, saved[ch], now, fetchable) :: saved[ch]
  }

  /** An in-memory event rebuilt from a saved one: every field copied, and the
      participant Set made of the keys of the persisted weights. */
  predicate RestoredFrom(ev: ActiveEvent, s: SavedEvent)
  {
    && ev.endTime == s.endTime
    && ev.winnersCount == s.winnersCount
    && ev.prize == s.prize
    && ev.multiplierRoleId == s.multiplierRoleId
    && ev.multiplierCount == s.multiplierCount
    && ev.guildId == s.guildId
    && Distinct(ev.participants)
    && Members(ev.participants) == s.participants.Keys
  }

  /** The channel's participant Set and its persisted weights name the same
      users. */
  predicate InSync(reg: Registry, ch: ChannelId)
  {
    ch in reg.active && ch in reg.store
    && Members(reg.active[ch].participants) == reg.store[ch].participants.Keys
  }

  // --------------------------------------------------------------- lemmas

  /** Start never rejects a text channel: whatever ran there before, the
      channel now holds a fresh event with no participants ending `duration`
      minutes from now, and (when the document was read and written) a
      matching record with no weights. Other channels are untouched. */
  lemma StartReplaces(reg: Registry, req: StartRequest, now: int, g: Gist)
    requires IsTextChannel(req.channel)
    ensures var r := AfterStart(reg, req, now, g);
      var ch := req.channel.value.id;
      && ch in r.active
      && r.active[ch].participants == []
      && r.active[ch].endTime == now + req.duration * MsPerMinute
      && r.active[ch].multiplierCount == Multiplier(req.multiplier)
      && (forall c :: c in reg.active && c != ch ==> r.active[c] == reg.active[c])
      && (g.readable && g.writable ==>
            && r.store == reg.store[ch := NewRecord(req, now)]
            && r.store[ch].participants == map[]
            && RestoredFrom(r.active[ch], r.store[ch]))
  {
  }

  /** Starting then ending an event in a channel, with the document readable
      and writable throughout, leaves no trace of that channel and touches no
      other. */
  lemma StartThenEnd(reg: Registry, req: StartRequest, now: int, g1: Gist, g2: Gist)
    requires IsTextChannel(req.channel)
    requires g1.readable && g1.writable && g2.readable && g2.writable
    ensures var ch := req.channel.value.id;
      AfterEnd(AfterStart(reg, req, now, g1), ch, g2)
        == Registry(reg.active - {ch}, reg.store - {ch})
  {
  }

  /** Ending removes the channel everywhere: from memory always, and from the
      document whenever the write succeeds. With no event it changes nothing. */
  lemma EndRemovesChannel(reg: Registry, ch: ChannelId, g: Gist)
    ensures var r := AfterEnd(reg, ch, g);
      && ch !in r.active
      && (ch in reg.active && g.writable ==> ch !in r.store)
      && (ch in reg.active && g.readable && g.writable ==> r.store == reg.store - {ch})
      && (ch !in reg.active ==> r == reg)
  {
  }

  /** A failed load followed by a successful save erases every saved event,
      not only the ended one. */
  lemma EndAfterFailedLoadWipesStore(reg: Registry, ch: ChannelId, g: Gist)
    requires ch in reg.active && !g.readable && g.writable
    ensures AfterEnd(reg, ch, g).store == map[]
  {
  }

  /** A new participant's persisted weight is the multiplier when the event
      has a multiplier role and the member holds it, and 1 otherwise. Nothing
      else changes: not the other events, not the event's other fields, not
      the other records and not the other weights. */
  lemma FirstMessageSetsWeight(reg: Registry, m: Message)
    requires !Ignored(reg, m)
    requires m.channel in reg.store && m.gist.readable && m.gist.writable
    ensures var r := AfterRecord(reg, m);
      var ev := reg.active[m.channel];
      && r.active[m.channel].participants == ev.participants + [m.author.id]
      && m.author.id in r.store[m.channel].participants
      && r.store[m.channel].participants[m.author.id]
           == (if ev.multiplierRoleId.Some? && ev.multiplierRoleId.value in m.roles
               then ev.multiplierCount else 1)
      && var rec := reg.store[m.channel];
      && r.active == reg.active[m.channel := ev.(participants := ev.participants + [m.author.id])]
      && r.store == reg.store[m.channel := rec.(participants := rec.participants[m.author.id := EntryWeight(ev, m.roles)])]
  {
  }

  /** Without a persisted record for the channel, a new participant only
      joins the in-memory Set. */
  lemma RecordWithoutRecordTouchesMemoryOnly(reg: Registry, m: Message)
    requires !Ignored(reg, m)
    requires m.channel !in reg.store
    ensures var r := AfterRecord(reg, m);
      && r.store == reg.store
      && r.active == reg.active[m.channel := reg.active[m.channel].(
           participants := reg.active[m.channel].participants + [m.author.id])]
  {
  }

  /** A second message from the same author in the same channel changes
      nothing, whatever roles it carries and whatever its I/O does. */
  lemma RecordIdempotent(reg: Registry, m: Message, m': Message)
    requires m'.channel == m.channel && m'.author == m.author
    ensures AfterRecord(AfterRecord(reg, m), m') == AfterRecord(reg, m)
  {
  }

  /** Recording keeps every participant Set free of repetitions. */
  lemma RecordKeepsWellFormed(reg: Registry, m: Message)
    requires WellFormed(reg.active)
    ensures WellFormed(AfterRecord(reg, m).active)
  {
  }

  /** Whether `u` is a participant of the channel's event with persisted
      weight `w`. */
  predicate HasWeight(reg: Registry, ch: ChannelId, u: UserId, w: int)
  {
    && ch in reg.active && u in reg.active[ch].participants
    && ch in reg.store && u in reg.store[ch].participants
    && reg.store[ch].participants[u] == w
  }

  /** One message, from anyone in any channel, keeps an existing
      participant's weight. */
  lemma RecordKeepsWeight(reg: Registry, m: Message, ch: ChannelId, u: UserId, w: int)
    requires HasWeight(reg, ch, u, w)
    ensures HasWeight(AfterRecord(reg, m), ch, u, w)
  {
  }

  /** A participant's weight is fixed by their first message: no run of
      later messages changes it. */
  lemma {:induction false} WeightFixedAfterFirstMessage(
    reg: Registry, msgs: seq<Message>, ch: ChannelId, u: UserId, w: int)
    requires HasWeight(reg, ch, u, w)
    ensures HasWeight(AfterMessages(reg, msgs), ch, u, w)
    decreases |msgs|
  {
    if msgs != [] {
      RecordKeepsWeight(reg, msgs[0], ch, u, w);
      WeightFixedAfterFirstMessage(AfterRecord(reg, msgs[0]), msgs[1..], ch, u, w);
    }
  }

  /** A started event is in sync with its record when the document was read
      and written. */
  lemma StartIsInSync(reg: Registry, req: StartRequest, now: int, g: Gist)
    requires IsTextChannel(req.channel) && g.readable && g.writable
    ensures InSync(AfterStart(reg, req, now, g), req.channel.value.id)
  {
  }

  /** While every load and save succeeds, each message keeps a channel's
      participant Set and its persisted weights naming the same users. */
  lemma RecordKeepsInSync(reg: Registry, m: Message, ch: ChannelId)
    requires InSync(reg, ch)
    requires m.gist.readable && m.gist.writable
    ensures InSync(AfterRecord(reg, m), ch)
  {
  }

  /** Scenario: a started event, two distinct users posting, then ending
      it. The Set lists both users in posting order with weight 1 each, and
      after the end the channel has no event left to report on. */
  lemma StartTwoPostsEnd(reg: Registry, req: StartRequest, now: int, u1: UserId, u2: UserId, g: Gist)
    requires IsTextChannel(req.channel) && req.role.None?
    requires g.readable && g.writable && u1 != u2
    ensures var ch := req.channel.value.id;
      var r0 := AfterStart(reg, req, now, g);
      var r2 := AfterMessages(r0, [Message(ch, Author(u1, false), {}, g), Message(ch, Author(u2, false), {}, g)]);
      && ch in r2.active && r2.active[ch].participants == [u1, u2]
      && ch in r2.store && r2.store[ch].participants == map[u1 := 1, u2 := 1]
      && ch !in AfterEnd(r2, ch, g).active
  {
    var ch := req.channel.value.id;
    var r0 := AfterStart(reg, req, now, g);
    var m1 := Message(ch, Author(u1, false), {}, g);
    var m2 := Message(ch, Author(u2, false), {}, g);
    var r1 := AfterRecord(r0, m1);
    var r2 := AfterRecord(r1, m2);
    assert [m1, m2][1..] == [m2];
    assert AfterMessages(r1, [m2]) == r2;
    assert r1.active[ch].participants == [u1];
  }
}
