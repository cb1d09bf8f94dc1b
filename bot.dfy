/** The bot's handlers as one object: `activeEvents` and the remote document
    are fields that each handler updates in place. Every handler runs as one
    atomic step; a timer firing is a call to ResolveEvent. */
module Bot {
  import opened Events
  import opened Draw
  import opened Lifecycle

  class EventBot {
    /** `activeEvents`: channel id to the running event. */
    var active: map<ChannelId, ActiveEvent>
    /** The `events` object of the remote document. */
    var store: Store

    ghost predicate Valid()
      reads this
    {
      WellFormed(active)
    }

    ghost function State(): Registry
      reads this
    {
      Registry(active, store)
    }

    /** The process starts with no running event and whatever the document
        holds. */
    constructor (document: Store)
      ensures Valid()
      ensures active == map[] && store == document
    {
      active := map[];
      store := document;
    }

    /** `/startevent`. */
    method StartEvent(req: StartRequest, now: int, g: Gist) returns (r: Outcome<int>)
      requires Valid()
      modifies this
      ensures Valid()
      ensures State() == AfterStart(old(State()), req, now, g)
      ensures r.Refused? <==> !IsTextChannel(req.channel)
      ensures r.Refused? ==> r.why == NotTextChannel
      ensures r.Done? ==> r.value == now + req.duration * MsPerMinute
    {
      if req.channel.None? || !req.channel.value.isText {
        return Refused(NotTextChannel);
      }
      var ch := req.channel.value.id;
      active := active[ch := NewEvent(req, now)];
      var saved := Load(store, g);
      saved := saved[ch := NewRecord(req, now)];
      store := Save(store, saved, g);
      r := Done(EndTime(req, now));
    }

    /** `/endevent`, issued in channel `ch`: ends the event without drawing. */
    method EndEventEarly(ch: ChannelId, g: Gist) returns (r: Outcome<()>)
      requires Valid()
      modifies this
      ensures Valid()
      ensures State() == AfterEnd(old(State()), ch, g)
      ensures r.Refused? <==> ch !in old(active)
      ensures r.Refused? ==> r.why == NoActiveEvent
    {
      if ch !in active {
        return Refused(NoActiveEvent);
      }
      active := active - {ch};
      var saved := Load(store, g);
      saved := saved - {ch};
      store := Save(store, saved, g);
      r := Done(());
    }

    /** `/rerollwinner`, issued in channel `ch`: one uniformly chosen
        participant, weights ignored, nothing changed. */
    method RerollWinner(ch: ChannelId, rand: real) returns (r: Outcome<UserId>)
      requires 0.0 <= rand < 1.0
      ensures r.Refused? <==> ch !in active || active[ch].participants == []
      ensures r.Refused? ==> r.why == (if ch !in active then NoActiveEvent else NoParticipants)
      ensures r.Done? ==> r.value in active[ch].participants
      ensures r.Done? ==> r.value == active[ch].participants[PickIndex(rand, |active[ch].participants|)]
    {
      if ch !in active {
        return Refused(NoActiveEvent);
      }
      var entrants := active[ch].participants;
      if |entrants| == 0 {
        return Refused(NoParticipants);
      }
      r := Done(entrants[PickIndex(rand, |entrants|)]);
    }

    /** `/eventinfo`, issued in channel `ch`: the size of the participant Set
        and the whole minutes left, never negative. */
    method EventInfo(ch: ChannelId, now: int) returns (r: Outcome<Info>)
      requires Valid()
      ensures r.Refused? <==> ch !in active
      ensures r.Refused? ==> r.why == NoActiveEvent
      ensures r.Done? ==> r.value.count == |Members(active[ch].participants)|
      ensures r.Done? ==> r.value.minutesLeft == MinutesLeft(active[ch].endTime, now)
    {
      if ch !in active {
        return Refused(NoActiveEvent);
      }
      var ev := active[ch];
      DistinctCard(ev.participants);
      r := Done(Info(|ev.participants|, MinutesLeft(ev.endTime, now)));
    }

    /** `messageCreate`. */
    method RecordMessage(m: Message)
      requires Valid()
      modifies this
      ensures Valid()
      ensures State() == AfterRecord(old(State()), m)
    {
      RecordKeepsWellFormed(State(), m);
      if m.author.bot || m.channel !in active {
        return;
      }
      var ev := active[m.channel];
      if m.author.id in ev.participants {
        return;
      }
      var weight := EntryWeight(ev, m.roles);
      active := active[m.channel := ev.(participants := ev.participants + [m.author.id])];
      var saved := Load(store, m.gist);
      if m.channel in saved {
        var rec := saved[m.channel];
        saved := saved[m.channel := rec.(participants := rec.participants[m.author.id := weight])];
        store := Save(store, saved, m.gist);
      }
    }

    /** `endEvent`, fired by the channel's timer: draws the winners, sends
        the announcement and then removes the channel as `/endevent` does.
        With no event it is a no-op; with no participants nobody wins. The
        announcement is awaited before the removal with nothing to catch its
        failure, so when it is not `sent` the event stays in both maps. */
    method ResolveEvent(ch: ChannelId, rands: seq<real>, sent: bool, g: Gist) returns (r: Outcome<seq<UserId>>)
      requires Valid()
      requires ch in active ==> |rands| >= |active[ch].participants|
      requires forall i :: 0 <= i < |rands| ==> 0.0 <= rands[i] < 1.0
      modifies this
      ensures Valid()
      ensures sent ==> State() == AfterEnd(old(State()), ch, g)
      ensures !sent ==> State() == old(State())
      ensures r.Refused? <==> ch !in old(active)
      ensures r.Refused? ==> r.why == NoActiveEvent
      ensures r.Done? ==>
        var ev := old(active)[ch];
        && r.value == (if ev.participants == [] then []
                       else Drawn(ev.participants, ev.winnersCount, rands, 0))
        && |r.value| == DrawCount(ev.winnersCount, |ev.participants|)
        && Distinct(r.value)
        && Members(r.value) <= Members(ev.participants)
    {
      if ch !in active {
        return Refused(NoActiveEvent);
      }
      var ev := active[ch];
      var entrants := ev.participants;
      var picked: seq<UserId>;
      if |entrants| == 0 {
        picked := [];
      } else {
        picked := DrawWinners(entrants, ev.winnersCount, rands);
      }
      r := Done(picked);
      if !sent {
        return;
      }
      active := active - {ch};
      var saved := Load(store, g);
      saved := saved - {ch};
      store := Save(store, saved, g);
    }

    /** The `ready` handler: saved events that have run out of time or whose
        channel cannot be fetched are deleted, not resolved; the others are
        restored with their persisted participants. The document is written
        back only when something was deleted. */
    method ResumeOnReady(now: int, fetchable: set<ChannelId>, g: Gist)
      requires Valid()
      modifies this
      ensures Valid()
      ensures var loaded := Load(old(store), g);
        var kept := Kept(loaded, now, fetchable);
        && active.Keys == old(active).Keys + kept.Keys
        && (forall ch :: ch in kept ==> RestoredFrom(active[ch], kept[ch]))
        && (forall ch :: ch in old(active) && ch !in kept ==> active[ch] == old(active)[ch])
        && store == (if kept.Keys == loaded.Keys then old(store) else Save(old(store), kept, g))
      ensures g.readable && g.writable ==>
        var kept := Kept(old(store), now, fetchable);
        store == kept && forall ch :: ch in kept ==> InSync(State(), ch)
    {
      var loaded := Load(store, g);
      var restored, saved, didPrune := RestoreLoaded(loaded, now, fetchable, active);
      active := restored;
      if didPrune {
        store := Save(store, saved, g);
      }
    }
  }

  /** The loop of the `ready` handler over the loaded events, one channel at
      a time: an event with no time left or an unfetchable channel is deleted
      from the loaded events, and any other is restored into `active` with its
      persisted participants. The result says whether something was deleted. */
  method RestoreLoaded(loaded: Store, now: int, fetchable: set<ChannelId>, active: map<ChannelId, ActiveEvent>)
    returns (restored: map<ChannelId, ActiveEvent>, saved: Store, didPrune: bool)
    requires WellFormed(active)
    ensures saved == Kept(loaded, now, fetchable)
    ensures didPrune <==> saved.Keys != loaded.Keys
    ensures restored.Keys == active.Keys + saved.Keys
    ensures forall ch :: ch in saved ==> RestoredFrom(restored[ch], saved[ch])
    ensures forall ch :: ch in active && ch !in saved ==> restored[ch] == active[ch]
    ensures WellFormed(restored)
  {
    saved := loaded;
    restored := active;
    didPrune := false;
    var pending := loaded.Keys;
    while pending != {}
      invariant Restoring(loaded, now, fetchable, active, pending, saved, restored, didPrune)
      decreases pending
    {
      var ch :| ch in pending;
      var ev := saved[ch];
      if ev.endTime - now <= 0 || ch !in fetchable {
        PruneStep(loaded, now, fetchable, active, pending, saved, restored, didPrune, ch);
        saved := saved - {ch};
        didPrune := true;
      } else {
        var participants := Enumerate(ev.participants.Keys);
        var back := ActiveEvent(ev.endTime, ev.winnersCount, ev.prize, participants,
                                ev.multiplierRoleId, ev.multiplierCount, ev.guildId);
        RestoreStep(loaded, now, fetchable, active, pending, saved, restored, didPrune, ch, back);
        restored := restored[ch := back];
      }
      pending := pending - {ch};
    }
    RestoreFinished(loaded, now, fetchable, active, saved, restored, didPrune);
  }

  /** The loop invariant of RestoreLoaded, with `pending` the channels not
      yet visited: a visited channel stays in `saved` exactly when it is live,
      and then it has been restored; every other event is as it was. */
  ghost predicate Restoring(loaded: Store, now: int, fetchable: set<ChannelId>,
                            active: map<ChannelId, ActiveEvent>, pending: set<ChannelId>,
                            saved: Store, restored: map<ChannelId, ActiveEvent>, didPrune: bool)
  {
    && pending <= loaded.Keys
    && saved.Keys <= loaded.Keys
    && (forall ch :: ch in saved ==> saved[ch] == loaded[ch])
    && (forall ch :: ch in loaded ==>
          (ch in saved <==> ch in pending || Live(ch, loaded[ch], now, fetchable)))
    && (didPrune <==> saved.Keys != loaded.Keys)
    && restored.Keys == active.Keys + (saved.Keys - pending)
    && (forall ch :: ch in saved && ch !in pending ==> RestoredFrom(restored[ch], loaded[ch]))
    && (forall ch :: ch in active && !(ch in saved && ch !in pending) ==> restored[ch] == active[ch])
    && WellFormed(restored)
  }

  /** Deleting a visited event that is not live keeps the invariant. */
  lemma PruneStep(loaded: Store, now: int, fetchable: set<ChannelId>,
                  active: map<ChannelId, ActiveEvent>, pending: set<ChannelId>,
                  saved: Store, restored: map<ChannelId, ActiveEvent>, didPrune: bool, ch: ChannelId)
    requires Restoring(loaded, now, fetchable, active, pending, saved, restored, didPrune)
    requires ch in pending
    requires !Live(ch, loaded[ch], now, fetchable)
    ensures Restoring(loaded, now, fetchable, active, pending - {ch}, saved - {ch}, restored, true)
  {
  }

  /** Restoring a visited live event keeps the invariant. */
  lemma RestoreStep(loaded: Store, now: int, fetchable: set<ChannelId>,
                    active: map<ChannelId, ActiveEvent>, pending: set<ChannelId>,
                    saved: Store, restored: map<ChannelId, ActiveEvent>, didPrune: bool,
                    ch: ChannelId, back: ActiveEvent)
    requires Restoring(loaded, now, fetchable, active, pending, saved, restored, didPrune)
    requires ch in pending
    requires Live(ch, loaded[ch], now, fetchable)
    requires RestoredFrom(back, loaded[ch])
    ensures Restoring(loaded, now, fetchable, active, pending - {ch}, saved, restored[ch := back], didPrune)
  {
    var rest, more := pending - {ch}, restored[ch := back];
    assert more.Keys == active.Keys + (saved.Keys - rest);
    assert forall c :: c in saved && c !in rest ==> RestoredFrom(more[c], loaded[c]);
    assert forall c :: c in active && !(c in saved && c !in rest) ==> more[c] == active[c];
    assert WellFormed(more);
  }

  /** Once every channel is visited, the invariant is the contract of
      RestoreLoaded. */
  lemma RestoreFinished(loaded: Store, now: int, fetchable: set<ChannelId>,
                        active: map<ChannelId, ActiveEvent>,
                        saved: Store, restored: map<ChannelId, ActiveEvent>, didPrune: bool)
    requires Restoring(loaded, now, fetchable, active, {}, saved, restored, didPrune)
    ensures saved == Kept(loaded, now, fetchable)
    ensures didPrune <==> saved.Keys != loaded.Keys
    ensures restored.Keys == active.Keys + saved.Keys
    ensures forall ch :: ch in saved ==> RestoredFrom(restored[ch], saved[ch])
    ensures forall ch :: ch in active && ch !in saved ==> restored[ch] == active[ch]
    ensures WellFormed(restored)
  {
  }
}
