/** Entities of the giveaway bot: the in-memory event kept per channel, the
    record persisted for it in the remote document, and the small computations
    the handlers share (the multiplier default, a participant's weight, the
    minutes left). Loading and saving the remote document are modelled as
    reading and writing a map whose I/O may fail. */
module Events {

  type ChannelId = string
  type UserId = string
  type RoleId = string
  type GuildId = string

  datatype Option<T> = None | Some(value: T)

  const MsPerMinute: int := 60000

  /** The in-memory event of `activeEvents[channelId]` (index.js:134-144). The
      participant Set is a sequence without repetitions, in insertion order,
      which is the order `Array.from` lists it in. The channel object and the
      timer handle are not modelled. */
  datatype ActiveEvent = ActiveEvent(
    endTime: int,
    winnersCount: int,
    prize: string,
    participants: seq<UserId>,
    multiplierRoleId: Option<RoleId>,
    multiplierCount: int,
    guildId: GuildId)

  /** The record persisted per channel (index.js:147-156). `participants` maps
      a user to the weight fixed at their first message. */
  datatype SavedEvent = SavedEvent(
    channelId: ChannelId,
    endTime: int,
    winnersCount: int,
    prize: string,
    participants: map<UserId, int>,
    guildId: GuildId,
    multiplierRoleId: Option<RoleId>,
    multiplierCount: int)

  /** The `events` object of the remote document: channel id to saved record. */
  type Store = map<ChannelId, SavedEvent>

  /** What happened to the one load and the one save a handler performs. */
  datatype Gist = Gist(readable: bool, writable: bool)

  /** A channel chosen in the `channel` option of `/startevent`. */
  datatype Channel = Channel(id: ChannelId, isText: bool)

  /** The options of one `/startevent` interaction. */
  datatype StartRequest = StartRequest(
    duration: int,
    channel: Option<Channel>,
    winners: int,
    prize: string,
    role: Option<RoleId>,
    multiplier: Option<int>,
    guildId: GuildId)

  /** The author of a message. */
  datatype Author = Author(id: UserId, bot: bool)

  /** Why a handler replied with a warning instead of acting. */
  datatype Refusal = NotTextChannel | NoActiveEvent | NoParticipants

  datatype Outcome<T> = Done(value: T) | Refused(why: Refusal)

  /** What `/eventinfo` reports. */
  datatype Info = Info(count: nat, minutesLeft: nat)

  /** `loadEvents`: the stored events, or the empty map when the fetch or the
      parse fails. It never yields an event the store does not hold. */
  function Load(store: Store, g: Gist): (loaded: Store)
    ensures loaded.Keys <= store.Keys
    ensures forall ch :: ch in loaded ==> loaded[ch] == store[ch]
    ensures loaded == store || !g.readable
    ensures !g.readable ==> loaded == map[]
  {
    if g.readable then store else map[]
  }

  /** `saveEvents`: the document now holds `data`, unless the write failed, in
      which case it keeps what it held. */
  function Save(store: Store, data: Store, g: Gist): (r: Store)
    ensures g.writable ==> r == data
    ensures !g.writable ==> r == store
  {
    if g.writable then data else store
  }

  /** `options.getInteger('multiplier') || 1`: a missing option and 0 both
      fall back to 1. */
  function Multiplier(option: Option<int>): (m: int)
    ensures m != 0
    ensures option.Some? && option.value != 0 ==> m == option.value
    ensures option == None || option == Some(0) ==> m == 1
  {
    match option
    case None => 1
    case Some(v) => if v == 0 then 1 else v
  }

  /** `event.multiplierRoleId && member.roles.cache.has(...)`: whether the
      event has a multiplier role and the member holds it. Without a role set
      it never holds. */
  function HoldsMultiplierRole(ev: ActiveEvent, roles: set<RoleId>): (held: bool)
    ensures ev.multiplierRoleId.None? ==> !held
    ensures held <==> exists role :: role in roles && ev.multiplierRoleId == Some(role)
  {
    ev.multiplierRoleId.Some? && ev.multiplierRoleId.value in roles
  }

  /** The weight a new participant is persisted with: the multiplier count
      for a holder of the multiplier role, 1 for everyone else. */
  function EntryWeight(ev: ActiveEvent, roles: set<RoleId>): (w: int)
    ensures w == 1 || w == ev.multiplierCount
    ensures HoldsMultiplierRole(ev, roles) ==> w == ev.multiplierCount
    ensures ev.multiplierRoleId.None? ==> w == 1
    ensures ev.multiplierRoleId.Some? && ev.multiplierRoleId.value !in roles ==> w == 1
  {
    if HoldsMultiplierRole(ev, roles) then ev.multiplierCount else 1
  }

  /** `Math.max(0, Math.floor((endTime - now) / 60000))`. Dafny's `/` by a
      positive divisor rounds down, as `Math.floor` does. */
  function MinutesLeft(endTime: int, now: int): (mins: nat)
    ensures endTime <= now ==> mins == 0
    ensures now <= endTime ==> mins * MsPerMinute <= endTime - now < (mins + 1) * MsPerMinute
  {
    var m := (endTime - now) / MsPerMinute;
    if m < 0 then 0 else m
  }

  predicate Distinct<T(==)>(s: seq<T>)
  {
    forall i, j :: 0 <= i < j < |s| ==> s[i] != s[j]
  }

  function Members<T>(s: seq<T>): (members: set<T>)
  {
    set x | x in s
  }

  /** A sequence without repetitions has as many members as elements: the
      size of a participant Set is the length of its listing. */
  lemma {:induction false} DistinctCard<T>(s: seq<T>)
    requires Distinct(s)
    ensures |Members(s)| == |s|
  {
    if s != [] {
      var init := s[..|s| - 1];
      var last := s[|s| - 1];
      assert Distinct(init);
      DistinctCard(init);
      assert last !in Members(init) by {
        forall i | 0 <= i < |init| ensures init[i] != last {
          assert s[i] != s[|s| - 1];
        }
      }
      assert Members(s) == Members(init) + {last} by {
        assert s == init + [last];
      }
    }
  }

  /** `Object.keys(...)` of a persisted participants map, listed without
      repetitions. The order the document kept them in is not modelled, so
      any order is allowed. */
  method Enumerate(keys: set<UserId>) returns (xs: seq<UserId>)
    ensures Distinct(xs)
    ensures Members(xs) == keys
  {
    xs := [];
    var rest := keys;
    while rest != {}
      invariant rest <= keys
      invariant Distinct(xs)
      invariant Members(xs) == keys - rest
      decreases rest
    {
      var k :| k in rest;
      assert Members(xs + [k]) == Members(xs) + {k};
      xs := xs + [k];
      rest := rest - {k};
    }
  }
}
