# Giveaway event registry of a Discord bot, in Dafny

This project models the per-channel giveaway ("event") registry of a Discord
bot. The bot keeps two maps keyed by channel id:

- `activeEvents`: the running events in memory. Each one holds its end time,
  winner count, prize, optional multiplier role, multiplier count and the
  `Set` of participant ids.
- the `events` object of a remote JSON document. It holds one saved record per
  channel, whose `participants` maps a user id to the weight fixed at that
  user's first message.

Handlers act on these maps:

- `/startevent` starts an event.
- `/endevent` ends an event early without a draw.
- `/rerollwinner` picks one participant.
- `/eventinfo` reports the participant count and the minutes left.
- `messageCreate` records a participant.
- `endEvent`, fired by a timer, draws the winners and removes the event.
- `ready` restores saved events after a restart.

Modules:

- `Events` (events.dfy): the entities, the load and save of the document, and
  small shared computations.
- `Draw` (draw.dfy): the winner-draw loop and the random index.
- `Lifecycle` (lifecycle.dfy): each handler's effect on the two maps as a pure
  function, plus lemmas that relate several handler calls.
- `Bot` (bot.dfy): class `EventBot`, whose fields `active` and `store` the
  handler methods update in place. Each method's `ensures` ties the new state
  to the matching `Lifecycle` function.

Inputs the code takes from its environment become parameters:

- `Date.now()` is `now`.
- `Math.random()` is a real in [0, 1), and an index is `Floor(rand * len)`.
- Whether the channel fetch succeeds is the set `fetchable`.
- Whether the one load and the one save of a handler succeed is a
  `Gist(readable, writable)` value.

A failed load yields the empty map. A failed save leaves the document as it
was.

Behaviours of `index.js` worth knowing:

- The draw picks uniformly from the participant `Set`. The persisted weights
  play no part in it.
- `/startevent` overwrites a running event in the same channel.
- On restart, expired events are deleted without a draw.
- `/eventinfo` reports the `Set` size and the whole minutes left.
- The draw loop re-reads the shrinking `pool.length` in its bound. It therefore
  draws max(0, min(winnersCount, ceil(n/2))) winners from n participants.
  `Draw.DrawShortfall` states the consequence.
- `endEvent` sends its announcement before it removes the event. If the send
  fails, the event stays in memory and in the document.

## Model

| member | source | states |
|---|---|---|
| Events.Save | index.js:30-49 | A successful save makes the document hold exactly the given events. A failed save leaves it as it was. |
| Events.Load | index.js:16-28 | The load yields the stored events. On any failure it yields the empty map. It never yields an event the document does not hold. |
| Events.Multiplier | index.js:118 | The multiplier is never 0. A missing option and 0 both give 1. Any other value is kept. |
| Events.HoldsMultiplierRole | index.js:238-239 | The member counts as holding the multiplier role exactly when the event has a role and it is among the member's roles. Without a role set, no member holds it. |
| Events.EntryWeight | index.js:245 | A new participant's weight is `multiplierCount` for a holder of the multiplier role and 1 for everyone else, including every member of an event without a role. |
| Events.MinutesLeft | index.js:219 | The minutes left are never negative. They are 0 once the end time has passed. Otherwise they are the whole minutes in the remaining milliseconds, rounded down. |
| Events.DistinctCard | index.js:220 | A participant listing without repetitions has as many members as entries, so `participants.size` is the listing's length. |
| Events.Enumerate | index.js:87 | The participants rebuilt from a saved record list each persisted user exactly once, and no one else. |
| Draw.PickIndex | index.js:265 | `Math.floor(Math.random() * len)` is a valid index below `len`. It is the floor of `rand * len`. |
| Draw.DrawCount | index.js:264 | The draw runs exactly as many rounds as the loop guard `i < min(winnersCount, pool.length)` allows, with the pool one shorter after each round: the guard holds in every earlier round and fails in the last. |
| Draw.Drawn | index.js:263-267 | The winners the splice loop picks for given random values: while `i < min(winnersCount, pool.length)`, the entrant at the random index, then the rest from the pool without it. There are never more winners than entrants. |
| Draw.DrawnDistinct | index.js:263-267 | From a pool without repetitions, the winners are pairwise distinct and each is an entrant of the pool. |
| Draw.DrawnAdvance | index.js:265-266 | One round of the loop keeps its invariant: after `pool[floor(rand * len)]` is pushed and spliced out, the winners so far followed by those drawn from the remaining pool are still the whole draw. |
| Draw.DrawnCount | index.js:264 | Counted from the first round, the loop picks exactly DrawCount winners. |
| Draw.DrawWinners | index.js:257-267 | The loop's winners are exactly those Drawn names for the random values. They are pairwise distinct participants, exactly DrawCount(winnersCount, n) of them for n participants. |
| Draw.SpliceMembers | index.js:266 | Splicing index `idx` out of the pool removes exactly that participant and keeps the pool free of repetitions. |
| Draw.DrawShortfall | index.js:264 | With n >= 2 participants and winnersCount >= n, fewer than n participants win, though at least half of them do. |
| Draw.AllWinOnlyWithOneEntrant | index.js:264 | Every participant wins exactly when there is one participant and winnersCount >= 1. |
| Draw.FewWinnersAllDrawn | index.js:264 | For winnersCount >= 0, exactly winnersCount participants win if and only if winnersCount <= ceil(n/2). |
| Lifecycle.AfterStart | index.js:120-157 | A missing or non-text channel changes nothing. A text channel gains an entry in `activeEvents`, and no other channel is added. |
| Lifecycle.AfterRecord | index.js:229-248 | Recording never adds or removes an event, in memory or in the document. A bot author, a channel with no event, or a known participant changes nothing. |
| Lifecycle.AfterEnd | index.js:165-181 | After an end, the channel has no in-memory event and every other channel keeps its event. |
| Lifecycle.Kept | index.js:68-85 | On restart, a saved event survives exactly when it has time left and its channel can be fetched. A survivor is kept unchanged. |
| Lifecycle.StartReplaces | index.js:127-156 | A start on a text channel overwrites any running event there with one that has no participants and ends `duration * 60000` ms after now. Other channels keep their events. When the document is read and written, it gets a matching record with no weights, from which a restart would rebuild this same event. |
| Lifecycle.StartThenEnd | index.js:127-181 | With working I/O, a start followed by an end in the same channel leaves both maps as they were, minus that channel. |
| Lifecycle.EndRemovesChannel | index.js:276-279 | An end removes the channel from memory. It also removes the channel from the document whenever the save succeeds. With no event, an end is a no-op. |
| Lifecycle.EndAfterFailedLoadWipesStore | index.js:177-181 | If the load fails and the save succeeds, ending an event erases every saved event, not only the ended one. |
| Lifecycle.FirstMessageSetsWeight | index.js:238-247 | A new participant is appended to the Set. Their persisted weight is `multiplierCount` if the event has a multiplier role and the member holds it, and 1 otherwise. Nothing else changes: not other events, not the event's other fields, not other records or weights. |
| Lifecycle.RecordWithoutRecordTouchesMemoryOnly | index.js:240-247 | If the document has no record for the channel, only the in-memory Set changes. |
| Lifecycle.RecordIdempotent | index.js:235-236 | A second message from the same author in the same channel changes nothing, whatever its roles or I/O. |
| Lifecycle.RecordKeepsWellFormed | index.js:236-240 | Recording keeps every participant Set free of repetitions. |
| Lifecycle.RecordKeepsWeight | index.js:229-248 | No single message, from anyone in any channel, changes an existing participant's persisted weight. |
| Lifecycle.WeightFixedAfterFirstMessage | index.js:229-248 | No run of later messages changes a participant's persisted weight. It is fixed by their first message. |
| Lifecycle.StartIsInSync | index.js:131-156 | With working I/O, a started event's Set and its persisted weights name the same (no) users. |
| Lifecycle.RecordKeepsInSync | index.js:240-247 | With working I/O, each message keeps a channel's Set and its persisted weights naming the same users. |
| Lifecycle.StartTwoPostsEnd | index.js:127-181 | Scenario: start, then posts by two distinct users. The Set lists both users in posting order, each with weight 1. After the end, the channel has no event. |
| Bot.EventBot.constructor | index.js:60 | The process starts with no running event and with the document as it is. |
| Bot.EventBot.StartEvent | index.js:112-157 | A non-text channel is refused with no state change. Otherwise the new state is AfterStart and the reply carries the end time. |
| Bot.EventBot.EndEventEarly | index.js:165-185 | With no event, the command is refused and nothing changes. Otherwise the new state is AfterEnd and no winners are drawn. |
| Bot.EventBot.RerollWinner | index.js:187-208 | The command is refused when there is no event, or when the event has no participants. Otherwise it returns the participant at the random index, which is a member of the Set. It changes nothing. |
| Bot.EventBot.EventInfo | index.js:210-225 | The command is refused when there is no event. Otherwise it reports the size of the participant Set and MinutesLeft. |
| Bot.EventBot.RecordMessage | index.js:229-248 | The new state is AfterRecord, and every participant Set stays free of repetitions. |
| Bot.EventBot.ResolveEvent | index.js:251-280 | With no event, nothing happens. Otherwise the winners are those Drawn names for the random values: distinct participants, exactly DrawCount of them, none if there are no participants. The new state is AfterEnd when the announcement is sent. It is unchanged when the send fails. |
| Bot.RestoreLoaded | index.js:68-99 | The restart loop deletes exactly the loaded events that are not Kept, and says whether it deleted any. It restores every kept event into memory with all fields copied and the participant Set equal to the persisted keys, and leaves every other in-memory event as it was. |
| Bot.EventBot.ResumeOnReady | index.js:62-105 | Exactly the Kept events are restored, with all fields copied and the participant Set equal to the persisted keys. Other events are untouched. The document is written back only if some event was deleted. With working I/O it then holds exactly the kept events, each in sync with memory. |

## Left out

- The Express keep-alive server (index.js:1-6) is not modelled. It is HTTP I/O only.
- The network calls and the JSON format of the remote document are not modelled. The document is a map. A load either yields it or yields the empty map. A save either replaces it or leaves it unchanged.
- Discord client setup, interaction replies, mention and timestamp strings are not modelled. They are calls into a foreign library and formatting. Refusals become `Refused(...)` outcomes. Only the announcement of `endEvent` affects the state, and it is modelled as the `sent` input of `ResolveEvent`. The other channel messages are sent after their handler's state change.
- `setTimeout` and `clearTimeout` are not modelled. A timer firing is a call to `ResolveEvent`. As a result, the model does not capture this: `/startevent` on a channel with a running event leaves the old timer armed (index.js:132-134). When that timer fires before the new event's end, it ends the new event early. When it fires later, it finds no event and returns (index.js:253), or it ends whatever event then runs in that channel. `/endevent` and `endEvent` clear only the current event's timer (index.js:176, 255).
- Bot.EventBot.ResolveEvent: the timer that fires it is not modelled. Node clamps a `setTimeout` delay above 2^31-1 ms to 1 ms. So an event started with a `duration` over 35791 minutes (index.js:132), or resumed with that much time left (index.js:88), ends almost at once. The model does not capture this.
- `Date.now()` is one `now` per handler. The restart handler reads the clock once per saved event, and the model reads it once.
- Concurrent handlers interleaving at their awaits are not modelled. Each handler is one atomic step.
- JavaScript numbers are modelled as unbounded integers. Precision loss beyond 2^53 is not modelled.
- Events.Enumerate: the order of `Object.keys` over a persisted participants map is not tracked. Any order without repetitions is allowed, so the restored Set's listing order is not pinned down.
- Draw.DrawWinners: the random source is a finite sequence of reals in [0, 1), and it must hold at least as many values as there are participants.
- The `channel` object, the timer handle, and the `channelId` field that the restart copies into memory are not modelled.
- deploy-commands.js only registers slash commands and is not part of this model.
