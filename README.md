# Statistics service: a verified model

This project models the core of a small trading-statistics service written
in C++. The service has four parts:

- A receiver decodes text datagrams into events.
- The **events handler** applies the events in arrival order:
  - user registered, renamed, connected or disconnected, and a deal won;
  - per user, it keeps a cumulative amount in a map (`_statistics`);
  - it keeps the same amounts as a ranking, a `std::set` of
    `(amount, user)` pairs ordered by amount descending, then user id
    ascending (`_sorted_statistics`).
- At every minute boundary, every connected user is sent a snapshot:
  - its 1-based position;
  - the top 10 of the ranking;
  - the window of up to 10 pairs on either side of its own pair.
- When the week time goes backwards, every amount is reset.
- The **packets handler** queues the snapshots and renders each one as
  text.
- A **load generator** produces events that follow each user's lifecycle:
  unregistered, then registered, then connected.

The Dafny modules follow the source files:

| module | file | models |
|---|---|---|
| `Text` | `text.dfy` | what `operator<<` writes for integers, and how a C++ input stream reads integers, words and single characters |
| `Events` | `event.dfy` | `libs/event.h` and `libs/event.cpp`: the event kinds, the text codec and the two-phase decode of the receiver |
| `Statistics` | `statistics.dfy` | `statistics_service/statistics.h`: the comparator and the ordered set |
| `Packets` | `packets_handler.dfy` | `statistics_service/packets_handler.cpp`: the `Packet` struct, the rendered text and the packet queue |
| `EventsHandling` | `events_handler.dfy` | `statistics_service/events_handler.cpp`: the ranking store, the deal-won protocol, snapshots and the event queue |
| `EventGeneration` | `event_generator.dfy` | `libs/event_generator.cpp`: the lifecycle rule and `generateEvent` |

Modelling choices:

- The ordered set is a sequence kept strictly sorted by the comparator.
  - `Insert` and `Remove` are its `emplace` and `extract`.
  - A sorted sequence is determined by its elements (`SortedUnique`).
- The central invariant is `LockStep(stats, sorted)`: the ranking holds
  exactly one pair `(stats[u], u)` per user of the map, in order.
- The objects whose fields the source updates in place are classes:
  `EventsHandler`, `PacketsHandler` and `Generator`.
  - Their methods state the whole new state.
  - `EventsHandler` keeps a reference to the `PacketsHandler` it was
    built with, and changes it where the source does.
- Events are owned by value in the source: they are moved, copied, or held
  in a `unique_ptr`. So they are a datatype.
  - The setters and the in-place stream reads are functions that return
    the updated event.
- Two behaviours of the code that a reader might not expect:
  - The first connected user's `near` window holds its own pair, so it is
    never empty (`FirstConnectionPacket`).
  - A stop requested before a processing loop starts is lost, because both
    loops clear the stop flag as their first statement (`StartProcessing`).
- The effect of one event on the handler is the relation
  `EventsHandling.Applied` between two `Engine` values: the registered
  names, the connected users, the amounts, the ranking, the stored week
  time and the packets waiting to be sent.  `Dispatch` and `ProcessStep`
  are stated through it.

## Model

| member | source | states |
|---|---|---|
| Statistics.Before | statistics_service/statistics.h:14-22 | the comparator: a larger amount ranks first, and equal amounts rank by the smaller user id; its order properties are the three lemmas below |
| Statistics.BeforeIrreflexive | statistics_service/statistics.h:18-19 | no pair ranks before itself |
| Statistics.BeforeTotal | statistics_service/statistics.h:14-22 | of two distinct pairs exactly one ranks before the other |
| Statistics.BeforeTransitive | statistics_service/statistics.h:14-22 | the comparator is transitive, so it is a strict total order |
| Statistics.Insert | statistics_service/statistics.h:26 | inserting into the set keeps it ordered, and its elements become the old ones plus the new pair |
| Statistics.Remove | statistics_service/statistics.h:26 | extracting from the set keeps it ordered, and its elements become the old ones minus the pair |
| Statistics.IndexOf | statistics_service/events_handler.cpp:107 | the distance from the start to the pair `find` returns: an index holding the pair, with no earlier index holding it |
| Statistics.SortedCard | statistics_service/statistics.h:26 | the set stores each pair at most once |
| Statistics.SortedUnique | statistics_service/statistics.h:26 | two ordered sequences with the same elements are equal, so the set is determined by its contents |
| Statistics.IndexCountsBefore | statistics_service/events_handler.cpp:106-107 | the 0-based position of a pair equals the number of pairs that rank before it |
| Statistics.InsertPresent | statistics_service/statistics.h:26 | inserting a pair already present changes nothing |
| Statistics.SameUserTwoAmounts | statistics_service/statistics.h:26 | the set knows nothing of users: one user with two amounts is two elements |
| Text.IntText | libs/event.cpp:83 | what `operator<<` writes for an integer: a non-empty word with no line break; a minus sign comes first exactly for a negative integer, and the rest is decimal digits |
| Text.ReadInt | libs/event.cpp:90 | `>>` into an integer: leading whitespace is skipped, and on success something was consumed and the rest does not start with a digit |
| Text.ReadWord | libs/event.cpp:115 | `>>` into a string: a non-empty whitespace-free word, after which comes whitespace or the end |
| Text.GetChar | libs/event.cpp:114 | `get()`: fails exactly on an empty input, otherwise drops one character |
| Text.ReadIntText | libs/event.cpp:83-90 | the decimal text of an integer reads back as that integer, as long as the next character is not a digit |
| Text.ReadWordText | libs/event.cpp:112-117 | a whitespace-free word reads back as itself, as long as whitespace or the end follows it |
| Events.TypeName | libs/event.cpp:19-35 | every enumerator has a non-empty name |
| Events.TypeNameInjective | libs/event.cpp:19-35 | distinct enumerators have distinct names |
| Events.SetType | libs/event.cpp:14-17 | only the type code changes |
| Events.SetUser | libs/event.cpp:42-45 | only the user changes |
| Events.SetName | libs/event.cpp:124-127 | only the name changes; the user, the type code and the kind are kept |
| Events.SetTime | libs/event.cpp:199-202 | only the deal-won time changes |
| Events.SetAmount | libs/event.cpp:189-192 | only the deal-won amount changes |
| Events.CreateEvent | libs/event.cpp:47-64 | an object exists exactly for the codes 0 to 4; it is of the kind that code names, with the same user and type code |
| Events.Encode | libs/event.cpp:80-85 | `operator<<`: the numeric type code, a space, the user, then the kind's fields; its partner is `DecodeEncode` |
| Events.FieldsText | libs/event.cpp:106-174 | the fields of each kind are empty or start with a space |
| Events.FinishReading | libs/event.cpp:112-182 | finishing a read keeps the user, the type code and the kind of the object |
| Events.Read | libs/event.cpp:87-95 | while the type is `undefined` only the header is read; otherwise the user, the type code and the kind are kept |
| Events.Decode | statistics_service/main.cpp:50-56 | the receiver's two-phase decode; what it forwards is stated by the three lemmas below and by `DecodeEncode` |
| Events.DecodeKeepsTimeWithoutAmount | libs/event.cpp:176-182 | a deal-won datagram that ends after its time, such as `2 5 100`, is forwarded with that user and time and amount 0: the time is stored although the amount does not read |
| Events.DecodeIsConcrete | statistics_service/main.cpp:50-57 | a forwarded event is of one of the five kinds, and its type code matches its kind |
| Events.DecodeRejectsUnknownType | statistics_service/main.cpp:50-57 | a datagram whose type code is `undefined` or outside 0 to 4 is dropped |
| Events.DecodeForwardsKnownType | statistics_service/main.cpp:50-57 | a datagram whose header names a known kind is forwarded with that type code and user, whatever follows the header |
| Events.ReadHeaderOfEncode | libs/event.cpp:80-95 | the header of an encoded event reads back as its type code and user, leaving the kind's fields |
| Events.ReadDealWonFields | libs/event.cpp:170-182 | the deal-won fields read back as the time and then the amount |
| Events.FinishReadingOfEncode | libs/event.cpp:106-182 | finishing the read of the object `createEvent` made restores the kind's own fields |
| Events.DecodeEncode | libs/event.cpp:80-95 | round trip: decoding the encoding of an event whose name is one word gives the same kind, user and fields back |
| Packets.EntryText | statistics_service/packets_handler.cpp:44-46 | one ranking entry: the user id, then the amount, then a line break; see `EntryRoundTrip` |
| Packets.HeaderText | statistics_service/packets_handler.cpp:48 | the header line: the user and the position; see `HeaderRoundTrip` |
| Packets.Render | statistics_service/packets_handler.cpp:43-53 | the text sent for one packet; its line count and its parse back are `RenderLineCount` and `ParseRender` |
| Packets.EntryLines | statistics_service/packets_handler.cpp:44-46 | an entry line holds exactly one line break |
| Packets.EntriesLines | statistics_service/packets_handler.cpp:50-53 | a list of entries renders as one line per entry |
| Packets.HeaderLines | statistics_service/packets_handler.cpp:48 | the header is one line |
| Packets.RenderLineCount | statistics_service/packets_handler.cpp:43-53 | a rendered packet has `3 + |top| + |near|` lines |
| Packets.EntryRoundTrip | statistics_service/packets_handler.cpp:44-46 | an entry line, which prints the user before the amount, parses back to the same pair |
| Packets.EntriesRoundTrip | statistics_service/packets_handler.cpp:50 | the entry lines of a list parse back to the same list, in order |
| Packets.HeaderRoundTrip | statistics_service/packets_handler.cpp:48 | the header parses back to the user and the position |
| Packets.ParseRender | statistics_service/packets_handler.cpp:43-53 | the rendered text parses back to the packet, so the text is header, `top` caption, top entries, `near` caption and near entries in that order, and it determines the packet |
| Packets.PacketsHandler.constructor | statistics_service/packets_handler.cpp:10-15 | a new handler has no pending packets |
| Packets.PacketsHandler.Replace | statistics_service/packets_handler.cpp:22-29 | the pending queue becomes exactly the batch, in order, and what was pending is discarded |
| Packets.PacketsHandler.Put | statistics_service/packets_handler.cpp:31-36 | one packet is appended at the back and the earlier ones are kept |
| Packets.PacketsHandler.Pop | statistics_service/packets_handler.cpp:74-87 | exactly the front packet moves to the processing batch, even when stopped, and the result is `!stopped` |
| Packets.PacketsHandler.StopProcessing | statistics_service/packets_handler.cpp:68-72 | the stop flag is set and the queues are untouched |
| Packets.PacketsHandler.StartProcessing | statistics_service/packets_handler.cpp:38-40 | the stop flag is cleared |
| Packets.PacketsHandler.ProcessStep | statistics_service/packets_handler.cpp:41-65 | one round dequeues the front packet and sends its rendered text, or sends nothing when stopped |
| EventsHandling.PairsUpdate | statistics_service/events_handler.cpp:147-156 | changing one user's amount replaces that user's pair and no other |
| EventsHandling.NewUserStats | statistics_service/events_handler.cpp:100 | `emplace(user, 0)` adds the user with amount 0 and keeps an existing amount |
| EventsHandling.NewUserLockStep | statistics_service/events_handler.cpp:97-102 | registering keeps the lock-step if and only if the user's amount is 0, which holds for a new user |
| EventsHandling.ReRegisterBreaksLockStep | statistics_service/events_handler.cpp:97-102 | re-registering user 1, who has amount 5, leaves a second pair `(0, 1)` in the ranking |
| EventsHandling.AddAmountLockStep | statistics_service/events_handler.cpp:145-157 | trading the old pair for the new total keeps the lock-step |
| EventsHandling.Zeroed | statistics_service/events_handler.cpp:186-187 | a reset keeps every user and sets every amount to 0 |
| EventsHandling.PairsZeroed | statistics_service/events_handler.cpp:183-190 | after a reset the ranking must hold exactly `(0, u)` for every known user |
| EventsHandling.ZeroedIdempotent | statistics_service/events_handler.cpp:183-190 | resetting twice is resetting once |
| EventsHandling.ClearDeterminesRanking | statistics_service/events_handler.cpp:183-190 | after a reset the ranking is determined, and a second reset gives the same ranking |
| EventsHandling.ZeroAll | statistics_service/events_handler.cpp:185-189 | the loop of `clearStatistics` zeroes every amount and rebuilds the ranking in lock-step |
| EventsHandling.LockStepRanked | statistics_service/events_handler.cpp:112-119 | with the lock-step kept, `userRank` finds every user of the map |
| EventsHandling.UserRank | statistics_service/events_handler.cpp:112-119 | the rank is the index of the user's pair, or the end exactly when the user or its pair is missing |
| EventsHandling.Top | statistics_service/events_handler.cpp:121-126 | `topStatistic`; what it holds is `TopWindow` |
| EventsHandling.TopWindow | statistics_service/events_handler.cpp:121-126 | the top list is the first `min(10, size)` pairs, and a pair is in it exactly when its position is at most 10 |
| EventsHandling.TopOutranksRest | statistics_service/events_handler.cpp:121-126 | every pair in the top list outranks every pair left out of it |
| EventsHandling.Near | statistics_service/events_handler.cpp:128-133 | `neigborsStatistic` for a 1-based position; what it holds is `NearWindow` |
| EventsHandling.NearWindow | statistics_service/events_handler.cpp:128-133 | the window holds positions `max(1, p-10)` to `min(size, p+10)`, holds the user's own pair, and has at most 21 pairs |
| EventsHandling.UserStatistic | statistics_service/events_handler.cpp:104-110 | the packet is for the user, and its position is between 1 and the size, where the user's own pair sits |
| EventsHandling.UserStatisticContents | statistics_service/events_handler.cpp:104-133 | the position is 1 plus the number of pairs ranked before the user's, and the packet carries the top list and the window of that position |
| EventsHandling.PositionCountsUsers | statistics_service/events_handler.cpp:104-110 | with the lock-step kept, the position is 1 plus the number of users who rank before the user |
| EventsHandling.FirstConnectionPacket | statistics_service/events_handler.cpp:104-133 | the only user, at amount 0, gets position 1, and its own pair is both its top list and its window |
| EventsHandling.CppDivRem | statistics_service/events_handler.cpp:163 | C++ division truncates toward zero, and the remainder takes the sign of the dividend |
| EventsHandling.WeekTime | statistics_service/events_handler.cpp:162-163 | the week time lies within one week of zero, with the sign of the time, and differs from the time by whole weeks |
| EventsHandling.IsNewWeek | statistics_service/events_handler.cpp:178-181 | a reset is due when the stored week time is later than the new one |
| EventsHandling.IsNextMinute | statistics_service/events_handler.cpp:192-196 | a broadcast is due when the two times lie in different minutes, with C++ truncating division; see `NextMinuteCrossesMark` |
| EventsHandling.NextMinuteCrossesMark | statistics_service/events_handler.cpp:192-196 | for a time that moves forward, a broadcast is due if and only if a whole minute mark lies in `(last, wt]` |
| EventsHandling.BroadcastAppend | statistics_service/events_handler.cpp:205-206 | adding one more connected user's snapshot keeps a broadcast a broadcast |
| EventsHandling.BroadcastSize | statistics_service/events_handler.cpp:198-209 | a broadcast has exactly one packet per connected user |
| EventsHandling.EventsHandler.constructor | statistics_service/events_handler.cpp:5-7 | a new handler starts empty and in lock-step, with the week time at 0 |
| EventsHandling.EventsHandler.Put | statistics_service/events_handler.cpp:9-14 | the event joins the back of the queue |
| EventsHandling.EventsHandler.Pop | statistics_service/events_handler.cpp:56-68 | when running, exactly the front event moves out, so the queue is FIFO; when stopped, the result is false and nothing is taken |
| EventsHandling.EventsHandler.StopProcessing | statistics_service/events_handler.cpp:50-54 | the stop flag is set and the state is untouched |
| EventsHandling.EventsHandler.StartProcessing | statistics_service/events_handler.cpp:16-18 | the stop flag is cleared |
| EventsHandling.EventsHandler.AddNewUser | statistics_service/events_handler.cpp:97-102 | all three `emplace`s keep existing entries; the lock-step is kept exactly when the user's old amount is 0 |
| EventsHandling.EventsHandler.AddUserAmount | statistics_service/events_handler.cpp:145-157 | the total becomes old plus delta, where a missing user counts as 0; the ranking trades `(old, u)` for `(old+d, u)`; the lock-step is kept and every other entry is unchanged |
| EventsHandling.EventsHandler.ClearStatistics | statistics_service/events_handler.cpp:183-190 | every amount becomes 0, the ranking is rebuilt in lock-step, and the registered and connected users are untouched |
| EventsHandling.EventsHandler.Snapshots | statistics_service/events_handler.cpp:200-206 | the batch holds one snapshot per connected user, each computed from the same state |
| EventsHandling.EventsHandler.SendPackets | statistics_service/events_handler.cpp:198-209 | the pending packets become that batch |
| EventsHandling.EventsHandler.UpdateTime | statistics_service/events_handler.cpp:211-214 | only the stored week time changes |
| EventsHandling.DealWonApplied | statistics_service/events_handler.cpp:159-176 | the deal-won protocol as a relation: project into the week; reset if and only if the stored time is later; add the amount; the ranking is the one in lock-step after a reset and otherwise trades the user's old pair for the new one; broadcast if and only if the minute changed; store the week time |
| EventsHandling.EventsHandler.UpdateUserStatistics | statistics_service/events_handler.cpp:159-176 | the new state is `DealWonApplied` of the old one: after a reset the total is exactly the amount and the lock-step holds; without one the ranking trades `(old, u)` for `(old+amount, u)` even when the lock-step was already broken |
| EventsHandling.EventsHandler.OnRegistered | statistics_service/events_handler.cpp:70-73 | registering is `addNewUser` with the event's user and name |
| EventsHandling.EventsHandler.OnRenamed | statistics_service/events_handler.cpp:82-85 | the name is overwritten or created, and no amount changes |
| EventsHandling.EventsHandler.OnConnected | statistics_service/events_handler.cpp:75-80 | the user joins the connected set, exactly one packet (its own snapshot) is queued, and no amount changes |
| EventsHandling.EventsHandler.OnDisconnected | statistics_service/events_handler.cpp:92-95 | the user leaves the connected set, and no amount changes |
| EventsHandling.Applied | statistics_service/events_handler.cpp:21-45 | the `switch` as a relation: registered is `addNewUser`, renamed overwrites the name, deal-won is `DealWonApplied`, connected joins the set and queues the user's own snapshot, disconnected leaves the set, and any other code changes nothing |
| EventsHandling.EventsHandler.Dispatch | statistics_service/events_handler.cpp:21-45 | the new state is `Applied` to the old state and the event, and the event queue is untouched |
| EventsHandling.EventsHandler.ProcessStep | statistics_service/events_handler.cpp:19-47 | when running, the front event leaves the queue and the new state is `Applied` to the old state and that event; when stopped, nothing changes |
| EventGeneration.Allowed | libs/event_generator.cpp:100-112 | `is_allowed_event` on the registered and connected sets; its table is `AllowedTable` |
| EventGeneration.Generator.IsAllowedEvent | libs/event_generator.cpp:100-112 | `is_allowed_event` on the generator's own bookkeeping |
| EventGeneration.AllowedTable | libs/event_generator.cpp:100-112 | the allowed types of each state: register only, connect only, or rename, deal-won and disconnect |
| EventGeneration.EveryStateAllowsSome | libs/event_generator.cpp:27-30 | every state allows some code from 0 to 4 and nothing outside it, so the re-draw loop can stop and the `undefined` case is never reached |
| EventGeneration.FirstAllowed | libs/event_generator.cpp:28-30 | the draw the re-draw loop stops at is allowed, and every earlier draw is not |
| EventGeneration.Generator.constructor | libs/event_generator.cpp:3-23 | the distribution bounds are the arguments, whose defaults are those of the header, and the bookkeeping starts empty |
| EventGeneration.Generator.DrawnNameIsWord | libs/event_generator.cpp:80-88 | a drawn name of at least one letter above the space character is a single word |
| EventGeneration.Generator.GenerateEvent | libs/event_generator.cpp:25-68 | the event is of one of the five kinds and allowed in the state before the call, with fields inside the drawn ranges; the bookkeeping follows each kind; connected users stay a subset of registered ones |

## Left out

- Threads, mutexes, condition variables and atomics are not modelled.
  - Each stop flag is a plain boolean.
  - Packets.PacketsHandler.Replace: the source's `replace` does not call
    `notify_one`, unlike `put`, so a broadcast does not wake a sender that
    waits on an empty queue. A sequential model cannot show that.
  - A `pop` is the step taken after its wait is over, so its precondition
    is the wait condition.
- Packets.PacketsHandler.Pop: requires a non-empty queue. When stopped with
  an empty queue, the source calls `front()` on an empty deque, which is
  undefined behaviour.
- Sockets, addresses and `sendto` are not modelled.
  - `ProcessStep` returns the texts it would send.
  - `libs/common.cpp` is not part of this model.
- Randomness (`std::mt19937` and the uniform distributions) is not
  modelled. The drawn values are parameters of `GenerateEvent`,
  constrained to their ranges.
- The re-draw loop of `generateEvent` runs until a permitted type is drawn.
  - EventGeneration.Generator.GenerateEvent: requires that one of the
    given draws is permitted. Without one, the source loops for ever.
- `generator/main.cpp`, `core/main.cpp` and the threads of
  `statistics_service/main.cpp` are not part of this model. They are I/O
  plumbing.
  - Only the two-phase decode of the receiver is modelled (`Decode`).
- Logging is not modelled: `printAll`, and the size printed by `replace`.
- Integer widths are not modelled. The model uses unbounded integers for:
  - users (`int32_t`);
  - amounts and totals (`int64_t`);
  - times (`std::chrono::nanoseconds`);
  - positions (`size_t`).
  - EventsHandling.EventsHandler.AddUserAmount: does not model an
    `int64_t` total that overflows. Signed overflow is undefined behaviour
    in C++, and the model's total simply grows.
- C++ truncating division and remainder are written out (`CppDiv`,
  `CppRem`). A negative time therefore has a negative week time, as in the
  source.
- Stream failure is not modelled as stream flags. A read that finds no
  token gives `None`.
  - Events.Decode: modelled weaker than the source for a datagram whose
    header does not read. The model drops every such datagram. The source
    behaves as follows:
    - A blank or whitespace-only datagram is dropped, since the type
      stays `undefined`.
    - A non-numeric type token stores 0 into the type code, and the user
      stays -1, so a `registered` event for user -1 is forwarded.
    - A type code from 0 to 4 followed by a user that does not read is
      forwarded as an event of that type, for example `"2 abc"` or `"3"`.
      Its user is 0 after a failed conversion, or -1 when the input ends
      first.
  - Events.Decode: a datagram whose second phase fails is still forwarded,
    as in the source. A deal-won whose time reads but whose amount does not
    keeps that time, with amount 0 (`DecodeKeepsTimeWithoutAmount`). A
    deal-won whose time does not read keeps the fields `createEvent` gave
    it. At the end of the input the source's time is then uninitialised;
    the model uses 0.
- The deal-won object `createEvent` makes has an uninitialised time in the
  source. The model uses 0.
- Events.TypeName: requires one of the enumerators. The source falls off the
  end of the function for any other value.
- EventsHandling.UserStatistic: requires a user the ranking can find. For
  any other user the source walks past the end of the set.
  - This is why `OnConnected`, `Dispatch` and `ProcessStep` require that a
    connecting user is ranked.
  - It also gives the handler invariant `Valid`: every connected user is
    ranked.
- EventsHandling.EventsHandler.Snapshots: the order of the batch is not
  stated. `_connected_users` is an `unordered_set`, so the batch is
  specified by its set of users and their packets.
- `neighbors_count` is not defined in the files of this model. It is 10
  here.
- The stored week time starts at 0 because the handler is a static object
  (`statistics_service/main.cpp:21`).
- Names in the headers differ from the source files; the model follows the
  source files:
  - `events_handler.h` declares `proccesing`, `getUserStatistics`,
    `getUserRank` and `last_update_time`. The source defines `procesing`,
    `userStatistic` and `userRank`, and uses `last_update_week_time`.
  - `packets_handler.h` declares `put(std::vector<Packet>&&)`. The source
    defines `replace` instead, so the `put` of a batch in `sendPackets` is
    modelled as `Replace`.
- The setters and the in-place reads of an event are functions that return
  the updated event. No two owners share an event.
