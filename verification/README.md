# burner-redis in Dafny

burner-redis is an in-process Redis: one write-locked map from key to typed value, with blocking readers,
Lua batches, pub/sub and snapshots around it. This project models its hard parts and proves what they promise
over all inputs, all runs and all interleavings.

## How it is built

Each command is a specification function of (state, time, arguments). The code that changes things step by
step is imperative Dafny - classes whose methods update fields, loops with invariants - and is proved to compute
that function. What the repository promises is then proved about the functions.

| file | content |
|---|---|
| `Prelude`, `Ordering`, `Values` | words, times, sorted enumerations, stream ids, scores, the typed values and the keyspace |
| `Groups`, `Autoclaim`, `Streams` | consumer groups: ownership, paging, and whole runs with a ledger of every id |
| `StreamObjects` | the same as objects with loops: delivery, XACK, XCLAIM, XAUTOCLAIM, XPENDING, XADD, XDEL, XTRIM |
| `Glob` | the iterative matcher, its declarative meaning and its iteration bound |
| `SortedSets` | the dual index, ZADD, score ranges |
| `Lists`, `Moves` | LREM, ranges, LMOVE and rotations |
| `Decimal` | printed integers: HINCRBY and stream ids |
| `Commands` | every modelled command on one key, on several keys, and on the whole map |
| `Reachable`, `StreamRuns` | what every reachable store satisfies, and the stream results over runs of commands |
| `GroupReads`, `StreamReplies`, `Paging` | XREADGROUP over several keys, what replies show and leave out, XAUTOCLAIM paging by replies |
| `StreamAnswers`, `ListAnswers`, `KeyAnswers` | what commands on streams, on lists and on keys of any type tell and leave, in terms of the stored entries, elements and deadlines alone |
| `Counters` | runs of HINCRBY commands and their replies |
| `Refusals` | which error replies leave the store as it was |
| `Expiry` | stale keys are unobservable, and GET in two steps is atomic |
| `Scripts`, `Waiters` | mutation flags and the arm, poll, park, notify protocol |
| `Snapshot` | saving and loading |
| `PubSub` | the two-way registry and PUBLISH |
| `LeaseLock` | the lease lock of the Python client |
| `Store` | the store object: each method equals its command specification and notifies when it should |

Modelling decisions:

- Time is an integer number of nanoseconds, one `now` per command. The delivery loops read the clock per entry;
  the model gives all entries of one command the same time.
- HashMap order is arbitrary: loops pick any remaining key, and where the order shows in a result the
  specification takes it as an argument ("hints" for the consumer a search meets first, an order for
  XAUTOCLAIM), so every theorem holds for every order.
- u64 counters wrap as in an optimised build.
- Scores are reals with two infinities; there is no NaN.
- `notify_waiters` marks exactly the waiters armed at that moment.
- A Lua script is a finite sequence of dispatched commands that may stop anywhere, run under one lock.

Where properties fail in corner cases of the code, a lemma shows the failing case and the exact condition is
proved:

- FORCE on an undelivered id: `Groups.ClaimKeepsIff`, failing in `Streams.ForceThenReadShares`.
- An exhausted sequence number: `Streams.NextIdGrowsIff`, failing in `Streams.ExhaustedReorders`.
- XAUTOCLAIM with COUNT 0 never ends: `Autoclaim.ScanEndsIff`, failing in `Autoclaim.ZeroCountStalls`.
- XREAD with COUNT 0 never returns: `Waiters.ReadEmptyIff`.
- Error replies that change the store: `Refusals.FailureChangesNothingIff`, failing in `Refusals.RefusedXaddCreates` and `Refusals.WrongTypeDeletes`.
- XREADGROUP over several keys that fails at a later key: what the earlier keys delivered is in no reply, though it is pending and the cursor has passed it. `StreamReplies.RepliesExactlyOnceIff` with `StreamReplies.CallLosesIff`, failing in `StreamReplies.LostDelivery`; `Refusals.FailedCallChangesNothingIff` says when it changes the store.
- Stream id texts that do not format back: `Decimal.FormatsBackIff`, failing in `Decimal.ParseIdLenient`.
- A remaining life under 1 ms at save time: `Snapshot.ReloadKeepsExpiry`.
- A saved sorted set with two scores for one member: `Snapshot.LoadZsetValidIff`.

Where code and its documentation disagree the model follows the code:

- XADD with an id that is not above last_id replies WRONGTYPE, and on a missing key leaves a new empty stream behind.
- HDEL, SREM, ZADD, ZREM and ZREMRANGEBYSCORE on a key of another type reply WRONGTYPE but still drop that key if its container is empty.
- The comment on `normalize_range_indices` says that start is clamped to the last index; the code returns an empty range for a start past the end.
- A direct LINSERT never notifies list waiters, although the script flag counts it; it only grows a list that is already non-empty, so no wakeup is lost.
- `parse_stream_id` accepts a leading plus sign and leading zeros.

## Model

| member | source | states |
|---|---|---|
| `Streams.GroupLife` | src/store.rs:1682-2124 | over every run of XADD, XDEL, XTRIM, XGROUP CREATE and DESTROY, XREADGROUP, XACK, XCLAIM and XAUTOCLAIM whose FORCE claims on the group name only ids above 0-0 and at or below its cursor, starting with a group that is missing or has no consumers: pending lists are pairwise disjoint and within (0-0, last_delivered_id], first deliveries are strictly increasing within (start, last_delivered_id], and delivered plus force-created ids are exactly acknowledged plus pending ids, as multisets, since the group was last created; nothing is asked of ids or sequence numbers |
| `Streams.ExactlyOnce` | src/store.rs:1728-1762 | without XDEL and XTRIM, while sequence numbers are not exhausted, the concatenation of all ">" batches is exactly the sorted list of entries between the start id and the cursor, for any mix of consumers, counts, claims and interleaved XADDs |
| `Streams.StepKeeps` | src/store.rs:1294-2124 | every operation, under the same condition on FORCE, keeps ownership, order and balance of a group and its ledger, through destruction and re-creation |
| `Streams.RunKeeps` | src/store.rs:1294-2124 | the same over whole runs |
| `Streams.StepKeepsGroups` | src/store.rs:1603-2124 | one operation keeps disjoint and bounded pending lists for all groups of the stream, those it creates or destroys included |
| `Streams.DeliveredIsPassed` | src/store.rs:1728-1762 | while sequence numbers are not exhausted, and whatever FORCE does, the ids delivered and not removed are exactly the entries between the first cursor and the present one |
| `Streams.IdsNeverReused` | src/store.rs:1312-1340 | over any run the ids XADD returns are strictly increasing, above the old last_id, and every stored id is at most last_id, whatever XDEL, XTRIM and the clock do, while the sequence number is not exhausted |
| `Streams.NextIdGrowsIff` | src/store.rs:1312-1340 | a new id is above last_id if and only if the sequence number is not exhausted |
| `Streams.ExhaustedReorders` | src/store.rs:1321-1333 | the failing case: at sequence number 2^64-1 an auto-generated id wraps to 0 and moves last_id backwards |
| `Streams.TrimKeepsLargest` | src/store.rs:1464-1473 | XTRIM MAXLEN keeps exactly min(MAXLEN, length) entries, unchanged, all above every entry it drops |
| `Streams.ForceThenReadShares` | src/store.rs:2057-2084 | the failing case: FORCE on an undelivered entry followed by XREADGROUP puts one id in two pending lists |
| `Streams.NextIdMeaning` | src/store.rs:1312-1334 | an explicit id is taken as it is if it is above last_id and refused otherwise; an automatic id is never refused and, unless the sequence is exhausted, is the smallest id above last_id whose milliseconds are not before the clock |
| `Streams.AddedMeaning` | src/store.rs:1335-1340 | XADD stores the given fields under the id it returns and becomes last_id; every other entry and all groups stay; a refused XADD changes nothing in the stream |
| `Streams.DeletedMeaning` | src/store.rs:1513-1521 | XDEL leaves exactly the entries it does not name, unchanged; last_id and groups stay |
| `Streams.TrimmedMeaning` | src/store.rs:1464-1486 | for every MAXLEN and a MINID, an id is left exactly when MAXLEN alone keeps it and it is not below MINID; fields, last_id and groups stay |
| `Streams.ContentsKept` | src/store.rs:1294-1570 | after any run of stream operations every stored entry holds the fields of the last XADD that returned its id, or those it had at the start |
| `Streams.NewGroupMeaning` | src/store.rs:1627-1654 | a new group has nothing pending and is offered exactly the entries above the given id; with "$" nothing that is there, and whatever is added above last_id |
| `Streams.HeldUntil` | src/store.rs:1682-2124 | over any run a pending entry stays with its consumer, delivery time and count unchanged, unless it is acknowledged, its group destroyed, or it is claimed by FORCE, by an XCLAIM naming it or an XAUTOCLAIM starting at or below it once it has been idle for the time asked |
| `Groups.NewIdsAbove` | src/store.rs:1728-1738 | a ">" read takes ascending stored ids above the cursor and skips none below the last one taken |
| `Groups.DeliveredKeeps` | src/store.rs:1740-1762 | a delivery keeps the group invariant and adds exactly the delivered ids, none of which was pending |
| `Groups.AckKeeps` | src/store.rs:1843-1854 | XACK keeps the invariant, removes exactly the named ids, and the ids counted plus the ids left are the ids that were pending, whichever consumer each search meets first |
| `Groups.ClaimEffect` | src/store.rs:2042-2121 | XCLAIM keeps ownership exclusive and the cursor, and leaves what was pending plus what FORCE created |
| `Groups.ClaimPending` | src/store.rs:2042-2121 | the pending set after XCLAIM: what was pending plus the named, stored, unowned ids under FORCE |
| `Groups.ClaimOwner` | src/store.rs:2042-2121 | a pending entry that is named and idle long enough (or FORCE) ends with the claiming consumer, with the IDLE and RETRYCOUNT it asked for and otherwise one delivery more for each time its id is really claimed, ids named repeatedly included; every other entry stays with its owner unchanged |
| `Groups.ClaimCreates` | src/store.rs:2057-2084 | an id nobody held is pending afterwards if and only if FORCE names a stored entry, and then for the claiming consumer |
| `Groups.ClaimReplyIsGranted` | src/store.rs:2042-2123 | with each id named once, the reply lists in order exactly the ids granted by the group as it was before the command |
| `Groups.ClaimKeepsIff` | src/store.rs:2042-2121 | XCLAIM keeps the group invariant if and only if FORCE names no stored, unowned id above last_delivered_id (nor 0-0) |
| `Groups.AboveCursorIsShared` | src/store.rs:1728-1762 | an entry pending above the cursor is delivered again, so two consumers hold it |
| `Groups.DeliveredMeaning` | src/store.rs:1740-1760 | a delivery at `now` leaves every delivered id pending for the reader with delivery time `now` and count 1, every other pending entry of every consumer as it was, and the cursor at the last id |
| `Groups.AckOthers` | src/store.rs:1843-1854 | XACK leaves every pending entry it does not name with its consumer, time and count |
| `Groups.ClaimCreatedEntry` | src/store.rs:2057-2084 | an entry FORCE creates belongs to the claiming consumer, idle as IDLE asks or not at all, with the RETRYCOUNT asked for or else delivered once for each time its id is named |
| `Groups.ClaimReplyMeaning` | src/store.rs:2042-2123 | with each id named once: without JUSTID the reply lists, in the order named, exactly the granted ids still in the stream, each with its stored fields; with JUSTID every granted id and no fields |
| `Autoclaim.ScanClaimsEachOnce` | src/store.rs:1909-1978 | following the cursor with a count of at least one terminates, its end marker (0,0) is never a pending id, it claims every entry idle enough at the first call exactly once in ascending order, claims nothing that was not idle enough at some call, keeps the set of pending ids and touches no other entry, for every HashMap order and every clock that does not run backwards |
| `Autoclaim.ScanAtOneInstant` | src/store.rs:1909-1978 | with a clock that stands still the claimed ids are exactly the sorted idle ids, whatever the page size |
| `Autoclaim.PageEffect` | src/store.rs:1909-1978 | one page keeps the group invariant, moves exactly its candidates to the target with time and count updated, and its cursor is (0,0) exactly when no candidate is left |
| `Autoclaim.PageShrinks` | src/store.rs:1926-1938 | each further page has strictly fewer pending ids at or above its cursor |
| `Autoclaim.ZeroCountStalls` | src/store.rs:1926-1938 | the failing case: with COUNT 0 and a candidate at the first call, no number of calls at any later times reaches the end marker |
| `Autoclaim.ScanEndsIff` | src/store.rs:1926-1938 | following the cursor ends if and only if COUNT is not 0 or nothing qualifies at the first call |
| `StreamObjects.RangeAfter` | src/store.rs:1730-1738 | the range scan lists the ids after the cursor, sorted, cut at the count |
| `StreamObjects.ConsumerGroup.Deliver` | src/store.rs:1728-1762 | delivers exactly the next ids and leaves the group of the specification |
| `StreamObjects.ConsumerGroup.Hand` | src/store.rs:1740-1760 | the delivery loop advances the cursor to the last id and adds all ids to one pending list, delivered once, at the time of the call |
| `StreamObjects.ConsumerGroup.FindHolder` | src/store.rs:1845-1851 | the search through the consumers finds a holder if and only if the id is pending |
| `StreamObjects.ConsumerGroup.Ack` | src/store.rs:1843-1854 | the loop leaves the group and the count of the specification, for some choice of holders |
| `StreamObjects.ConsumerGroup.Claim` | src/store.rs:2042-2123 | the loop leaves the group and the reply of the specification, for some choice of holders |
| `StreamObjects.ConsumerGroup.ClaimId` | src/store.rs:2043-2120 | one id: skipped, moved or created as the search result, idle time and FORCE demand |
| `StreamObjects.ConsumerGroup.Autoclaim` | src/store.rs:1909-1978 | collects, sorts, cuts and claims one page: group, cursor, claimed entries and deleted ids of the specification |
| `StreamObjects.ConsumerGroup.Process` | src/store.rs:1940-1976 | the claiming pass moves every candidate and splits the reply into entries and deleted ids |
| `StreamObjects.Collect` | src/store.rs:1909-1921 | the collection pass finds exactly the candidates, in whatever order it meets the consumers |
| `StreamObjects.PendingSummary` | src/store.rs:2422-2447 | with exclusive ownership the total is the size of the pending set, the bounds are its least and greatest id, and every consumer with pending entries has its count |
| `StreamObjects.Widen` | src/store.rs:2432-2443 | widening by one pending list keeps the bounds exact |
| `StreamObjects.StreamLog.Xadd` | src/store.rs:1312-1340 | stores the entry under the next id or refuses, leaving the stream of the specification |
| `StreamObjects.StreamLog.Xdel` | src/store.rs:1513-1521 | removes exactly the named entries and counts those that were there |
| `StreamObjects.StreamLog.Xtrim` | src/store.rs:1461-1489 | the two trimming passes leave the stream of the specification and count what they dropped |
| `StreamObjects.DropOldest` | src/store.rs:1464-1473 | popping the first entry while there are too many leaves exactly the largest ids |
| `Reachable.CommandIsStep` | src/store.rs:1294-2124 | every stream command on a stored stream is the step of the run theorems and changes nothing else about its key |
| `Reachable.ReplyShowsStep` | src/store.rs:1294-1762 | the reply to XADD is the id it stored, the reply to a ">" read lists the ids it delivered |
| `Reachable.ReachableSound` | src/store.rs:330-3482 | after every history of commands and save-and-load cycles from the empty store, every stored sorted set has agreeing indices, and every stored stream exclusive bounded groups or ordered ids if the history kept FORCE within the cursor or did not exhaust sequence numbers |
| `Reachable.ReachableRanges` | src/store.rs:1040-1258 | in every reachable store the indices of a sorted set agree, ZRANGEBYSCORE lists exactly the members in bounds sorted by (score, member) and ZCOUNT is their number |
| `Reachable.ReachableReload` | src/store.rs:3564-3780 | in every reachable store a snapshot brings a sorted set back with both indices as they were |
| `Reachable.ReloadKeeps` | src/store.rs:3564-3780 | saving and loading keeps index agreement, exclusive groups and ordered ids of all values |
| `Reachable.ReachableGroups` | src/store.rs:1603-2124 | in every store reached with FORCE within the cursor, across XGROUP DESTROY, re-creation, deletion and restarts: every group of every stream has disjoint pending lists within (0-0, last_delivered_id] |
| `Reachable.ReachableIds` | src/store.rs:1312-1340 | in every store reached without exhausting sequence numbers every stored entry id is above 0-0 and at most last_id |
| `StreamRuns.RunProjects` | src/store.rs:1294-2124 | any run of commands on the keyspace takes a stream that stays under its key through exactly the run of its steps |
| `StreamRuns.StoredGroupLife` | src/store.rs:1682-2124 | ownership, order and conservation for a group in the store, over any run of commands on the keyspace whose FORCE claims stay within the cursor, while its key keeps the stream |
| `StreamReplies.RepliesExactlyOnceIff` | src/store.rs:1682-1807 | over any run of commands while the key keeps the stream, without XDEL, XTRIM and XGROUP DESTROY and without exhausted sequence numbers: the ids in all replies to ">" reads of a group, in order, are exactly the sorted ids of the entries its cursor has passed, if and only if no multi-key read of the run failed after it had delivered entries of that group on that key |
| `StreamReplies.CallLosesIff` | src/store.rs:1682-1807 | when an XREADGROUP call loses entries of a key, in what can be looked up before the call: one of its keys has no live stream with the group, and an earlier one is that key, read with ">", with an entry above the cursor and COUNT not 0 |
| `StreamReplies.LostDelivery` | src/store.rs:1682-1762 | the failing case: one new entry on the first key and a second key that is not there; the reply is the error, the cursor has passed the entry, no reply lists it |
| `StreamReplies.RepliedIdsIncrease` | src/store.rs:1312-1340 | the ids XADD replies over a run are strictly increasing and above the old last_id, while the key keeps the stream and sequence numbers are not exhausted |
| `GroupReads.CallFailsIff` | src/store.rs:1690-1726 | an XREADGROUP call over several keys fails if and only if one of them has no live stream with the group |
| `GroupReads.CallWritesIff` | src/store.rs:1682-1807 | such a call, failing or not, changes the visible store if and only if a key before the first bad one is read with ">" and has something new |
| `Paging.FollowIsScan` | src/store.rs:1862-1978 | calling XAUTOCLAIM with the cursor of the last reply: the replies together list the claimed ids in order, with fields where the entry exists and apart where it was deleted, and leave the group as the scan does |
| `Paging.FollowClaimsEachOnce` | src/store.rs:1862-1978 | those ids are every entry idle enough at the first call, each once and ascending, and none that was not idle enough at some call |
| `Refusals.FailureChangesNothingIff` | src/store.rs:199-210 | an error reply to any single-key command leaves the visible store as it was if and only if it is neither an XADD refused on a missing key nor HDEL, SREM, ZADD, ZREM or ZREMRANGEBYSCORE on an empty container of another type |
| `Refusals.FailedCallChangesNothingIff` | src/store.rs:1682-1807 | a failed XREADGROUP over several keys leaves the visible store as it was if and only if no key before the first bad one was read with ">" and had something new |
| `Refusals.ReadsChangeNothing` | src/store.rs:1350-1395 | a failed XREAD over several keys, like any batch of reads, leaves the visible store as it was |
| `Refusals.RefusedXaddCreates` | src/store.rs:1309-1318 | the first failing case: XADD 0-0 on a missing key replies an error and leaves an empty stream |
| `Refusals.WrongTypeDeletes` | src/store.rs:942-970 | the second failing case: ZREM on an empty set replies WRONGTYPE and deletes the key |
| `Glob.GlobMatch` | src/commands/pubsub.rs:7-106 | accepts if and only if the declarative matcher over the tokenised pattern does, with at most n*(m+1)+m iterations of the main loop and twice that counting all inner loops |
| `Glob.StepToken` | src/commands/pubsub.rs:14-88 | escape, ?, class and literal: accepts exactly what the token at that index accepts and stops where the next token starts |
| `Glob.ScanClass` | src/commands/pubsub.rs:50-73 | the class loop finds a match if and only if some item of the class body accepts the byte, and stops at the bracket or the end |
| `Glob.SkipStars` | src/commands/pubsub.rs:23-27 | a run of stars means one star |
| `Glob.StarRound` | src/commands/pubsub.rs:23-34 | remembering a new star loses no match; a trailing star matches everything left |
| `Glob.ProgressBacktrack` | src/commands/pubsub.rs:90-97 | when what is left cannot match here, moving the last star by one byte loses no match, and without a star nothing matches |
| `Glob.FinalStars` | src/commands/pubsub.rs:100-105 | at the end of the string the pattern matches if and only if only stars are left |
| `SortedSets.KeysOfSize` | src/store.rs:32-34 | the score index of an agreeing set has as many keys as the member index has members, so ZCARD counts both |
| `SortedSets.ZaddLaws` | src/store.rs:873-937 | under every flag mix both indices stay in agreement, NX keeps old scores, XX adds nobody, GT never lowers, LT never raises, unlisted members are untouched, and without conditions the last listed score wins |
| `SortedSets.ZaddSource` | src/store.rs:901-928 | the score left is the old or a listed one, members appear exactly when listed and not XX, and NX gives a new member the score listed first |
| `SortedSets.ZaddExtreme` | src/store.rs:907-918 | GT leaves the greatest of the old and listed scores, LT the least |
| `SortedSets.ZaddChangedCounts` | src/store.rs:901-930 | with CH and each member listed once the reply is the number of members added or rescored |
| `SortedSets.RemoveAllMeaning` | src/store.rs:942-970 | ZREM removes exactly the listed members from both indices |
| `SortedSets.RangeByMember` | src/store.rs:1040-1076 | a score range is every member whose score is in bounds, once, sorted by (score, member) |
| `SortedSets.SeekLower` | src/scripting.rs:2951-2953 | seeking (min, empty member) lands on the first key whose score is not below min |
| `SortedSets.ScanByScore` | src/scripting.rs:1105-1123 | lower bound, skip_while and take_while together equal filtering all members by score and sorting, for inclusive and exclusive bounds |
| `SortedSets.RemoveRangeMeaning` | src/store.rs:1141-1180 | ZREMRANGEBYSCORE removes exactly the members in bounds and keeps the indices in agreement |
| `SortedSets.StoreRangeMeaning` | src/store.rs:1082-1135 | ZRANGESTORE builds an agreeing set of exactly the members in bounds with their scores |
| `SortedSets.SortedSetIndex.Insert` | src/store.rs:38-53 | inserts or rescores in both indices; true exactly when the member is new |
| `SortedSets.SortedSetIndex.Remove` | src/store.rs:56-64 | removes from both indices; true exactly when the member was there |
| `SortedSets.SortedSetIndex.Zadd` | src/store.rs:897-931 | the ZADD loop leaves the set and the reply of the specification |
| `SortedSets.SortedSetIndex.Zrem` | src/store.rs:956-964 | the ZREM loop leaves the set of the specification and counts what went |
| `SortedSets.SortedSetIndex.ZremRangeByScore` | src/store.rs:1160-1175 | scan, then remove: the set of the specification and the number removed |
| `SortedSets.BoundsMeaning` | src/scripting.rs:1105-1123 | an inclusive bound admits its own score and an exclusive one does not, on every other score they agree, and scores between admitted ones are admitted |
| `Lists.NormalizeRangeMeaning` | src/commands/lists.rs:86-101 | an index is in the normalised range if and only if the negative-aware start and stop select it; None exactly when nothing is selected |
| `Lists.LremLaws` | src/store.rs:3099-3158 | in every direction LREM removes min(limit, occurrences) copies and keeps the other elements in order |
| `Lists.RemoveLastIsReversed` | src/store.rs:3131-3146 | removing the last n matches is reversing, removing the first n and reversing back |
| `Lists.LremLoop` | src/store.rs:3119-3152 | the three loops compute LREM and the number removed |
| `Lists.RetainHead` | src/store.rs:3121-3130 | retain with a budget removes the first n matches |
| `Lists.CollectTail` | src/store.rs:3131-3141 | the tail scan collects descending indices whose removal is the removal of the last n matches |
| `Lists.RemoveAt` | src/store.rs:3142-3145 | removing one by one at descending indices cuts out exactly those elements |
| `Lists.PushAllMeaning` | src/store.rs:2831-2890 | RPUSH appends in order, LPUSH prepends reversed |
| `Lists.FullRotation` | src/store.rs:3292-3410 | as many right-to-left rotations as the list is long restore it |
| `Lists.LremWhich` | src/store.rs:3099-3158 | which copies LREM removes: the first ones for a positive count, the last ones for a negative, all for zero; beyond the last one removed nothing is touched |
| `Lists.SliceMeaning` | src/commands/lists.rs:86-101 | the slice of LRANGE and LTRIM is exactly the elements at the selected indices, in order |
| `Lists.EndsMeaning` | src/store.rs:2982-3095 | the left end is the front and the right end the back: the element and the rest make up the list again in this order |
| `Lists.PopLeftMeaning` | src/store.rs:2982-3036 | LPOP with a count takes the front of the list as it stands |
| `Lists.PopRightMeaning` | src/store.rs:3040-3095 | RPOP with a count takes the back of the list, last element first |
| `Decimal.AcceptsExactlyPrinted` | src/store.rs:306-319 | HINCRBY accepts a field if and only if it is the text some i64 prints to, which is also a plain syntactic condition |
| `Decimal.HashRunSums` | src/store.rs:733-753 | any run of HINCRBYs on an absent field leaves the printed sum of the successful increments; overflow leaves the hash unchanged |
| `Decimal.ParsePrintI64` | src/store.rs:306-319 | parsing a printed i64 gives it back |
| `Decimal.ParseFormatId` | src/commands/streams.rs:12-26 | parse_stream_id undoes format_stream_id for all u64 pairs |
| `Decimal.FormatsBackIff` | src/commands/streams.rs:12-26 | the converse, exactly: a text that parses formats back to itself if and only if both of its numbers are digits only without a leading zero |
| `Decimal.ParseIdLenient` | src/commands/streams.rs:18-26 | a text that does not format back to itself: "+1-02" parses as 1-2 |
| `Counters.CommandIsIncrement` | src/store.rs:733-753 | HINCRBY on a stored hash is that increment and changes nothing else about the key |
| `Counters.CountsFromNothing` | src/store.rs:733-753 | any run of HINCRBY commands on a field that is not there leaves the printed sum of the successful increments and nothing else changed, and each reply is the running sum or the overflow error |
| `Expiry.ExecSame` | src/store.rs:423-568 | the reply and the resulting live view of every command depend only on the live part of the map; GET, SET, DEL, EXISTS, KEYS, TTL and MGET with their own expiry checks are proved equal to these commands in `Store` |
| `Expiry.SweepInvisible` | src/store.rs:1573-1595 | a sweep removes no live key, whichever keys it visits |
| `Expiry.SweepsUnobservable` | src/store.rs:1573-1595 | inserting any sweeps anywhere in a run changes no reply and no live key |
| `Expiry.StaleUnobservable` | src/store.rs:190-194 | a run gives the same replies on the map and on its live part |
| `Expiry.TwoStepGetIsAtomic` | src/store.rs:423-446 | GET that decides under the read lock, lets any commands of others run and only then, under the write lock, checks again and removes what is stale, gives all clients the replies of a GET in one step |
| `Expiry.PurgeIsSweep` | src/store.rs:439-445 | the second step of GET removes no live key, not even one written there in between |
| `Expiry.SameLater` | src/store.rs:190-194 | maps with the same live keys have the same live keys at every later time |
| `Moves.MoveConserves` | src/store.rs:3292-3410 | LMOVE keeps the multiset of all elements of all live lists, and on a single key also its expiry |
| `Moves.RefusedMoveChangesNothing` | src/store.rs:3302-3340 | a move refused for a missing or empty source or a wrong type on either side changes nothing visible |
| `Moves.RotationsRotate` | src/store.rs:3403-3410 | n RPOPLPUSH on one key rotate its list n times |
| `Moves.FullTurn` | src/store.rs:3403-3410 | as many as the list is long restore the whole keyspace |
| `Scripts.ListGrowth` | src/store.rs:2831-2890 | a command after which a key newly holds a non-empty list is one that notifies list waiters |
| `Scripts.StreamGrowth` | src/store.rs:1294-1344 | a command after which a stream has a new entry is one that notifies stream waiters |
| `Scripts.ListFlagComplete` | src/scripting.rs:324-349 | for every sequence of dispatched commands, stopped anywhere: if a key newly holds a non-empty list, had_list_mutation is set |
| `Scripts.XaddFlagComplete` | src/scripting.rs:324-349 | and if a stream gained an entry, had_xadd is set |
| `Waiters.NoLostWakeup` | src/lib.rs:1069-1125 | in every reachable interleaving a parked, un-notified BLPOP, BRPOP, BLMOVE or XREAD waiter has nothing available on its keys unless the lock holder or a finished script still owes a notify, and after shutdown has notified none stays parked |
| `Waiters.StepKeepsWake` | src/lib.rs:2595-2692 | every atomic step keeps: an idle un-notified waiter with something available has been promised a notify |
| `Waiters.StepKeepsShutdown` | src/store.rs:356-373 | every atomic step keeps: no waiter parks un-notified behind the shutdown notification |
| `Waiters.EmptyPollUnavailable` | src/store.rs:3421-3480 | a poll that found nothing leaves nothing available |
| `Waiters.CommandCovers` | src/store.rs:2831-2890 | what a direct command makes available, it notifies |
| `Waiters.ScriptCovers` | src/store.rs:2468-2495 | what a script makes available, its flags notify |
| `Waiters.ShutdownDrains` | src/lib.rs:2837-2917 | after shutdown a woken waiter finishes within its next four steps |
| `Waiters.ReadEmptyIff` | src/store.rs:1350-1395 | XREAD replies no entry if and only if COUNT is 0 or no newer entry is stored |
| `Waiters.PositiveTimeoutIsFinite` | src/lib.rs:375-384 | a positive timeout becomes at least 1 ms, is rounded up by less than 1 ms, saturates exactly above 2^64-2 ms, and never means block forever |
| `Snapshot.StoreRoundTrip` | src/store.rs:3564-3780 | loading any saved form of the store gives exactly the live keys with reloaded values and expiries, and the scripts |
| `Snapshot.SaveThenLoad` | src/store.rs:3564-3780 | from_store then into_runtime, as loops over arbitrary enumerations, restores exactly that |
| `Snapshot.SaveStore` | src/store.rs:3564-3668 | the saved form represents every live key and no stale one |
| `Snapshot.LoadStore` | src/store.rs:3671-3780 | the load loops compute the map of loaded entries |
| `Snapshot.LoadZsetValidIff` | src/store.rs:3698-3707 | the rebuilt dual index agrees if and only if the saved pairs give each member one score |
| `Snapshot.ReloadKeepsContent` | src/store.rs:3564-3780 | a reload has exactly the keys live at the save, each with its content: strings, hashes, sets and lists as they are, streams with entries, last_id and groups, sorted sets with every score; a key without expiry keeps none |
| `Snapshot.ReloadKeepsGroup` | src/store.rs:3721-3753 | cursor, owners, pending ids and delivery counts come back, delivery times become the load time, and the group invariant survives |
| `Snapshot.ReloadKeepsExpiry` | src/store.rs:3676-3682 | a key with at least 1 ms left expires within the last millisecond before load time plus what was left; a shorter rest comes back without expiry |
| `PubSub.RunKeepsInverse` | src/store.rs:2571-2731 | after any run both pairs of maps are exact inverses without empty entries, and each subscriber has exactly the topics the run left it |
| `PubSub.AddTopicsKeeps` | src/store.rs:2620-2637 | subscribing adds exactly the given topics to one subscriber and keeps the maps inverse |
| `PubSub.DropTopicsKeeps` | src/store.rs:2642-2673 | unsubscribing removes exactly the given topics from one subscriber and keeps the maps inverse |
| `PubSub.AddRepliesTrue` | src/store.rs:2620-2637 | each SUBSCRIBE reply counts the true set of subscriptions at that moment |
| `PubSub.DropRepliesTrue` | src/store.rs:2642-2673 | each UNSUBSCRIBE reply counts the true set of subscriptions at that moment |
| `PubSub.PubSubRegistry.Subscribe` | src/store.rs:2620-2637 | new registry, inverse maps, true totals |
| `PubSub.PubSubRegistry.Unsubscribe` | src/store.rs:2642-2673 | the same, with no channels given meaning all of them |
| `PubSub.PubSubRegistry.Psubscribe` | src/store.rs:2678-2695 | new registry, inverse maps, true totals |
| `PubSub.PubSubRegistry.Punsubscribe` | src/store.rs:2700-2731 | the same, with no patterns given meaning all of them |
| `PubSub.PubSubRegistry.StopSubscriber` | src/store.rs:2571-2616 | is the StopListener step of the run theorem with all topics of the subscriber: it disappears from both registries, nobody else changes |
| `PubSub.PubSubRegistry.Publish` | src/store.rs:2736-2771 | returns the exact subscribers of the channel plus the subscribers of every glob-matching pattern, and sends one message per matching pattern |
| `PubSub.CountPatterns` | src/store.rs:2745-2758 | the loop over patterns in any order sums the subscribers of the matching ones |
| `LeaseLock.LeasesNeverOverlap` | python/burner_redis/lock.py:26-116 | in every interleaving of SET NX PX attempts, release scripts, ticks, sweeps and any commands that leave the lock's key alone, lease intervals of different acquisitions never overlap |
| `LeaseLock.StepKeeps` | python/burner_redis/lock.py:60-116 | every step keeps: leases ended before the next began, tokens are unique, the key is live exactly while the last lease is |
| `LeaseLock.UnmentionedKeeps` | src/store.rs:452-478 | every command, multi-key ones included, that does not name the lock's key leaves it alone |
| `LeaseLock.StaleReleaseHarmless` | python/burner_redis/lock.py:101-116 | a release whose lease is no longer in force changes no lease and not the key |
| `LeaseLock.HolderReleaseFrees` | python/burner_redis/lock.py:101-116 | the holder's release ends its lease at once and the next attempt succeeds |
| `LeaseLock.ReleaseScriptEffect` | python/burner_redis/lock.py:26-32 | the script replies 1 and deletes the key if and only if it holds the token |
| `LeaseLock.SetNxEffect` | src/store.rs:452-478 | SET NX writes if and only if no live key is there |
| `Store.KeyValueStore.PassiveExpire` | src/store.rs:885-890 | the prologue leaves the key exactly when it is live and changes nothing else |
| `Store.KeyValueStore.GetPeek` | src/store.rs:424-438 | under the read lock GET gives the reply of the whole command, or none exactly when a stale entry is in the way |
| `Store.KeyValueStore.Get` | src/store.rs:423-446 | map and reply of the command specification |
| `Store.KeyValueStore.Exists` | src/store.rs:497-508 | counts the live keys as often as they are named, equal to the sum of the per-key replies, and changes nothing |
| `Store.KeyValueStore.Mget` | src/store.rs:554-569 | the replies of the command specification, nothing changed |
| `Store.KeyValueStore.Keys` | src/store.rs:513-522 | lists, once each and in any order, exactly the live keys the glob pattern matches |
| `Store.KeyValueStore.Ttl` | src/store.rs:528-550 | map and reply of the command specification |
| `Store.KeyValueStore.Set` | src/store.rs:452-478 | map and reply of the command specification |
| `Store.KeyValueStore.Del` | src/store.rs:481-493 | removes all named keys, counts the distinct live ones |
| `Store.KeyValueStore.SweepExpired` | src/store.rs:1573-1595 | removes exactly the expired keys among at most 20 keys that have an expiry, and all of them if there are fewer than 20 |
| `Store.ScanExpired` | src/store.rs:1575-1588 | the scan in any order collects exactly the expired keys among those it checks, and checks every key that has an expiry unless it stopped at 20 |
| `Store.KeyValueStore.Hincrby` | src/store.rs:733-753 | map and reply of the command specification, errors included |
| `Store.KeyValueStore.Push` | src/store.rs:2831-2890 | map and reply of the command specification, and a list notification exactly on success |
| `Store.KeyValueStore.Lrem` | src/store.rs:3099-3158 | map and reply of the command specification; the key goes exactly when nothing remains |
| `Store.KeyValueStore.Ltrim` | src/store.rs:3196-3235 | map and reply of the command specification; the key goes exactly when nothing remains |
| `Store.KeyValueStore.LmoveAtomic` | src/store.rs:3292-3399 | check, pop, push and clean-up in place equal the move of the specification, with a notification exactly when an element moved |
| `Store.KeyValueStore.PollPop` | src/store.rs:3421-3480 | the scan over the keys is the poll of the specification: first hit or error ends it |
| `Store.KeyValueStore.RemoveIfEmpty` | src/store.rs:199-210 | the key stays, unchanged, exactly when it was there and is not a container without content; every other key stays as it was |
| `Store.KeyValueStore.Zadd` | src/store.rs:873-937 | map and reply of the command specification |
| `Store.KeyValueStore.Zrem` | src/store.rs:942-970 | map and reply of the command specification |
| `Store.KeyValueStore.ZremRangeByScore` | src/store.rs:1141-1180 | map and reply of the command specification |
| `Store.KeyValueStore.Zrangestore` | src/store.rs:1082-1135 | map and reply of the command specification; an empty range deletes the destination |
| `Store.KeyValueStore.Xadd` | src/store.rs:1294-1344 | map and reply of the command specification, and a stream notification exactly on success |
| `Store.KeyValueStore.Xtrim` | src/store.rs:1442-1493 | map and reply of the command specification |
| `Store.KeyValueStore.Xdel` | src/store.rs:1499-1525 | map and reply of the command specification |
| `Store.KeyValueStore.XreadGroupNew` | src/store.rs:1682-1762 | map and reply of the command specification for one key and ">" |
| `Store.KeyValueStore.XreadGroupHistory` | src/store.rs:1763-1803 | map and reply of the command specification for one key and an id |
| `Store.KeyValueStore.XreadGroup` | src/store.rs:1682-1807 | several keys, ">" or ids: map and reply of the command specification; an error is the whole reply, earlier deliveries stay delivered |
| `Store.KeyValueStore.Xack` | src/store.rs:1811-1855 | map and reply of the command specification for the holders found |
| `Store.KeyValueStore.Xclaim` | src/store.rs:1987-2124 | map and reply of the command specification for the holders found |
| `Store.KeyValueStore.Xautoclaim` | src/store.rs:1862-1978 | map and reply of the command specification for the HashMap order met |
| `StreamAnswers.ReadAnswer` | src/store.rs:1350-1395 | XREAD lists exactly the COUNT oldest stored entries after the id, ascending, with their stored fields |
| `StreamAnswers.RangeAnswer` | src/store.rs:1532-1570 | XRANGE lists exactly the COUNT oldest stored entries between the two ids, both included, ascending, with their stored fields |
| `StreamAnswers.DeliveryAnswer` | src/store.rs:1728-1762 | XREADGROUP ">" lists exactly the COUNT oldest stored entries above the cursor, ascending, with their stored fields |
| `StreamAnswers.HistoryAnswer` | src/store.rs:1763-1803 | a history read takes the COUNT oldest of the consumer's own pending ids from the given one on, lists those still stored, in order and with their fields, and changes nothing |
| `StreamAnswers.DeliveryLeaves` | src/store.rs:1740-1760 | after XREADGROUP ">" at t every entry in the reply is pending for the reader, delivered once, at t |
| `StreamAnswers.ClaimTakesIff` | src/store.rs:2042-2115 | an XCLAIM without FORCE that names a pending entry takes it over if and only if it has been idle for the time asked; otherwise its consumer, time and count stay |
| `StreamAnswers.AutoclaimTakesIff` | src/store.rs:1909-1978 | an XAUTOCLAIM without a count that starts at or below a pending entry takes it over, delivered once more and now, if and only if it has been idle for the time asked |
| `StreamAnswers.DeliveredStays` | src/store.rs:1682-2124 | an entry delivered to a consumer at t is still pending for it, as delivered at t and once, after any run of commands on the keyspace in which it is not acknowledged, its group not destroyed, and it is not claimed by FORCE or at some t' with min-idle at most t' - t |
| `StreamAnswers.ClaimAnswer` | src/store.rs:1987-2124 | the XCLAIM command replies the granted ids in order with their stored fields, or with JUSTID the ids alone |
| `StreamAnswers.FieldsSurvive` | src/store.rs:1294-2124 | over any run of commands while a key keeps its stream, every entry listed by a reply to XREAD, XRANGE, XREADGROUP, XCLAIM or XAUTOCLAIM, and every entry stored at the end, has the fields of the last XADD before it that returned its id, or those from before the run |
| `StreamAnswers.AddAnswer` | src/store.rs:1294-1344 | XADD, on a missing key too: on an id reply that entry holds the given fields and every other entry, group and key is as before; on a refusal all of them are |
| `StreamAnswers.DeleteAnswer` | src/store.rs:1499-1525 | XDEL leaves exactly the entries it does not name and replies how many went |
| `StreamAnswers.TrimAnswer` | src/store.rs:1442-1493 | XTRIM with any options leaves, of the largest MAXLEN ids, exactly those not below MINID, unchanged, and replies how many entries went |
| `StreamAnswers.AckAnswer` | src/store.rs:1811-1855 | XACK replies how many of the named ids were pending for anyone, takes exactly those off, and leaves every other pending entry as it was |
| `StreamAnswers.CreateAnswer` | src/store.rs:1603-1656 | XGROUP CREATE replies OK exactly for a new group on a stream, or on a missing key with MKSTREAM; entries and last_id stay, nothing is pending, and the first read is offered the entries above the id, or with "$" none that are there |
| `StreamAnswers.DestroyAnswer` | src/store.rs:1658-1680 | XGROUP DESTROY removes that group and nothing else and tells whether it was there |
| `ListAnswers.QueueOrder` | src/store.rs:2831-2890 | after LPUSH or RPUSH on a list or a missing key, BLPOP or BRPOP as often as the list is long returns exactly its elements in queue or stack order, all four combinations, and leaves no key |
| `ListAnswers.FirstInFirstOut` | src/store.rs:3421-3451 | RPUSH of values on a missing key and then as many BLPOPs returns the values in order |
| `ListAnswers.Drain` | src/store.rs:3421-3481 | as many polls as the list is long return it front to back for BLPOP and back to front for BRPOP, whatever the times while the key is live |
| `ListAnswers.PollServesFirst` | src/store.rs:3421-3481 | a poll of several keys takes the end element of the first key that has one and touches no other key |
| `ListAnswers.MoveBetween` | src/store.rs:3292-3399 | LMOVE between two keys: the source loses exactly the element at its end and goes when it was the last, the destination has it at its end or is made with it, both keep their expiry, the element is the reply, no other key changes |
| `ListAnswers.MoveWithin` | src/store.rs:3292-3399 | LMOVE on one key moves the element from one end to the other, or leaves the list, and keeps the expiry |
| `ListAnswers.PopAnswer` | src/store.rs:2982-3095 | LPOP and RPOP with a count reply the elements from that end in the order they come off and leave the others |
| `ListAnswers.SliceAnswer` | src/store.rs:2947-2980 | LRANGE lists, and LTRIM leaves, exactly the elements between the two indices, in order; LTRIM of everything drops the key |
| `ListAnswers.InsertAnswer` | src/store.rs:3243-3288 | LINSERT puts the value right before or right after the first pivot and replies the new length, or -1 and no change without the pivot |
| `ListAnswers.IndexAnswer` | src/store.rs:2919-3190 | LINDEX and LSET reach the element at the index, counted from the tail when negative, and no other |
| `KeyAnswers.TtlAnswer` | src/store.rs:528-550 | -2 without a live key, -1 without an expiry, otherwise the whole seconds left; nothing visible changes |
| `KeyAnswers.ExpireAnswer` | src/store.rs:1265-1290 | seen at any later time, the key is there with its value before the deadline and gone from it on, so a deadline that is not in the future removes it; a missing key stays missing and the reply is false |
| `KeyAnswers.SetAnswer` | src/store.rs:452-478 | SET refused by NX or XX changes nothing; otherwise GET at any later time finds the value until the time given has passed |
| `KeyAnswers.PresenceAnswer` | src/store.rs:481-509 | EXISTS and DEL tell whether a live key is there; after DEL none is, at any later time; other keys stay |
| `KeyAnswers.StringAnswer` | src/store.rs:423-447 | GET shows a live string as it is, nothing without a live key and an error for other types; MGET shows nothing for those; nothing visible changes |
| `KeyAnswers.OthersKeepExpiry` | src/store.rs:452-478 | every single-key command other than SET and EXPIRE that leaves the key in place leaves its expiry as it was |
| `KeyAnswers.WrongTypeIff` | src/store.rs:607-625 | a single-key command replies WRONGTYPE if and only if it looks at types and the live value is of another, or XADD refuses an explicit id |
| `KeyAnswers.RanksSelected` | src/store.rs:976-1036 | ZRANGE lists in score order exactly the members whose ranks the two indices select |
| `KeyAnswers.LastPairWins` | src/store.rs:575-604 | after HSET a field has the value of the last pair that names it |
| `KeyAnswers.HdelAnswer` | src/store.rs:630-660 | HDEL takes out exactly the named fields, replies how many there were, and drops the key with the last one |
| `KeyAnswers.MembersAnswer` | src/store.rs:760-868 | SADD and SREM bring in or take out exactly the named members and reply how many; SREM drops the key with the last one |

## Left out

- PyO3 bindings, argument extraction and result formatting: conversion without invariants of its own.
- The Lua VM and the argument parsing of `redis.call`: a script is its sequence of dispatched commands, which the model gives the same meaning as the direct commands.
- The two ways the Lua ZADD arm differs from ZADD: it keeps the members inserted before a score that does not parse, and it never removes an empty key.
- Files, MessagePack and SHA-1: only the snapshot datatypes and their two conversions are modelled.
- Tokio internals, broadcast lag and listener joins.
- XREADGROUP in the wakeup theorem: recreating a group can expose entries without a notify.
- Float text, NaN scores and the LIMIT option of ZRANGEBYSCORE.
- `Instant` underflow from a huge XCLAIM IDLE value: times are unbounded.
- Getters and dictionaries that only add easy members: HVALS, HGETALL, HEXISTS, SMEMBERS, XINFO, the XPENDING range form, PUBSUB NUMSUB, NUMPAT and CHANNELS.
- A theorem that no empty container is stored: HSET without fields and SADD without members leave an empty key.
- The sleeping and the deadline of a blocking lock acquisition: each attempt of its loop is one step of `LeaseLock`.
- The loops of blocking calls as code: they are the steps of a waiter in `Waiters`, since what matters is their interleaving.
- Commands that appear only as specifications in `Commands` and not as methods of the store object: EXPIRE, the reads of lists, sorted sets and streams, LPOP and RPOP with counts, LSET, LINSERT, XRANGE, XREAD, XGROUP, the hash and set commands other than HINCRBY; what they tell and leave is proved in `StreamAnswers`, `ListAnswers` and `KeyAnswers`.
- Waiters.PositiveTimeoutIsFinite: timeouts are reals, so the rounding of the float product is not modelled.
