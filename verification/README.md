# Feed cache, message move and WebSocket watchdog: a verified model

A Dafny model of the stateful parts of the social network in this repository, with proofs:

* **The feed cache.** A Redis list per user, filled on a miss, pushed or dropped by queue events,
  dropped on friend changes. `posts.dfy` and `dedup.dfy` give the feed query, `redis_lists.dfy`
  and `friends.dfy` the stores, `feed_model.dfy` the protocol as a state machine.
  `feed_effects.dfy` says what each step does in numbers of rows and elements of lists;
  `feed_safety.dfy` (both modes), `feed_onepost.dfy`, `feed_default.dfy` and `feed_reads.dfy`
  prove what runs keep. `feed_unlocked.dfy` takes the one-post mode apart into single commands of
  any number of handlers, and `feed_consumer.dfy` the consumer of both modes; they prove what
  remains, `feed_disturbed.dfy` and `feed_races.dfy` what breaks, and `feed_refinement.dfy` that
  every run of the state machine is a run of these commands. `feed_service.dfy` and
  `fanout.dfy` are the handlers, command by command on objects with mutable fields, each proved to
  be one step of the state machine.
* **Marking messages as read.** Fetch from `unread`, insert into `dialogs` one by one, remove from
  `unread`: `mark_as_read.dfy` has the services and one undisturbed run, `message_runs.dfy` all
  interleavings of sends, runs and crashes.
* **WebSocket peers.** Peer map, per-user queues and consumers, messages handed to a consumer and
  waiting for the lock, and the two-phase watchdog: `websocket.dfy`.

`dafny verify dfyconfig.toml` checks the whole project.

## Modelling choices

* UUIDs are natural numbers. Rows with equal `time_updated` are ordered by identifier;
  `SelectedIgnoresStorageOrder` shows that the storage order of a table then never shows.
* In `feed_model.dfy` one step is one handler call: a database write and its publication are one
  step, and so are a friend change with its invalidation, the lookup, query and fill of a read,
  and the consumer's lookup and loop. The code takes no lock over these. `feed_unlocked.dfy` takes
  all of them apart in the one-post mode, down to each RPUSH and each DEL, and proves the same
  coherence under the condition `Undisturbed`; `LateFillGoesStale`, `FilledTwiceIsWrongIff`,
  `TornFillIsWrong`, `LateFriendGoesStaleIff`, `LateRemovalGoesStaleIff` and
  `LostPublicationGoesStale` show what each of its clauses is for, and `RunIsMoves` says that every
  run of `feed_model.dfy` in that mode is an undisturbed run of commands. `feed_consumer.dfy` takes
  the consumer apart in both modes.
* In the default mode a reader's list is the top of the query's result after the queue is handled
  if, step by step, the environment grants what `FeedDefault.Orderly` lists: messages handled once
  and in order, a clock that does not go back, and no push on the way when a list is filled or
  invalidated. It is all of the result if, beside that, each creation finds a list to push onto
  (`Granted`). The lemmas ending in `Iff` say how far these are needed.
* With offset and limit zero the last index of a hit underflows: a checked subtraction panics, a
  wrapped one is an index that Redis rejects, and its error is unwrapped. Both are `Panicked`.
* There is one friend relation, the Postgres storage. `query_one` fails on no row and on several.
* A cached entry carries, beside the post, the row it came from. The program does not store this;
  nothing in the model decides on it.
* `issued` (row identifiers handed out, with their author) and `accepted` (messages stored by
  `unread`) are history variables.
* `dialogs` has the message identifier as primary key (dialogs/migrations), so inserting an
  existing identifier fails. Whether the database answers an insertion is a parameter.
* The broker follows AMQP 0-9-1: direct exchanges (section 3.1.3.1), fanout (section 3.1.3.2),
  acknowledgements (section 3.1.8) and ordering (section 4.7). An error closes the channel and
  with it its consumers; deleting a queue cancels the queue's consumers.

## Where the code and its documentation, or its intention, differ

* report/lesson_10/README.md promises one post per friend in the one-post mode. The code removes
  neighbours only. `OnePerAuthorIffContiguous` says exactly when the promise holds.
* The same text describes a fall-back to the database when Redis is down. `redis::exists` unwraps
  its own error, so the request panics before the fall-back; the model has no such branch.
* LTRIM 0 FEED_LENGTH keeps FEED_LENGTH + 1 entries: `OverfullHitIff`, `OverfullListNeverEnds`.
* A creation pushed onto an absent list makes a feed of one post, and a list filled while a
  creation is pending shows that post twice: `CreationSettlesIff`, `FillDuringCreationsSettlesIff`.
* A pushed post is served with an identifier that no row has: `PushedPostNamesNoRow`.
* The status of the send is ignored before the removal: `IgnoredFailureLoses`,
  `RetryAfterCrashLosesRest`.
* Queues are per user and not per connection: the watchdog silences a live connection together
  with a dead one of the same user (`LivePeerKeepsConsumerIff`, `SilentUntilReconnect`).
* All consumers share one channel. A user's reconnect that a sweep meets between declaring and
  binding the queue closes it, so that one racing reconnect silences every user
  (`ConsumerAfterRunIff`, `RacingReconnectSilencesAll`, `SilencedFromStart`).
* A consumer looks its peer up with an unwrapped lookup. A sweep that finds the peer expired after
  the broker has handed the message over makes it panic (`DeliveryFindsPeer`,
  `SweepOvertakesDelivery`, `OvertakenFromStart`).
* A reader who leaves an author after the consumer has looked the readers up gets the author's
  post all the same (`ReachBreaksIff`, `LeftAuthorIsShown`).

## Model

| member | source | states |
|---|---|---|
| Posts.SelectedIsNewestByAuthors | backend/src/post.rs:157-169 | the query returns only rows by followed authors, newest first, as many as fit under FEED_LENGTH, and leaves out no row newer than one it returns |
| Posts.SelectedIgnoresStorageOrder | backend/src/post.rs:157-164 | with distinct identifiers the result is the same for every storage order of the same rows |
| Posts.OrderIsUnique | backend/src/post.rs:157-159 | a newest-first arrangement of the same rows is unique |
| Posts.SameViewsIff | backend/src/post.rs:414-428 | what the default mode promises about a feed is said of views; equal views are equal contents by equal authors, place by place |
| Posts.NewestRowComesFirst | backend/src/post.rs:157-164 | inserting a row newer than the table puts it on top of the old result, which loses its last place |
| Posts.NewestRowHeadsFeed | backend/src/post.rs:157-164 | the newest row by a followed author is the first of the feed |
| Dedup.DedupInPlace | backend/src/post.rs:170-172 | the in-place pass leaves in the kept prefix exactly the deduplicated old contents |
| Dedup.DedupKeepsRunStarts | backend/src/post.rs:170-172 | the result is the subsequence of run starts, that is the newest post of every run of one author |
| Dedup.RunStartsAreExact | backend/src/post.rs:170-172 | the run starts are, in order, exactly the positions whose predecessor is by another author |
| Dedup.DedupLeavesNoNeighbours | backend/src/post.rs:170-172 | no two neighbours of the result are by one author |
| Dedup.DedupKeepsEveryAuthor | backend/src/post.rs:170-172 | the result has the same authors |
| Dedup.DedupIsIdempotent | backend/src/post.rs:170-172 | a second pass changes nothing |
| Dedup.OnePerAuthorIffContiguous | backend/src/post.rs:170-172 | the result has one post per author if and only if no author's posts are interleaved with another's |
| RedisLists.RedisConnection.LPush | backend/src/redis.rs:100-107 | LPUSH puts the value on top, creating the list when absent; no list is ever empty |
| RedisLists.RedisConnection.RPush | backend/src/redis.rs:109-116 | RPUSH appends, creating the list when absent |
| RedisLists.RedisConnection.LTrim | backend/src/redis.rs:118-125 | LTRIM keeps the inclusive range and removes the key when nothing is left |
| RedisLists.RedisConnection.LRange | backend/src/redis.rs:127-134 | LRANGE returns as many elements as the list has between the two positions, both included, element i being the one at start + i; none for an absent key |
| RedisLists.RedisConnection.Del | backend/src/redis.rs:45-53 | DEL removes the key and nothing else |
| RedisLists.RedisConnection.Exists | backend/src/redis.rs:18-25 | EXISTS says yes if and only if there is an element to range |
| Friends.PostgresFriendStorage.GetByUserId | backend/src/postgres_friend_storage.rs:44-57 | returns the rows of the user in order |
| Friends.PostgresFriendStorage.GetByFriendId | backend/src/postgres_friend_storage.rs:59-72 | returns the rows that name the friend in order |
| Friends.LookupsCount | backend/src/postgres_friend_storage.rs:44-72 | both lookups return each matching row as often as the table has it, and no other |
| Friends.PostgresFriendStorage.GetByUserIdAndFriendId | backend/src/postgres_friend_storage.rs:74-84 | finds the pair if and only if it has exactly one row |
| Friends.PostgresFriendStorage.IsPersistant | backend/src/postgres_friend_storage.rs:116-130 | says yes if and only if the pair has exactly one row |
| Friends.PostgresFriendStorage.Create | backend/src/postgres_friend_storage.rs:86-99 | adds one row to the pair, also when it has one already, and none to any other pair |
| Friends.PostgresFriendStorage.Delete | backend/src/postgres_friend_storage.rs:101-114 | leaves the pair without a row and every other pair with as many as it had |
| Friends.OpCounts | backend/src/main.rs:351-375 | what one friend_set or friend_delete does to the number of rows of any pair |
| Friends.UniquePairsRun | backend/src/main.rs:349-370 | sequential calls keep every pair at one row at most |
| Friends.LastCallDecides | backend/src/main.rs:349-375 | after any run a pair without duplicates has the state that the last call about it asked for |
| Friends.DuplicateNeverLeaves | backend/src/main.rs:351-375 | a duplicated pair is never repaired: every set adds a row and no delete removes one |
| Friends.UnduplicatedIffInitially | backend/src/main.rs:349-375 | a run leaves a pair unduplicated if and only if it was so before |
| Friends.ConcurrentSetsDuplicate | backend/src/main.rs:351-364 | two calls that both check before either inserts make a duplicate |
| Friends.FollowersCountPairs | backend/src/postgres_friend_storage.rs:59-72 | a reader occurs among an author's readers as often as the pair has rows |
| FeedModel.PushedAllCounts | backend/src/post.rs:418-430 | the consumer's push loop gives a reader's list the entry as often as the reader occurs, cut to FEED_LENGTH + 1 |
| FeedModel.RunsKeepFriendPairsUnique | backend/src/main.rs:349-370 | no run of the whole protocol duplicates a friend pair |
| FeedModel.UpdateMovesToTop | backend/src/post.rs:302-310 | an update at a new time brings the post, with the new content and its creation time, to the top of its readers' feeds |
| FeedEffects.FeedIsLatestThousand | backend/src/post.rs:157-169 | the feed has rows by authors the user reads, each at most as often as stored, latest first, at most 1000; a row by these authors that is left out finds 1000 others not older |
| FeedEffects.OnePostFeedIsRunStarts | backend/src/post.rs:170-172 | the one-post feed is the other feed at exactly the positions whose predecessor is by another author |
| FeedEffects.ReadStoresFeed | backend/src/post.rs:146-183 | a read leaves a present list and all other users' lists alone, and stores the feed element by element under an absent key |
| FeedEffects.CreateAddsRow | backend/src/post.rs:278-300 | one row more, with the new identifier, the given content and author and the current time twice; one message more |
| FeedEffects.UpdateChangesRow | backend/src/post.rs:302-322 | the positions with the identifier get content, author and time, all others stay; one message more |
| FeedEffects.DeleteRemovesRow | backend/src/post.rs:324-344 | no row with the identifier is left, every other as often as before; one message more |
| FeedEffects.DeliverChangesList | backend/src/post.rs:413-451 | what handling a message does to the list of a user with n rows for its author: nothing for n = 0; for a creation in the default mode n copies on top, cut to 1001; otherwise the list is removed |
| FeedEffects.FriendSetAddsRow | backend/src/main.rs:349-364 | unless the pair has exactly one row, it has one more, and no other pair changes |
| FeedEffects.FriendDeleteRemovesRow | backend/src/main.rs:458-480 | if the pair has exactly one row it has none afterwards, and no other row changes |
| FeedEffects.FriendChangeTakesLists | backend/src/post.rs:346-361 | an accepted change removes the lists of the user and of all whom the user read, and no other; a refused one none |
| FeedEffects.StepCountsAsOp | backend/src/main.rs:347-375 | every step of the protocol changes the number of rows of every pair as the laws about sequences of calls say |
| FeedEffects.DeletedIsInNoFeed | backend/src/post.rs:324-332 | after a deletion no post with the identifier is in anybody's feed, in either mode |
| FeedEffects.DeletedIsNotCached | backend/src/post.rs:442-451 | default mode: after a deletion and any further run handled in order to an empty queue no list shows the row |
| FeedEffects.DeletedIsNotCachedOnePost | backend/src/post.rs:442-451 | one-post mode: the same in any order of delivery, once no event is pending for the user |
| FeedSafety.SoundAfterEveryRun | backend/src/post.rs:346-361 | both modes, any delivery, the consumer's lookup and loop as one step: every cached post is by an author followed now, and every list has 1 to FEED_LENGTH entries, one more in the default mode |
| FeedSafety.FriendsStaySound | backend/src/friend.rs:92-102 | invalidating before a friend change leaves no list with a post by an author no longer followed |
| FeedConsumer.IssuedAfterEveryRun | backend/src/post.rs:413-430 | both modes, anything happening between the consumer's lookup and its pushes: every entry is of a row that was handed out, by its author, and lists keep their bounds |
| FeedConsumer.FollowedAfterEveryRun | backend/src/post.rs:418-430 | with the same steps every cached post is by an author followed now, if no reader leaves the author of a post that is about to be pushed onto the reader's list |
| FeedConsumer.ReachBreaksIff | backend/src/post.rs:419-430 | one pass of the loop makes a list show an author not followed if and only if it pushes and the reader does not follow the author any more |
| FeedConsumer.LeftAuthorIsShown | backend/src/post.rs:418-430 | default mode: a reader looked up who leaves the author before the push ends with the author's post and an empty queue |
| FeedConsumer.UndisturbedJobIsDelivery | backend/src/post.rs:411-459 | lookup, loop and acknowledgement without interference are the model's delivery |
| FeedConsumer.RunIsMoves | backend/src/post.rs:411-459 | both modes: every run of the coarse model, with repeated and partial handling, is an undisturbed run of lookups, single passes, acknowledgements and stops |
| FeedOnePost.CoherentAfterEveryRun | backend/src/post.rs:413-451 | after every run each list is absent, or what the query returns now, or an event by a followed author is pending, under any order, repetition and partial handling of messages |
| FeedOnePost.DrainedListIsFresh | backend/src/post.rs:155-183 | without a pending event of a followed author a present list is exactly the query's result |
| FeedOnePost.WriteOfOthers | backend/src/post.rs:278-344 | a write by an author outside a reader's feed does not change that feed |
| FeedOnePost.ConsumedAllDropsReaders | backend/src/post.rs:422-450 | consuming events removes exactly the lists of their authors' readers |
| FeedOnePost.DeliveryOrderIsIrrelevant | backend/src/post.rs:422-459 | any two deliveries of the same events, reordered and repeated, leave the same cache |
| FeedDefault.NoStaleAfterEveryRun | backend/src/post.rs:302-344 | in-order delivery: every cached entry shows its row as it is now, or an update or deletion of that row is still queued |
| FeedDefault.DrainedCacheIsLive | backend/src/post.rs:414-451 | with an empty queue no deleted or outdated post is cached |
| FeedDefault.ConsumerAbsorbs | backend/src/post.rs:413-452 | with unique pairs the consumer's loops act on each reader's list as one push, one drop or nothing |
| FeedDefault.DeliveryKeepsProjection | backend/src/post.rs:413-459 | handling the next message does not change the list that the queue leads to |
| FeedDefault.WriteActsOnProjection | backend/src/post.rs:278-344 | a write acts on that list as if the cache were maintained at once |
| FeedDefault.CreationSettlesIff | backend/src/post.rs:414-431 | a newest creation keeps the coming list right if and only if a list is there to push onto or the feed was empty |
| FeedDefault.DroppingWriteSettles | backend/src/post.rs:432-451 | updates and deletions keep the coming list right without any condition |
| FeedDefault.FillSettles | backend/src/post.rs:155-183 | a fill comes out right when every pending creation for the reader is followed by an update or deletion for the reader |
| FeedDefault.FillDuringCreationsSettlesIff | backend/src/post.rs:155-183 | a list shorter than FEED_LENGTH filled while only creations are pending comes out right if and only if none of them concerns the reader |
| FeedDefault.SettlesAfterEveryRun | backend/src/post.rs:414-451 | after every granted run the list the queue leads to is absent or reads, in its first FEED_LENGTH places, as the query does |
| FeedDefault.DrainedListReadsFresh | backend/src/post.rs:413-452 | the same of the cached list itself once the queue is empty |
| FeedDefault.PrefixAfterEveryRun | backend/src/post.rs:414-431 | without the condition that a creation finds a list: after every orderly run the list the queue leads to reads as the top of the query's result, and as all of it if and only if it is as long |
| FeedDefault.DrainedListReadsAsTop | backend/src/post.rs:413-452 | the same of the cached list itself once the queue is empty |
| FeedDefault.PresentListKeepsUp | backend/src/post.rs:414-431 | while a list is present and posts are only created, pushing the pending events in order onto it always gives what the query returns now |
| FeedReads.AnswerIsPage | backend/src/post.rs:134-205 | a request gets a page if and only if offset and limit are below 2^63 and, on a hit, not both zero; the page has the elements from offset on, limit of them or as many as there are, of the cached list on a hit and of the feed on a miss, with offset and limit cut at 1000 |
| FeedReads.HitIsMissIff | backend/src/post.rs:134-205 | a hit and a miss answer alike for every offset and limit except when both are zero |
| FeedReads.OverfullHitIff | backend/src/post.rs:192-205 | on a list of FEED_LENGTH + 1 a hit is the page of the first FEED_LENGTH if and only if the clamped request ends there |
| FeedReads.FullListBecomesOverfull | backend/src/post.rs:427-428 | a full list that receives a creation holds FEED_LENGTH + 1 entries |
| FeedReads.ScrollingTilesTheFeed | backend/src/post.rs:134-143 | asking for page after page of any size until one is empty yields the feed without gap or repetition |
| FeedReads.OverfullListNeverEnds | backend/src/post.rs:134-143 | on an overfull list every page from FEED_LENGTH on repeats the last entry, so no page is empty |
| FeedReads.DrainedOnePostReads | backend/src/post.rs:127-207 | one-post mode: after any run with no event pending for the reader every page is the page of the query |
| FeedReads.DrainedDefaultReads | backend/src/post.rs:127-207 | default mode: after a granted run with an empty queue every page within FEED_LENGTH shows the contents and authors of the query |
| FeedReads.DrainedOrderlyReads | backend/src/post.rs:127-207 | default mode: after an orderly run with an empty queue every page within FEED_LENGTH shows the top of the query's page and nothing else |
| FeedReads.DeletedIsOnNoPage | backend/src/post.rs:127-207 | default mode: after a deletion and any further run handled in order to an empty queue no page shows the row |
| FeedReads.DeletedIsOnNoOnePostPage | backend/src/post.rs:127-207 | one-post mode: in any order of delivery, once no event is pending for the user, no post on a page has the identifier |
| FeedRaces.NewAuthorShowsIff | backend/src/post.rs:157-164 | following one author more changes the query's result if and only if a post by that author is in the new result |
| FeedRaces.GapReadGoesStaleIff | backend/src/friend.rs:92-96 | a list filled between the invalidation and the write of friend_set stays wrong if and only if the new friend has a post in the new feed |
| FeedRaces.PushedPostNamesNoRow | backend/src/post.rs:279-296 | a post pushed from a creation event is served under an identifier that no row has |
| FeedRaces.CreationPushedOncePerRow | backend/src/post.rs:418-430 | a creation reaches a reader's list once per row of the friend relation |
| FeedRaces.ReorderedDeliveryServesOutdated | backend/src/post.rs:414-441 | default mode: a creation handled after the update of its post leaves the old content cached with an empty queue |
| FeedRaces.RedeliveryPushesTwice | backend/src/post.rs:427-459 | default mode: a creation delivered twice appears twice |
| FeedUnlocked.WriteIsPooledStep | backend/src/post.rs:278-344 | a write without its publication is a step of the state in which published and unpublished events form one queue |
| FeedUnlocked.CoherentAfterEveryRun | backend/src/post.rs:148-183 | one-post mode, every command a step of its own, any number of readers and consumers at once: in every undisturbed run each list that is not under construction is absent, or fresh, or a message whose every handler will still drop it is pending or to be published |
| FeedUnlocked.DrainedListIsFresh | backend/src/post.rs:155-183 | after such a run a complete list for whose reader no event is pending or unpublished is the query's result |
| FeedUnlocked.UndisturbedMissIsRead | backend/src/post.rs:148-183 | query, RPUSH loop and end without interference are the model's read |
| FeedUnlocked.UndisturbedJobIsDelivery | backend/src/post.rs:418-451 | lookup, DEL loop and acknowledgement without interference are the model's consumer |
| FeedUnlocked.IdleCoherentIff | backend/src/post.rs:413-451 | with no handler under way this coherence is that of the coarse model |
| FeedRefinement.RunIsMoves | backend/src/post.rs:411-459 | one-post mode: every run of the coarse model is an undisturbed run of single commands that ends with the same tables, cache and messages |
| FeedDisturbed.FilledTwiceIsWrongIff | backend/src/post.rs:148-183 | two readers that miss at once, query and append leave the feed twice over, which is wrong for good, if and only if the feed is not empty |
| FeedDisturbed.SecondFillIsWrong | backend/src/post.rs:174-183 | any fill that appends to a right list makes it wrong for good |
| FeedDisturbed.TornFillIsWrong | backend/src/post.rs:174-183 | a list dropped between two RPUSHes of its fill, or a fill that stops between two, leaves a wrong list for good |
| FeedDisturbed.LateFillGoesStale | backend/src/post.rs:157-183 | a message done with between a reader's query and its fill leaves a wrong list with nothing to repair it |
| FeedDisturbed.LostPublicationGoesStale | backend/src/post.rs:283-297 | a handler that stops between write and publication leaves every present list of the author's readers wrong with nothing to repair it |
| FeedDisturbed.LateFriendGoesStaleIff | backend/src/friend.rs:92-96 | following an author under a right list makes it wrong for good if and only if a post by the author is in the new result |
| FeedDisturbed.LateRemovalGoesStaleIff | backend/src/friend.rs:98-102 | leaving an author under a right list makes it wrong for good if and only if the list shows the author |
| Fanout.RoutedAllCounts | backend/src/post.rs:492-503 | each bound queue receives as many copies as its key is published to, after what it held |
| Fanout.ExactFanOut | backend/src/post.rs:482-504 | with unique pairs each connected reader's queue receives the event once and no other queue receives it |
| FeedService.FeedService.GetFeed | backend/src/post.rs:127-207 | answers with a page if and only if offset and limit are below 2^63 and the key is absent or they are not both zero; the page is told element by element, with offset and limit cut at 1000; the cache afterwards is that of the model's read |
| FeedService.FeedService.Fill | backend/src/post.rs:174-183 | the RPUSH loop stores the whole result in order under the absent key, or nothing for an empty one |
| FeedService.FeedService.PublishMessage | backend/src/post.rs:482-504 | one message to the feed queue; every connected user's queue gets as many as the pair has rows, after what it held |
| FeedService.FeedService.Create | backend/src/post.rs:278-300 | one row more, one message to the feed queue and one per row of a pair to each reader; one model step |
| FeedService.FeedService.Update | backend/src/post.rs:302-322 | changes exactly the rows with the identifier, publishes even when there is none, and tells whether there was |
| FeedService.FeedService.Delete | backend/src/post.rs:324-344 | leaves no row with the identifier and every other as often as it was, and publishes |
| FeedService.FeedService.PostUpdate | backend/src/main.rs:663-687 | succeeds if and only if exactly one row has the identifier and the user wrote it; then that row has the new text and time and no other changes; otherwise nothing changes |
| FeedService.FeedService.PostDelete | backend/src/main.rs:712-733 | succeeds on the same condition; then no row has the identifier and every other is as before; otherwise nothing changes |
| FeedService.FeedService.DropLists | backend/src/post.rs:436-440 | the DEL loop removes exactly the readers' lists |
| FeedService.FeedService.PushToLists | backend/src/post.rs:419-430 | the LPUSH and LTRIM loop pushes once per row, in order |
| FeedService.FeedService.Consume | backend/src/post.rs:411-459 | takes the message at the position out of the queue and changes each user's list as the number of rows of the pair asks; with automatic acknowledgement the broker lets the message go first |
| FeedService.FeedService.CacheInvalidateByFriendUserId | backend/src/post.rs:346-361 | removes exactly the lists of the user's friends and of the user |
| FeedService.FeedService.FriendSet | backend/src/main.rs:347-375 | refuses if and only if the pair has exactly one row; otherwise the row is in the relation, every other pair has as many rows as before, and the lists of the user and of all whom the user read are gone |
| FeedService.FeedService.FriendDelete | backend/src/main.rs:458-480 | succeeds if and only if the pair has exactly one row; then it has none, every other row is as before, and the same lists are gone |
| MarkAsRead.UnreadService.GetByIds | unread/src/dialog.rs:103-125 | returns each stored message as often as it is stored if its identifier is named, and no other |
| MarkAsRead.UnreadService.RemoveByIds | unread/src/dialog.rs:127-137 | leaves no message with a named identifier and every other as often as it was stored; what it returns and what is left add up to what was stored |
| MarkAsRead.DialogsService.Create | dialogs/src/dialog.rs:74-95 | afterwards exactly the messages held before are held, and the new one if and only if it succeeds, which it does on a new key and an answered insertion |
| MarkAsRead.DialogsService.SendMessagesVec | dialogs/src/main.rs:149-157 | inserts up to the first message whose key is known or whose insertion is not answered; exactly these and the messages held before are held; OK if and only if that is the whole batch |
| MarkAsRead.StopsAtFirstFailure | dialogs/src/main.rs:149-157 | the same of the functions that specify the loop |
| MarkAsRead.DialogMarkAsRead | backend/src/main.rs:1126-1202 | afterwards `unread` has no message with a named identifier and every other as before, and `dialogs` holds beside its own the fetched ones up to the first that fails |
| MarkAsRead.LostIff | backend/src/main.rs:1162-1202 | a fetched message is in neither store afterwards if and only if the loop stopped at or before it and dialogs did not hold it already |
| MarkAsRead.OthersUntouched | backend/src/main.rs:1126-1202 | messages that were not named stay where they were in both stores |
| MarkAsRead.CompletedMove | backend/src/main.rs:1111-1208 | after an OK send no named identifier is left, every fetched message is in dialogs and the number of messages is the same |
| MarkAsRead.GuardedRunKeepsUnion | backend/src/main.rs:1173-1202 | if the removal waited for an OK send, the union of the stores would be the same wherever the loop stops |
| MarkAsRead.RetryAfterCrashLosesRest | backend/src/main.rs:1173-1202 | retrying after a run cut off between insertions and removal loses whatever had not been inserted |
| MessageRuns.NoMessageIsLost | backend/src/main.rs:1126-1202 | in every interleaving of sends, crashes and concurrent runs whose removals follow OK sends, an accepted message stays in one of the stores with all its fields |
| MessageRuns.UndisciplinedRemoveIff | backend/src/main.rs:1173-1202 | one removal loses a message if and only if it takes one that dialogs does not hold |
| MessageRuns.IgnoredFailureLoses | backend/src/main.rs:1173-1175 | the code's own sequence after one failed insertion loses the message |
| MessageRuns.PrematureIdentifierLoses | unread/src/dialog.rs:127-137 | removal by identifier takes a message that arrived under it after the fetch, even after an OK send |
| MessageRuns.RetryAfterCrashLoses | backend/src/main.rs:1173-1202 | the run from the start in which a request crashes after one insertion and its retry loses the other message |
| MessageRuns.UndisturbedJobIsHandler | backend/src/main.rs:1126-1202 | the steps of a job without interference end where the handler ends |
| WebSocket.WebSocketServer.HandleConnection | backend/src/websocket.rs:81-112 | adds the peer, declares and binds the user's queue, and the user's consumer becomes the one of this address |
| WebSocket.WebSocketServer.RemoveDisconnectedPeersAndQueues | backend/src/websocket.rs:115-146 | keeps exactly the peers that are alive or were connected less than 5000 ms ago, unchanged; a user keeps queue, binding and consumer if and only if no peer of the user is dead and older |
| WebSocket.SweepPeerByAge | backend/src/websocket.rs:120-135 | examining a peer changes nothing but the list of peers to examine while it is alive or 4999 ms old at most; from 5000 ms on a dead one is given up and its user's queue deleted |
| WebSocket.ReceiveNamesPeer | backend/src/websocket.rs:39-51 | in every reachable state the consumer that the broker hands a message to holds the address of a peer of that user, and the user's queue exists |
| WebSocket.DeliveryFindsPeer | backend/src/websocket.rs:154-164 | over every run from the hand-over on, the lookup reaches the connection if and only if no sweep that found it expired has ended since (between sweeps: none has found it expired); otherwise it finds no peer, unless the address is taken anew |
| WebSocket.SweepOvertakesDelivery | backend/src/websocket.rs:115-159 | from any sound state, a whole sweep between the hand-over and the lookup that finds the peer expired makes the lookup fail |
| WebSocket.OvertakenFromStart | backend/src/websocket.rs:115-159 | such a state is reached from the start with every connection done within the grace period |
| WebSocket.SoundAfterEveryRun | backend/src/websocket.rs:81-146 | connects, two-phase sweeps, disconnects and deliveries keep every consumer attached to an existing queue and to a peer of its user that the watchdog has not given up |
| WebSocket.SlowConnectionIsGivenUp | backend/src/websocket.rs:115-136 | the first phase can give up a dead peer whose connection is still under way after the grace period |
| WebSocket.SlowConnectionDangles | backend/src/websocket.rs:91-146 | such a connection, completed between the phases, ends with a consumer whose peer is gone |
| WebSocket.UndisturbedSweep | backend/src/websocket.rs:115-146 | in whatever order the peers are examined, the two phases leave what the method leaves |
| WebSocket.UndisturbedConnection | backend/src/websocket.rs:81-112 | the steps of one connection without interference end where HandleConnection ends |
| WebSocket.ConsumerAfterRunIff | backend/src/websocket.rs:81-146 | over every interleaving a user has a consumer if and only if one was there or was completed and since then no sweep has found an expired peer of that user and no handler of anybody has named a missing queue |
| WebSocket.RacingReconnectSilencesAll | backend/src/websocket.rs:84-135 | a sweep that finds a user's old peer expired between that user's declaring and binding takes every user's consumer |
| WebSocket.SilencedFromStart | backend/src/websocket.rs:84-135 | such a run from the start, with a live peer of another user that stays in the map without a consumer |
| WebSocket.LivePeerKeepsConsumerIff | backend/src/websocket.rs:120-135 | over a sweep without interference a live peer keeps its consumer if and only if no expired connection belongs to the same user |
| WebSocket.SilentUntilReconnect | backend/src/websocket.rs:84-111 | a user left without a consumer gets none back until connecting again |

## Left out

- HTTP: bodies, JSON, headers, TLS, bearer tokens and service URLs, including the doubled `/send/send` and `/list/list` paths.
- Drivers and pools of Postgres, Redis, RabbitMQ and Tarantool, replica lag, and panics of the `unwrap` calls on their errors, among them the flush after a failed WebSocket send (backend/src/websocket.rs:164).
- The running configuration keeps friends in Tarantool while the feed query reads the Postgres table; the model has the one Postgres relation.
- Users, passwords, sessions, user search and Tarantool leader selection.
- `dialog_list` and the two `Message::list` queries: the statements bind four values but use `$2` and `$3` for offset and limit, so there is no contract to prove.
- The unread migration declares other columns than the code inserts; the model follows the code.
- FeedSafety.SoundAfterEveryRun: takes the consumer's lookup and loop as one step; FeedConsumer.FollowedAfterEveryRun takes them apart.
- FeedDefault.SettlesAfterEveryRun: asks for a list to push onto; FeedDefault.PrefixAfterEveryRun says what holds without one.
- In the default mode the results of `feed_default.dfy` take the fill of a read, a write with its publication and a friend change with its invalidation as one step each.
- `feed_consumer.dfy` has one consumer, as one backend process has; several at once are in `feed_unlocked.dfy` only.
- The channel vector of backend/src/rabbitmq.rs:47-74, which drops closed channels and opens one when none is left.
- The parsing of identifiers in unread/src/main.rs:288-300, which skips malformed ones: the model starts from parsed identifiers.
- `handle_connection` with an address that is still in the peer map: new connections are taken to come from free addresses.
- Publication to WebSocket peers is modelled up to the readers' queues; the contents of the sockets are not.
