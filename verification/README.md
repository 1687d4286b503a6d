# Comments service: a verified model

The service stores posts and threaded comments, lists them by keyset pages through GraphQL connections, and pushes a
"comment added" event to subscribers of a post. It has two backends, in memory and PostgreSQL. This project models the
parts with state, ordering and concurrency, and proves what a client or a maintainer relies on:

- **Pages.** `Keyset` says what a page is, for a set of items: newest first, nothing passed over, `hasNextPage` exactly
  when something is left (`IsPage`), and shows that this fixes the page; `FieldOrder` says the same on the times and ids
  of posts and comments. The memory loops (`MemoryStorage`) and the SQL
  (`PostgresStorage`, where filter, partition, `row_number()`, order and limit have a relational meaning) are proved to
  return that page, alone and batched. PostgreSQL reads the cursor's id as bytes, so its page is that of the cursor as
  read; for canonical UUID text, whose order is the order of the sixteen bytes (`Uuids`), it is the memory backend's.
  `Agreement` says exactly for which cursors the backends agree.
- **Walks.** Following end cursors (`PageWalk`) gives the whole listing on a fixed store and loses or repeats nothing
  while items are added between fetches; `ServiceWalk` applies this to comment lists, and `PostWalk` to the posts, in
  every run of the services.
- **Request guards.** `Guards` holds the two traversals with their shared `visited` map; `GuardTheory` says what they
  decide without mentioning the traversal: by chains through the possibly cyclic graph of fragments, and by the query
  with its fragments written out.
- **Event buses.** `EventBus` is the common state and its critical sections, as a class. `MemoryBus` and `PostgresBus`
  are step systems in which any calls interleave and a publish takes its targets under the lock but sends after
  releasing it. A send on a closed channel is possible; for each bus the exact condition is proved and a run is given.
  `MemoryDelivery` and `ServiceDelivery` account for every publish of the memory bus and every channel. (`MemoryBus.LockedPublishIsSafe` and
  `LockedPublishDelivers` describe a publish that would hold the lock across its sends, for contrast;
  `UndisturbedPublish` shows that the real one comes to the same when nothing runs between its sends.)
- **Services.** `Transactions` has both transaction managers and the three writing calls, one at a time, on rows and a
  registry that come with the context. `Interleaving` runs any number of calls on the memory backend together with the
  bus, one repository call a step, and proves the comment forest, the published events and the post fields for every
  run; runs go on after a publish has panicked. `SerialCalls` connects the two. CreateComment checks its post in one step
  and inserts in another, so a comment can land on a post disabled meanwhile: `FlagHistory` says exactly when.
- **Batch loader.** `Loaders` groups keys, loads each group and scatters the answers; every slot equals the connection
  of its key alone. `Backends` puts it on top of either repository.

`dafny verify dfyconfig.toml` checks the whole project.

## Assumptions

- `newID` returns ids that are not nil and not in use; they appear as step labels constrained by `Fresh`.
- Times are integers on one scale that both backends store without loss; 0 is Go's zero time.
- The cursor codec (JSON under base64url) is supplied by libraries. It is a parameter; walks assume that it round-trips
  the cursors of stored items.
- How PostgreSQL reads uuid text is a parameter that must understand canonical text. PostgreSQL compares uuids byte by
  byte and rows of `(created_at, id)` lexicographically.
- `sort.Slice` is known by its contract alone: some order of the same rows, newest first.
- Map iteration order is arbitrary: every loop over a map picks any remaining key.
- A Go channel is an index into a heap of channels. Closing one has the precondition that it is open. A send on a closed
  one panics. On the memory bus that ends the publishing call alone, since the GraphQL server recovers from it
  (`internal/adapters/graphql/server.go:88`); the publish is noted in `aborted` and all else goes on. On the PostgreSQL
  bus the panic is in the listener goroutine, where nothing recovers: `panicked` is set and no step follows.
- Strings are sequences of characters; the length limit of a comment body counts them.

## Model

| member | source | states |
|---|---|---|
| Uuids.TextOrderIsByteOrder | internal/adapters/storage/postgres/comment_repository.go:13 | Comparing canonical UUID text (memory) and comparing the sixteen bytes (PostgreSQL) give the same order, for all ids |
| Uuids.TextInjective | internal/domain/ids.go:51-53 | Different ids have different text, so cursors of different comments differ |
| Uuids.StrLessMeaning | internal/domain/pagination.go:94-104 | Text is compared by its first difference: the smaller character, or the end |
| Uuids.BytesLessMeaning | internal/adapters/storage/postgres/comment_repository.go:13 | Ids are compared by their first different byte |
| Uuids.TextForm | internal/domain/ids.go:51-53 | The text of an id has 36 characters: every byte as two lower-case hexadecimal digits in its place, hyphens after 8, 12, 16 and 20 digits (section 4 of RFC 9562) |
| Domain.NewPostExact | internal/domain/post.go:17-61 | Which posts are made, with what fields, and which check a refusal names |
| Domain.NewCommentExact | internal/domain/comment.go:20-85 | Which comments are made, with what fields, and which check a refusal names |
| Domain.SpaceTable | internal/domain/post.go:32-44 | Which characters count as space in the check for text that is not there |
| Domain.SameButFlagExact | internal/domain/post.go:8-15 | Two posts are the same but for the flag exactly when giving one the other's flag makes them equal |
| Domain.SetCommentsEnabledExact | internal/domain/post.go:63-73 | The author's call sets the flag to the value asked for and changes nothing else; another actor's is refused |
| Domain.DecodeExact | internal/domain/pagination.go:33-58 | Text is accepted as a cursor exactly when it is read, with a time and an id |
| Domain.PageInputExact | internal/domain/pagination.go:65-88 | A page request keeps the size asked for and the cursor given; no text and the empty text mean none; the size is checked first |
| FieldOrder.PostOrder | internal/domain/post.go:75-77 | The cursor order of posts is: later time first, of two at one time the greater id |
| FieldOrder.CommentOrder | internal/domain/comment.go:91-93 | The same of comments |
| FieldOrder.PostPastPost | internal/domain/pagination.go:94-104 | What comes past a post's cursor are exactly the posts that come after it |
| FieldOrder.CommentPastComment | internal/domain/pagination.go:94-104 | The same of comments |
| FieldOrder.PostPage | internal/adapters/storage/memory/post_repository.go:39-64 | A page of posts, said on their fields: newest first, past the cursor, as many as asked for or all, no newer one passed over, hasNextPage iff one is left |
| FieldOrder.CommentPage | internal/adapters/storage/memory/comment_repository.go:200-224 | The same of comments |
| Keyset.PageOfMeaning | internal/adapters/storage/memory/comment_repository.go:200-224 | A page is right (newest first, only matching items, as many as asked for, nothing newer passed over, hasNextPage iff something is left) exactly when it is `PageOf`: there is one right page |
| Keyset.ListingIsUnique | internal/adapters/storage/memory/comment_repository.go:226-234 | The newest-first listing of a set is unique, so sort stability and map order cannot show |
| MemoryStorage.SortRows | internal/adapters/storage/memory/comment_repository.go:226-234 | In-place sort: same rows, strictly newest first |
| MemoryStorage.ReadPage | internal/adapters/storage/memory/comment_repository.go:205-223 | The loop with its early break at first + 1 and the trim give the first items past the cursor, and whether more follow |
| MemoryStorage.Paginate | internal/adapters/storage/memory/comment_repository.go:200-224 | Sort, skip, break and trim refine "the page of the set" for rows in any order |
| MemoryStorage.CommentRepository.CommentsByPredicate | internal/adapters/storage/memory/comment_repository.go:179-198 | The scan in any map order finds exactly the comments that match, each once |
| MemoryStorage.CommentRepository.List | internal/adapters/storage/memory/comment_repository.go:39-61 | ListTopLevel and ListReplies return the page of the post's top-level comments, of the comment's replies; on the fields of the comments: newest first, none newer passed over |
| MemoryStorage.CommentRepository.Count | internal/adapters/storage/memory/comment_repository.go:63-73 | The counts are the sizes of the sets that the lists page through |
| MemoryStorage.CommentRepository.BatchList | internal/adapters/storage/memory/comment_repository.go:75-131 | The keys are exactly the requested ids, duplicates and unknown ids included, each with the page it would get alone |
| MemoryStorage.CommentRepository.BatchCount | internal/adapters/storage/memory/comment_repository.go:133-177 | The keys are exactly the requested ids, each with the count it would get alone |
| MemoryStorage.CommentRepository.Create | internal/adapters/storage/memory/comment_repository.go:18-23 | Stores the comment under its id and nothing else changes |
| MemoryStorage.CommentRepository.GetByID | internal/adapters/storage/memory/comment_repository.go:25-37 | The comment stored under the id, whose id it is, or not found |
| MemoryStorage.PostRepository.List | internal/adapters/storage/memory/post_repository.go:39-64 | The page of all posts; on the fields of the posts: newest first, none newer passed over |
| MemoryStorage.PostRepository.Snapshot | internal/adapters/storage/memory/post_repository.go:88-102 | Every post once, in any order |
| MemoryStorage.PostRepository.Update | internal/adapters/storage/memory/post_repository.go:73-86 | Replaces the row of a known post, refuses an unknown one and changes nothing |
| PostgresStorage.SameOrder | internal/adapters/storage/postgres/comment_repository.go:85-86 | The SQL order is the order of the listing |
| PostgresStorage.SameBound | internal/adapters/storage/postgres/comment_repository.go:13 | The row comparison admits exactly the rows that CursorMatchesAfter admits for the cursor as the database reads it |
| PostgresStorage.CanonicalIsReadAsItStands | internal/adapters/storage/postgres/comment_repository.go:91-95 | A canonical cursor, the only kind the service hands out, is read as it stands, so all pages below are then those of the memory backend |
| PostgresStorage.RowNumberIsPosition | internal/adapters/storage/postgres/comment_repository.go:148-154 | row_number() over a partition is the position in the listing of that partition, from 1 |
| PostgresStorage.SingleQueryPage | internal/adapters/storage/postgres/comment_repository.go:75-125 | Whatever rows answer the single-id query, trimming them gives the page of the listing, for every cursor the database can read |
| PostgresStorage.BatchQueryPage | internal/adapters/storage/postgres/comment_repository.go:135-189 | Whatever rows answer the windowed query, grouping and trimming them gives each requested id the page it would get alone, for every cursor the database can read |
| PostgresStorage.PartitionOfRanked | internal/adapters/storage/postgres/comment_repository.go:145-157 | The rows of one partition in the windowed answer are the first ones of that partition's listing, in order |
| PostgresStorage.RebuildExact | internal/adapters/storage/postgres/comment_repository.go:514-536 | A row read back is the row, and is refused exactly when a new comment with its fields would be |
| PostgresStorage.ScanRows | internal/adapters/storage/postgres/comment_repository.go:306-321 | All rows when the driver hands over all and each one validates; otherwise the error of the query, of the first invalid row, of a failing scan or of the iteration |
| PostgresStorage.ListWithQuery | internal/adapters/storage/postgres/comment_repository.go:291-332 | The trimmed page of the rows, or exactly the error that reading them meets first |
| PostgresStorage.List | internal/adapters/storage/postgres/comment_repository.go:75-125 | With all rows read, the page of the listing for any cursor the database can read; otherwise which error |
| PostgresStorage.GroupRows | internal/adapters/storage/postgres/comment_repository.go:346-371 | Each requested id gets its rows in row order, the empty slice when there are none |
| PostgresStorage.BatchListWithQuery | internal/adapters/storage/postgres/comment_repository.go:334-442 | Group, then trim every group; or exactly the error that reading the rows meets first |
| PostgresStorage.BatchListTopLevel | internal/adapters/storage/postgres/comment_repository.go:135-161 | With all rows read, the keys are exactly the requested posts, each with the page it would get alone, for any cursor the database can read; otherwise which error |
| PostgresStorage.BatchListReplies | internal/adapters/storage/postgres/comment_repository.go:163-189 | The same for the replies to the requested comments |
| PostgresStorage.BatchCountTopLevel | internal/adapters/storage/postgres/comment_repository.go:191-239 | Every requested post gets the size of its list, 0 when no row is about it; otherwise which error |
| PostgresStorage.BatchCountReplies | internal/adapters/storage/postgres/comment_repository.go:241-289 | The same for the requested comments |
| Agreement.AgreeIff | internal/adapters/storage/postgres/comment_repository.go:13 | Memory and PostgreSQL give the same page on all rows and lists exactly when there is no cursor, or its id is, as text, above the id just before the one PostgreSQL reads from it and not above that one: two text comparisons |
| Agreement.CutsAtIff | internal/domain/pagination.go:94-104 | Those two comparisons hold exactly when text and bytes place every id on the same side of the cursor |
| Agreement.CanonicalAgrees | internal/domain/pagination.go:94-104 | So they agree on every cursor with canonical UUID text |
| Agreement.CapitalsDiffer | internal/domain/pagination.go:33-58 | An accepted cursor on which they do not: an id in capitals |
| Connections.NewConnection | internal/adapters/graphql/mappers.go:38-88 | The loop builds the connection that ConnectionExact describes |
| Connections.ConnectionExact | internal/adapters/graphql/mappers.go:38-88 | Every item, in order, has an edge with its own cursor; the end cursor is the last edge's, absent on an empty page; an item that cannot be encoded fails the whole connection |
| Connections.EndCursorResumes | internal/adapters/graphql/mappers.go:64-88 | Sent back as `after`, the end cursor of a page that is not empty asks for what comes after its last item |
| Connections.EdgeCursorsResume | internal/adapters/graphql/mappers.go:64-88 | Sent back as `after`, the cursor of any edge asks for what comes after its item |
| PageWalk.FetchExact | internal/domain/pagination.go:65-92 | A fetch gives as many edges as asked for, or all there are past the cursor, and says whether there are more; each edge has its own item's cursor |
| PageWalk.WalkWhileInserting | internal/domain/pagination.go:65-104 | While items are added between fetches, what a walk has received is strictly descending, stored, and, once finished, contains all that was there when it began |
| PageWalk.WalkFixedStore | internal/adapters/storage/memory/comment_repository.go:39-73 | On a fixed store a finished walk with any page sizes is the whole listing, as long as the count |
| PageWalk.WalkTerminates | internal/adapters/storage/memory/comment_repository.go:200-224 | A walk has at most one fetch more than there are items |
| PageWalk.WalkContinues | internal/adapters/graphql/mappers.go:64-88 | While hasNextPage is true the next fetch, of any positive size, succeeds |
| ServiceWalk.WalkDuringRun | internal/adapters/storage/memory/comment_repository.go:39-61 | In every run of the services, a walk through a comment list gives its items newest first by time and id, none twice, and misses none that was there when it began |
| ServiceWalk.ListsGrow | internal/adapters/storage/memory/comment_repository.go:18-23 | In every run a comment list only grows, and its items have different cursors |
| PostWalk.WalkDuringRun | internal/adapters/storage/memory/post_repository.go:39-64 | In every run of the services, a walk through the posts gives them newest first by time and id, none twice, each as it is stored but for its flag, and misses none that was there when it began; at most one fetch more than there are posts |
| PostWalk.PostsApartAt | internal/adapters/storage/memory/post_repository.go:18-23 | In every run different posts have different cursors, so every fetch of such a walk has a page |
| PostWalk.PlainPostsGrow | internal/adapters/storage/memory/post_repository.go:18-23 | In every run the posts, seen without their flags, only grow |
| BlurredWalk.BlurPageOf | internal/adapters/storage/memory/post_repository.go:39-64 | Dropping a part that cursors do not show and cutting a page commute |
| Guards.SelectionDepth | internal/adapters/graphql/guards.go:37-79 | Terminates on every document, cyclic ones included; returns current depth plus the height of the selections; leaves `visited` as it was |
| Guards.ValidateSelectionSet | internal/adapters/graphql/guards.go:110-124 | Terminates; returns the first error in document order; leaves `visited` as it was on every exit |
| Guards.ValidateSelection | internal/adapters/graphql/guards.go:126-147 | The same for one selection |
| Guards.ValidateFragment | internal/adapters/graphql/guards.go:172-192 | The same for a spread; a fragment of the current path or an unknown one is skipped |
| Guards.Guard | internal/adapters/graphql/guards.go:12-29 | Depth first, then page sizes, each with a new `visited`; a limit that is not positive is off |
| GuardTheory.GuardExact | internal/adapters/graphql/guards.go:12-192 | The guard's answer: too deep exactly when some fragment-simple chain goes beyond the limit; else none exactly when every field reachable at all has no `first` or one in 1..maxPageSize; else the error of such a field |
| GuardTheory.DepthGuardExact | internal/adapters/graphql/guards.go:81-95 | The depth limit refuses exactly when some fragment-simple chain opens too many levels |
| GuardTheory.HeightBounds | internal/adapters/graphql/guards.go:37-79 | No fragment-simple chain opens more levels than the height |
| GuardTheory.HeightReached | internal/adapters/graphql/guards.go:37-79 | Some fragment-simple chain opens as many levels as the height, on cyclic documents too |
| GuardTheory.SimpleChainExists | internal/adapters/graphql/guards.go:178-191 | A field reachable by any chain is reachable by one that enters no fragment twice |
| GuardTheory.FirstGuardExact | internal/adapters/graphql/guards.go:97-192 | Although it cuts repeated fragments, the guard accepts exactly when no field reachable by any chain, cyclic ones included, has a refused argument |
| GuardTheory.FieldErrorMeaning | internal/adapters/graphql/guards.go:149-218 | By the value of `first`, a whole number, text of one or a number cut to its whole part: accepted exactly when absent or in 1..maxPageSize, otherwise which error |
| GuardTheory.ForNameExact | internal/adapters/graphql/guards.go:59-71 | A spread stands for the selections of the first fragment of its name, and for nothing when there is none |
| GuardTheory.GuardsSeeTheInlinedQuery | internal/adapters/graphql/guards.go:37-192 | A query whose fragments can be written out has the depth and the first error of the written-out query |
| GuardTheory.FirstInDocumentOrder | internal/adapters/graphql/guards.go:110-147 | On the written-out query the guard reports the error of the first refused argument in document order, and accepts when there is none |
| GuardTheory.InlinableIffAcyclic | internal/adapters/graphql/guards.go:59-71 | The fragments can be written out exactly when no chain enters a fragment twice (section 5.5.2.2 of the GraphQL specification) |
| GuardTheory.InliningIsUnique | internal/adapters/graphql/guards.go:59-71 | There is one written-out query |
| EventBus.Bus.Subscribe | internal/adapters/events/memory/bus.go:52-106 | A new open channel under a new id, registered for the post, or a conflict when closed; keeps `Valid` |
| EventBus.Bus.Unsubscribe | internal/adapters/events/memory/bus.go:77-98 | The first call unregisters and closes the channel if it is still registered, and drops an inner map left empty; later calls do nothing |
| EventBus.Bus.Snapshot | internal/adapters/events/memory/bus.go:37-42 | Exactly the channels registered for the post, each once, in any order |
| EventBus.Bus.Send | internal/adapters/events/memory/bus.go:44-49 | Appends to a buffer with room, drops at a full one, panics exactly on a closed channel |
| EventBus.Bus.Sweep | internal/adapters/events/postgres/bus.go:190-200 | Every channel ends closed, none is closed twice, both levels of the map end empty |
| EventBus.Bus.Close | internal/adapters/events/memory/bus.go:108-127 | The first call sweeps and marks the bus closed, later ones do nothing; afterwards it is closed |
| EventBus.Bus.MarkClosed | internal/adapters/events/postgres/bus.go:168-175 | Only the first Close goes on |
| EventBus.NewExact | internal/adapters/events/memory/bus.go:25-34 | A new bus is open, empty, and has the buffer size asked for, or 16 if that is not positive |
| EventBus.SubscribedExact | internal/adapters/events/memory/bus.go:64-74 | One new channel, open and empty, registered for the post asked for; no other is touched |
| EventBus.UnsubscribedExact | internal/adapters/events/memory/bus.go:77-98 | Its own channel is closed; what channels hold stays |
| EventBus.ClosedExact | internal/adapters/events/memory/bus.go:108-127 | Marked, all channels closed, map empty, what channels hold stays; a second time nothing changes |
| EventBus.SubscribedValid | internal/adapters/events/memory/bus.go:64-74 | Subscribing keeps: open iff registered, ids never reused, no empty inner map, bounded buffers |
| EventBus.UnsubscribedValid | internal/adapters/events/memory/bus.go:77-98 | Unsubscribing keeps the same, and the channel is closed |
| MemoryBus.RunInv | internal/adapters/events/memory/bus.go:36-127 | In every reachable state of every interleaving, those after a panicked publish included: open iff registered, ids not reused, no empty inner map, bounded buffers, events only of the own post, no subscriber once closed, aborted publishes stand at a closed target |
| MemoryBus.OpenBetween | internal/adapters/events/memory/bus.go:77-127 | A channel stays open exactly until its unsubscribe or Close, is never opened again, and keeps its id and post |
| MemoryBus.ClosedForGood | internal/adapters/events/memory/bus.go:59-64 | In every run, from a Close step on the bus stays closed, no channel is made any more, none is open and none registered |
| MemoryBus.PendingTargets | internal/adapters/events/memory/bus.go:36-50 | Every target of a snapshot is still registered and open, or was closed by an unsubscribe or Close after that snapshot |
| MemoryBus.TargetsExact | internal/adapters/events/memory/bus.go:37-42 | In every run a publish takes as targets exactly the channels open for its post |
| MemoryBus.SendPanicsIff | internal/adapters/events/memory/bus.go:36-50 | Any send of any publish panics if and only if its target was unsubscribed, or the bus closed, between the snapshot and the send |
| MemoryBus.SendCanPanic | internal/adapters/events/memory/bus.go:42-49 | The run subscribe, snapshot, unsubscribe, send is possible, and its publish is aborted |
| MemoryBus.UndisturbedPublish | internal/adapters/events/memory/bus.go:36-50 | When nothing runs between its snapshot and its last send, the two-phase publish leaves the bus as a publish under the lock would, and does not panic |
| MemoryDelivery.Delivery | internal/adapters/events/memory/bus.go:36-50 | Each channel of the snapshot is still to be sent to, or was sent to at one step and has the event or had a full buffer then; no other channel is ever sent to |
| MemoryDelivery.HeldIffGot | internal/adapters/events/memory/bus.go:44-49 | What a channel has held are exactly the events of the publishes that found room in it |
| ServiceDelivery.EachCommentOnce | internal/application/comments.go:63-75 | In every run of the services, no channel's received and buffered events name a comment twice |
| ServiceDelivery.ReturnedMeansDelivered | internal/application/comments.go:63-84 | When CreateComment has returned, every channel registered when it took its targets has the event or had a full buffer at the send |
| ServiceDelivery.SubscribersGetReturned | internal/application/comments.go:63-84 | So every subscriber of the comment's post at that moment has the event or had a full buffer |
| ServiceDelivery.AbortedForGood | internal/adapters/events/memory/bus.go:44-49 | A call whose publish met a closed channel: its comment stays stored, its remaining targets are never sent to, and it never returns the comment |
| PostgresBus.RunInv | internal/adapters/events/postgres/bus.go:112-243 | The invariant of every reachable state, with the account of what each subscriber got and missed |
| PostgresBus.NoDispatchAfterJoin | internal/adapters/events/postgres/bus.go:168-227 | Once Close has passed the wait on `done`, no dispatch step ever runs again |
| PostgresBus.CloseInStages | internal/adapters/events/postgres/bus.go:168-203 | Close marks, cancels, waits for the listener to return, disconnects and sweeps, one by one and in this order; a failed disconnect ends it |
| PostgresBus.FinishedMeansClosed | internal/adapters/events/postgres/bus.go:168-203 | When the Close that set `closed` has returned nil, every channel ever created is closed and the map is empty, for good |
| PostgresBus.MarkedForGood | internal/adapters/events/postgres/bus.go:119-124 | In every run, from the first Close call on the bus stays closed and no channel is made any more |
| PostgresBus.SendPanicsIff | internal/adapters/events/postgres/bus.go:229-243 | A dispatch panics at a send if and only if that target's unsubscribe ran between snapshot and send; Close never causes it |
| PostgresBus.SendCanPanic | internal/adapters/events/postgres/bus.go:229-243 | The run subscribe, notification, snapshot, unsubscribe, send is possible, and panics |
| PostgresBus.Delivery | internal/adapters/events/postgres/bus.go:205-243 | Received plus buffered is a subsequence of the events dispatched for the post since subscribing; the buffer is bounded; for every dispatch, open channel or closed: it was no target and got nothing, or its send is still to come, or it was sent to at one step and got the event if there was room then and missed it if not |
| PostgresBus.SameOrder | internal/adapters/events/postgres/bus.go:205-243 | Two subscribers never disagree on the order of events that both got |
| CommentForest.AddKeepsForest | internal/application/comments.go:33-61 | A comment whose post exists, and whose parent is on the same post, keeps the forest |
| CommentForest.CountsAddUp | internal/adapters/storage/memory/comment_repository.go:63-73 | Total comments = sum over posts of top-level counts + sum over comments of reply counts |
| Interleaving.AlwaysForest | internal/application/comments.go:20-61 | Under any interleaving: posts and parents exist, parents on the same post, and every parent chain ends at a top-level comment of the post |
| Interleaving.AlwaysAddsUp | internal/adapters/storage/memory/comment_repository.go:63-73 | Under any interleaving the counts add up |
| Interleaving.SubscribersSeeStoredComments | internal/adapters/graphql/schema.resolvers.go:188-203 | Whatever a subscriber has buffered or received names a stored comment of its post: the lookup cannot miss |
| Interleaving.PublishedExactlyTheCreated | internal/application/comments.go:59-79 | With a publisher: one publish for each CreateComment that returned a comment, about that comment; none for one that failed; every publish is about its call's stored comment; every stored comment is published or about to be |
| Interleaving.FailedCallWroteNothing | internal/adapters/storage/memory/tx_manager.go:15-24 | Although nothing is rolled back, and a failing registration would come after the write, no repository call of a failed service call has changed the store |
| Interleaving.OnlyAuthorsChangeFlags | internal/application/posts.go:50-75 | Every step keeps each post's id, author, title, content and time; its flag changes only in the write of a call by its author, to the value asked for |
| Interleaving.StoredForGood | internal/adapters/storage/memory/comment_repository.go:18-23 | In every run stored comments stay as they are and posts stay, but for the flag |
| FlagHistory.FlagBetween | internal/application/posts.go:50-75 | In every run a post's flag is the last value written since, or what it was |
| FlagHistory.DisabledIff | internal/application/comments.go:21-31 | Once CreateComment has passed its check, its post is disabled in a later state exactly when the last value written to the flag since then is false |
| FlagHistory.LandsOnDisabledIff | internal/application/comments.go:21-61 | Exactly when a comment lands on a disabled post: the last value written between its check and its insert is false |
| FlagHistory.CanLandOnDisabled | internal/application/comments.go:21-61 | The run create post, check, read, disable, insert is possible and ends with the comment on the disabled post |
| Interleaving.RunInv | internal/application/comments.go:17-85 | The invariant of every reachable state of the services and the bus |
| Transactions.Registry.Run | internal/application/txctx/after_commit.go:39-43 | Each registered action runs once, in registration order |
| Transactions.RunsInOrder | internal/application/txctx/after_commit.go:39-43 | The i-th call is of the i-th registered action, and there are as many |
| Transactions.AfterCommit | internal/application/txctx/after_commit.go:29-37 | Appends to the registry of the context; an error without one |
| Transactions.CreateCommentWork | internal/application/comments.go:20-79 | The function given to WithinTx, for a context with or without a registry: checks, write, registration, each with its error |
| Transactions.RefusalExact | internal/application/comments.go:20-45 | Each refusal of CreateComment, and the cases in which it is the one |
| Transactions.FailsAfterWriteIff | internal/application/comments.go:59-75 | That function fails after its write exactly when it has to publish, there is no registry and nothing else is wrong |
| Transactions.CreatePostWork | internal/application/posts.go:18-36 | The function given to WithinTx: validate, then write |
| Transactions.SetCommentsEnabledWork | internal/application/posts.go:53-69 | The function given to WithinTx: read, change the copy, write it back, each with its error |
| Transactions.WithinTx | internal/adapters/storage/postgres/tx_manager.go:22-54 | For any function, whatever rows it leaves, actions it registers and outcome it has: it works on the transaction's rows with a new registry; its actions run once each, in order, after the commit and only if function and commit succeed; otherwise no stored row changes; which error is returned |
| Transactions.WithinTxInMemory | internal/adapters/storage/memory/tx_manager.go:15-24 | For any function: it writes to the store itself, with a new registry; no rollback; its actions run, once each and in order, only if it succeeds |
| Transactions.CreateComment | internal/application/comments.go:17-85 | Returns a comment exactly when no read, write, begin or commit fails and the input is acceptable; then it is stored and, with a publisher, published once; otherwise no row and no publish; the registry is never missing |
| Transactions.CreateCommentInMemory | internal/application/comments.go:17-85 | The same on the memory backend, where an error leaves no write because the registry is never missing |
| Transactions.CreatePost | internal/application/posts.go:15-42 | Returns a post exactly when nothing fails and the input validates; it is stored, with comments enabled; an error changes no row |
| Transactions.CreatePostInMemory | internal/application/posts.go:15-42 | The same on the memory backend |
| Transactions.SetCommentsEnabled | internal/application/posts.go:50-75 | Succeeds exactly for the author of an existing post when nothing fails; changes that post's flag alone; an error changes no row |
| Transactions.SetCommentsEnabledInMemory | internal/application/posts.go:50-75 | The same on the memory backend |
| SerialCalls.CreateCommentAlone | internal/application/comments.go:17-85 | Interleaved steps that nothing interrupts leave the rows and the result of the function given to WithinTx, with a registry or without |
| SerialCalls.PublishesTheAction | internal/application/comments.go:63-84 | What the call then publishes is the one action that the function registers, and with its sends done it returns the function's comment |
| SerialCalls.CreatePostAlone | internal/application/posts.go:15-42 | The same for CreatePost: rows, error and returned post |
| SerialCalls.SetCommentsEnabledAlone | internal/application/posts.go:50-75 | The same for SetCommentsEnabled: rows, error and returned post |
| Loaders.GroupKeys | internal/adapters/graphql/loaders.go:70-82 | Every key is in one group, with its index in ascending order |
| Loaders.LoadGroup | internal/adapters/graphql/loaders.go:84-105 | Fills exactly the slots of the group, with its answers or its error |
| Loaders.BatchCommentConnections | internal/adapters/graphql/loaders.go:52-62 | Every slot is filled exactly once, in whatever order groups are visited |
| Loaders.SlotIsPointwise | internal/adapters/graphql/loaders.go:107-155 | For any backend whose batch calls answer id by id: a slot is the connection of that key's own page, or the error of its page request or of its group's call |
| Loaders.SlotIsMemberPage | internal/adapters/graphql/loaders.go:107-155 | Where that page is the one of the stored comments, the slot is its connection |
| Loaders.UnknownScope | internal/adapters/graphql/loaders.go:97-105 | A key with neither scope gets the error that says so |
| Loaders.LeftOutIsEmpty | internal/adapters/graphql/loaders.go:125-129 | An id that the answer leaves out gets an empty connection |
| Loaders.SlotAsAlone | internal/adapters/graphql/loaders.go:52-155 | Loaded in a batch or alone, a key gets the same connection, when both loads succeed and find the same pages |
| Loaders.FailureStaysInGroup | internal/adapters/graphql/loaders.go:84-105 | Of two runs of the loader that differ in the call of one group, which failed in the second: that group's slots hold its error, all others are the same |
| Backends.MemorySlot | internal/adapters/graphql/loaders.go:84-155 | On the memory backend every valid key gets the connection of its page as stored when its group was loaded |
| Backends.PostgresSlot | internal/adapters/graphql/loaders.go:84-155 | On PostgreSQL a key gets its group's error, or the connection of its page for the cursor as the database reads it |
| Backends.SameSlotOnBoth | internal/adapters/graphql/loaders.go:84-155 | For a cursor the service handed out, both backends give a key the same connection for the same rows, when the PostgreSQL call succeeds |
| Loaders.BatchCounts | internal/adapters/graphql/loaders.go:174-220 | Every key gets its count, 0 when missing, or the error of the load |

## Left out

- The code generated by gqlgen, HTTP server, dependency injection, configuration and logging: wiring. Complexity limits: computed inside gqlgen.
- JSON, base64url, UUID parsing and time formatting: the codec round trip and the reading of canonical text are assumed.
- How PostgreSQL reads an id that is not canonical UUID text: a parameter; one that it cannot read makes its query fail, while the memory backend compares it as text.
- Isolation levels, connection loss, ambiguous commits and LISTEN/NOTIFY delivery: commit and rollback outcomes are inputs, notifications are an input of the PostgreSQL bus.
- Service calls interleaved on PostgreSQL: calls interleave on the memory backend only; PostgreSQL transactions run one at a time.
- PostgreSQL post list and single counts: one statement each. Its inserts, updates and lookups appear only as the steps of `Transactions`, which may fail.
- `PublishCommentAdded` and `decodePayload` of the PostgreSQL bus: JSON over a library call; a decoded event is an input.
- The wrapped errors inside operation errors: only the operation is kept.
- The wrap-around of the 64-bit `nextID`.
- Conversion of floating-point arguments outside the range of `int` in `intValue`.
- Caching and deduplication of keys in the dataloader library: the batch functions are modelled for any key list.
- The order in which goroutines blocked on a lock are woken, and fairness: every interleaving of critical sections is allowed.
- Transactions.WithinTx: the three functions of the services are performed step by step, any other as what it leaves; a function that panics is not modelled.
- The INTERNAL error that the client gets after a recovered panic: the call stays at its publish and returns nothing.
- EventBus.Bus.Unsubscribe: the goroutine that waits for the context is not a thread of its own; its call of the closure is the same step.
- Domain.Post.SetCommentsEnabled: on a value, returning the changed copy; Go changes the receiver, always a local copy.
