/** The batch loader on top of each backend: what the repositories' batch calls promise is what the loader needs. */
module Backends {
  import opened Wrappers
  import opened Uuids
  import opened Domain
  import opened CommentSets
  import opened Connections
  import opened PostgresStorage
  import opened Loaders

  // The contract of the memory repository's BatchList: it never fails.
  ghost predicate AnswersAsMemory(batch: Batch, comments: Comments, part: Comment -> Option<Uuid>)
    requires Keyed(comments)
  {
    forall ids: seq<Uuid>, page: PageInput :: page.first > 0 ==>
      batch(ids, page) == Ok(map id | id in ids :: MemberPage(comments, part, id, page))
  }

  // The contract of the PostgreSQL repository's batch lists: when it does not fail, the database could read the cursor,
  // and every page is that of the cursor as read.
  ghost predicate AnswersAsPostgres(
    batch: Batch, table: Comments, part: Comment -> Option<Uuid>, parse: string -> Option<Uuid>)
    requires Keyed(table)
  {
    forall ids: seq<Uuid>, page: PageInput :: page.first > 0 && batch(ids, page).Ok? ==>
      && BoundOf(parse, page.after).Some?
      && batch(ids, page).value == map id | id in ids :: MemberPage(table, part, id, AsRead(parse, page))
  }

  // The single calls that the batch calls of each backend agree with.
  ghost function MemorySingle(comments: Comments, part: Comment -> Option<Uuid>): Single
    requires Keyed(comments)
  {
    (id: Uuid, page: PageInput) => if page.first > 0 then MemberPage(comments, part, id, page) else Page([], false)
  }

  ghost function PostgresSingle(table: Comments, part: Comment -> Option<Uuid>, parse: string -> Option<Uuid>): Single
    requires Keyed(table)
  {
    (id: Uuid, page: PageInput) =>
      if page.first > 0 && BoundOf(parse, page.after).Some? then MemberPage(table, part, id, AsRead(parse, page))
      else Page([], false)
  }

  lemma MemoryServes(batch: Batch, comments: Comments, part: Comment -> Option<Uuid>)
    requires Keyed(comments) && AnswersAsMemory(batch, comments, part)
    ensures Serves(batch, MemorySingle(comments, part))
  {
  }

  lemma PostgresServes(batch: Batch, table: Comments, part: Comment -> Option<Uuid>, parse: string -> Option<Uuid>)
    requires Keyed(table) && AnswersAsPostgres(batch, table, part, parse)
    ensures Serves(batch, PostgresSingle(table, part, parse))
  {
  }

  predicate KnownScope(key: Key) { key.scope == "post" || key.scope == "comment" }

  /** On the memory backend every slot of a valid key is the connection of the page that was stored when its group was
      loaded: no batch can fail. */
  lemma MemorySlot(moments: Moments, codec: Codec, comments: Comments, keys: seq<Key>, i: nat, page: PageInput)
    requires i < |keys| && KnownScope(keys[i]) && Keyed(comments)
    requires AnswersAsMemory(moments(GroupOf(keys[i])).topLevel, comments, PostOf)
    requires AnswersAsMemory(moments(GroupOf(keys[i])).replies, comments, ParentOf)
    requires NewPageInput(codec, keys[i].first, Some(keys[i].after)) == Ok(page)
    ensures SlotOf(moments, codec, keys, i)
         == ConnectionOf(codec, CommentCursor, MemberPage(comments, PartOf(keys[i].scope), keys[i].id, page))
  {
    var service := moments(GroupOf(keys[i]));
    var topLevel, replies := MemorySingle(comments, PostOf), MemorySingle(comments, ParentOf);
    MemoryServes(service.topLevel, comments, PostOf);
    MemoryServes(service.replies, comments, ParentOf);
    SlotIsMemberPage(moments, codec, topLevel, replies, comments, keys, i, page);
  }

  /** On PostgreSQL a slot is the error of its group's call, or the connection of the page of the cursor as read. */
  lemma PostgresSlot(
    moments: Moments, codec: Codec, table: Comments, parse: string -> Option<Uuid>, keys: seq<Key>, i: nat,
    page: PageInput)
    requires i < |keys| && KnownScope(keys[i]) && Keyed(table)
    requires AnswersAsPostgres(moments(GroupOf(keys[i])).topLevel, table, PostOf, parse)
    requires AnswersAsPostgres(moments(GroupOf(keys[i])).replies, table, ParentOf, parse)
    requires NewPageInput(codec, keys[i].first, Some(keys[i].after)) == Ok(page)
    ensures match GroupAnswer(moments, keys, GroupOf(keys[i]), page)
      case Err(e) => SlotOf(moments, codec, keys, i) == Err(e)
      case Ok(_) =>
        && BoundOf(parse, page.after).Some?
        && SlotOf(moments, codec, keys, i)
           == ConnectionOf(
                codec, CommentCursor, MemberPage(table, PartOf(keys[i].scope), keys[i].id, AsRead(parse, page)))
  {
    var service := moments(GroupOf(keys[i]));
    var topLevel, replies := PostgresSingle(table, PostOf, parse), PostgresSingle(table, ParentOf, parse);
    PostgresServes(service.topLevel, table, PostOf, parse);
    PostgresServes(service.replies, table, ParentOf, parse);
    SlotIsPointwise(moments, codec, topLevel, replies, keys, i);
  }

  /** For a cursor that the service has handed out, a loader on PostgreSQL and one on the memory backend give the same
      connection for the same rows, when the PostgreSQL call succeeds. */
  lemma SameSlotOnBoth(
    postgres: Moments, memory: Moments, codec: Codec, rows: Comments, parse: string -> Option<Uuid>, keys: seq<Key>,
    i: nat, page: PageInput)
    requires i < |keys| && KnownScope(keys[i]) && Keyed(rows) && ReadsCanonical(parse) && Canonical(page.after)
    requires AnswersAsPostgres(postgres(GroupOf(keys[i])).topLevel, rows, PostOf, parse)
    requires AnswersAsPostgres(postgres(GroupOf(keys[i])).replies, rows, ParentOf, parse)
    requires AnswersAsMemory(memory(GroupOf(keys[i])).topLevel, rows, PostOf)
    requires AnswersAsMemory(memory(GroupOf(keys[i])).replies, rows, ParentOf)
    requires NewPageInput(codec, keys[i].first, Some(keys[i].after)) == Ok(page)
    requires GroupAnswer(postgres, keys, GroupOf(keys[i]), page).Ok?
    ensures SlotOf(postgres, codec, keys, i) == SlotOf(memory, codec, keys, i)
  {
    PostgresSlot(postgres, codec, rows, parse, keys, i, page);
    MemorySlot(memory, codec, rows, keys, i, page);
    CanonicalIsReadAsItStands(parse, page);
  }
}
