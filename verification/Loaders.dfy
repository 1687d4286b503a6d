/** The comment-connection batch loader (internal/adapters/graphql/loaders.go): keys are grouped by scope, page size and
    cursor, every group is loaded by one batch call, and the answers are scattered back by index. */
module Loaders {
  import opened Wrappers
  import opened Uuids
  import opened Domain
  import opened CommentSets
  import opened Connections

  datatype Key = Key(scope: string, id: Uuid, first: int, after: string)

  datatype Group = Group(scope: string, first: int, after: string)

  type Batch = (seq<Uuid>, PageInput) -> Result<map<Uuid, Page<Comment>>, Error>

  // The service's BatchListTopLevelComments and BatchListReplies; either may fail.
  datatype Service = Service(topLevel: Batch, replies: Batch)

  // The service as each group's one call finds it: the store may change between the calls.
  type Moments = Group -> Service

  type Slot = Result<Connection<Comment>, Error>

  const SCOPE_POST := "post"
  const SCOPE_COMMENT := "comment"
  const UNSUPPORTED := Validation("scope", "unsupported comment connection scope")

  function GroupOf(key: Key): Group { Group(key.scope, key.first, key.after) }

  function OptionalString(value: string): Option<string> { if value == "" then None else Some(value) }

  // The empty text and no text ask for the same page, so a key is asked for with its own after argument.
  lemma OptionalIsText(codec: Codec, first: int, after: string)
    ensures NewPageInput(codec, first, OptionalString(after)) == NewPageInput(codec, first, Some(after))
  {
  }

  // The positions, among the first n, of the keys of a group.
  function Indexes(keys: seq<Key>, group: Group, n: nat): (s: seq<nat>)
    requires n <= |keys|
    ensures forall i :: 0 <= i < |s| ==> s[i] < n && GroupOf(keys[s[i]]) == group
    ensures forall i, j :: 0 <= i < j < |s| ==> s[i] < s[j]
    ensures forall k :: 0 <= k < n && GroupOf(keys[k]) == group ==> k in s
  {
    if n == 0 then []
    else if GroupOf(keys[n - 1]) == group then Indexes(keys, group, n - 1) + [n - 1]
    else Indexes(keys, group, n - 1)
  }

  function IdsOf(keys: seq<Key>, indexes: seq<nat>): seq<Uuid>
    requires forall i :: 0 <= i < |indexes| ==> indexes[i] < |keys|
  {
    seq(|indexes|, i requires 0 <= i < |indexes| => keys[indexes[i]].id)
  }

  // The one batch call made for a group.
  function GroupAnswer(moments: Moments, keys: seq<Key>, group: Group, page: PageInput)
    : Result<map<Uuid, Page<Comment>>, Error>
  {
    var ids := IdsOf(keys, Indexes(keys, group, |keys|));
    if group.scope == SCOPE_POST then moments(group).topLevel(ids, page)
    else if group.scope == SCOPE_COMMENT then moments(group).replies(ids, page)
    else Err(UNSUPPORTED)
  }

  // pages[id]; Go reads a missing entry as an empty page.
  function PageFor(pages: map<Uuid, Page<Comment>>, id: Uuid): Page<Comment>
  {
    if id in pages then pages[id] else Page([], false)
  }

  // What a batch call's answer gives one of its keys.
  function SlotFrom(codec: Codec, answer: Result<map<Uuid, Page<Comment>>, Error>, id: Uuid): Slot
  {
    match answer
    case Err(e) => Err(e)
    case Ok(pages) => ConnectionOf(codec, CommentCursor, PageFor(pages, id))
  }

  // What slot i gets: an answer of its own group's call only.
  function SlotOf(moments: Moments, codec: Codec, keys: seq<Key>, i: nat): Slot
    requires i < |keys|
  {
    var group := GroupOf(keys[i]);
    match NewPageInput(codec, group.first, OptionalString(group.after))
    case Err(e) => Err(e)
    case Ok(page) =>
      SlotFrom(codec, GroupAnswer(moments, keys, group, page), keys[i].id)
  }

  // The first n keys, grouped.
  ghost predicate Grouped(keys: seq<Key>, n: nat, grouped: map<Group, seq<nat>>)
    requires n <= |keys|
  {
    && (forall g :: g in grouped ==> grouped[g] == Indexes(keys, g, n))
    && (forall i :: 0 <= i < n ==> GroupOf(keys[i]) in grouped)
  }

  lemma IndexesStep(keys: seq<Key>, group: Group, n: nat)
    requires n < |keys|
    ensures GroupOf(keys[n]) == group ==> Indexes(keys, group, n + 1) == Indexes(keys, group, n) + [n]
    ensures GroupOf(keys[n]) != group ==> Indexes(keys, group, n + 1) == Indexes(keys, group, n)
  {
  }

  lemma NoIndexes(keys: seq<Key>, group: Group, n: nat)
    requires n <= |keys| && forall i :: 0 <= i < n ==> GroupOf(keys[i]) != group
    ensures Indexes(keys, group, n) == []
  {
  }

  // Key n joins its own group, which may be new ...
  lemma OwnGroupStep(keys: seq<Key>, n: nat, grouped: map<Group, seq<nat>>, group: Group)
    requires n < |keys| && Grouped(keys, n, grouped) && GroupOf(keys[n]) == group
    ensures Indexes(keys, group, n + 1) == (if group in grouped then grouped[group] else []) + [n]
  {
    IndexesStep(keys, group, n);
    if group !in grouped { NoIndexes(keys, group, n); }
  }

  // ... and no other.
  lemma OtherGroupStep(keys: seq<Key>, n: nat, grouped: map<Group, seq<nat>>, g: Group)
    requires n < |keys| && Grouped(keys, n, grouped) && GroupOf(keys[n]) != g && g in grouped
    ensures Indexes(keys, g, n + 1) == grouped[g]
  {
    IndexesStep(keys, g, n);
  }

  lemma GroupedStep(keys: seq<Key>, n: nat, grouped: map<Group, seq<nat>>, indexes: seq<nat>)
    requires n < |keys| && Grouped(keys, n, grouped)
    requires indexes == (if GroupOf(keys[n]) in grouped then grouped[GroupOf(keys[n])] else []) + [n]
    ensures Grouped(keys, n + 1, grouped[GroupOf(keys[n]) := indexes])
  {
    var group := GroupOf(keys[n]);
    OwnGroupStep(keys, n, grouped, group);
    forall g | g in grouped && g != group ensures Indexes(keys, g, n + 1) == grouped[g] {
      OtherGroupStep(keys, n, grouped, g);
    }
  }

  method GroupKeys(keys: seq<Key>) returns (grouped: map<Group, seq<nat>>)
    ensures forall g :: g in grouped ==> grouped[g] == Indexes(keys, g, |keys|)
    ensures forall i :: 0 <= i < |keys| ==> GroupOf(keys[i]) in grouped
  {
    grouped := map[];
    for n: nat := 0 to |keys|
      invariant Grouped(keys, n, grouped)
    {
      var group := GroupOf(keys[n]);
      var indexes := (if group in grouped then grouped[group] else []) + [n];
      GroupedStep(keys, n, grouped, indexes);
      grouped := grouped[group := indexes];
    }
  }

  // results[idx] = ...: every caller has to prove that the slot is still empty, so no slot is filled twice.
  method Fill(results: array<Option<Slot>>, idx: nat, slot: Slot)
    requires idx < results.Length && results[idx] == None
    modifies results
    ensures results[..] == old(results[..])[idx := Some(slot)]
  {
    results[idx] := Some(slot);
  }

  // The slots at the first n indexes are filled as expected, the others are as they were.
  twostate predicate Filled(results: array<Option<Slot>>, indexes: seq<nat>, expected: seq<Slot>, n: nat)
    requires n <= |indexes| == |expected| && forall i :: 0 <= i < |indexes| ==> indexes[i] < results.Length
    reads results
  {
    && (forall i :: 0 <= i < n ==> results[indexes[i]] == Some(expected[i]))
    && (forall k :: 0 <= k < results.Length && k !in indexes[..n] ==> results[k] == old(results[k]))
  }

  // Increasing indexes of empty slots.
  ghost predicate Vacant(results: array<Option<Slot>>, indexes: seq<nat>)
    reads results
  {
    && (forall i :: 0 <= i < |indexes| ==> indexes[i] < results.Length && results[indexes[i]] == None)
    && (forall i, j :: 0 <= i < j < |indexes| ==> indexes[i] < indexes[j])
  }

  method FillErrors(results: array<Option<Slot>>, indexes: seq<nat>, error: Error, ghost expected: seq<Slot>)
    requires Vacant(results, indexes) && |expected| == |indexes|
    requires forall i :: 0 <= i < |indexes| ==> expected[i] == Err(error)
    modifies results
    ensures Filled(results, indexes, expected, |indexes|)
  {
    for i := 0 to |indexes|
      invariant Filled(results, indexes, expected, i)
    {
      assert indexes[i] !in indexes[..i];
      Fill(results, indexes[i], Err(error));
      assert indexes[..i + 1] == indexes[..i] + [indexes[i]];
    }
  }

  // loadPostCommentConnections and loadReplyCommentConnections, after a successful batch call.
  method Scatter(
    results: array<Option<Slot>>, codec: Codec, keys: seq<Key>, indexes: seq<nat>, pages: map<Uuid, Page<Comment>>,
    ghost expected: seq<Slot>)
    requires Vacant(results, indexes) && |expected| == |indexes| && results.Length == |keys|
    requires forall i :: 0 <= i < |indexes| ==>
      expected[i] == ConnectionOf(codec, CommentCursor, PageFor(pages, keys[indexes[i]].id))
    modifies results
    ensures Filled(results, indexes, expected, |indexes|)
  {
    for i := 0 to |indexes|
      invariant Filled(results, indexes, expected, i)
    {
      assert indexes[i] !in indexes[..i];
      var connection := NewConnection(codec, CommentCursor, PageFor(pages, keys[indexes[i]].id));
      Fill(results, indexes[i], connection);
      assert indexes[..i + 1] == indexes[..i] + [indexes[i]];
    }
  }

  ghost function Expected(moments: Moments, codec: Codec, keys: seq<Key>, indexes: seq<nat>): seq<Slot>
    requires forall i :: 0 <= i < |indexes| ==> indexes[i] < |keys|
  {
    seq(|indexes|, i requires 0 <= i < |indexes| => SlotOf(moments, codec, keys, indexes[i]))
  }

  lemma InvalidPageSlots(moments: Moments, codec: Codec, keys: seq<Key>, group: Group, e: Error)
    requires NewPageInput(codec, group.first, OptionalString(group.after)) == Err(e)
    ensures var indexes := Indexes(keys, group, |keys|);
      forall i :: 0 <= i < |indexes| ==> SlotOf(moments, codec, keys, indexes[i]) == Err(e)
  {
  }

  lemma AnsweredSlots(moments: Moments, codec: Codec, keys: seq<Key>, group: Group, page: PageInput)
    requires NewPageInput(codec, group.first, OptionalString(group.after)) == Ok(page)
    ensures var indexes := Indexes(keys, group, |keys|);
      forall i :: 0 <= i < |indexes| ==>
        SlotOf(moments, codec, keys, indexes[i])
        == SlotFrom(codec, GroupAnswer(moments, keys, group, page), keys[indexes[i]].id)
  {
  }

  method CollectIds(keys: seq<Key>, indexes: seq<nat>) returns (ids: seq<Uuid>)
    requires forall i :: 0 <= i < |indexes| ==> indexes[i] < |keys|
    ensures ids == IdsOf(keys, indexes)
  {
    ids := [];
    for i := 0 to |indexes|
      invariant |ids| == i && forall j :: 0 <= j < i ==> ids[j] == keys[indexes[j]].id
    {
      ids := ids + [keys[indexes[i]].id];
    }
  }

  // The batch call for the ids of a group.
  method CallService(moments: Moments, keys: seq<Key>, group: Group, indexes: seq<nat>, page: PageInput)
    returns (pages: Result<map<Uuid, Page<Comment>>, Error>)
    requires indexes == Indexes(keys, group, |keys|)
    ensures pages == GroupAnswer(moments, keys, group, page)
  {
    var ids := CollectIds(keys, indexes);
    if group.scope == SCOPE_POST {
      pages := moments(group).topLevel(ids, page);
    } else if group.scope == SCOPE_COMMENT {
      pages := moments(group).replies(ids, page);
    } else {
      pages := Err(UNSUPPORTED);
    }
  }

  method LoadGroup(
    results: array<Option<Slot>>, moments: Moments, codec: Codec, keys: seq<Key>, group: Group, indexes: seq<nat>)
    requires results.Length == |keys| && indexes == Indexes(keys, group, |keys|) && Vacant(results, indexes)
    modifies results
    ensures Filled(results, indexes, Expected(moments, codec, keys, indexes), |indexes|)
  {
    ghost var expected := Expected(moments, codec, keys, indexes);
    var page := NewPageInput(codec, group.first, OptionalString(group.after));
    if page.Err? {
      InvalidPageSlots(moments, codec, keys, group, page.error);
      FillErrors(results, indexes, page.error, expected);
      return;
    }
    AnsweredSlots(moments, codec, keys, group, page.value);
    var pages := CallService(moments, keys, group, indexes, page.value);
    if pages.Err? {
      FillErrors(results, indexes, pages.error, expected);
    } else {
      Scatter(results, codec, keys, indexes, pages.value, expected);
    }
  }

  // Every slot is filled, with what its key gets.
  predicate Answered(results: seq<Option<Slot>>, moments: Moments, codec: Codec, keys: seq<Key>)
  {
    |results| == |keys| && forall i :: 0 <= i < |keys| ==> results[i] == Some(SlotOf(moments, codec, keys, i))
  }

  /** Fills every slot, each one once, in whatever order the groups are visited. */
  method BatchCommentConnections(moments: Moments, codec: Codec, keys: seq<Key>) returns (results: array<Option<Slot>>)
    ensures fresh(results) && Answered(results[..], moments, codec, keys)
  {
    results := new Option<Slot>[|keys|](_ => None);
    var grouped := GroupKeys(keys);
    var remaining := grouped.Keys;
    while remaining != {}
      invariant remaining <= grouped.Keys
      invariant forall i :: 0 <= i < |keys| ==>
        results[i] == if GroupOf(keys[i]) in remaining then None else Some(SlotOf(moments, codec, keys, i))
    {
      var group :| group in remaining;
      var indexes := grouped[group];
      label before:
      LoadGroup(results, moments, codec, keys, group, indexes);
      remaining := remaining - {group};
      forall i | 0 <= i < |keys|
        ensures results[i] == if GroupOf(keys[i]) in remaining then None else Some(SlotOf(moments, codec, keys, i))
      {
        if GroupOf(keys[i]) == group {
          var j :| 0 <= j < |indexes| && indexes[j] == i;
        } else {
          assert i !in indexes;
          assert results[i] == old@before(results[i]);
        }
      }
    }
  }

  type Single = (Uuid, PageInput) -> Page<Comment>

  // A batch call that succeeds gives every id asked for the page that a single call gives it.
  ghost predicate Serves(batch: Batch, single: Single)
  {
    forall ids: seq<Uuid>, page: PageInput :: page.first > 0 && batch(ids, page).Ok? ==>
      batch(ids, page).value == map id | id in ids :: single(id, page)
  }

  // The same of both batch calls.
  ghost predicate ServesBoth(service: Service, topLevel: Single, replies: Single)
  {
    Serves(service.topLevel, topLevel) && Serves(service.replies, replies)
  }

  /** The slot of a key is the connection of that key's own page, whatever else was in the batch; or the error of its
      page request, or of its group's call. The backend may be any, as long as batch and single calls agree. */
  lemma SlotIsPointwise(moments: Moments, codec: Codec, topLevel: Single, replies: Single, keys: seq<Key>, i: nat)
    requires i < |keys| && ServesBoth(moments(GroupOf(keys[i])), topLevel, replies)
    ensures var key := keys[i];
      match NewPageInput(codec, key.first, Some(key.after))
      case Err(e) => SlotOf(moments, codec, keys, i) == Err(e)
      case Ok(page) =>
        match GroupAnswer(moments, keys, GroupOf(key), page)
        case Err(e) => SlotOf(moments, codec, keys, i) == Err(e)
        case Ok(_) =>
          SlotOf(moments, codec, keys, i)
          == ConnectionOf(codec, CommentCursor,
               if key.scope == "post" then topLevel(key.id, page) else replies(key.id, page))
  {
    var key := keys[i];
    OptionalIsText(codec, key.first, key.after);
    var indexes := Indexes(keys, GroupOf(key), |keys|);
    var j :| 0 <= j < |indexes| && indexes[j] == i;
    assert IdsOf(keys, indexes)[j] == key.id;
  }

  /** A key with another scope gets an error, once its page request is valid, and no call is made for it. */
  lemma UnknownScope(moments: Moments, codec: Codec, keys: seq<Key>, i: nat, page: PageInput)
    requires i < |keys| && keys[i].scope != "post" && keys[i].scope != "comment"
    requires NewPageInput(codec, keys[i].first, Some(keys[i].after)) == Ok(page)
    ensures SlotOf(moments, codec, keys, i)
         == Err(Validation("scope", "unsupported comment connection scope"))
  {
    OptionalIsText(codec, keys[i].first, keys[i].after);
  }

  // An id that the service's answer leaves out gets a connection without edges.
  lemma LeftOutIsEmpty(codec: Codec, pages: map<Uuid, Page<Comment>>, id: Uuid)
    requires id !in pages
    ensures SlotFrom(codec, Ok(pages), id) == Ok(Connection([], false, None))
  {
  }

  // The comment list that a scope stands for.
  function PartOf(scope: string): Comment -> Option<Uuid> { if scope == "post" then PostOf else ParentOf }

  // Where the single call gives this key its page of the stored comments, the slot is the connection of that page.
  lemma SlotIsMemberPage(
    moments: Moments, codec: Codec, topLevel: Single, replies: Single, comments: Comments,
    keys: seq<Key>, i: nat, page: PageInput)
    requires i < |keys| && ServesBoth(moments(GroupOf(keys[i])), topLevel, replies)
    requires NewPageInput(codec, keys[i].first, Some(keys[i].after)) == Ok(page) && Keyed(comments)
    requires keys[i].scope == "post" ==>
      topLevel(keys[i].id, page) == MemberPage(comments, PostOf, keys[i].id, page)
    requires keys[i].scope != "post" ==>
      replies(keys[i].id, page) == MemberPage(comments, ParentOf, keys[i].id, page)
    requires GroupAnswer(moments, keys, GroupOf(keys[i]), page).Ok?
    ensures SlotOf(moments, codec, keys, i)
         == ConnectionOf(codec, CommentCursor, MemberPage(comments, PartOf(keys[i].scope), keys[i].id, page))
  {
    SlotIsPointwise(moments, codec, topLevel, replies, keys, i);
  }

  /** Loaded in a batch or alone, a key gets the same connection, when both loads succeed and find the same pages. */
  lemma SlotAsAlone(
    moments: Moments, alone: Moments, codec: Codec, topLevel: Single, replies: Single,
    keys: seq<Key>, i: nat, page: PageInput)
    requires i < |keys| && ServesBoth(moments(GroupOf(keys[i])), topLevel, replies)
    requires ServesBoth(alone(GroupOf(keys[i])), topLevel, replies)
    requires NewPageInput(codec, keys[i].first, Some(keys[i].after)) == Ok(page)
    requires GroupAnswer(moments, keys, GroupOf(keys[i]), page).Ok?
    && GroupAnswer(alone, [keys[i]], GroupOf(keys[i]), page).Ok?
    ensures SlotOf(moments, codec, keys, i) == SlotOf(alone, codec, [keys[i]], 0)
  {
    SlotIsPointwise(moments, codec, topLevel, replies, keys, i);
    SlotIsPointwise(alone, codec, topLevel, replies, [keys[i]], 0);
  }

  /** A failing group changes only its own slots: of two runs of the loader that differ in the call of one group alone,
      which failed in the second, that group's slots hold its error and all others are the same. */
  lemma FailureStaysInGroup(
    results: seq<Option<Slot>>, other: seq<Option<Slot>>, moments: Moments, failing: Moments, codec: Codec,
    keys: seq<Key>,
    failed: Group, page: PageInput, e: Error)
    requires Answered(results, moments, codec, keys) && Answered(other, failing, codec, keys)
    requires forall g :: g != failed ==> failing(g) == moments(g)
    requires NewPageInput(codec, failed.first, Some(failed.after)) == Ok(page)
    requires GroupAnswer(failing, keys, failed, page) == Err(e)
    ensures |other| == |results| == |keys|
    ensures forall i :: 0 <= i < |keys| ==>
      other[i] == if GroupOf(keys[i]) == failed then Some(Err(e)) else results[i]
  {
    OptionalIsText(codec, failed.first, failed.after);
    forall i | 0 <= i < |keys| ensures other[i] == if GroupOf(keys[i]) == failed then Some(Err(e)) else results[i] {
      if GroupOf(keys[i]) != failed { SameSlot(moments, failing, codec, keys, i); }
    }
  }

  lemma SameSlot(moments: Moments, other: Moments, codec: Codec, keys: seq<Key>, i: nat)
    requires i < |keys| && other(GroupOf(keys[i])) == moments(GroupOf(keys[i]))
    ensures SlotOf(other, codec, keys, i) == SlotOf(moments, codec, keys, i)
  {
  }

  // batchTopLevelCounts and batchReplyCounts
  method BatchCounts(load: seq<Uuid> -> Result<map<Uuid, nat>, Error>, keys: seq<Uuid>)
    returns (results: seq<Result<nat, Error>>)
    ensures |results| == |keys|
    ensures load(keys).Err? ==> forall i :: 0 <= i < |keys| ==> results[i] == Err(load(keys).error)
    ensures load(keys).Ok? ==> forall i :: 0 <= i < |keys| ==>
      results[i] == Ok(if keys[i] in load(keys).value then load(keys).value[keys[i]] else 0)
  {
    var counts := load(keys);
    results := [];
    for i := 0 to |keys|
      invariant |results| == i
      invariant counts.Err? ==> forall j :: 0 <= j < i ==> results[j] == Err(counts.error)
      invariant counts.Ok? ==> forall j :: 0 <= j < i ==>
        results[j] == Ok(if keys[j] in counts.value then counts.value[keys[j]] else 0)
    {
      if counts.Err? {
        results := results + [Err(counts.error)];
      } else {
        results := results + [Ok(if keys[i] in counts.value then counts.value[keys[i]] else 0)];
      }
    }
  }
}
