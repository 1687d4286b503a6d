/** The PostgreSQL backend. The SQL is given a relational meaning (filter, partition, rank, order, limit);
    the methods are the Go loops over the rows that the database answers with. */
module PostgresStorage {
  import opened Wrappers
  import opened Uuids
  import opened Domain
  import opened Keyset
  import opened CommentSets

  // order by created_at desc, id desc
  predicate PgBefore(a: Comment, b: Comment)
  {
    a.createdAt > b.createdAt || (a.createdAt == b.createdAt && BytesLess(b.id.bytes, a.id.bytes))
  }

  // order by post_id (or parent_id), created_at desc, id desc
  predicate PartBefore(part: Comment -> Option<Uuid>, a: Comment, b: Comment)
    requires part(a).Some? && part(b).Some?
  {
    BytesLess(part(a).value.bytes, part(b).value.bytes) || (part(a) == part(b) && PgBefore(a, b))
  }

  // The parameters $2 and $3, once the database has read the id as a uuid.
  datatype Bound = Bound(createdAt: Time, id: Uuid)

  // How the database reads uuid text is a parameter; canonical text must be understood.
  ghost predicate ReadsCanonical(parse: string -> Option<Uuid>) { forall u: Uuid :: parse(Text(u)) == Some(u) }

  ghost predicate Canonical(after: Option<Cursor>) { after.Some? ==> exists u: Uuid :: after.value.id == Text(u) }

  function BoundOf(parse: string -> Option<Uuid>, after: Option<Cursor>): Option<Option<Bound>>
  {
    if after.None? then Some(None)
    else match parse(after.value.id)
      case None => None
      case Some(u) => Some(Some(Bound(after.value.createdAt, u)))
  }

  // The cursor as the database reads it: the same instant, and the canonical text of the id it has read.
  function CursorOf(bound: Option<Bound>): Option<Cursor>
  {
    match bound
    case None => None
    case Some(b) => Some(Cursor(b.createdAt, Text(b.id)))
  }

  // The page request as the database reads it.
  function AsRead(parse: string -> Option<Uuid>, page: PageInput): PageInput
    requires BoundOf(parse, page.after).Some?
  {
    page.(after := CursorOf(BoundOf(parse, page.after).value))
  }

  // Canonical text, the only kind in cursors that the service hands out, is read as it stands.
  lemma CanonicalIsReadAsItStands(parse: string -> Option<Uuid>, page: PageInput)
    requires ReadsCanonical(parse) && Canonical(page.after)
    ensures BoundOf(parse, page.after).Some? && AsRead(parse, page) == page
  {
    if page.after.Some? {
      var u: Uuid :| page.after.value.id == Text(u);
    }
  }

  // (created_at, id) < ($2, $3), left out of the query when there is no cursor
  predicate Below(c: Comment, bound: Option<Bound>)
  {
    bound.None?
    || c.createdAt < bound.value.createdAt
    || (c.createdAt == bound.value.createdAt && BytesLess(c.id.bytes, bound.value.id.bytes))
  }

  // where post_id = any($1) and parent_id is null (part is PostOf), or where parent_id = any($1) (ParentOf)
  ghost function Where(
    table: Comments, part: Comment -> Option<Uuid>, ids: set<Uuid>, bound: Option<Bound>): set<Comment>
  {
    set k | k in table && part(table[k]).Some? && part(table[k]).value in ids && Below(table[k], bound) :: table[k]
  }

  // Every row of the relation once, in the given order.
  ghost predicate OrderedBy(rows: seq<Comment>, rel: set<Comment>, before: (Comment, Comment) -> bool)
  {
    && Elems(rows) == rel && |rows| == |rel|
    && forall i, j :: 0 <= i < j < |rows| ==> before(rows[i], rows[j])
  }

  // select ... order by created_at desc, id desc limit n
  ghost predicate Limited(rows: seq<Comment>, rel: set<Comment>, n: int)
    requires n >= 0
  {
    exists full :: OrderedBy(full, rel, PgBefore) && rows == full[..Min(n, |full|)]
  }

  // row_number() over (partition by part order by created_at desc, id desc)
  ghost function RowNumber(rel: set<Comment>, part: Comment -> Option<Uuid>, row: Comment): nat
  {
    1 + |set r | r in rel && part(r) == part(row) && PgBefore(r, row)|
  }

  // select ... from ranked where rn <= n order by part, created_at desc, id desc
  ghost predicate Ranked(rows: seq<Comment>, rel: set<Comment>, part: Comment -> Option<Uuid>, n: int)
  {
    OrderedBy(
      rows, set r | r in rel && RowNumber(rel, part, r) <= n,
      (a, b) => part(a).Some? && part(b).Some? && PartBefore(part, a, b))
  }

  lemma SameOrder(a: Comment, b: Comment)
    ensures PgBefore(a, b) <==> Newer(CommentCursor(a), CommentCursor(b))
  {
    TextOrderIsByteOrder(b.id, a.id);
  }

  lemma SameBound(bound: Option<Bound>, c: Comment)
    ensures Below(c, bound) <==> After(CommentCursor(c), CursorOf(bound))
  {
    if bound.Some? { TextOrderIsByteOrder(c.id, bound.value.id); }
  }

  lemma WhereIsMatching(table: Comments, part: Comment -> Option<Uuid>, ids: set<Uuid>, id: Uuid, bound: Option<Bound>)
    requires id in ids
    ensures (set r | r in Where(table, part, ids, bound) && part(r) == Some(id))
         == Matching(Members(table, part, id), CommentCursor, CursorOf(bound))
  {
    forall c: Comment ensures Below(c, bound) <==> After(CommentCursor(c), CursorOf(bound)) {
      SameBound(bound, c);
    }
  }

  lemma OrderedIsDescending(rows: seq<Comment>)
    requires forall i, j :: 0 <= i < j < |rows| ==> PgBefore(rows[i], rows[j])
    ensures Descending(rows, CommentCursor)
  {
    forall i, j | 0 <= i < j < |rows| ensures Newer(CommentCursor(rows[i]), CommentCursor(rows[j])) {
      SameOrder(rows[i], rows[j]);
    }
  }

  lemma WhereOne(table: Comments, part: Comment -> Option<Uuid>, id: Uuid, bound: Option<Bound>)
    ensures Where(table, part, {id}, bound) == Matching(Members(table, part, id), CommentCursor, CursorOf(bound))
  {
    WhereIsMatching(table, part, {id}, id, bound);
    var rel := Where(table, part, {id}, bound);
    assert rel == set r | r in rel && part(r) == Some(id);
  }

  lemma LimitedIsListing(rows: seq<Comment>, rel: set<Comment>, first: int)
    requires first >= 0 && Limited(rows, rel, first + 1) && Apart(rel, CommentCursor)
    ensures Cut(rows, first) == Cut(Listing(rel, CommentCursor), first)
  {
    var full :| OrderedBy(full, rel, PgBefore) && rows == full[..Min(first + 1, |full|)];
    OrderedIsDescending(full);
    ListingIsUnique(full, rel, CommentCursor);
    CutLimited(full, first);
  }

  /** order by ... limit first + 1, trimmed to first, is the page of the listing, for every cursor that the database can
      read. */
  lemma SingleQueryPage(
    table: Comments, part: Comment -> Option<Uuid>, id: Uuid, page: PageInput, parse: string -> Option<Uuid>,
    rows: seq<Comment>)
    requires Keyed(table) && page.first >= 0 && BoundOf(parse, page.after).Some?
    requires Limited(rows, Where(table, part, {id}, BoundOf(parse, page.after).value), page.first + 1)
    ensures Cut(rows, page.first) == MemberPage(table, part, id, AsRead(parse, page))
  {
    var bound := BoundOf(parse, page.after).value;
    WhereOne(table, part, id, bound);
    MembersApart(table, part, id);
    LimitedIsListing(rows, Matching(Members(table, part, id), CommentCursor, CursorOf(bound)), page.first);
  }

  // In the listing of one partition, row_number() is the position.
  lemma RowNumberIsPosition(rel: set<Comment>, part: Comment -> Option<Uuid>, id: Uuid, l: seq<Comment>, i: nat)
    requires Descending(l, CommentCursor) && Elems(l) == (set r | r in rel && part(r) == Some(id))
    requires i < |l|
    ensures RowNumber(rel, part, l[i]) == i + 1
  {
    assert l[i] in Elems(l);
    var newer := set r | r in rel && part(r) == part(l[i]) && PgBefore(r, l[i]);
    forall r | r in newer ensures r in l[..i] {
      SameOrder(r, l[i]);
      assert r in Elems(l);
      var j :| 0 <= j < |l| && l[j] == r;
      if j > i { NewerIsAsymmetric(CommentCursor(l[i]), CommentCursor(l[j])); }
      NewerIsTotal(CommentCursor(r), CommentCursor(r));
    }
    forall r | r in l[..i] ensures r in newer {
      SameOrder(r, l[i]);
      assert r in Elems(l);
    }
    assert newer == Elems(l[..i]);
    DescendingCount(l[..i], CommentCursor);
  }

  // The rows of one partition in the windowed answer are the first n of its listing.
  lemma PartitionOfRanked(
    rel: set<Comment>, part: Comment -> Option<Uuid>, id: Uuid, n: nat, rows: seq<Comment>, l: seq<Comment>)
    requires Ranked(rows, rel, part, n)
    requires Descending(l, CommentCursor) && Elems(l) == (set r | r in rel && part(r) == Some(id))
    ensures Group(rows, part, id) == l[..Min(n, |l|)]
  {
    var keep := (c: Comment) => part(c) == Some(id);
    var f, top := Filter(rows, keep), l[..Min(n, |l|)];
    assert f == Group(rows, part, id);
    FilterElems(rows, keep);
    var both := (a: Comment, b: Comment) => part(a).Some? && part(b).Some? && PartBefore(part, a, b);
    FilterPairs(rows, keep, both);
    forall i, j | 0 <= i < j < |f| ensures PgBefore(f[i], f[j]) {
      assert f[i] in f && f[j] in f && both(f[i], f[j]);
      BytesLessIrreflexive(part(f[i]).value.bytes);
    }
    OrderedIsDescending(f);
    forall r ensures r in f <==> r in top {
      assert r in rows <==> r in Elems(rows);
      assert r in l <==> r in Elems(l);
      if r in l {
        var i :| 0 <= i < |l| && l[i] == r;
        RowNumberIsPosition(rel, part, id, l, i);
        if r in top {
          var k :| 0 <= k < |top| && top[k] == r;
          RowNumberIsPosition(rel, part, id, l, k);
        }
      }
    }
    assert Elems(f) == Elems(top);
    DescendingIsUnique(f, top, CommentCursor);
  }

  lemma {:induction false} BytesLessIrreflexive(a: seq<Byte>)
    ensures !BytesLess(a, a)
  {
    if a != [] { BytesLessIrreflexive(a[1..]); }
  }

  lemma PartitionPage(
    rel: set<Comment>, part: Comment -> Option<Uuid>, id: Uuid, first: int, rows: seq<Comment>, m: set<Comment>)
    requires first >= 0 && Ranked(rows, rel, part, first + 1)
    requires m == (set r | r in rel && part(r) == Some(id)) && Apart(m, CommentCursor)
    ensures Cut(Group(rows, part, id), first) == Cut(Listing(m, CommentCursor), first)
  {
    var l := Listing(m, CommentCursor);
    PartitionOfRanked(rel, part, id, first + 1, rows, l);
    CutLimited(l, first);
  }

  /** The windowed batch query, grouped and trimmed, gives each requested id the page it would get alone, for every
      cursor that the database can read. */
  lemma BatchQueryPage(
    table: Comments, part: Comment -> Option<Uuid>, ids: set<Uuid>, id: Uuid, page: PageInput,
    parse: string -> Option<Uuid>, rows: seq<Comment>)
    requires Keyed(table) && page.first >= 0 && id in ids && BoundOf(parse, page.after).Some?
    requires Ranked(rows, Where(table, part, ids, BoundOf(parse, page.after).value), part, page.first + 1)
    ensures Cut(Group(rows, part, id), page.first) == MemberPage(table, part, id, AsRead(parse, page))
  {
    var bound := BoundOf(parse, page.after).value;
    MembersApart(table, part, id);
    WhereIsMatching(table, part, ids, id, bound);
    PartitionPage(
      Where(table, part, ids, bound), part, id, page.first, rows,
      Matching(Members(table, part, id), CommentCursor, CursorOf(bound)));
  }

  // scanComment ends in buildComment, which validates the row again.
  function Rebuild(row: Comment): Result<Comment, Error>
  {
    NewComment(row.id, row.postID, row.parentID, row.authorID, row.body, row.createdAt)
  }

  // A row that is read comes back as it is, and is refused as a new comment with its fields would be.
  lemma RebuildExact(row: Comment)
    ensures Rebuild(row).Ok? ==> Rebuild(row).value == row
    ensures Rebuild(row).Ok? <==>
      && row.id != NIL && row.postID != NIL && row.authorID != NIL && row.parentID != Some(NIL)
      && Visible(row.body) && |row.body| <= 2000 && row.createdAt != 0
  {
    NewCommentExact(row.id, row.postID, row.parentID, row.authorID, row.body, row.createdAt);
  }

  // Rows written by this service passed NewComment.
  ghost predicate Wellformed(table: Comments) { forall id :: id in table ==> Rebuild(table[id]).Ok? }

  // How the driver's rows end: all read, a row that Scan cannot read, or an error of the iteration.
  datatype Ending = Complete | Unscannable | Interrupted

  // What the driver hands over: an error instead of rows, or rows and how they end.
  datatype Answer<+T> = QueryError | Rows(rows: seq<T>, ending: Ending)

  // The operations that the errors of one query name.
  datatype Ops = Ops(query: string, scan: string, iterate: string)

  const LIST_OPS := Ops("query comments", "scan comment", "iterate comments")
  const BATCH_TOP_LEVEL_OPS :=
    Ops("batch list top-level comments", "scan ranked comment", "iterate batched top-level comments")
  const BATCH_REPLIES_OPS := Ops("batch list replies", "scan ranked comment", "iterate batched replies")
  const COUNT_TOP_LEVEL_OPS :=
    Ops("batch count top-level comments", "scan top-level comment counts", "iterate top-level comment counts")
  const COUNT_REPLIES_OPS := Ops("batch count replies", "scan reply counts", "iterate reply counts")

  predicate Scannable(rows: seq<Comment>) { forall i :: 0 <= i < |rows| ==> Rebuild(rows[i]).Ok? }

  predicate AllRead<T>(answer: Answer<T>) { answer.Rows? && answer.ending.Complete? }

  // e is the error of the first row that does not validate.
  predicate FirstInvalid(rows: seq<Comment>, e: Error)
  {
    exists i :: 0 <= i < |rows| && Scannable(rows[..i]) && Rebuild(rows[i]) == Err(e)
  }

  // What makes the loop over the rows fail: the query, the first bad row, or the end.
  ghost predicate FailsWith(answer: Answer<Comment>, ops: Ops, e: Error)
  {
    match answer
    case QueryError => e == Operation(ops.query)
    case Rows(rows, ending) =>
      if !Scannable(rows) then FirstInvalid(rows, e)
      else match ending
        case Complete => false
        case Unscannable => e == Operation(ops.scan)
        case Interrupted => e == Operation(ops.iterate)
  }

  method ScanRows(answer: Answer<Comment>, ops: Ops) returns (r: Result<seq<Comment>, Error>)
    ensures AllRead(answer) && Scannable(answer.rows) ==> r == Ok(answer.rows)
    ensures !(AllRead(answer) && Scannable(answer.rows)) ==> r.Err? && FailsWith(answer, ops, r.error)
  {
    if answer.QueryError? {
      return Err(Operation(ops.query));
    }
    var rows := answer.rows;
    var items: seq<Comment> := [];
    for i := 0 to |rows|
      invariant items == rows[..i] && Scannable(rows[..i])
    {
      var comment := Rebuild(rows[i]);
      if comment.Err? {
        return Err(comment.error);
      }
      items := items + [comment.value];
    }
    assert rows[..|rows|] == rows;
    if answer.ending.Unscannable? {
      return Err(Operation(ops.scan));
    }
    if answer.ending.Interrupted? {
      return Err(Operation(ops.iterate));
    }
    return Ok(items);
  }

  method TrimPage(rows: seq<Comment>, page: PageInput) returns (r: Page<Comment>)
    requires page.first >= 0
    ensures r == Cut(rows, page.first)
  {
    var items := rows;
    var hasNextPage := |items| > page.first;
    assert rows[..|rows|] == rows;
    if hasNextPage {
      items := items[..page.first];
    }
    r := Page(items, hasNextPage);
  }

  method ListWithQuery(answer: Answer<Comment>, page: PageInput) returns (r: Result<Page<Comment>, Error>)
    requires page.first >= 0
    ensures AllRead(answer) && Scannable(answer.rows) ==> r == Ok(Cut(answer.rows, page.first))
    ensures !(AllRead(answer) && Scannable(answer.rows)) ==> r.Err? && FailsWith(answer, LIST_OPS, r.error)
  {
    var scanned := ScanRows(answer, LIST_OPS);
    if scanned.Err? {
      return Err(scanned.error);
    }
    var trimmed := TrimPage(scanned.value, page);
    return Ok(trimmed);
  }

  // ListTopLevel (part is PostOf) and ListReplies (part is ParentOf). A cursor that the database cannot read makes the
  // query fail.
  method List(
    ghost table: Comments, ghost parse: string -> Option<Uuid>, ghost part: Comment -> Option<Uuid>, ghost id: Uuid,
    page: PageInput, answer: Answer<Comment>)
    returns (r: Result<Page<Comment>, Error>)
    requires Keyed(table) && Wellformed(table) && page.first >= 0
    requires AllRead(answer) ==>
      && BoundOf(parse, page.after).Some?
      && Limited(answer.rows, Where(table, part, {id}, BoundOf(parse, page.after).value), page.first + 1)
    ensures AllRead(answer) ==> r == Ok(MemberPage(table, part, id, AsRead(parse, page)))
    ensures !AllRead(answer) ==> r.Err? && FailsWith(answer, LIST_OPS, r.error)
  {
    if AllRead(answer) {
      LimitedRows(table, part, id, BoundOf(parse, page.after).value, answer.rows, page.first + 1);
      SingleQueryPage(table, part, id, page, parse, answer.rows);
    }
    r := ListWithQuery(answer, page);
  }

  lemma LimitedRows(
    table: Comments, part: Comment -> Option<Uuid>, id: Uuid, bound: Option<Bound>, rows: seq<Comment>, n: nat)
    requires Wellformed(table) && Limited(rows, Where(table, part, {id}, bound), n)
    ensures Scannable(rows)
  {
    var rel := Where(table, part, {id}, bound);
    var full :| OrderedBy(full, rel, PgBefore) && rows == full[..Min(n, |full|)];
    forall i | 0 <= i < |rows| ensures Rebuild(rows[i]).Ok? {
      assert full[i] in Elems(full);
    }
  }

  // Every row belongs to a requested id.
  predicate Requested(rows: seq<Comment>, part: Comment -> Option<Uuid>, ids: set<Uuid>)
  {
    forall i :: 0 <= i < |rows| ==> part(rows[i]).Some? && part(rows[i]).value in ids
  }

  lemma RankedRows(
    table: Comments, part: Comment -> Option<Uuid>, ids: set<Uuid>, bound: Option<Bound>, rows: seq<Comment>, n: nat)
    requires Wellformed(table) && Ranked(rows, Where(table, part, ids, bound), part, n)
    ensures Scannable(rows) && Requested(rows, part, ids)
  {
    forall i | 0 <= i < |rows|
      ensures Rebuild(rows[i]).Ok? && part(rows[i]).Some? && part(rows[i]).value in ids
    {
      assert rows[i] in Elems(rows);
    }
  }

  // batchListByPostID and batchListByParentID: group the rows, trim every group.
  method BatchListWithQuery(
    part: Comment -> Option<Uuid>, ids: seq<Uuid>, page: PageInput, answer: Answer<Comment>, ops: Ops)
    returns (r: Result<map<Uuid, Page<Comment>>, Error>)
    requires page.first >= 0
    ensures AllRead(answer) && Scannable(answer.rows) && Requested(answer.rows, part, Elems(ids)) ==>
      r == Ok(map id | id in ids :: Cut(Group(answer.rows, part, id), page.first))
    ensures !(AllRead(answer) && Scannable(answer.rows)) ==> r.Err? && FailsWith(answer, ops, r.error)
  {
    var scanned := ScanRows(answer, ops);
    if scanned.Err? {
      return Err(scanned.error);
    }
    var rows := scanned.value;
    var grouped := GroupRows(part, ids, rows);
    var result: map<Uuid, Page<Comment>> := map[];
    var remaining := grouped.Keys;
    while remaining != {}
      invariant remaining <= grouped.Keys && result.Keys == grouped.Keys - remaining
      invariant forall id :: id in result ==> result[id] == Cut(Group(rows, part, id), page.first)
    {
      var id :| id in remaining;
      remaining := remaining - {id};
      var trimmed := TrimPage(grouped[id], page);
      result := result[id := trimmed];
    }
    assert Requested(rows, part, Elems(ids)) ==> result == map id | id in ids :: Cut(Group(rows, part, id), page.first);
    return Ok(result);
  }

  lemma BatchPages(
    table: Comments, part: Comment -> Option<Uuid>, ids: seq<Uuid>, page: PageInput, parse: string -> Option<Uuid>,
    rows: seq<Comment>)
    requires Keyed(table) && Wellformed(table) && page.first >= 0 && BoundOf(parse, page.after).Some?
    requires Ranked(rows, Where(table, part, Elems(ids), BoundOf(parse, page.after).value), part, page.first + 1)
    ensures Scannable(rows) && Requested(rows, part, Elems(ids))
    ensures (map id | id in ids :: Cut(Group(rows, part, id), page.first))
         == (map id | id in ids :: MemberPage(table, part, id, AsRead(parse, page)))
  {
    RankedRows(table, part, Elems(ids), BoundOf(parse, page.after).value, rows, page.first + 1);
    forall id | id in ids
      ensures Cut(Group(rows, part, id), page.first) == MemberPage(table, part, id, AsRead(parse, page)) {
      BatchQueryPage(table, part, Elems(ids), id, page, parse, rows);
    }
  }

  method BatchListTopLevel(
    ghost table: Comments, ghost parse: string -> Option<Uuid>, postIDs: seq<PostID>, page: PageInput,
    answer: Answer<Comment>)
    returns (r: Result<map<Uuid, Page<Comment>>, Error>)
    requires Keyed(table) && Wellformed(table) && page.first >= 0
    requires AllRead(answer) ==>
      && BoundOf(parse, page.after).Some?
      && Ranked(
           answer.rows, Where(table, PostOf, Elems(postIDs), BoundOf(parse, page.after).value), PostOf, page.first + 1)
    ensures AllRead(answer) ==> r == Ok(map id | id in postIDs :: MemberPage(table, PostOf, id, AsRead(parse, page)))
    ensures !AllRead(answer) ==> r.Err? && FailsWith(answer, BATCH_TOP_LEVEL_OPS, r.error)
  {
    r := BatchList(table, parse, PostOf, postIDs, page, answer, BATCH_TOP_LEVEL_OPS);
  }

  method BatchListReplies(
    ghost table: Comments, ghost parse: string -> Option<Uuid>, parentIDs: seq<CommentID>, page: PageInput,
    answer: Answer<Comment>)
    returns (r: Result<map<Uuid, Page<Comment>>, Error>)
    requires Keyed(table) && Wellformed(table) && page.first >= 0
    requires AllRead(answer) ==>
      && BoundOf(parse, page.after).Some?
      && Ranked(
           answer.rows, Where(table, ParentOf, Elems(parentIDs), BoundOf(parse, page.after).value), ParentOf,
           page.first + 1)
    ensures AllRead(answer) ==>
      r == Ok(map id | id in parentIDs :: MemberPage(table, ParentOf, id, AsRead(parse, page)))
    ensures !AllRead(answer) ==> r.Err? && FailsWith(answer, BATCH_REPLIES_OPS, r.error)
  {
    r := BatchList(table, parse, ParentOf, parentIDs, page, answer, BATCH_REPLIES_OPS);
  }

  // The two batch lists, which differ in their column and in what their errors say.
  method BatchList(
    ghost table: Comments, ghost parse: string -> Option<Uuid>, part: Comment -> Option<Uuid>, ids: seq<Uuid>,
    page: PageInput, answer: Answer<Comment>, ops: Ops)
    returns (r: Result<map<Uuid, Page<Comment>>, Error>)
    requires Keyed(table) && Wellformed(table) && page.first >= 0
    requires AllRead(answer) ==>
      && BoundOf(parse, page.after).Some?
      && Ranked(answer.rows, Where(table, part, Elems(ids), BoundOf(parse, page.after).value), part, page.first + 1)
    ensures AllRead(answer) ==> r == Ok(map id | id in ids :: MemberPage(table, part, id, AsRead(parse, page)))
    ensures !AllRead(answer) ==> r.Err? && FailsWith(answer, ops, r.error)
  {
    if AllRead(answer) {
      BatchPages(table, part, ids, page, parse, answer.rows);
    }
    r := BatchListWithQuery(part, ids, page, answer, ops);
  }

  // Every requested id gets its rows in row order, an empty slice when there are none.
  method GroupRows(part: Comment -> Option<Uuid>, ids: seq<Uuid>, rows: seq<Comment>)
    returns (grouped: map<Uuid, seq<Comment>>)
    ensures Requested(rows, part, Elems(ids)) ==> grouped.Keys == Elems(ids)
    ensures forall id :: id in grouped ==> grouped[id] == Group(rows, part, id)
    ensures forall id :: id in ids ==> id in grouped
  {
    grouped := map id | id in ids :: [];
    for i := 0 to |rows|
      invariant Elems(ids) <= grouped.Keys
      invariant forall id :: id in grouped.Keys - Elems(ids) ==> exists j :: 0 <= j < i && part(rows[j]) == Some(id)
      invariant forall id :: id !in grouped ==> Group(rows[..i], part, id) == []
      invariant forall id :: id in grouped ==> grouped[id] == Group(rows[..i], part, id)
    {
      forall k: Uuid
        ensures Group(rows[..i + 1], part, k)
             == Group(rows[..i], part, k) + if part(rows[i]) == Some(k) then [rows[i]] else []
      {
        GroupStep(rows, part, k, i);
      }
      if part(rows[i]).None? {
        continue;
      }
      var id := part(rows[i]).value;
      grouped := grouped[id := (if id in grouped then grouped[id] else []) + [rows[i]]];
    }
    assert rows[..|rows|] == rows;
  }

  // select part, count(*) from comments where part = any($1) group by part
  ghost predicate GroupCounts(rows: seq<(Uuid, nat)>, table: Comments, part: Comment -> Option<Uuid>, ids: set<Uuid>)
  {
    && (forall i :: 0 <= i < |rows| ==> rows[i].0 in ids && rows[i].1 == |Members(table, part, rows[i].0)|)
    && (forall id :: id in ids && Members(table, part, id) != {} ==> exists i :: 0 <= i < |rows| && rows[i].0 == id)
  }

  // The error of a count query that does not end well.
  function CountError(answer: Answer<(Uuid, nat)>, ops: Ops): Error
    requires !AllRead(answer)
  {
    if answer.QueryError? then Operation(ops.query)
    else if answer.ending.Unscannable? then Operation(ops.scan)
    else Operation(ops.iterate)
  }

  method BatchCountTopLevel(ghost table: Comments, postIDs: seq<PostID>, answer: Answer<(Uuid, nat)>)
    returns (r: Result<map<Uuid, nat>, Error>)
    requires AllRead(answer) ==> GroupCounts(answer.rows, table, PostOf, Elems(postIDs))
    ensures AllRead(answer) ==> r == Ok(map id | id in postIDs :: |Members(table, PostOf, id)|)
    ensures !AllRead(answer) ==> r == Err(CountError(answer, COUNT_TOP_LEVEL_OPS))
  {
    r := BatchCount(table, PostOf, postIDs, answer, COUNT_TOP_LEVEL_OPS);
  }

  method BatchCountReplies(ghost table: Comments, parentIDs: seq<CommentID>, answer: Answer<(Uuid, nat)>)
    returns (r: Result<map<Uuid, nat>, Error>)
    requires AllRead(answer) ==> GroupCounts(answer.rows, table, ParentOf, Elems(parentIDs))
    ensures AllRead(answer) ==> r == Ok(map id | id in parentIDs :: |Members(table, ParentOf, id)|)
    ensures !AllRead(answer) ==> r == Err(CountError(answer, COUNT_REPLIES_OPS))
  {
    r := BatchCount(table, ParentOf, parentIDs, answer, COUNT_REPLIES_OPS);
  }

  // The two batch counts.
  method BatchCount(
    ghost table: Comments, ghost part: Comment -> Option<Uuid>, ids: seq<Uuid>, answer: Answer<(Uuid, nat)>, ops: Ops)
    returns (r: Result<map<Uuid, nat>, Error>)
    requires AllRead(answer) ==> GroupCounts(answer.rows, table, part, Elems(ids))
    ensures AllRead(answer) ==> r == Ok(map id | id in ids :: |Members(table, part, id)|)
    ensures !AllRead(answer) ==> r == Err(CountError(answer, ops))
  {
    if answer.QueryError? {
      return Err(Operation(ops.query));
    }
    var counts := CollectCounts(ids, answer.rows);
    if answer.ending.Unscannable? {
      return Err(Operation(ops.scan));
    }
    if answer.ending.Interrupted? {
      return Err(Operation(ops.iterate));
    }
    CountsAreSizes(table, part, ids, answer.rows, counts);
    return Ok(counts);
  }

  // Zero for every id asked for, then the rows.
  method CollectCounts(ids: seq<Uuid>, rows: seq<(Uuid, nat)>) returns (counts: map<Uuid, nat>)
    ensures counts.Keys == Elems(ids) + set j | 0 <= j < |rows| :: rows[j].0
    ensures forall id :: id in counts ==>
      LastCount(rows, id) == Some(counts[id]) || (LastCount(rows, id) == None && counts[id] == 0)
  {
    counts := map id | id in ids :: 0;
    for i := 0 to |rows|
      invariant counts.Keys == Elems(ids) + set j | 0 <= j < i :: rows[j].0
      invariant forall id :: id in counts ==>
        LastCount(rows[..i], id) == Some(counts[id]) || (LastCount(rows[..i], id) == None && counts[id] == 0)
      invariant forall id :: id !in counts ==> LastCount(rows[..i], id) == None
    {
      assert rows[..i + 1][..i] == rows[..i];
      counts := counts[rows[i].0 := rows[i].1];
    }
    assert rows[..|rows|] == rows;
  }

  // The count in the last row about an id.
  function LastCount(rows: seq<(Uuid, nat)>, id: Uuid): Option<nat>
  {
    if rows == [] then None
    else if rows[|rows| - 1].0 == id then Some(rows[|rows| - 1].1)
    else LastCount(rows[..|rows| - 1], id)
  }

  lemma {:induction false} LastCountIsSome(rows: seq<(Uuid, nat)>, id: Uuid)
    ensures match LastCount(rows, id)
      case None => forall i :: 0 <= i < |rows| ==> rows[i].0 != id
      case Some(n) => exists i :: 0 <= i < |rows| && rows[i] == (id, n)
  {
    if rows != [] {
      LastCountIsSome(rows[..|rows| - 1], id);
      assert rows[|rows| - 1] == (rows[|rows| - 1].0, rows[|rows| - 1].1);
    }
  }

  lemma CountsAreSizes(
    table: Comments, part: Comment -> Option<Uuid>, ids: seq<Uuid>, rows: seq<(Uuid, nat)>, counts: map<Uuid, nat>)
    requires GroupCounts(rows, table, part, Elems(ids))
    requires counts.Keys == Elems(ids) + set j | 0 <= j < |rows| :: rows[j].0
    requires forall id :: id in counts ==>
      LastCount(rows, id) == Some(counts[id]) || (LastCount(rows, id) == None && counts[id] == 0)
    ensures counts == map id | id in ids :: |Members(table, part, id)|
  {
    assert counts.Keys == Elems(ids);
    forall id | id in ids ensures counts[id] == |Members(table, part, id)| {
      LastCountIsSome(rows, id);
    }
  }
}
