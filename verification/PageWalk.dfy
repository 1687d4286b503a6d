/** Connections with end cursors (internal/adapters/graphql/mappers.go) and the clients that follow them. */
module Connections {
  import opened Wrappers
  import opened Domain

  datatype Edge<+T> = Edge(cursor: string, node: T)

  datatype Connection<+T> = Connection(edges: seq<Edge<T>>, hasNextPage: bool, endCursor: Option<string>)

  predicate Encodable<T>(codec: Codec, key: T -> Cursor, items: seq<T>)
  {
    forall i :: 0 <= i < |items| ==> codec.marshal(key(items[i])).Some?
  }

  // One edge an item, in order; the end cursor is the last item's, absent on an empty page.
  function ConnectionOf<T>(codec: Codec, key: T -> Cursor, page: Page<T>): Result<Connection<T>, Error>
  {
    if !Encodable(codec, key, page.items) then Err(Operation("marshal cursor"))
    else
      var edges := seq(|page.items|, i requires 0 <= i < |page.items| =>
        Edge(codec.marshal(key(page.items[i])).value, page.items[i]));
      Ok(Connection(edges, page.hasNextPage, if edges == [] then None else Some(edges[|edges| - 1].cursor)))
  }

  // newCommentConnection and newPostConnection
  method NewConnection<T>(codec: Codec, key: T -> Cursor, page: Page<T>) returns (r: Result<Connection<T>, Error>)
    ensures r == ConnectionOf(codec, key, page)
  {
    var edges: seq<Edge<T>> := [];
    var endCursor: Option<string> := None;
    for i := 0 to |page.items|
      invariant |edges| == i && Encodable(codec, key, page.items[..i])
      invariant forall j :: 0 <= j < i ==> edges[j] == Edge(codec.marshal(key(page.items[j])).value, page.items[j])
      invariant endCursor == if i == 0 then None else Some(edges[i - 1].cursor)
    {
      var cursor := codec.Encode(key(page.items[i]));
      if cursor.Err? {
        return Err(cursor.error);
      }
      edges := edges + [Edge(cursor.value, page.items[i])];
      endCursor := Some(cursor.value);
    }
    assert page.items[..|page.items|] == page.items;
    assert edges == seq(|page.items|, i requires 0 <= i < |page.items| =>
      Edge(codec.marshal(key(page.items[i])).value, page.items[i]));
    return Ok(Connection(edges, page.hasNextPage, endCursor));
  }

  /** A page that can be encoded becomes a connection in which every item, in order, has an edge with its own cursor;
      the end cursor is that of the last edge, absent when there is none; a page that cannot is an error. */
  lemma ConnectionExact<T>(codec: Codec, key: T -> Cursor, page: Page<T>)
    ensures var r := ConnectionOf(codec, key, page);
      if exists i :: 0 <= i < |page.items| && codec.marshal(key(page.items[i])).None?
      then r == Err(Operation("marshal cursor"))
      else
        && r.Ok? && r.value.hasNextPage == page.hasNextPage && |r.value.edges| == |page.items|
        && (forall i :: 0 <= i < |page.items| ==>
              r.value.edges[i].node == page.items[i]
              && codec.marshal(key(page.items[i])) == Some(r.value.edges[i].cursor))
        && (page.items == [] ==> r.value.endCursor == None)
        && (page.items != [] ==> r.value.endCursor == Some(r.value.edges[|page.items| - 1].cursor))
  {
  }

  // The codec assumption, for a cursor of a stored item.
  predicate Resumable(codec: Codec, cursor: Cursor)
  {
    codec.RoundTrips(cursor) && cursor.createdAt != 0 && cursor.id != ""
  }

  // The text is the end cursor of a page whose last item has this cursor.
  predicate Resumes(codec: Codec, endCursor: Option<string>, cursor: Cursor)
  {
    endCursor.Some? && endCursor.value != "" && codec.Decode(endCursor.value) == Ok(cursor)
  }

  // Sent back, an end cursor asks for what comes after the last item.
  lemma EndCursorResumes<T>(codec: Codec, key: T -> Cursor, page: Page<T>)
    requires page.items != []
    requires forall i :: 0 <= i < |page.items| ==> Resumable(codec, key(page.items[i]))
    ensures ConnectionOf(codec, key, page).Ok?
    ensures Resumes(codec, ConnectionOf(codec, key, page).value.endCursor, key(page.items[|page.items| - 1]))
    ensures forall first {:trigger NewPageInput(codec, first, ConnectionOf(codec, key, page).value.endCursor)} ::
      first > 0 ==>
        NewPageInput(codec, first, ConnectionOf(codec, key, page).value.endCursor)
        == Ok(PageInput(first, Some(key(page.items[|page.items| - 1]))))
  {
    assert Resumable(codec, key(page.items[|page.items| - 1]));
  }

  // So does the cursor of every edge.
  lemma EdgeCursorsResume<T>(codec: Codec, key: T -> Cursor, page: Page<T>, i: nat, first: int)
    requires i < |page.items| && first > 0
    requires forall j :: 0 <= j < |page.items| ==> Resumable(codec, key(page.items[j]))
    ensures ConnectionOf(codec, key, page).Ok? && i < |ConnectionOf(codec, key, page).value.edges|
    ensures NewPageInput(codec, first, Some(ConnectionOf(codec, key, page).value.edges[i].cursor))
         == Ok(PageInput(first, Some(key(page.items[i]))))
  {
    forall j | 0 <= j < |page.items| ensures codec.marshal(key(page.items[j])).Some? {
      assert Resumable(codec, key(page.items[j]));
    }
    assert Resumable(codec, key(page.items[i]));
  }
}

/** Following end cursors, on a fixed store and while items are added between fetches. */
module PageWalk {
  import opened Wrappers
  import opened Domain
  import opened Keyset
  import opened Connections

  // One request: decode the cursor, read the page, build the connection.
  ghost function Fetch<T>(s: set<T>, key: T -> Cursor, codec: Codec, first: int, after: Option<string>)
    : Result<Connection<T>, Error>
    requires Apart(s, key)
  {
    match NewPageInput(codec, first, after)
    case Err(e) => Err(e)
    case Ok(page) => ConnectionOf(codec, key, PageOf(s, key, page))
  }

  // The cursor that an after argument stands for.
  ghost predicate Asks(codec: Codec, after: Option<string>, cursor: Option<Cursor>)
  {
    if after == None || after == Some("") then cursor == None
    else cursor.Some? && codec.unmarshal(after.value) == cursor
  }

  /** A fetch gives exactly what was asked for: first edges if there are so many past the cursor, otherwise all, each
      with its own cursor; and hasNextPage when there are more. */
  lemma FetchExact<T>(s: set<T>, key: T -> Cursor, codec: Codec, first: int, after: Option<string>, got: Connection<T>)
    returns (cursor: Option<Cursor>)
    requires Apart(s, key) && Fetch(s, key, codec, first, after) == Ok(got)
    ensures first > 0 && Asks(codec, after, cursor)
    ensures var m := Matching(s, key, cursor);
      && |got.edges| == (if first < |m| then first else |m|)
      && (got.hasNextPage <==> first < |m|)
      && (forall i :: 0 <= i < |got.edges| ==>
            got.edges[i].node in m && codec.marshal(key(got.edges[i].node)) == Some(got.edges[i].cursor))
  {
    var input, p := FetchedPage(s, key, codec, first, after, got);
    cursor := input.after;
    PageInputExact(codec, first, after);
    PageCount(s, key, input, p);
    ConnectionExact(codec, key, p);
    forall i | 0 <= i < |got.edges| ensures got.edges[i].node in Matching(s, key, cursor) {
      assert p.items[i] in Elems(p.items);
    }
  }

  lemma PageCount<T>(s: set<T>, key: T -> Cursor, page: PageInput, p: Page<T>)
    requires page.first >= 0 && IsPage(s, key, page, p)
    ensures var m := Matching(s, key, page.after);
      |p.items| == (if page.first < |m| then page.first else |m|) && (p.hasNextPage <==> page.first < |m|)
  {
    DescendingCount(p.items, key);
    if |p.items| == |Matching(s, key, page.after)| { SubsetSize(Elems(p.items), Matching(s, key, page.after)); }
  }

  // The fetches so far. Each one: the items stored at that moment, the page size asked for, the connection received.
  datatype Walk<T> = Start | Fetched(before: Walk<T>, store: set<T>, first: int, got: Connection<T>)

  /** Each fetch sends the end cursor of the one before, which said that there is more.
      Items may be added between two fetches, none is removed. */
  ghost predicate IsWalk<T>(walk: Walk<T>, key: T -> Cursor, codec: Codec)
  {
    walk.Fetched? ==>
      && Apart(walk.store, key)
      && (walk.before.Fetched? ==>
            walk.before.got.hasNextPage && walk.before.store <= walk.store && IsWalk(walk.before, key, codec))
      && Fetch(walk.store, key, codec, walk.first, Sent(walk.before)) == Ok(walk.got)
  }

  // The after argument of the next fetch.
  function Sent<T>(walk: Walk<T>): Option<string> { if walk.Start? then None else walk.got.endCursor }

  // All items received, in order.
  function Nodes<T>(walk: Walk<T>): seq<T> { if walk.Start? then [] else Nodes(walk.before) + NodesOf(walk.got) }

  function Fetches<T>(walk: Walk<T>): nat { if walk.Start? then 0 else Fetches(walk.before) + 1 }

  // What was stored when the walk began.
  ghost function FirstStore<T>(walk: Walk<T>): set<T>
    requires walk.Fetched?
  {
    if walk.before.Start? then walk.store else FirstStore(walk.before)
  }

  function NodesOf<T>(c: Connection<T>): seq<T> { seq(|c.edges|, i requires 0 <= i < |c.edges| => c.edges[i].node) }

  function Last<A>(s: seq<A>): A
    requires s != []
  {
    s[|s| - 1]
  }

  ghost predicate AllResumable<T>(s: set<T>, key: T -> Cursor, codec: Codec)
  {
    forall x :: x in s ==> Resumable(codec, key(x))
  }

  // Nothing of the first store is passed over: it was received, or it comes after the last item received.
  ghost predicate Covered<T>(first: set<T>, key: T -> Cursor, nodes: seq<T>, more: bool)
  {
    && (more ==> nodes != [])
    && (forall x :: x in first && x !in nodes ==> more && Newer(key(Last(nodes)), key(x)))
  }

  lemma ExtendOrder<T>(now: set<T>, key: T -> Cursor, nodes: seq<T>, input: PageInput, p: Page<T>)
    requires IsPage(now, key, input, p)
    requires Descending(nodes, key) && Elems(nodes) <= now
    requires nodes != [] ==> input.after == Some(key(Last(nodes)))
    ensures Descending(nodes + p.items, key) && Elems(nodes + p.items) <= now
  {
    var all := nodes + p.items;
    forall i, j | 0 <= i < j < |all| ensures Newer(key(all[i]), key(all[j])) {
      if i < |nodes| <= j {
        assert p.items[j - |nodes|] in Elems(p.items);
        if i < |nodes| - 1 { NewerIsTransitive(key(nodes[i]), key(Last(nodes)), key(all[j])); }
      }
    }
    forall x | x in all ensures x in now {
      if x in nodes { assert x in Elems(nodes); } else { assert x in Elems(p.items); }
    }
  }

  lemma ExtendCover<T>(first: set<T>, now: set<T>, key: T -> Cursor, nodes: seq<T>, input: PageInput, p: Page<T>)
    requires IsPage(now, key, input, p) && first <= now && input.first > 0
    requires if nodes == [] then input.after == None else
      Covered(first, key, nodes, true) && input.after == Some(key(Last(nodes)))
    ensures Covered(first, key, nodes + p.items, p.hasNextPage) && (p.hasNextPage ==> p.items != [])
  {
    var all, m := nodes + p.items, Matching(now, key, input.after);
    ElemsEmpty(p.items);
    forall x | x in first && x !in all ensures p.hasNextPage && p.items != [] && Newer(key(Last(all)), key(x)) {
      assert x in m && x !in Elems(p.items);
      assert Last(all) in p.items;
    }
  }

  // What holds after every fetch.
  ghost predicate Progress<T>(walk: Walk<T>, key: T -> Cursor, codec: Codec)
    requires walk.Fetched?
  {
    && FirstStore(walk) <= walk.store
    && Descending(Nodes(walk), key) && Elems(Nodes(walk)) <= walk.store
    && Covered(FirstStore(walk), key, Nodes(walk), walk.got.hasNextPage)
    && (walk.got.hasNextPage ==>
          |Nodes(walk)| >= Fetches(walk) && Resumes(codec, walk.got.endCursor, key(Last(Nodes(walk)))))
  }

  lemma OnePage<T>(now: set<T>, key: T -> Cursor, codec: Codec, p: Page<T>, got: Connection<T>)
    requires Elems(p.items) <= now && AllResumable(now, key, codec)
    requires ConnectionOf(codec, key, p) == Ok(got)
    ensures NodesOf(got) == p.items && got.hasNextPage == p.hasNextPage
    ensures p.items != [] ==> Resumes(codec, got.endCursor, key(Last(p.items)))
  {
    assert NodesOf(got) == p.items;
    if p.items != [] {
      forall i | 0 <= i < |p.items| ensures Resumable(codec, key(p.items[i])) {
        assert p.items[i] in Elems(p.items);
      }
      EndCursorResumes(codec, key, p);
    }
  }

  lemma OneFetch<T>(
    first: set<T>, now: set<T>, key: T -> Cursor, codec: Codec, nodes: seq<T>, input: PageInput, p: Page<T>,
    got: Connection<T>)
    requires IsPage(now, key, input, p) && ConnectionOf(codec, key, p) == Ok(got)
    requires first <= now && input.first > 0 && AllResumable(now, key, codec)
    requires Descending(nodes, key) && Elems(nodes) <= now
    requires if nodes == [] then input.after == None else
      Covered(first, key, nodes, true) && input.after == Some(key(Last(nodes)))
    ensures Descending(nodes + NodesOf(got), key) && Elems(nodes + NodesOf(got)) <= now
    ensures Covered(first, key, nodes + NodesOf(got), got.hasNextPage)
    ensures got.hasNextPage ==> NodesOf(got) != [] && Resumes(codec, got.endCursor, key(Last(NodesOf(got))))
  {
    OnePage(now, key, codec, p, got);
    ExtendOrder(now, key, nodes, input, p);
    ExtendCover(first, now, key, nodes, input, p);
  }

  // A fetch that succeeded read a page.
  lemma FetchedPage<T>(s: set<T>, key: T -> Cursor, codec: Codec, first: int, after: Option<string>, got: Connection<T>)
    returns (input: PageInput, p: Page<T>)
    requires Apart(s, key) && Fetch(s, key, codec, first, after) == Ok(got)
    ensures NewPageInput(codec, first, after) == Ok(input)
    ensures IsPage(s, key, input, p) && ConnectionOf(codec, key, p) == Ok(got)
  {
    input := NewPageInput(codec, first, after).value;
    p := PageOf(s, key, input);
    PageOfIsPage(s, key, input);
  }

  lemma NextFetch<T>(
    first: set<T>, now: set<T>, key: T -> Cursor, codec: Codec, nodes: seq<T>, size: int, sent: Option<string>,
    got: Connection<T>)
    requires Apart(now, key) && AllResumable(now, key, codec) && first <= now
    requires Descending(nodes, key) && Elems(nodes) <= now
    requires if nodes == [] then sent == None else
      Covered(first, key, nodes, true) && Resumes(codec, sent, key(Last(nodes)))
    requires Fetch(now, key, codec, size, sent) == Ok(got)
    ensures Descending(nodes + NodesOf(got), key) && Elems(nodes + NodesOf(got)) <= now
    ensures Covered(first, key, nodes + NodesOf(got), got.hasNextPage)
    ensures got.hasNextPage ==> NodesOf(got) != [] && Resumes(codec, got.endCursor, key(Last(NodesOf(got))))
  {
    var input, p := FetchedPage(now, key, codec, size, sent, got);
    OneFetch(first, now, key, codec, nodes, input, p, got);
  }

  lemma {:induction false} WalkProgress<T>(walk: Walk<T>, key: T -> Cursor, codec: Codec)
    requires walk.Fetched? && IsWalk(walk, key, codec) && AllResumable(walk.store, key, codec)
    ensures Progress(walk, key, codec)
  {
    var nodes := Nodes(walk.before);
    if walk.before.Fetched? {
      WalkProgress(walk.before, key, codec);
    }
    NextFetch(FirstStore(walk), walk.store, key, codec, nodes, walk.first, Sent(walk.before), walk.got);
    assert Nodes(walk) == nodes + NodesOf(walk.got);
    if walk.got.hasNextPage {
      assert Last(Nodes(walk)) == Last(NodesOf(walk.got));
    }
  }

  /** While items are added between fetches, a walk is in strictly descending order (so nothing comes twice) and
      shows only stored items; once finished it has shown every item that was there when it began. */
  lemma WalkWhileInserting<T>(walk: Walk<T>, key: T -> Cursor, codec: Codec)
    requires walk.Fetched? && IsWalk(walk, key, codec) && AllResumable(walk.store, key, codec)
    ensures Descending(Nodes(walk), key)
    ensures Elems(Nodes(walk)) <= walk.store
    ensures !walk.got.hasNextPage ==> FirstStore(walk) <= Elems(Nodes(walk))
  {
    WalkProgress(walk, key, codec);
  }

  // No walk outlasts its store: there is at most one fetch more than there are items.
  lemma WalkTerminates<T>(walk: Walk<T>, key: T -> Cursor, codec: Codec)
    requires walk.Fetched? && IsWalk(walk, key, codec) && AllResumable(walk.store, key, codec)
    ensures Fetches(walk) <= |walk.store| + if walk.got.hasNextPage then 0 else 1
  {
    var counted := if walk.got.hasNextPage then walk else walk.before;
    if counted.Fetched? {
      WalkProgress(counted, key, codec);
      DescendingCount(Nodes(counted), key);
      SubsetCard(Elems(Nodes(counted)), counted.store);
      SubsetCard(counted.store, walk.store);
    }
  }

  lemma SubsetCard<T>(a: set<T>, b: set<T>)
    requires a <= b
    ensures |a| <= |b|
  {
    assert b == a + (b - a);
  }

  // Nothing is added between the fetches.
  ghost predicate Fixed<T>(walk: Walk<T>, s: set<T>)
  {
    walk.Fetched? ==> walk.store == s && Fixed(walk.before, s)
  }

  lemma {:induction false} FixedFirst<T>(walk: Walk<T>, s: set<T>)
    requires walk.Fetched? && Fixed(walk, s)
    ensures FirstStore(walk) == s
  {
    if walk.before.Fetched? { FixedFirst(walk.before, s); }
  }

  /** On a fixed store a finished walk is the whole listing, for any page sizes, and as long as the count. */
  lemma WalkFixedStore<T>(s: set<T>, walk: Walk<T>, key: T -> Cursor, codec: Codec)
    requires walk.Fetched? && IsWalk(walk, key, codec) && AllResumable(s, key, codec)
    requires Fixed(walk, s) && !walk.got.hasNextPage
    ensures Apart(s, key)
    ensures Nodes(walk) == Listing(s, key) && |Nodes(walk)| == |s|
  {
    WalkProgress(walk, key, codec);
    FixedFirst(walk, s);
    ListingIsUnique(Nodes(walk), s, key);
  }

  lemma FetchSucceeds<T>(s: set<T>, key: T -> Cursor, codec: Codec, first: int, after: Option<string>)
    requires Apart(s, key) && AllResumable(s, key, codec) && NewPageInput(codec, first, after).Ok?
    ensures Fetch(s, key, codec, first, after).Ok?
  {
    var input := NewPageInput(codec, first, after).value;
    PageOfIsPage(s, key, input);
    var items := PageOf(s, key, input).items;
    forall i | 0 <= i < |items| ensures codec.marshal(key(items[i])).Some? {
      assert items[i] in Elems(items);
    }
  }

  // As long as there is more, the next fetch of any positive size succeeds and extends the walk.
  lemma WalkContinues<T>(walk: Walk<T>, key: T -> Cursor, codec: Codec, next: set<T>, first: int)
    requires walk.Fetched? && IsWalk(walk, key, codec) && walk.got.hasNextPage && first > 0
    requires walk.store <= next && Apart(next, key) && AllResumable(next, key, codec)
    ensures exists got :: IsWalk(Fetched(walk, next, first, got), key, codec)
  {
    WalkProgress(walk, key, codec);
    FetchSucceeds(next, key, codec, first, walk.got.endCursor);
    assert IsWalk(Fetched(walk, next, first, Fetch(next, key, codec, first, walk.got.endCursor).value), key, codec);
  }
}
