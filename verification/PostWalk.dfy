/** Walks whose items may change between fetches in a part that their cursors do not show. Seen without that part, such
    a walk is an ordinary one. */
module BlurredWalk {
  import opened Wrappers
  import opened Domain
  import opened Keyset
  import opened Connections
  import opened PageWalk

  // blur drops the part that may change; cursors do not show it.
  ghost predicate Blurs<T(!new)>(blur: T -> T, key: T -> Cursor) { forall x :: key(blur(x)) == key(x) }

  ghost function BlurSet<T>(s: set<T>, blur: T -> T): set<T> { set x | x in s :: blur(x) }

  function BlurSeq<T>(s: seq<T>, blur: T -> T): seq<T> { seq(|s|, i requires 0 <= i < |s| => blur(s[i])) }

  function BlurPage<T>(p: Page<T>, blur: T -> T): Page<T> { Page(BlurSeq(p.items, blur), p.hasNextPage) }

  function BlurEdge<T>(e: Edge<T>, blur: T -> T): Edge<T> { Edge(e.cursor, blur(e.node)) }

  function BlurConnection<T>(c: Connection<T>, blur: T -> T): Connection<T>
  {
    Connection(seq(|c.edges|, i requires 0 <= i < |c.edges| => BlurEdge(c.edges[i], blur)), c.hasNextPage, c.endCursor)
  }

  function BlurWalk<T>(walk: Walk<T>, blur: T -> T): Walk<T>
  {
    match walk
    case Start => Start
    case Fetched(before, store, first, got) =>
      Fetched(BlurWalk(before, blur), set x | x in store :: blur(x), first, BlurConnection(got, blur))
  }

  lemma BlurElems<T>(s: seq<T>, blur: T -> T)
    ensures Elems(BlurSeq(s, blur)) == BlurSet(Elems(s), blur)
  {
    var b := BlurSeq(s, blur);
    forall y | y in BlurSet(Elems(s), blur) ensures y in b {
      var x :| x in Elems(s) && y == blur(x);
      var i :| 0 <= i < |s| && s[i] == x;
      assert b[i] == y;
    }
  }

  lemma BlurApart<T(!new)>(s: set<T>, key: T -> Cursor, blur: T -> T)
    requires Apart(s, key) && Blurs(blur, key)
    ensures Apart(BlurSet(s, blur), key)
  {
  }

  lemma BlurMatching<T(!new)>(s: set<T>, key: T -> Cursor, blur: T -> T, after: Option<Cursor>)
    requires Blurs(blur, key)
    ensures Matching(BlurSet(s, blur), key, after) == BlurSet(Matching(s, key, after), blur)
  {
  }

  lemma BlurListing<T(!new)>(s: set<T>, key: T -> Cursor, blur: T -> T)
    requires Apart(s, key) && Blurs(blur, key)
    ensures Apart(BlurSet(s, blur), key) && Listing(BlurSet(s, blur), key) == BlurSeq(Listing(s, key), blur)
  {
    BlurApart(s, key, blur);
    BlurElems(Listing(s, key), blur);
    ListingIsUnique(BlurSeq(Listing(s, key), blur), BlurSet(s, blur), key);
  }

  // The page of the blurred items is the blurred page.
  lemma BlurPageOf<T(!new)>(s: set<T>, key: T -> Cursor, blur: T -> T, page: PageInput)
    requires Apart(s, key) && Blurs(blur, key) && page.first >= 0
    ensures Apart(BlurSet(s, blur), key) && PageOf(BlurSet(s, blur), key, page) == BlurPage(PageOf(s, key, page), blur)
  {
    var m := Matching(s, key, page.after);
    BlurApart(s, key, blur);
    BlurMatching(s, key, blur, page.after);
    BlurListing(m, key, blur);
    BlurCut(Listing(m, key), blur, page.first);
  }

  lemma BlurCut<T>(rows: seq<T>, blur: T -> T, first: int)
    requires first >= 0
    ensures Cut(BlurSeq(rows, blur), first) == BlurPage(Cut(rows, first), blur)
  {
    var n := Min(first, |rows|);
    assert BlurSeq(rows, blur)[..n] == BlurSeq(rows[..n], blur);
  }

  lemma BlurConnectionOf<T(!new)>(codec: Codec, key: T -> Cursor, p: Page<T>, blur: T -> T, got: Connection<T>)
    requires Blurs(blur, key) && ConnectionOf(codec, key, p) == Ok(got)
    ensures ConnectionOf(codec, key, BlurPage(p, blur)) == Ok(BlurConnection(got, blur))
  {
    var b := ConnectionOf(codec, key, BlurPage(p, blur)).value;
    assert b.edges == BlurConnection(got, blur).edges;
  }

  lemma BlurFetch<T(!new)>(
    s: set<T>, key: T -> Cursor, codec: Codec, first: int, after: Option<string>, got: Connection<T>, blur: T -> T)
    requires Apart(s, key) && Blurs(blur, key) && Fetch(s, key, codec, first, after) == Ok(got)
    ensures Apart(BlurSet(s, blur), key)
    ensures Fetch(BlurSet(s, blur), key, codec, first, after) == Ok(BlurConnection(got, blur))
  {
    BlurApart(s, key, blur);
    var page := NewPageInput(codec, first, after).value;
    BlurPageOf(s, key, blur, page);
    BlurConnectionOf(codec, key, PageOf(s, key, page), blur, got);
  }

  lemma {:induction false} BlurNodes<T>(walk: Walk<T>, blur: T -> T)
    ensures Nodes(BlurWalk(walk, blur)) == BlurSeq(Nodes(walk), blur) && Fetches(BlurWalk(walk, blur)) == Fetches(walk)
  {
    if walk.Fetched? {
      BlurNodes(walk.before, blur);
      assert NodesOf(BlurConnection(walk.got, blur)) == BlurSeq(NodesOf(walk.got), blur);
    }
  }

  lemma {:induction false} BlurFirstStore<T>(walk: Walk<T>, blur: T -> T)
    requires walk.Fetched?
    ensures BlurWalk(walk, blur).Fetched? && FirstStore(BlurWalk(walk, blur)) == BlurSet(FirstStore(walk), blur)
  {
    if walk.before.Fetched? { BlurFirstStore(walk.before, blur); }
  }
}

/** A client that follows end cursors through the posts while the services run. Flags may change meanwhile; order, no
    repeats and completeness hold all the same. */
module PostWalk {
  import opened Wrappers
  import opened Uuids
  import opened Domain
  import opened Keyset
  import opened Connections
  import opened PageWalk
  import opened BlurredWalk
  import opened FieldOrder
  import I = Interleaving

  // A post without its flag.
  function Plain(p: Post): Post { p.(commentsEnabled := false) }

  ghost function PostsAt(s: I.Sys): set<Post> { s.posts.Values }

  /** Every fetch of the walk read the posts in some state of the run, none earlier than the fetch before it, and sent
      that fetch's end cursor; the last one read them no later than in state n. */
  ghost predicate WalksThrough(walk: Walk<Post>, states: seq<I.Sys>, n: nat, codec: Codec)
    decreases walk, 1
  {
    walk.Fetched? ==> exists m :: FetchedAt(walk, states, m, n, codec)
  }

  ghost predicate FetchedAt(walk: Walk<Post>, states: seq<I.Sys>, m: nat, n: nat, codec: Codec)
    requires walk.Fetched?
    decreases walk, 0
  {
    && m <= n < |states| && walk.store == PostsAt(states[m]) && Apart(walk.store, PostCursor)
    && Fetch(walk.store, PostCursor, codec, walk.first, Sent(walk.before)) == Ok(walk.got)
    && (walk.before.Fetched? ==> walk.before.got.hasNextPage)
    && WalksThrough(walk.before, states, m, codec)
  }

  ghost predicate CodecWorks(codec: Codec, posts: set<Post>)
  {
    forall p :: p in posts ==> codec.RoundTrips(PostCursor(p))
  }

  lemma PostsApart(s: I.Sys)
    requires I.StoreHolds(s)
    ensures Apart(PostsAt(s), PostCursor)
  {
    forall x, y | x in PostsAt(s) && y in PostsAt(s) && PostCursor(x) == PostCursor(y) ensures x == y {
      TextInjective(x.id, y.id);
      var i :| i in s.posts && s.posts[i] == x;
      var j :| j in s.posts && s.posts[j] == y;
    }
  }

  // Without their flags, the posts only grow.
  lemma PlainPostsGrow(states: seq<I.Sys>, labels: seq<I.Label>, i: nat, j: nat)
    requires I.IsRun(states, labels) && i <= j < |states|
    ensures BlurSet(PostsAt(states[i]), Plain) <= BlurSet(PostsAt(states[j]), Plain)
  {
    I.StoredForGood(states, labels, i, j);
    forall x | x in BlurSet(PostsAt(states[i]), Plain) ensures x in BlurSet(PostsAt(states[j]), Plain) {
      var p :| p in PostsAt(states[i]) && x == Plain(p);
      var id :| id in states[i].posts && states[i].posts[id] == p;
      assert Plain(states[j].posts[id]) == x;
    }
  }

  lemma PlainResumable(s: I.Sys, codec: Codec)
    requires I.StoreHolds(s) && CodecWorks(codec, PostsAt(s))
    ensures AllResumable(BlurSet(PostsAt(s), Plain), PostCursor, codec)
  {
    forall x | x in BlurSet(PostsAt(s), Plain) ensures Resumable(codec, PostCursor(x)) {
      var p :| p in PostsAt(s) && x == Plain(p);
      TextNotEmpty(p.id);
    }
  }

  // The walk without flags is one through a set that grows.
  lemma {:induction false} ThroughIsWalk(
    walk: Walk<Post>, states: seq<I.Sys>, labels: seq<I.Label>, n: nat, codec: Codec)
    requires I.IsRun(states, labels) && n < |states| && WalksThrough(walk, states, n, codec)
    ensures IsWalk(BlurWalk(walk, Plain), PostCursor, codec)
    ensures walk.Fetched? ==> BlurSet(walk.store, Plain) <= BlurSet(PostsAt(states[n]), Plain)
  {
    if walk.Fetched? {
      var m :| FetchedAt(walk, states, m, n, codec);
      PlainPostsGrow(states, labels, m, n);
      ThroughIsWalk(walk.before, states, labels, m, codec);
      BlurFetch(walk.store, PostCursor, codec, walk.first, Sent(walk.before), walk.got, Plain);
      assert Sent(BlurWalk(walk.before, Plain)) == Sent(walk.before);
    }
  }

  lemma PlainWalk(walk: Walk<Post>, states: seq<I.Sys>, labels: seq<I.Label>, n: nat, codec: Codec)
    requires I.IsRun(states, labels) && n < |states| && CodecWorks(codec, PostsAt(states[n]))
    requires walk.Fetched? && WalksThrough(walk, states, n, codec)
    ensures Descending(BlurSeq(Nodes(walk), Plain), PostCursor)
    ensures Elems(BlurSeq(Nodes(walk), Plain)) <= BlurSet(PostsAt(states[n]), Plain)
    ensures !walk.got.hasNextPage ==> BlurSet(FirstStore(walk), Plain) <= Elems(BlurSeq(Nodes(walk), Plain))
    ensures Fetches(walk) <= |BlurSet(PostsAt(states[n]), Plain)| + 1
  {
    var plain, now := BlurWalk(walk, Plain), BlurSet(PostsAt(states[n]), Plain);
    ThroughIsWalk(walk, states, labels, n, codec);
    I.RunInv(states, labels, n);
    PlainResumable(states[n], codec);
    BlurNodes(walk, Plain);
    BlurFirstStore(walk, Plain);
    WalkWhileInserting(plain, PostCursor, codec);
    WalkTerminates(plain, PostCursor, codec);
    SubsetCard(plain.store, now);
  }

  // Posts that are one post, but for the flag.
  ghost predicate Shows(nodes: seq<Post>, p: Post) { exists i :: 0 <= i < |nodes| && nodes[i].SameButFlag(p) }

  lemma PlainShows(nodes: seq<Post>, p: Post)
    requires Plain(p) in Elems(BlurSeq(nodes, Plain))
    ensures Shows(nodes, p)
  {
    var i :| 0 <= i < |nodes| && BlurSeq(nodes, Plain)[i] == Plain(p);
    assert Plain(nodes[i]) == Plain(p);
    assert Plain(nodes[i]).SameButFlag(nodes[i]) && Plain(p).SameButFlag(p);
  }

  lemma PlainIsStored(s: I.Sys, p: Post)
    requires I.StoreHolds(s) && Plain(p) in BlurSet(PostsAt(s), Plain)
    ensures p.id in s.posts && s.posts[p.id].SameButFlag(p)
  {
    var q :| q in PostsAt(s) && Plain(p) == Plain(q);
    var id :| id in s.posts && s.posts[id] == q;
  }

  lemma PlainCount(posts: set<Post>)
    ensures |BlurSet(posts, Plain)| <= |posts|
    decreases |posts|
  {
    if posts != {} {
      var p :| p in posts;
      PlainCount(posts - {p});
      SubsetCard(BlurSet(posts, Plain), BlurSet(posts - {p}, Plain) + {Plain(p)});
    }
  }

  /** Whatever the other calls do meanwhile, a client that follows end cursors through the posts gets them newest first
      and none twice, each as it is stored but for its flag; when there is no next page it has seen every post that was
      stored when it began; and it never needs more fetches than there are posts, plus one. */
  lemma WalkDuringRun(walk: Walk<Post>, states: seq<I.Sys>, labels: seq<I.Label>, n: nat, codec: Codec)
    requires I.IsRun(states, labels) && n < |states| && CodecWorks(codec, PostsAt(states[n]))
    requires walk.Fetched? && WalksThrough(walk, states, n, codec)
    ensures Descending(Nodes(walk), PostCursor) && PostsInOrder(Nodes(walk))
    ensures forall i :: 0 <= i < |Nodes(walk)| ==>
      Nodes(walk)[i].id in states[n].posts && states[n].posts[Nodes(walk)[i].id].SameButFlag(Nodes(walk)[i])
    ensures !walk.got.hasNextPage ==> forall p :: p in FirstStore(walk) ==> Shows(Nodes(walk), p)
    ensures Fetches(walk) <= |PostsAt(states[n])| + 1
  {
    PlainWalk(walk, states, labels, n, codec);
    PlainCount(PostsAt(states[n]));
    var nodes := Nodes(walk);
    BlurredDescending(nodes);
    PostsDescend(nodes);
    I.RunInv(states, labels, n);
    forall i | 0 <= i < |nodes|
      ensures nodes[i].id in states[n].posts && states[n].posts[nodes[i].id].SameButFlag(nodes[i])
    {
      assert BlurSeq(nodes, Plain)[i] in Elems(BlurSeq(nodes, Plain));
      PlainIsStored(states[n], nodes[i]);
    }
    if !walk.got.hasNextPage {
      forall p | p in FirstStore(walk) ensures Shows(nodes, p) {
        assert Plain(p) in BlurSet(FirstStore(walk), Plain);
        PlainShows(nodes, p);
      }
    }
  }

  lemma BlurredDescending(nodes: seq<Post>)
    requires Descending(BlurSeq(nodes, Plain), PostCursor)
    ensures Descending(nodes, PostCursor)
  {
    forall i, j | 0 <= i < j < |nodes| ensures Newer(PostCursor(nodes[i]), PostCursor(nodes[j])) {
      assert PostCursor(BlurSeq(nodes, Plain)[i]) == PostCursor(nodes[i]);
      assert PostCursor(BlurSeq(nodes, Plain)[j]) == PostCursor(nodes[j]);
    }
  }

  // In a run the posts have different cursors, so every fetch has a meaning.
  lemma PostsApartAt(states: seq<I.Sys>, labels: seq<I.Label>, n: nat)
    requires I.IsRun(states, labels) && n < |states|
    ensures Apart(PostsAt(states[n]), PostCursor)
  {
    I.RunInv(states, labels, n);
    PostsApart(states[n]);
  }
}
