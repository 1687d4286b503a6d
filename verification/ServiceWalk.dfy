/** A client that follows end cursors through a comment list while the services run: the list it reads only grows, so
    the walk results apply to every run. */
module ServiceWalk {
  import opened Wrappers
  import opened Uuids
  import opened Domain
  import opened Keyset
  import opened CommentSets
  import opened PageWalk
  import opened FieldOrder
  import I = Interleaving

  // The library round trip, for the cursors of the comments of a list.
  ghost predicate CodecWorks(codec: Codec, list: set<Comment>)
  {
    forall c :: c in list ==> codec.RoundTrips(CommentCursor(c))
  }

  // The list under id as stored in a state of the run.
  ghost function ListAt(s: I.Sys, part: Comment -> Option<Uuid>, id: Uuid): set<Comment>
  {
    Members(s.comments, part, id)
  }

  /** Every fetch of the walk read the list under id in some state of the run, none earlier than the fetch before it,
      and sent that fetch's end cursor; the last one read it no later than in state n. */
  ghost predicate WalksThrough(
    walk: Walk<Comment>, states: seq<I.Sys>, n: nat, part: Comment -> Option<Uuid>, id: Uuid, codec: Codec)
    decreases walk, 1
  {
    walk.Fetched? ==> exists m :: FetchedAt(walk, states, m, n, part, id, codec)
  }

  ghost predicate FetchedAt(
    walk: Walk<Comment>, states: seq<I.Sys>, m: nat, n: nat, part: Comment -> Option<Uuid>, id: Uuid, codec: Codec)
    requires walk.Fetched?
    decreases walk, 0
  {
    && m <= n < |states| && walk.store == ListAt(states[m], part, id) && Apart(walk.store, CommentCursor)
    && Fetch(walk.store, CommentCursor, codec, walk.first, Sent(walk.before)) == Ok(walk.got)
    && (walk.before.Fetched? ==> walk.before.got.hasNextPage)
    && WalksThrough(walk.before, states, m, part, id, codec)
  }

  // In every run a comment list only grows, its items have different cursors, and each can be resumed from.
  lemma ListsGrow(
    states: seq<I.Sys>, labels: seq<I.Label>, i: nat, j: nat, part: Comment -> Option<Uuid>, id: Uuid, codec: Codec)
    requires I.IsRun(states, labels) && i <= j < |states|
    ensures ListAt(states[i], part, id) <= ListAt(states[j], part, id)
    ensures Apart(ListAt(states[j], part, id), CommentCursor)
    ensures CodecWorks(codec, ListAt(states[j], part, id)) ==>
      AllResumable(ListAt(states[j], part, id), CommentCursor, codec)
  {
    I.StoredForGood(states, labels, i, j);
    I.RunInv(states, labels, j);
    MembersApart(states[j].comments, part, id);
    forall c | c in ListAt(states[j], part, id) ensures CommentCursor(c).createdAt != 0 && CommentCursor(c).id != "" {
      TextNotEmpty(c.id);
    }
  }

  lemma {:induction false} ThroughIsWalk(
    walk: Walk<Comment>, states: seq<I.Sys>, labels: seq<I.Label>, n: nat, part: Comment -> Option<Uuid>, id: Uuid,
    codec: Codec)
    requires I.IsRun(states, labels) && n < |states| && WalksThrough(walk, states, n, part, id, codec)
    requires CodecWorks(codec, ListAt(states[n], part, id))
    ensures IsWalk(walk, CommentCursor, codec)
    ensures walk.Fetched? ==>
      walk.store <= ListAt(states[n], part, id) && AllResumable(walk.store, CommentCursor, codec)
  {
    if walk.Fetched? {
      var m :| FetchedAt(walk, states, m, n, part, id, codec);
      ListsGrow(states, labels, m, m, part, id, codec);
      ListsGrow(states, labels, m, n, part, id, codec);
      ThroughIsWalk(walk.before, states, labels, m, part, id, codec);
    }
  }

  /** Whatever the other calls do meanwhile, a client that follows end cursors through the comments of a post, or the
      replies to a comment, gets them newest first and none twice; when there is no next page it has seen every comment
      that was stored when it began, and it never needs more fetches than there are comments in the list, plus one. */
  lemma WalkDuringRun(
    walk: Walk<Comment>, states: seq<I.Sys>, labels: seq<I.Label>, n: nat, part: Comment -> Option<Uuid>, id: Uuid,
    codec: Codec)
    requires I.IsRun(states, labels) && n < |states| && CodecWorks(codec, ListAt(states[n], part, id))
    requires walk.Fetched? && WalksThrough(walk, states, n, part, id, codec)
    ensures Descending(Nodes(walk), CommentCursor) && CommentsInOrder(Nodes(walk))
    ensures Elems(Nodes(walk)) <= ListAt(states[n], part, id)
    ensures !walk.got.hasNextPage ==> FirstStore(walk) <= Elems(Nodes(walk))
    ensures Fetches(walk) <= |ListAt(states[n], part, id)| + 1
  {
    ThroughIsWalk(walk, states, labels, n, part, id, codec);
    WalkWhileInserting(walk, CommentCursor, codec);
    WalkTerminates(walk, CommentCursor, codec);
    CommentsDescend(Nodes(walk));
    SubsetCard(walk.store, ListAt(states[n], part, id));
  }
}
