/** When the two backends agree: on every canonical cursor, and on no cursor whose text cuts the ids elsewhere than the
    bytes that PostgreSQL reads from it. */
module Agreement {
  import opened Wrappers
  import opened Uuids
  import opened Domain
  import opened Keyset
  import opened CommentSets
  import opened PostgresStorage

  // Both backends give the same page, whatever is stored and whichever list is asked for.
  ghost predicate Agree(parse: string -> Option<Uuid>, page: PageInput)
    requires page.first >= 0 && BoundOf(parse, page.after).Some?
  {
    forall table: Comments, part: Comment -> Option<Uuid>, id: Uuid :: Keyed(table) ==>
      MemberPage(table, part, id, page) == MemberPage(table, part, id, AsRead(parse, page))
  }

  // Text and bytes divide the ids at the same place: what CutsAt comes to, id by id.
  ghost predicate SameCut(text: string, u: Uuid)
  {
    forall c: Uuid :: StrLess(Text(c), text) <==> BytesLess(c.bytes, u.bytes)
  }

  lemma SameCutAgrees(
    parse: string -> Option<Uuid>, page: PageInput, table: Comments, part: Comment -> Option<Uuid>, id: Uuid)
    requires page.first >= 0 && BoundOf(parse, page.after).Some? && Keyed(table)
    requires page.after.Some? ==> SameCut(page.after.value.id, BoundOf(parse, page.after).value.value.id)
    ensures MemberPage(table, part, id, page) == MemberPage(table, part, id, AsRead(parse, page))
  {
    var read := AsRead(parse, page);
    forall c: Comment ensures After(CommentCursor(c), page.after) <==> After(CommentCursor(c), read.after) {
      SameBound(BoundOf(parse, page.after).value, c);
    }
    assert Matching(Members(table, part, id), CommentCursor, page.after)
        == Matching(Members(table, part, id), CommentCursor, read.after);
  }

  function Row(c: Uuid, createdAt: Time): Comment { Comment(c, c, None, c, "body", createdAt) }

  // A table with one comment: its page shows it, or nothing.
  lemma OneRowPage(row: Comment, page: PageInput)
    requires page.first > 0 && row.parentID == None
    ensures Keyed(map[row.id := row])
    ensures |MemberPage(map[row.id := row], PostOf, row.postID, page).items|
         == if After(CommentCursor(row), page.after) then 1 else 0
  {
    var table: Comments := map[row.id := row];
    var all := Members(table, PostOf, row.postID);
    assert all == {row} by { assert table[row.id] == row; }
    MembersApart(table, PostOf, row.postID);
    OneOrNone(all, row, page.after);
    PageOfIsPage(all, CommentCursor, page);
  }

  lemma OneOrNone(all: set<Comment>, row: Comment, after: Option<Cursor>)
    requires all == {row}
    ensures |Matching(all, CommentCursor, after)| == if After(CommentCursor(row), after) then 1 else 0
  {
    assert Matching(all, CommentCursor, after) == if After(CommentCursor(row), after) then {row} else {};
  }

  // One comment, as old as the cursor, which the two backends place on different sides of it.
  lemma OneRowDiffers(parse: string -> Option<Uuid>, page: PageInput, c: Uuid)
    requires page.first > 0 && page.after.Some? && BoundOf(parse, page.after).Some?
    requires StrLess(Text(c), page.after.value.id)
       != BytesLess(c.bytes, BoundOf(parse, page.after).value.value.id.bytes)
    ensures !Agree(parse, page)
  {
    var row := Row(c, page.after.value.createdAt);
    SameBound(BoundOf(parse, page.after).value, row);
    OneRowPage(row, page);
    OneRowPage(row, AsRead(parse, page));
    var table: Comments := map[c := row];
    assert MemberPage(table, PostOf, c, page) != MemberPage(table, PostOf, c, AsRead(parse, page));
  }

  // The sixteen bytes just before, read as one number; NIL has none before it.
  function Before(bytes: seq<Byte>): (r: seq<Byte>)
    requires exists i :: 0 <= i < |bytes| && bytes[i] != 0
    ensures |r| == |bytes|
  {
    var n := |bytes| - 1;
    if bytes[n] > 0 then bytes[..n] + [bytes[n] - 1] else Before(bytes[..n]) + [255]
  }

  lemma LastByte(a: seq<Byte>, b: seq<Byte>)
    requires |a| == |b| > 0
    ensures var n := |a| - 1;
      BytesLess(a, b) <==> BytesLess(a[..n], b[..n]) || (a[..n] == b[..n] && a[n] < b[n])
  {
    var n := |a| - 1;
    BytesLessSplit(a, b, n);
    assert a[n..] == [a[n]] && b[n..] == [b[n]];
  }

  // Nothing lies between the two.
  lemma {:induction false} BeforeIsNext(c: seq<Byte>, u: seq<Byte>)
    requires |c| == |u| && exists i :: 0 <= i < |u| && u[i] != 0
    ensures BytesLess(c, u) <==> c == Before(u) || BytesLess(c, Before(u))
  {
    var n, b := |u| - 1, Before(u);
    LastByte(c, u);
    LastByte(c, b);
    assert c == c[..n] + [c[n]] && b == b[..n] + [b[n]];
    if u[n] == 0 {
      assert b[..n] == Before(u[..n]);
      BeforeIsNext(c[..n], u[..n]);
    } else {
      assert b[..n] == u[..n];
    }
  }

  lemma NilHasNoOther(u: Uuid)
    requires u != NIL
    ensures exists i :: 0 <= i < |u.bytes| && u.bytes[i] != 0
  {
    assert u.bytes != NIL.bytes;
    var i :| 0 <= i < |u.bytes| && u.bytes[i] != NIL.bytes[i];
  }

  function Predecessor(u: Uuid): Uuid
    requires u != NIL
  {
    NilHasNoOther(u);
    RawUuid(Before(u.bytes))
  }

  /** Checked on the text alone: it is not above the canonical text of the id read from it, but above that of the id
      just before. */
  predicate CutsAt(text: string, u: Uuid)
  {
    !StrLess(Text(u), text) && (u == NIL || StrLess(Text(Predecessor(u)), text))
  }

  lemma CutsAtIff(text: string, u: Uuid)
    ensures SameCut(text, u) <==> CutsAt(text, u)
  {
    BytesLessIrreflexive(u.bytes);
    if u != NIL {
      NilHasNoOther(u);
      BeforeIsNext(Predecessor(u).bytes, u.bytes);
    }
    if CutsAt(text, u) {
      forall c: Uuid ensures StrLess(Text(c), text) <==> BytesLess(c.bytes, u.bytes) {
        OneIdCut(text, u, c);
      }
    }
  }

  lemma OneIdCut(text: string, u: Uuid, c: Uuid)
    requires CutsAt(text, u)
    ensures StrLess(Text(c), text) <==> BytesLess(c.bytes, u.bytes)
  {
    NothingBelowNil(c);
    if BytesLess(c.bytes, u.bytes) { BelowIsBelow(text, u, c); } else { AboveIsAbove(text, u, c); }
  }

  lemma NothingBelowNil(c: Uuid)
    ensures !BytesLess(c.bytes, NIL.bytes)
  {
    NothingBelowZeros(c.bytes, NIL.bytes);
  }

  lemma {:induction false} NothingBelowZeros(c: seq<Byte>, zeros: seq<Byte>)
    requires |c| == |zeros| && forall i :: 0 <= i < |zeros| ==> zeros[i] == 0
    ensures !BytesLess(c, zeros)
  {
    if c != [] { NothingBelowZeros(c[1..], zeros[1..]); }
  }

  lemma BelowIsBelow(text: string, u: Uuid, c: Uuid)
    requires CutsAt(text, u) && u != NIL && BytesLess(c.bytes, u.bytes)
    ensures StrLess(Text(c), text)
  {
    var p := Predecessor(u);
    NilHasNoOther(u);
    BeforeIsNext(c.bytes, u.bytes);
    TextOrderIsByteOrder(c, p);
    if c != p { StrLessTransitive(Text(c), Text(p), text); }
  }

  lemma AboveIsAbove(text: string, u: Uuid, c: Uuid)
    requires CutsAt(text, u) && !BytesLess(c.bytes, u.bytes)
    ensures !StrLess(Text(c), text)
  {
    TextOrderIsByteOrder(c, u);
    StrLessTotal(Text(c), Text(u));
    if StrLess(Text(c), text) && Text(c) != Text(u) { StrLessTransitive(Text(u), Text(c), text); }
  }

  /** The backends agree exactly when there is no cursor, or its text lies above the text of the id just before the one
      that PostgreSQL reads from it, and not above the text of that id itself. */
  lemma AgreeIff(parse: string -> Option<Uuid>, page: PageInput)
    requires page.first > 0 && BoundOf(parse, page.after).Some?
    ensures Agree(parse, page) <==>
      (page.after.Some? ==> CutsAt(page.after.value.id, BoundOf(parse, page.after).value.value.id))
  {
    if page.after.Some? { CutsAtIff(page.after.value.id, BoundOf(parse, page.after).value.value.id); }
    AgreeIffSameCut(parse, page);
  }

  lemma AgreeIffSameCut(parse: string -> Option<Uuid>, page: PageInput)
    requires page.first > 0 && BoundOf(parse, page.after).Some?
    ensures Agree(parse, page) <==>
      (page.after.Some? ==> SameCut(page.after.value.id, BoundOf(parse, page.after).value.value.id))
  {
    if page.after.Some? && !SameCut(page.after.value.id, BoundOf(parse, page.after).value.value.id) {
      var text, u := page.after.value.id, BoundOf(parse, page.after).value.value.id;
      var c: Uuid :| !(StrLess(Text(c), text) <==> BytesLess(c.bytes, u.bytes));
      OneRowDiffers(parse, page, c);
    } else {
      forall table: Comments, part: Comment -> Option<Uuid>, id: Uuid | Keyed(table)
        ensures MemberPage(table, part, id, page) == MemberPage(table, part, id, AsRead(parse, page))
      {
        SameCutAgrees(parse, page, table, part, id);
      }
    }
  }

  // So they agree on every cursor that the service hands out.
  lemma CanonicalAgrees(parse: string -> Option<Uuid>, page: PageInput)
    requires page.first >= 0 && ReadsCanonical(parse) && Canonical(page.after)
    ensures BoundOf(parse, page.after).Some? && Agree(parse, page)
  {
    CanonicalIsReadAsItStands(parse, page);
  }

  const AA: Uuid := RawUuid([0xAA, 0, 0, 0, 0, 0, 0, 0, 0, 0, 0, 0, 0, 0, 0, 0])
  const AB: Uuid := RawUuid([0xAB, 0, 0, 0, 0, 0, 0, 0, 0, 0, 0, 0, 0, 0, 0, 0])

  // An input on which they do not: the id in capitals, which PostgreSQL reads as the same bytes.
  lemma CapitalsDiffer(parse: string -> Option<Uuid>, page: PageInput)
    requires page.first > 0 && page.after.Some? && page.after.value.id == "AB000000-0000-0000-0000-000000000000"
    requires parse("AB000000-0000-0000-0000-000000000000") == Some(AB)
    ensures !Agree(parse, page)
  {
    assert Hex(AA.bytes[..4]) == ByteText(0xAA) + Hex(AA.bytes[..4][1..]);
    assert Text(AA)[0] == 'a';
    assert !StrLess(Text(AA), page.after.value.id);
    assert BytesLess(AA.bytes, AB.bytes);
    OneRowDiffers(parse, page, AA);
  }
}
