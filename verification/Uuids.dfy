/** UUID values and their canonical text.
    The memory backend orders ids by their text, PostgreSQL by their sixteen bytes;
    TextOrderIsByteOrder shows that both orders are the same. */
module Uuids {

  type Byte = x: int | 0 <= x < 256

  datatype RawUuid = RawUuid(bytes: seq<Byte>)

  type Uuid = u: RawUuid | |u.bytes| == 16 witness RawUuid([0, 0, 0, 0, 0, 0, 0, 0, 0, 0, 0, 0, 0, 0, 0, 0])

  const NIL: Uuid := RawUuid([0, 0, 0, 0, 0, 0, 0, 0, 0, 0, 0, 0, 0, 0, 0, 0])

  // The sixteen digits of section 4 of RFC 9562, in lower case.
  function HexDigit(d: int): char
    requires 0 <= d < 16
  {
    if d < 10 then '0' + d as char else 'a' + (d - 10) as char
  }

  function Hex(bytes: seq<Byte>): string
  {
    if bytes == [] then "" else ByteText(bytes[0]) + Hex(bytes[1..])
  }

  function ByteText(c: Byte): string { [HexDigit(c / 16), HexDigit(c % 16)] }

  // The bytes written in groups of the given sizes, the rest as the last group, with hyphens between.
  function Grouped(bytes: seq<Byte>, sizes: seq<nat>): string
    requires Sum(sizes) <= |bytes|
  {
    if sizes == [] then Hex(bytes)
    else Hex(bytes[..sizes[0]]) + ("-" + Grouped(bytes[sizes[0]..], sizes[1..]))
  }

  function Sum(sizes: seq<nat>): nat { if sizes == [] then 0 else sizes[0] + Sum(sizes[1..]) }

  // The canonical form: 8-4-4-4-12 hexadecimal digits.
  function Text(u: Uuid): string
  {
    assert Sum([4, 2, 2, 2]) == 10 by {
      assert [4, 2, 2, 2][1..] == [2, 2, 2] && [2, 2, 2][1..] == [2, 2] && [2, 2][1..] == [2]; }
    Grouped(u.bytes, [4, 2, 2, 2])
  }

  // Go's < on strings.
  predicate StrLess(a: string, b: string)
  {
    b != [] && (a == [] || a[0] < b[0] || (a[0] == b[0] && StrLess(a[1..], b[1..])))
  }

  // PostgreSQL's < on uuid: the bytes from left to right.
  predicate BytesLess(a: seq<Byte>, b: seq<Byte>)
  {
    b != [] && (a == [] || a[0] < b[0] || (a[0] == b[0] && BytesLess(a[1..], b[1..])))
  }

  // The first difference decides: a ends there, or has the smaller element.
  ghost predicate LessAt<T>(a: seq<T>, b: seq<T>, n: nat, less: (T, T) -> bool)
  {
    n <= |a| && n < |b| && a[..n] == b[..n] && (n == |a| || less(a[n], b[n]))
  }

  lemma LessAtTail<T>(a: seq<T>, b: seq<T>, n: nat, less: (T, T) -> bool)
    requires a != [] && b != [] && a[0] == b[0] && !less(a[0], b[0])
    ensures LessAt(a, b, n, less) ==> n > 0 && LessAt(a[1..], b[1..], n - 1, less)
    ensures LessAt(a[1..], b[1..], n, less) ==> LessAt(a, b, n + 1, less)
  {
    if LessAt(a, b, n, less) {
      assert a[1..][..n - 1] == a[..n][1..] && b[1..][..n - 1] == b[..n][1..];
    }
    if LessAt(a[1..], b[1..], n, less) {
      assert a[..n + 1] == [a[0]] + a[1..][..n] && b[..n + 1] == [b[0]] + b[1..][..n];
    }
  }

  lemma FirstAgrees<T>(a: seq<T>, b: seq<T>, n: nat, less: (T, T) -> bool)
    requires LessAt(a, b, n, less) && a != []
    ensures n == 0 || a[0] == b[0]
  {
    if n > 0 { assert a[..n][0] == b[..n][0]; }
  }

  predicate CharLess(x: char, y: char) { x < y }

  predicate ByteLess(x: Byte, y: Byte) { x < y }

  /** StrLess is the lexicographic order of the characters. */
  lemma {:induction false} StrLessMeaning(a: string, b: string)
    ensures StrLess(a, b) <==> exists n :: LessAt(a, b, n, CharLess)
  {
    if b != [] && (a == [] || a[0] < b[0]) {
      assert LessAt(a, b, 0, CharLess);
    } else if b != [] && a[0] == b[0] {
      StrLessMeaning(a[1..], b[1..]);
      if StrLess(a, b) {
        var n :| LessAt(a[1..], b[1..], n, CharLess);
        LessAtTail(a, b, n, CharLess);
      }
      forall n: nat | LessAt(a, b, n, CharLess) ensures StrLess(a, b) {
        LessAtTail(a, b, n, CharLess);
      }
    } else if b != [] {
      forall n: nat | LessAt(a, b, n, CharLess) ensures n == 0 || a[0] == b[0] {
        FirstAgrees(a, b, n, CharLess);
      }
    }
  }

  /** BytesLess is the lexicographic order of the bytes. */
  lemma {:induction false} BytesLessMeaning(a: seq<Byte>, b: seq<Byte>)
    ensures BytesLess(a, b) <==> exists n :: LessAt(a, b, n, ByteLess)
  {
    if b != [] && (a == [] || a[0] < b[0]) {
      assert LessAt(a, b, 0, ByteLess);
    } else if b != [] && a[0] == b[0] {
      BytesLessMeaning(a[1..], b[1..]);
      if BytesLess(a, b) {
        var n :| LessAt(a[1..], b[1..], n, ByteLess);
        LessAtTail(a, b, n, ByteLess);
      }
      forall n: nat | LessAt(a, b, n, ByteLess) ensures BytesLess(a, b) {
        LessAtTail(a, b, n, ByteLess);
      }
    } else if b != [] {
      forall n: nat | LessAt(a, b, n, ByteLess) ensures n == 0 || a[0] == b[0] {
        FirstAgrees(a, b, n, ByteLess);
      }
    }
  }

  lemma {:induction false} StrLessIrreflexive(a: string)
    ensures !StrLess(a, a)
  {
    if a != [] { StrLessIrreflexive(a[1..]); }
  }

  lemma {:induction false} StrLessTransitive(a: string, b: string, c: string)
    requires StrLess(a, b) && StrLess(b, c)
    ensures StrLess(a, c)
  {
    if a != [] && a[0] == b[0] == c[0] { StrLessTransitive(a[1..], b[1..], c[1..]); }
  }

  lemma {:induction false} StrLessTotal(a: string, b: string)
    ensures a == b || StrLess(a, b) || StrLess(b, a)
  {
    if a != [] && b != [] && a[0] == b[0] {
      StrLessTotal(a[1..], b[1..]);
      assert a == [a[0]] + a[1..] && b == [b[0]] + b[1..];
    }
  }

  lemma {:induction false} BytesLessTotal(a: seq<Byte>, b: seq<Byte>)
    ensures a == b || BytesLess(a, b) || BytesLess(b, a)
  {
    if a != [] && b != [] && a[0] == b[0] {
      BytesLessTotal(a[1..], b[1..]);
      assert a == [a[0]] + a[1..] && b == [b[0]] + b[1..];
    }
  }

  lemma {:induction false} BytesLessSplit(a: seq<Byte>, b: seq<Byte>, n: nat)
    requires |a| == |b| && n <= |a|
    ensures BytesLess(a, b) <==> BytesLess(a[..n], b[..n]) || (a[..n] == b[..n] && BytesLess(a[n..], b[n..]))
  {
    if n > 0 {
      assert a[..n][1..] == a[1..][..n - 1] && b[..n][1..] == b[1..][..n - 1];
      assert a[n..] == a[1..][n - 1..] && b[n..] == b[1..][n - 1..];
      assert a[..n] == [a[0]] + a[..n][1..] && b[..n] == [b[0]] + b[..n][1..];
      BytesLessSplit(a[1..], b[1..], n - 1);
    } else {
      assert a[n..] == a && b[n..] == b;
    }
  }

  lemma HexDigitOrder(c: int, d: int)
    requires 0 <= c < 16 && 0 <= d < 16
    ensures HexDigit(c) < HexDigit(d) <==> c < d
    ensures HexDigit(c) == HexDigit(d) <==> c == d
  {
  }

  // Two digits per byte keep the byte order, whatever text follows.
  lemma {:induction false} HexOrder(a: seq<Byte>, b: seq<Byte>, s: string, t: string)
    requires |a| == |b|
    ensures StrLess(Hex(a) + s, Hex(b) + t) <==> BytesLess(a, b) || (a == b && StrLess(s, t))
  {
    if a == [] {
      assert Hex(a) + s == s && Hex(b) + t == t;
    } else {
      HexOrder(a[1..], b[1..], s, t);
      var x, y := Hex(a[1..]) + s, Hex(b[1..]) + t;
      ByteOrder(a[0], b[0], x, y);
      assert Hex(a) + s == ByteText(a[0]) + x && Hex(b) + t == ByteText(b[0]) + y;
      assert a == [a[0]] + a[1..] && b == [b[0]] + b[1..];
    }
  }

  lemma ByteOrder(c: Byte, d: Byte, x: string, y: string)
    ensures StrLess(ByteText(c) + x, ByteText(d) + y) <==> c < d || (c == d && StrLess(x, y))
  {
    HexDigitOrder(c / 16, d / 16);
    HexDigitOrder(c % 16, d % 16);
    var p, q := ByteText(c) + x, ByteText(d) + y;
    assert p[1..][1..] == x && q[1..][1..] == y;
    assert StrLess(p[1..], q[1..]) <==> p[1] < q[1] || (p[1] == q[1] && StrLess(x, y));
  }

  lemma HyphenOrder(s: string, t: string)
    ensures StrLess("-" + s, "-" + t) <==> StrLess(s, t)
  {
    assert ("-" + s)[1..] == s && ("-" + t)[1..] == t;
  }

  lemma {:induction false} GroupedOrder(a: seq<Byte>, b: seq<Byte>, sizes: seq<nat>)
    requires |a| == |b| && Sum(sizes) <= |a|
    ensures StrLess(Grouped(a, sizes), Grouped(b, sizes)) <==> BytesLess(a, b)
  {
    if sizes == [] {
      HexOrder(a, b, "", "");
      assert Hex(a) + "" == Hex(a) && Hex(b) + "" == Hex(b);
    } else {
      var n := sizes[0];
      var s, t := Grouped(a[n..], sizes[1..]), Grouped(b[n..], sizes[1..]);
      HexOrder(a[..n], b[..n], "-" + s, "-" + t);
      HyphenOrder(s, t);
      GroupedOrder(a[n..], b[n..], sizes[1..]);
      BytesLessSplit(a, b, n);
    }
  }

  lemma TextOrderIsByteOrder(u: Uuid, v: Uuid)
    ensures StrLess(Text(u), Text(v)) <==> BytesLess(u.bytes, v.bytes)
  {
    GroupedOrder(u.bytes, v.bytes, [4, 2, 2, 2]);
  }

  lemma TextInjective(u: Uuid, v: Uuid)
    requires Text(u) == Text(v)
    ensures u == v
  {
    BytesLessTotal(u.bytes, v.bytes);
    TextOrderIsByteOrder(u, v);
    TextOrderIsByteOrder(v, u);
    StrLessIrreflexive(Text(u));
  }

  lemma TextNotEmpty(u: Uuid)
    ensures Text(u) != ""
  {
    assert Hex(u.bytes[..4]) != "";
  }

  const DIGITS := "0123456789abcdef"

  lemma {:induction false} HexAt(bytes: seq<Byte>, k: nat)
    requires k < |bytes|
    ensures |Hex(bytes)| == 2 * |bytes|
    ensures Hex(bytes)[2 * k] == DIGITS[bytes[k] / 16] && Hex(bytes)[2 * k + 1] == DIGITS[bytes[k] % 16]
  {
    var first, rest := ByteText(bytes[0]), Hex(bytes[1..]);
    assert Hex(bytes) == first + rest;
    if k > 0 {
      HexAt(bytes[1..], k - 1);
    } else if |bytes| > 1 {
      HexAt(bytes[1..], 0);
    } else {
      assert bytes[1..] == [];
    }
  }

  lemma TextIsFiveGroups(u: Uuid)
    ensures Text(u) ==
      Hex(u.bytes[..4]) + ("-" + (Hex(u.bytes[4..6]) + ("-" + (Hex(u.bytes[6..8]) + ("-" + (Hex(u.bytes[8..10])
      + ("-" + Hex(u.bytes[10..]))))))))
  {
    var b := u.bytes;
    assert [4, 2, 2, 2][1..] == [2, 2, 2] && [2, 2, 2][1..] == [2, 2] && [2, 2][1..] == [2] && [2][1..] == [];
    assert b[4..][..2] == b[4..6] && b[4..][2..] == b[6..];
    assert b[6..][..2] == b[6..8] && b[6..][2..] == b[8..];
    assert b[8..][..2] == b[8..10] && b[8..][2..] == b[10..];
    assert Grouped(b[8..], [2]) == Hex(b[8..10]) + ("-" + Grouped(b[10..], []));
    assert Grouped(b[6..], [2, 2]) == Hex(b[6..8]) + ("-" + Grouped(b[8..], [2]));
    assert Grouped(b[4..], [2, 2, 2]) == Hex(b[4..6]) + ("-" + Grouped(b[6..], [2, 2]));
    assert Grouped(b, [4, 2, 2, 2]) == Hex(b[..4]) + ("-" + Grouped(b[4..], [2, 2, 2]));
  }

  // Where the two digits of byte k start.
  function DigitsAt(k: nat): nat
  {
    2 * k + if k < 4 then 0 else if k < 6 then 1 else if k < 8 then 2 else if k < 10 then 3 else 4
  }

  lemma GroupLength(u: Uuid, from: nat, to: nat)
    requires from < to <= 16
    ensures |Hex(u.bytes[from..to])| == 2 * (to - from)
  {
    HexAt(u.bytes[from..to], 0);
  }

  lemma TextLength(u: Uuid)
    ensures |Hex(u.bytes[..4])| == 8 && |Hex(u.bytes[4..6])| == |Hex(u.bytes[6..8])| == |Hex(u.bytes[8..10])| == 4
    ensures |Hex(u.bytes[10..])| == 12 && |Text(u)| == 36
    ensures Text(u)[8] == Text(u)[13] == Text(u)[18] == Text(u)[23] == '-'
  {
    TextIsFiveGroups(u);
    HexAt(u.bytes[..4], 0);
    GroupLength(u, 4, 6);
    GroupLength(u, 6, 8);
    GroupLength(u, 8, 10);
    HexAt(u.bytes[10..], 0);
  }

  /** The canonical form of section 4 of RFC 9562: 36 characters, hyphens after 8, 12, 16 and 20 digits, and every byte
      as two lower-case hexadecimal digits in its place. */
  lemma TextForm(u: Uuid, k: nat)
    requires k < 16
    ensures |Text(u)| == 36 && Text(u)[8] == Text(u)[13] == Text(u)[18] == Text(u)[23] == '-'
    ensures Text(u)[DigitsAt(k)] == DIGITS[u.bytes[k] / 16] && Text(u)[DigitsAt(k) + 1] == DIGITS[u.bytes[k] % 16]
  {
    TextLength(u);
    TextSlices(u);
    if k < 4 { DigitsIn(u, k, Text(u), 0, 0, 4); }
    else if k < 6 { DigitsIn(u, k, Text(u), 9, 4, 6); }
    else if k < 8 { DigitsIn(u, k, Text(u), 14, 6, 8); }
    else if k < 10 { DigitsIn(u, k, Text(u), 19, 8, 10); }
    else { DigitsIn(u, k, Text(u), 24, 10, 16); }
  }

  lemma TextSlices(u: Uuid)
    ensures |Text(u)| == 36
    ensures Text(u)[0..8] == Hex(u.bytes[0..4]) && Text(u)[9..13] == Hex(u.bytes[4..6])
    ensures Text(u)[14..18] == Hex(u.bytes[6..8]) && Text(u)[19..23] == Hex(u.bytes[8..10])
    ensures Text(u)[24..36] == Hex(u.bytes[10..16])
  {
    TextLength(u);
    TextIsFiveGroups(u);
    assert u.bytes[0..4] == u.bytes[..4] && u.bytes[10..16] == u.bytes[10..];
  }

  // The digits of byte k, from the group of bytes from..to that starts at a place of the text.
  lemma DigitsIn(u: Uuid, k: nat, text: string, start: nat, from: nat, to: nat)
    requires from <= k < to <= 16 && start + 2 * (to - from) <= |text|
    requires text[start..start + 2 * (to - from)] == Hex(u.bytes[from..to])
    ensures text[start + 2 * (k - from)] == DIGITS[u.bytes[k] / 16]
    ensures text[start + 2 * (k - from) + 1] == DIGITS[u.bytes[k] % 16]
  {
    HexAt(u.bytes[from..to], k - from);
    var slice := text[start..start + 2 * (to - from)];
    assert slice[2 * (k - from)] == text[start + 2 * (k - from)];
    assert slice[2 * (k - from) + 1] == text[start + 2 * (k - from) + 1];
  }
}
