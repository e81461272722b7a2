/**
 * Descriptions stored as `event_descriptions` rows. The logical description
 * of an (event, content type) pair is the concatenation of the `data` of that
 * pair's rows, ordered by `content_index`; rows with equal index keep their
 * table (id) order. Each row's `data` is bounded by EMAIL_DESCRIPTION_CHUNK_SIZE
 * bytes, measured here as the UTF-8 length of the text.
 */
module DescriptionChunks {
  import opened Wrappers
  import opened Schema
  import opened Records

  /** Bytes UTF-8 uses for one character. */
  function Utf8Width(c: char): nat {
    if c as int < 0x80 then 1
    else if c as int < 0x800 then 2
    else if c as int < 0x10000 then 3
    else 4
  }

  /** Encoded size of a text: at least one and at most four bytes per character. */
  function Utf8Length(s: string): (n: nat)
    ensures |s| <= n <= 4 * |s|
  {
    if s == [] then 0 else Utf8Width(s[0]) + Utf8Length(s[1..])
  }

  lemma {:induction false} Utf8LengthAppend(a: string, b: string)
    ensures Utf8Length(a + b) == Utf8Length(a) + Utf8Length(b)
  {
    if a == [] {
      assert a + b == b;
    } else {
      assert (a + b)[0] == a[0];
      assert (a + b)[1..] == a[1..] + b;
      Utf8LengthAppend(a[1..], b);
    }
  }

  /** The declared bound on one row's `data`. */
  predicate ChunkFits(data: string) {
    Utf8Length(data) <= EMAIL_DESCRIPTION_CHUNK_SIZE
  }

  /** A chunk that fits in bytes also fits the character length of the String(65000) column. */
  lemma ChunkFitsCharacters(data: string)
    requires ChunkFits(data)
    ensures |data| <= EMAIL_DESCRIPTION_CHUNK_SIZE
  {
  }

  predicate InPair(r: EventDescription, eventId: int, contentType: int) {
    r.eventId == Some(eventId) && r.contentType == contentType
  }

  /** The rows of one (event, content type) pair, in table order. */
  function PairChunks(rows: seq<EventDescription>, eventId: int, contentType: int): (s: seq<EventDescription>)
    ensures forall r :: multiset(s)[r] == (if InPair(r, eventId, contentType) then multiset(rows)[r] else 0)
    ensures |s| <= |rows|
  {
    if rows == [] then []
    else
      var init, last := rows[..|rows| - 1], rows[|rows| - 1];
      assert rows == init + [last];
      PairChunks(init, eventId, contentType) + (if InPair(last, eventId, contentType) then [last] else [])
  }

  lemma PairChunksMembers(rows: seq<EventDescription>, eventId: int, contentType: int, r: EventDescription)
    ensures r in PairChunks(rows, eventId, contentType) <==> r in rows && InPair(r, eventId, contentType)
  {
    assert r in PairChunks(rows, eventId, contentType) <==> multiset(PairChunks(rows, eventId, contentType))[r] > 0;
    assert r in rows <==> multiset(rows)[r] > 0;
  }

  predicate SortedByIndex(s: seq<EventDescription>) {
    forall i, j | 0 <= i < j < |s| :: s[i].contentIndex <= s[j].contentIndex
  }

  /** Places `x` after every row whose index is not greater than its own. */
  function InsertByIndex(x: EventDescription, s: seq<EventDescription>): (r: seq<EventDescription>)
    requires SortedByIndex(s)
    ensures SortedByIndex(r)
    ensures multiset(r) == multiset(s) + multiset{x}
    ensures forall y | y in r :: y == x || y in s
  {
    if s == [] then [x]
    else if x.contentIndex < s[0].contentIndex then [x] + s
    else
      var rest := InsertByIndex(x, s[1..]);
      assert s == [s[0]] + s[1..];
      assert multiset(s) == multiset{s[0]} + multiset(s[1..]);
      forall y | y in rest
        ensures s[0].contentIndex <= y.contentIndex
      {
        if y != x {
          var k :| 0 <= k < |s[1..]| && s[1..][k] == y;
          assert s[k + 1] == y;
        }
      }
      [s[0]] + rest
  }

  /** A stable sort by `content_index`. */
  function SortByIndex(s: seq<EventDescription>): (r: seq<EventDescription>)
    ensures SortedByIndex(r)
    ensures multiset(r) == multiset(s)
  {
    if s == [] then []
    else
      assert s == s[..|s| - 1] + [s[|s| - 1]];
      InsertByIndex(s[|s| - 1], SortByIndex(s[..|s| - 1]))
  }

  function Concat(s: seq<EventDescription>): string {
    if s == [] then "" else Concat(s[..|s| - 1]) + s[|s| - 1].data
  }

  /** The description text of one (event, content type) pair. */
  function LogicalDescription(rows: seq<EventDescription>, eventId: int, contentType: int): string {
    Concat(SortByIndex(PairChunks(rows, eventId, contentType)))
  }

  /** A pair with no rows has the empty description. */
  lemma NoChunksNoDescription(rows: seq<EventDescription>, eventId: int, contentType: int)
    requires forall r | r in rows :: !InPair(r, eventId, contentType)
    ensures LogicalDescription(rows, eventId, contentType) == ""
  {
    var p := PairChunks(rows, eventId, contentType);
    if p != [] {
      PairChunksMembers(rows, eventId, contentType, p[0]);
      assert false;
    }
  }

  lemma {:induction false} InsertAtEnd(x: EventDescription, s: seq<EventDescription>)
    requires SortedByIndex(s)
    requires forall y | y in s :: y.contentIndex <= x.contentIndex
    ensures InsertByIndex(x, s) == s + [x]
  {
    if s != [] {
      assert s[0] in s;
      InsertAtEnd(x, s[1..]);
      assert s == [s[0]] + s[1..];
    }
  }

  lemma PairChunksSnoc(rows: seq<EventDescription>, x: EventDescription, eventId: int, contentType: int)
    ensures PairChunks(rows + [x], eventId, contentType)
      == PairChunks(rows, eventId, contentType) + (if InPair(x, eventId, contentType) then [x] else [])
  {
    assert (rows + [x])[..|rows|] == rows;
  }

  lemma SortSnoc(p: seq<EventDescription>, x: EventDescription)
    ensures SortByIndex(p + [x]) == InsertByIndex(x, SortByIndex(p))
  {
    assert (p + [x])[..|p|] == p;
  }

  lemma ConcatSnoc(s: seq<EventDescription>, x: EventDescription)
    ensures Concat(s + [x]) == Concat(s) + x.data
  {
    assert (s + [x])[..|s|] == s;
  }

  /**
   * Appending a row of the pair whose index is not below any of the pair's
   * indices extends the pair's description by that row's data.
   */
  lemma AppendChunk(rows: seq<EventDescription>, x: EventDescription, eventId: int, contentType: int)
    requires InPair(x, eventId, contentType)
    requires forall r | r in rows && InPair(r, eventId, contentType) :: r.contentIndex <= x.contentIndex
    ensures LogicalDescription(rows + [x], eventId, contentType)
      == LogicalDescription(rows, eventId, contentType) + x.data
  {
    var p := PairChunks(rows, eventId, contentType);
    PairChunksSnoc(rows, x, eventId, contentType);
    SortSnoc(p, x);
    var sorted := SortByIndex(p);
    forall y | y in sorted
      ensures y.contentIndex <= x.contentIndex
    {
      SortedPairMember(rows, eventId, contentType, y);
    }
    InsertAtEnd(x, sorted);
    ConcatSnoc(sorted, x);
  }

  /** Appending a row of another pair leaves the pair's description as it was. */
  lemma AppendOtherChunk(rows: seq<EventDescription>, x: EventDescription, eventId: int, contentType: int)
    requires !InPair(x, eventId, contentType)
    ensures LogicalDescription(rows + [x], eventId, contentType) == LogicalDescription(rows, eventId, contentType)
  {
    PairChunksSnoc(rows, x, eventId, contentType);
    assert PairChunks(rows, eventId, contentType) + [] == PairChunks(rows, eventId, contentType);
  }

  /** Within the pair, a row's index determines the row. */
  predicate IndexIdentifiesChunk(rows: seq<EventDescription>, eventId: int, contentType: int) {
    forall x, y | x in rows && y in rows && InPair(x, eventId, contentType) && InPair(y, eventId, contentType)
      && x.contentIndex == y.contentIndex :: x == y
  }

  /** No two of the rows share an index. */
  predicate IndexKeyed(a: seq<EventDescription>) {
    forall x, y | x in a && y in a && x.contentIndex == y.contentIndex :: x == y
  }

  lemma IndexKeyedTail(a: seq<EventDescription>)
    requires IndexKeyed(a) && a != []
    ensures IndexKeyed(a[1..])
  {
    assert forall x | x in a[1..] :: x in a;
  }

  lemma SortedTail(a: seq<EventDescription>)
    requires SortedByIndex(a) && a != []
    ensures SortedByIndex(a[1..])
  {
    forall i, j | 0 <= i < j < |a[1..]|
      ensures a[1..][i].contentIndex <= a[1..][j].contentIndex
    {
      assert a[1..][i] == a[i + 1] && a[1..][j] == a[j + 1];
    }
  }

  /** Sorted orderings of the same rows start with the same row when index keys identify rows. */
  lemma SortedHeads(a: seq<EventDescription>, b: seq<EventDescription>)
    requires SortedByIndex(a) && SortedByIndex(b)
    requires multiset(a) == multiset(b)
    requires IndexKeyed(a)
    requires a != []
    ensures b != [] && a[0] == b[0]
  {
    assert a[0] in multiset(b);
    var j :| 0 <= j < |b| && b[j] == a[0];
    assert b[0] in multiset(a);
    var i :| 0 <= i < |a| && a[i] == b[0];
    assert a[0].contentIndex <= a[i].contentIndex;
    assert b[0].contentIndex <= b[j].contentIndex;
  }

  lemma MultisetTails<T>(a: seq<T>, b: seq<T>)
    requires multiset(a) == multiset(b) && a != [] && b != [] && a[0] == b[0]
    ensures multiset(a[1..]) == multiset(b[1..])
  {
    assert a == [a[0]] + a[1..] && b == [b[0]] + b[1..];
    assert multiset(a[1..]) == multiset(a) - multiset{a[0]};
    assert multiset(b[1..]) == multiset(b) - multiset{b[0]};
  }

  /** Two sorted orderings of the same rows, index keys identifying rows, are the same sequence. */
  lemma {:induction false} SortedUnique(a: seq<EventDescription>, b: seq<EventDescription>)
    requires SortedByIndex(a) && SortedByIndex(b)
    requires multiset(a) == multiset(b)
    requires IndexKeyed(a)
    ensures a == b
  {
    if a == [] {
      assert |b| == |multiset(b)| == 0;
    } else {
      SortedHeads(a, b);
      MultisetTails(a, b);
      SortedTail(a);
      SortedTail(b);
      IndexKeyedTail(a);
      SortedUnique(a[1..], b[1..]);
      forall i | 0 <= i < |a|
        ensures a[i] == b[i]
      {
        if i > 0 {
          assert a[i] == a[1..][i - 1] && b[i] == b[1..][i - 1];
        }
      }
    }
  }

  /** A row of the sorted pair is a stored row of the pair. */
  lemma SortedPairMember(rows: seq<EventDescription>, eventId: int, contentType: int, x: EventDescription)
    requires x in SortByIndex(PairChunks(rows, eventId, contentType))
    ensures x in rows && InPair(x, eventId, contentType)
  {
    var p := PairChunks(rows, eventId, contentType);
    assert multiset(SortByIndex(p))[x] > 0;
    assert x in multiset(p);
    PairChunksMembers(rows, eventId, contentType, x);
  }

  /**
   * The description does not depend on the order in which the rows are
   * stored or fetched, as long as an index names at most one row of the pair.
   */
  lemma OrderIndependent(rows1: seq<EventDescription>, rows2: seq<EventDescription>, eventId: int, contentType: int)
    requires multiset(rows1) == multiset(rows2)
    requires IndexIdentifiesChunk(rows1, eventId, contentType)
    ensures LogicalDescription(rows1, eventId, contentType) == LogicalDescription(rows2, eventId, contentType)
  {
    var p1, p2 := PairChunks(rows1, eventId, contentType), PairChunks(rows2, eventId, contentType);
    assert p1 == PairChunks(rows1, eventId, contentType);
    forall r ensures multiset(p1)[r] == multiset(p2)[r] {}
    assert multiset(p1) == multiset(p2);
    var s1, s2 := SortByIndex(p1), SortByIndex(p2);
    forall x, y | x in s1 && y in s1 && x.contentIndex == y.contentIndex
      ensures x == y
    {
      SortedPairMember(rows1, eventId, contentType, x);
      SortedPairMember(rows1, eventId, contentType, y);
    }
    assert IndexKeyed(s1);
    SortedUnique(s1, s2);
  }

  lemma {:induction false} ConcatBound(s: seq<EventDescription>)
    requires forall r | r in s :: ChunkFits(r.data)
    ensures Utf8Length(Concat(s)) <= EMAIL_DESCRIPTION_CHUNK_SIZE * |s|
  {
    if s != [] {
      var init := s[..|s| - 1];
      assert forall r | r in init :: r in s;
      ConcatBound(init);
      Utf8LengthAppend(Concat(init), s[|s| - 1].data);
    }
  }

  /** A description occupies at most EMAIL_DESCRIPTION_CHUNK_SIZE bytes per row of its pair. */
  lemma DescriptionSizeBound(rows: seq<EventDescription>, eventId: int, contentType: int)
    requires forall r | r in rows :: ChunkFits(r.data)
    ensures Utf8Length(LogicalDescription(rows, eventId, contentType))
      <= EMAIL_DESCRIPTION_CHUNK_SIZE * |PairChunks(rows, eventId, contentType)|
  {
    var p := PairChunks(rows, eventId, contentType);
    var sorted := SortByIndex(p);
    forall r | r in sorted
      ensures ChunkFits(r.data)
    {
      assert multiset(sorted)[r] > 0;
      PairChunksMembers(rows, eventId, contentType, r);
    }
    assert |sorted| == |multiset(sorted)| == |multiset(p)| == |p|;
    ConcatBound(sorted);
  }
}
