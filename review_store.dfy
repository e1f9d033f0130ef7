/**
 * The `reviews` table as the review components use it: rows keyed by id, at most one
 * review per (professional_id, client_id) pair, inserts of a second review for a pair
 * answered with PostgreSQL's unique_violation, and the per-professional listing the
 * reviews list fetches (newest first).
 */
module ReviewStore {
  import opened Wrappers
  import opened Backend
  import opened Seqs

  /** One row of `reviews`. `created_at` is not kept: rows are in insertion order. */
  datatype ReviewRow = ReviewRow(
    id: string,
    professionalId: string,
    clientId: string,
    rating: int,
    comment: Option<string>)

  predicate SamePair(a: ReviewRow, b: ReviewRow) {
    a.professionalId == b.professionalId && a.clientId == b.clientId
  }

  /** Some row of the table is `clientId`'s review of `professionalId`. */
  predicate HasReviewed(rows: seq<ReviewRow>, professionalId: string, clientId: string) {
    exists i :: 0 <= i < |rows| && rows[i].professionalId == professionalId && rows[i].clientId == clientId
  }

  /** The table's unique constraint on (professional_id, client_id). */
  predicate OneReviewPerPair(rows: seq<ReviewRow>) {
    forall i, j :: 0 <= i < j < |rows| ==> !SamePair(rows[i], rows[j])
  }

  /** `row` shares its pair with no row of `rows`. */
  predicate PairIsNew(row: ReviewRow, rows: seq<ReviewRow>) {
    forall k :: 0 <= k < |rows| ==> !SamePair(row, rows[k])
  }

  /** What the backend answers to inserting `row`: the unique constraint wins; otherwise
      the answer of the transport and the other checks, `transport`. */
  function InsertAnswer(rows: seq<ReviewRow>, row: ReviewRow, transport: Reply): Reply {
    if HasReviewed(rows, row.professionalId, row.clientId) then Err(UniqueViolation) else transport
  }

  function AfterInsert(rows: seq<ReviewRow>, row: ReviewRow, answer: Reply): seq<ReviewRow> {
    if answer.Ok? then rows + [row] else rows
  }

  /** `update({rating, comment}).eq('id', id)`. */
  function AfterUpdate(rows: seq<ReviewRow>, id: string, rating: int, comment: Option<string>): (r: seq<ReviewRow>)
    ensures |r| == |rows|
    ensures forall i :: 0 <= i < |rows| ==>
      r[i].id == rows[i].id && SamePair(r[i], rows[i])
      && (rows[i].id == id ==> r[i].rating == rating && r[i].comment == comment)
      && (rows[i].id != id ==> r[i] == rows[i])
  {
    seq(|rows|, i requires 0 <= i < |rows| =>
      if rows[i].id == id then rows[i].(rating := rating, comment := comment) else rows[i])
  }

  /** `delete().eq('id', id)`. */
  function AfterDelete(rows: seq<ReviewRow>, id: string): seq<ReviewRow> {
    Filter(rows, (r: ReviewRow) => r.id != id)
  }

  /** `select(*).eq('professional_id', professionalId).order('created_at', descending)`. */
  function ReviewsFor(rows: seq<ReviewRow>, professionalId: string): seq<ReviewRow> {
    Reverse(Filter(rows, (r: ReviewRow) => r.professionalId == professionalId))
  }

  // ---------------------------------------------------------------------------
  // The unique constraint

  lemma UniqueCons(h: ReviewRow, t: seq<ReviewRow>)
    ensures OneReviewPerPair([h] + t) <==> PairIsNew(h, t) && OneReviewPerPair(t)
  {
    var s := [h] + t;
    if PairIsNew(h, t) && OneReviewPerPair(t) {
      forall i, j | 0 <= i < j < |s| ensures !SamePair(s[i], s[j]) {
        if i > 0 {
          assert s[i] == t[i - 1] && s[j] == t[j - 1];
        } else {
          assert s[j] == t[j - 1];
        }
      }
    }
    if OneReviewPerPair(s) {
      forall k | 0 <= k < |t| ensures !SamePair(h, t[k]) {
        assert s[0] == h && s[k + 1] == t[k];
      }
      forall i, j | 0 <= i < j < |t| ensures !SamePair(t[i], t[j]) {
        assert s[i + 1] == t[i] && s[j + 1] == t[j];
      }
    }
  }

  /** An insert answered by the backend never breaks the constraint. */
  lemma InsertKeepsUnique(rows: seq<ReviewRow>, row: ReviewRow, transport: Reply)
    requires OneReviewPerPair(rows)
    ensures OneReviewPerPair(AfterInsert(rows, row, InsertAnswer(rows, row, transport)))
  {
    if !HasReviewed(rows, row.professionalId, row.clientId) && transport.Ok? {
      var s := rows + [row];
      forall i, j | 0 <= i < j < |s| ensures !SamePair(s[i], s[j]) {
        if j == |rows| {
          assert !(rows[i].professionalId == row.professionalId && rows[i].clientId == row.clientId);
        }
      }
    }
  }

  /** A second review of the same professional by the same client is refused with
      unique_violation, whatever else the backend would have answered, and the table
      keeps the first one. */
  lemma SecondReviewRefused(rows: seq<ReviewRow>, row: ReviewRow, transport: Reply)
    requires HasReviewed(rows, row.professionalId, row.clientId)
    ensures InsertAnswer(rows, row, transport) == Err(UniqueViolation)
    ensures AfterInsert(rows, row, InsertAnswer(rows, row, transport)) == rows
  {
  }

  /** A first review of a pair is stored exactly when the transport answers Ok. */
  lemma FirstReviewStored(rows: seq<ReviewRow>, row: ReviewRow, transport: Reply)
    requires !HasReviewed(rows, row.professionalId, row.clientId)
    ensures InsertAnswer(rows, row, transport) == transport
    ensures transport.Ok? ==> AfterInsert(rows, row, transport) == rows + [row]
    ensures HasReviewed(AfterInsert(rows, row, transport), row.professionalId, row.clientId) <==> transport.Ok?
  {
    if transport.Ok? {
      var s := rows + [row];
      assert s[|rows|] == row;
    }
  }

  /** Editing a review changes no pair, so the constraint still holds. */
  lemma UpdateKeepsUnique(rows: seq<ReviewRow>, id: string, rating: int, comment: Option<string>)
    requires OneReviewPerPair(rows)
    ensures OneReviewPerPair(AfterUpdate(rows, id, rating, comment))
  {
    var r := AfterUpdate(rows, id, rating, comment);
    forall i, j | 0 <= i < j < |r| ensures !SamePair(r[i], r[j]) {
      assert SamePair(r[i], rows[i]) && SamePair(r[j], rows[j]);
    }
  }

  /** Deleting rows never breaks the constraint. */
  lemma {:induction false} DeleteKeepsUnique(rows: seq<ReviewRow>, id: string)
    requires OneReviewPerPair(rows)
    ensures OneReviewPerPair(AfterDelete(rows, id))
    decreases |rows|
  {
    if rows != [] {
      var h, t := rows[0], rows[1..];
      assert rows == [h] + t;
      UniqueCons(h, t);
      DeleteKeepsUnique(t, id);
      var rest := AfterDelete(t, id);
      if h.id != id {
        assert AfterDelete(rows, id) == [h] + rest;
        forall k | 0 <= k < |rest| ensures !SamePair(h, rest[k]) {
          assert rest[k] in t;
        }
        UniqueCons(h, rest);
      } else {
        assert AfterDelete(rows, id) == rest;
      }
    }
  }

  /** After a delete no row carries the deleted id, and every other row is kept. */
  lemma DeleteRemovesExactly(rows: seq<ReviewRow>, id: string)
    ensures forall r :: r in AfterDelete(rows, id) <==> r in rows && r.id != id
  {
  }

  // ---------------------------------------------------------------------------
  // The listing

  /** The listing holds exactly the professional's reviews. */
  lemma ReviewsForMembers(rows: seq<ReviewRow>, professionalId: string)
    ensures forall r :: r in ReviewsFor(rows, professionalId) <==> r in rows && r.professionalId == professionalId
  {
    ReverseMembers(Filter(rows, (r: ReviewRow) => r.professionalId == professionalId));
  }

  /** Newest first: a review just stored for the professional heads their listing, and a
      review of someone else leaves it as it was. */
  lemma ReviewsForNewestFirst(rows: seq<ReviewRow>, r: ReviewRow, professionalId: string)
    ensures r.professionalId == professionalId ==> ReviewsFor(rows + [r], professionalId) == [r] + ReviewsFor(rows, professionalId)
    ensures r.professionalId != professionalId ==> ReviewsFor(rows + [r], professionalId) == ReviewsFor(rows, professionalId)
  {
    var keep := (x: ReviewRow) => x.professionalId == professionalId;
    FilterAppend(rows, r, keep);
    if keep(r) {
      ReverseAppend(Filter(rows, keep), r);
    } else {
      assert Filter(rows, keep) + [] == Filter(rows, keep);
    }
  }

  /** The table of reviews, its constraint kept as the class invariant. */
  class ReviewsTable {
    var rows: seq<ReviewRow>

    ghost predicate Valid()
      reads this
    {
      OneReviewPerPair(rows)
    }

    constructor ()
      ensures rows == [] && Valid()
    {
      rows := [];
    }

    /** `insert(row)`; `transport` is what the backend answers when the pair is new. */
    method Insert(row: ReviewRow, transport: Reply) returns (answer: Reply)
      requires Valid()
      modifies this
      ensures answer == InsertAnswer(old(rows), row, transport)
      ensures rows == AfterInsert(old(rows), row, answer)
      ensures Valid()
    {
      InsertKeepsUnique(rows, row, transport);
      answer := InsertAnswer(rows, row, transport);
      if answer.Ok? {
        rows := rows + [row];
      }
    }

    method Update(id: string, rating: int, comment: Option<string>, answer: Reply)
      requires Valid()
      modifies this
      ensures rows == if answer.Ok? then AfterUpdate(old(rows), id, rating, comment) else old(rows)
      ensures Valid()
    {
      if answer.Ok? {
        UpdateKeepsUnique(rows, id, rating, comment);
        rows := AfterUpdate(rows, id, rating, comment);
      }
    }

    method Delete(id: string, answer: Reply)
      requires Valid()
      modifies this
      ensures rows == if answer.Ok? then AfterDelete(old(rows), id) else old(rows)
      ensures Valid()
    {
      if answer.Ok? {
        DeleteKeepsUnique(rows, id);
        rows := AfterDelete(rows, id);
      }
    }
  }
}
