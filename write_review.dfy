/**
 * The write/edit review dialog: the checks a submission passes in order (a rating, a
 * signed-in user, a client profile), the update-or-insert it then performs, how the
 * backend's answer becomes the outcome the user sees, and the reset that follows only
 * a successful write.
 */
module WriteReview {
  import opened Wrappers
  import opened Text
  import opened Backend
  import opened ReviewStore

  /** The `user_type` a profile needs to write reviews. */
  const ClientRole: string := "client"

  /** The `existingReview` prop: the review being edited. */
  datatype ExistingReview = ExistingReview(id: string, rating: int, comment: Option<string>)

  /** What a submission ends in, one tag per toast of the dialog. */
  datatype ReviewOutcome =
    | RatingRequired
    | LoginRequired
    | ClientsOnly
    | ReviewUpdated
    | ReviewSubmitted
    | AlreadyReviewed
    | SubmitFailed

  predicate Succeeded(o: ReviewOutcome) {
    o.ReviewUpdated? || o.ReviewSubmitted?
  }

  /** The store write a submission performs. */
  datatype ReviewWrite =
    | UpdateReview(reviewId: string, rating: int, comment: Option<string>)
    | InsertReview(professionalId: string, clientId: string, rating: int, comment: Option<string>)

  datatype Decision = Refuse(why: ReviewOutcome) | Write(write: ReviewWrite)

  /** `existingReview?.rating || 0`. */
  function InitialRating(existing: Option<ExistingReview>): (r: int)
    ensures existing.None? ==> r == 0
    ensures existing.Some? ==> r == existing.value.rating
  {
    if existing.Some? then existing.value.rating else 0
  }

  /** `existingReview?.comment || ''`. */
  function InitialComment(existing: Option<ExistingReview>): (r: string)
    ensures existing.None? ==> r == []
    ensures existing.Some? ==> r == OrEmpty(existing.value.comment)
  {
    if existing.Some? then OrEmpty(existing.value.comment) else []
  }

  /** The submit button: disabled while submitting and while no star is chosen. */
  predicate SubmitEnabled(submitting: bool, rating: int) {
    !submitting && rating != 0
  }

  /** The checks of `handleSubmit` in their order and the write they lead to. `role` is
      the `user_type` of the signed-in user's profile, None when it could not be read. */
  function Decide(rating: int, comment: string, session: Session, role: Option<string>,
                  existing: Option<ExistingReview>, professionalId: string): (d: Decision)
    ensures d.Write? <==> rating != 0 && session.SignedIn? && role == Some(ClientRole)
    ensures rating == 0 ==> d == Refuse(RatingRequired)
    ensures rating != 0 && session.Anonymous? ==> d == Refuse(LoginRequired)
    ensures rating != 0 && session.SignedIn? && role != Some(ClientRole) ==> d == Refuse(ClientsOnly)
    ensures d.Write? ==> d.write.rating == rating && d.write.comment == TrimOrNull(comment)
    ensures d.Write? ==> (d.write.UpdateReview? <==> existing.Some?)
    ensures d.Write? && existing.Some? ==> d.write.reviewId == existing.value.id
    ensures d.Write? && existing.None? ==>
      d.write.professionalId == professionalId && d.write.clientId == session.id
  {
    if rating == 0 then Refuse(RatingRequired)
    else if session.Anonymous? then Refuse(LoginRequired)
    else if role != Some(ClientRole) then Refuse(ClientsOnly)
    else if existing.Some? then Write(UpdateReview(existing.value.id, rating, TrimOrNull(comment)))
    else Write(InsertReview(professionalId, session.id, rating, TrimOrNull(comment)))
  }

  /** The row an insert stores; the backend gives it the id `newId`. */
  function RowOf(w: ReviewWrite, newId: string): ReviewRow
    requires w.InsertReview?
  {
    ReviewRow(newId, w.professionalId, w.clientId, w.rating, w.comment)
  }

  /** The backend's answer to the write: `transport` for an update, the unique constraint
      first for an insert. */
  function WriteAnswer(rows: seq<ReviewRow>, w: ReviewWrite, transport: Reply, newId: string): Reply {
    if w.InsertReview? then InsertAnswer(rows, RowOf(w, newId), transport) else transport
  }

  /** The table after the write was answered. */
  function AfterWrite(rows: seq<ReviewRow>, w: ReviewWrite, transport: Reply, newId: string): seq<ReviewRow> {
    match w
    case UpdateReview(id, rating, comment) =>
      if transport.Ok? then AfterUpdate(rows, id, rating, comment) else rows
    case InsertReview(_, _, _, _) =>
      AfterInsert(rows, RowOf(w, newId), WriteAnswer(rows, w, transport, newId))
  }

  /** The toast the answer leads to: unique_violation on an insert is its own outcome;
      any other error, and every error of an update, is the generic failure. */
  function OutcomeOf(w: ReviewWrite, answer: Reply): (o: ReviewOutcome)
    ensures Succeeded(o) <==> answer.Ok?
    ensures o == AlreadyReviewed <==> w.InsertReview? && answer == Err(UniqueViolation)
    ensures o == SubmitFailed <==> answer.Err? && !(w.InsertReview? && answer.code == UniqueViolation)
    ensures o == ReviewUpdated <==> w.UpdateReview? && answer.Ok?
  {
    match answer
    case Ok => if w.UpdateReview? then ReviewUpdated else ReviewSubmitted
    case Err(code) => if w.InsertReview? && code == UniqueViolation then AlreadyReviewed else SubmitFailed
  }

  /** Rating 0 is refused before anything else, and the button offers no submission. */
  lemma ZeroRatingNeverWrites(comment: string, session: Session, role: Option<string>,
                              existing: Option<ExistingReview>, professionalId: string, submitting: bool)
    ensures Decide(0, comment, session, role, existing, professionalId) == Refuse(RatingRequired)
    ensures !SubmitEnabled(submitting, 0)
  {
  }

  /** Reopening a review stored by this dialog and submitting without touching the text
      writes back the same comment. */
  lemma EditKeepsComment(e: ExistingReview)
    requires e.comment.None? || (e.comment.value != [] && Trim(e.comment.value) == e.comment.value)
    ensures TrimOrNull(InitialComment(Some(e))) == e.comment
  {
    if e.comment.Some? {
      assert InitialComment(Some(e)) == e.comment.value;
    } else {
      assert AllSpace([]);
    }
  }

  /** A client who already reviewed the professional is told so, and the table keeps its
      rows, whatever the transport would have answered. */
  lemma DuplicateReviewIsAlreadyReviewed(rows: seq<ReviewRow>, rating: int, comment: string, clientId: string,
                                         email: Option<string>, professionalId: string, transport: Reply, newId: string)
    requires rating != 0
    requires HasReviewed(rows, professionalId, clientId)
    ensures var d := Decide(rating, comment, SignedIn(clientId, email), Some(ClientRole), None, professionalId);
      d.Write?
      && OutcomeOf(d.write, WriteAnswer(rows, d.write, transport, newId)) == AlreadyReviewed
      && AfterWrite(rows, d.write, transport, newId) == rows
  {
  }

  /** Two submissions in a row by one client for one professional, the first rated 5 and
      answered Ok, the second rated 3: the second is AlreadyReviewed and the stored review
      of the pair keeps rating 5, the only review of the pair. */
  lemma RepeatedSubmission(rows: seq<ReviewRow>, clientId: string, email: Option<string>, professionalId: string,
                           first: string, second: string, transport: Reply, id1: string, id2: string)
    requires OneReviewPerPair(rows)
    requires !HasReviewed(rows, professionalId, clientId)
    ensures var s := SignedIn(clientId, email);
      var d1 := Decide(5, first, s, Some(ClientRole), None, professionalId);
      var rows1 := AfterWrite(rows, d1.write, Ok, id1);
      var d2 := Decide(3, second, s, Some(ClientRole), None, professionalId);
      && OutcomeOf(d1.write, WriteAnswer(rows, d1.write, Ok, id1)) == ReviewSubmitted
      && OutcomeOf(d2.write, WriteAnswer(rows1, d2.write, transport, id2)) == AlreadyReviewed
      && AfterWrite(rows1, d2.write, transport, id2) == rows1
      && OneReviewPerPair(rows1)
      && forall i :: 0 <= i < |rows1| && rows1[i].professionalId == professionalId && rows1[i].clientId == clientId
           ==> rows1[i].rating == 5
  {
    var s := SignedIn(clientId, email);
    var d1 := Decide(5, first, s, Some(ClientRole), None, professionalId);
    var row := RowOf(d1.write, id1);
    FirstReviewStored(rows, row, Ok);
    InsertKeepsUnique(rows, row, Ok);
    var rows1 := rows + [row];
    assert rows1[|rows|] == row;
    assert HasReviewed(rows1, professionalId, clientId);
  }

  /** The dialog's state. `open` stands for the parent's `open` prop as far as the dialog
      asks to close it; `callbacks` counts the calls of `onReviewSubmitted`. */
  class ReviewDialog {
    const professionalId: string
    const existing: Option<ExistingReview>
    var rating: int
    var comment: string
    var submitting: bool
    var open: bool
    var callbacks: nat

    constructor (professionalId: string, existing: Option<ExistingReview>)
      ensures this.professionalId == professionalId && this.existing == existing
      ensures rating == InitialRating(existing) && comment == InitialComment(existing)
      ensures !submitting && open && callbacks == 0
    {
      this.professionalId := professionalId;
      this.existing := existing;
      rating := InitialRating(existing);
      comment := InitialComment(existing);
      submitting := false;
      open := true;
      callbacks := 0;
    }

    /** A click on the interactive star row. */
    method SetRating(value: int)
      modifies this`rating
      ensures rating == value
    {
      rating := value;
    }

    method SetComment(text: string)
      modifies this`comment
      ensures comment == text
    {
      comment := text;
    }

    /** `handleSubmit`. `session`, `role` and `transport` are what the backend answers
        to `getUser`, to the profile query and to the write; `newId` is the id it gives
        an inserted row. */
    method HandleSubmit(session: Session, role: Option<string>, transport: Reply, newId: string, store: ReviewsTable)
      returns (outcome: ReviewOutcome)
      requires store.Valid()
      modifies this, store
      ensures store.Valid()
      ensures var d := Decide(old(rating), old(comment), session, role, existing, professionalId);
        && (d.Refuse? ==> outcome == d.why && store.rows == old(store.rows))
        && (d.Write? ==> outcome == OutcomeOf(d.write, WriteAnswer(old(store.rows), d.write, transport, newId))
                         && store.rows == AfterWrite(old(store.rows), d.write, transport, newId))
      ensures Succeeded(outcome) ==> rating == 0 && comment == [] && !open && callbacks == old(callbacks) + 1
      ensures !Succeeded(outcome) ==>
        rating == old(rating) && comment == old(comment) && open == old(open) && callbacks == old(callbacks)
      ensures submitting == (outcome == RatingRequired && old(submitting))
    {
      var d := Decide(rating, comment, session, role, existing, professionalId);
      if d.Refuse? {
        outcome := d.why;
        if outcome != RatingRequired {
          // the later refusals return inside the `try`, whose `finally` clears the flag
          submitting := false;
        }
        return;
      }
      submitting := true;
      var w := d.write;
      var answer: Reply;
      if w.UpdateReview? {
        store.Update(w.reviewId, w.rating, w.comment, transport);
        answer := transport;
      } else {
        answer := store.Insert(RowOf(w, newId), transport);
      }
      outcome := OutcomeOf(w, answer);
      if Succeeded(outcome) {
        rating := 0;
        comment := [];
        open := false;
        callbacks := callbacks + 1;
      }
      submitting := false;
    }
  }
}
