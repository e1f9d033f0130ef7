/**
 * The list of a professional's reviews: who may edit or delete a review, how the author
 * is named, the confirmed delete and the reloads after a delete or an edit.
 */
module ReviewsList {
  import opened Wrappers
  import opened Text
  import opened Backend
  import opened ReviewStore

  /** The author's profile columns joined into each listed review. */
  datatype ClientName = ClientName(fullName: Option<string>, avatarUrl: Option<string>, companyName: Option<string>)

  const AnonymousClient: string := "Anonymous Client"
  const FallbackInitial: string := "C"

  /** The edit and delete controls of a review are shown to its author only. */
  function CanModify(currentUserId: Option<string>, review: ReviewRow): (r: bool)
    ensures r <==> currentUserId == Some(review.clientId)
    ensures currentUserId.None? ==> !r
  {
    currentUserId.Some? && currentUserId.value == review.clientId
  }

  /** `full_name || company_name || 'Anonymous Client'`. */
  function AuthorLabel(c: ClientName): (name: string)
    ensures name != []
    ensures Filled(c.fullName) ==> name == c.fullName.value
    ensures !Filled(c.fullName) && Filled(c.companyName) ==> name == c.companyName.value
    ensures !Filled(c.fullName) && !Filled(c.companyName) ==> name == AnonymousClient
  {
    if Filled(c.fullName) then c.fullName.value
    else if Filled(c.companyName) then c.companyName.value
    else AnonymousClient
  }

  /** `full_name?.charAt(0) || company_name?.charAt(0) || 'C'`: always one character. */
  function AvatarInitial(c: ClientName): (initial: string)
    ensures |initial| == 1
  {
    if Filled(c.fullName) then c.fullName.value[..1]
    else if Filled(c.companyName) then c.companyName.value[..1]
    else FallbackInitial
  }

  /** The initial is the label's first character whenever the author has a name; an
      author with neither name is labelled "Anonymous Client" but shown as "C". */
  lemma InitialOfLabel(c: ClientName)
    ensures Filled(c.fullName) || Filled(c.companyName) ==> AvatarInitial(c) == AuthorLabel(c)[..1]
    ensures !Filled(c.fullName) && !Filled(c.companyName) ==>
      AvatarInitial(c) == FallbackInitial && AuthorLabel(c) == AnonymousClient && AuthorLabel(c)[..1] != AvatarInitial(c)
  {
    if !Filled(c.fullName) && !Filled(c.companyName) {
      assert AnonymousClient[..1] == "A";
    }
  }

  datatype DeleteOutcome = Declined | Deleted | DeleteFailed

  /** The list's state; `reviews` is what the last successful load returned. */
  class ReviewsPanel {
    const professionalId: string
    var reviews: seq<ReviewRow>
    var loading: bool
    var currentUserId: Option<string>
    var editingReview: Option<ReviewRow>
    var editDialogOpen: bool

    constructor (professionalId: string)
      ensures this.professionalId == professionalId
      ensures reviews == [] && loading && currentUserId == None && editingReview == None && !editDialogOpen
    {
      this.professionalId := professionalId;
      reviews := [];
      loading := true;
      currentUserId := None;
      editingReview := None;
      editDialogOpen := false;
    }

    /** The empty state ("No reviews yet") shows once loading is over and nothing came. */
    predicate ShowsEmptyState()
      reads this
    {
      !loading && reviews == []
    }

    predicate ShowsControls(review: ReviewRow)
      reads this
    {
      CanModify(currentUserId, review)
    }

    /** `getCurrentUser`: `user?.id || null`. */
    method GetCurrentUser(session: Session)
      modifies this`currentUserId
      ensures currentUserId == if session.SignedIn? then NullIfEmpty(session.id) else None
      ensures session.Anonymous? ==> forall r :: !ShowsControls(r)
    {
      currentUserId := if session.SignedIn? then NullIfEmpty(session.id) else None;
    }

    /** `loadReviews`: the professional's reviews newest first, or the old list on error. */
    method LoadReviews(store: ReviewsTable, answer: Reply)
      modifies this`reviews, this`loading
      ensures reviews == if answer.Ok? then ReviewsFor(store.rows, professionalId) else old(reviews)
      ensures answer.Ok? ==> forall r :: r in reviews <==> r in store.rows && r.professionalId == professionalId
      ensures !loading
    {
      if answer.Ok? {
        reviews := ReviewsFor(store.rows, professionalId);
        ReviewsForMembers(store.rows, professionalId);
      }
      loading := false;
    }

    method HandleEdit(review: ReviewRow)
      modifies this`editingReview, this`editDialogOpen
      ensures editingReview == Some(review) && editDialogOpen
    {
      editingReview := Some(review);
      editDialogOpen := true;
    }

    /** `handleDelete`: nothing reaches the store unless the user confirms; a delete the
        backend accepts is followed by a reload answered with `reload`. */
    method HandleDelete(reviewId: string, confirmed: bool, answer: Reply, reload: Reply, store: ReviewsTable)
      returns (outcome: DeleteOutcome)
      requires store.Valid()
      modifies this`reviews, this`loading, store
      ensures store.Valid()
      ensures !confirmed ==> outcome == Declined && store.rows == old(store.rows) && reviews == old(reviews) && loading == old(loading)
      ensures confirmed && answer.Err? ==> outcome == DeleteFailed && store.rows == old(store.rows) && reviews == old(reviews) && loading == old(loading)
      ensures confirmed && answer.Ok? ==>
        outcome == Deleted && store.rows == AfterDelete(old(store.rows), reviewId) && !loading
        && reviews == (if reload.Ok? then ReviewsFor(store.rows, professionalId) else old(reviews))
      ensures confirmed && answer.Ok? && reload.Ok? ==> forall r :: r in reviews ==> r.id != reviewId
    {
      if !confirmed {
        return Declined;
      }
      store.Delete(reviewId, answer);
      if answer.Err? {
        return DeleteFailed;
      }
      outcome := Deleted;
      DeleteRemovesExactly(old(store.rows), reviewId);
      LoadReviews(store, reload);
    }

    /** The edit dialog's `onReviewSubmitted`: reload, and stop editing. */
    method EditSubmitted(store: ReviewsTable, reload: Reply)
      modifies this`reviews, this`loading, this`editingReview
      ensures editingReview == None && !loading
      ensures reviews == if reload.Ok? then ReviewsFor(store.rows, professionalId) else old(reviews)
    {
      LoadReviews(store, reload);
      editingReview := None;
    }
  }
}
