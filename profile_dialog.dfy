/**
 * The professional profile dialog: the aggregate rating it loads (a missing aggregate
 * row is the zero-review state), what the header and details show, when crypto
 * payment is offered, and the refresh after a review is written.
 */
module ProfileDialog {
  import opened Wrappers
  import opened Text
  import opened Backend
  import opened Directory

  /** The `professional_ratings` row: `average_rating` and `review_count`, each nullable. */
  datatype RatingRow = RatingRow(averageRating: Option<real>, reviewCount: Option<int>)

  /** What `.single()` on `professional_ratings` returns. */
  datatype RatingQuery = Found(row: RatingRow) | Failed(code: string)

  /** The dialog's `averageRating` and `reviewCount`. */
  datatype RatingState = RatingState(average: Option<real>, count: int)

  const ZeroReviews: RatingState := RatingState(None, 0)

  /** `loadRating`: "no rows" is the zero-review state; any other error is thrown and
      caught, so the state stays; a found row gives its average unless it is falsy
      (0 or null) and its count, null counting as 0. */
  function RatingAfterLoad(q: RatingQuery, before: RatingState): (s: RatingState)
    ensures q == Failed(NoRowsReturned) ==> s == ZeroReviews
    ensures q.Failed? && q.code != NoRowsReturned ==> s == before
    ensures q.Found? ==> (s.average.None? <==> q.row.averageRating.None? || q.row.averageRating.value == 0.0)
    ensures q.Found? && s.average.Some? ==> s.average == q.row.averageRating
    ensures q.Found? ==> s.count == q.row.reviewCount.GetOr(0)
  {
    match q
    case Failed(code) => if code == NoRowsReturned then ZeroReviews else before
    case Found(row) =>
      var avg := if row.averageRating.Some? && row.averageRating.value != 0.0 then row.averageRating else None;
      RatingState(avg, row.reviewCount.GetOr(0))
  }

  /** `averageRating !== null && reviewCount > 0`. */
  predicate ShowsStars(s: RatingState) {
    s.average.Some? && s.count > 0
  }

  /** `reviewCount === 1 ? 'review' : 'reviews'`. */
  function ReviewWord(count: int): (w: string)
    ensures w == "review" <==> count == 1
    ensures w != "review" ==> w == "reviews"
  {
    if count == 1 then "review" else "reviews"
  }

  /** A professional without an aggregate row shows no stars, and a null or zero
      aggregate shows none either. */
  lemma NoAggregateNoStars(before: RatingState, row: RatingRow)
    ensures !ShowsStars(RatingAfterLoad(Failed(NoRowsReturned), before))
    ensures row.averageRating.None? || row.averageRating == Some(0.0) || row.reviewCount.GetOr(0) <= 0 ==>
      !ShowsStars(RatingAfterLoad(Found(row), before))
    ensures row.averageRating.Some? && row.averageRating.value != 0.0 && row.reviewCount.GetOr(0) > 0 ==>
      ShowsStars(RatingAfterLoad(Found(row), before))
  {
  }

  /** `accepts_crypto && crypto_wallet_trc20`: the payment button and dialog appear. */
  predicate OffersCrypto(p: Professional) {
    p.acceptsCrypto == Some(true) && Filled(p.cryptoWalletTrc20)
  }

  /** The wallet handed to the payment dialog, exactly as stored. */
  function PaymentWallet(p: Professional): (w: string)
    requires OffersCrypto(p)
    ensures Some(w) == p.cryptoWalletTrc20 && w != []
  {
    p.cryptoWalletTrc20.value
  }

  /** The experience and rate lines test for null, not truthiness. */
  predicate ShowsExperience(p: Professional) {
    p.experienceYears.Some?
  }

  predicate ShowsRate(p: Professional) {
    p.hourlyRate.Some?
  }

  /** Zero years and a zero rate are still shown; only a missing value hides the line. */
  lemma ZeroDetailsShown(p: Professional)
    ensures ShowsExperience(p.(experienceYears := Some(0)))
    ensures ShowsRate(p.(hourlyRate := Some(0.0)))
    ensures !ShowsExperience(p.(experienceYears := None)) && !ShowsRate(p.(hourlyRate := None))
  {
  }

  /** The dialog's rating state and the key that remounts the reviews list. */
  class ProfileDialogState {
    const professional: Professional
    var averageRating: Option<real>
    var reviewCount: int
    var reviewsKey: nat

    constructor (professional: Professional)
      ensures this.professional == professional
      ensures averageRating == None && reviewCount == 0 && reviewsKey == 0
    {
      this.professional := professional;
      averageRating := None;
      reviewCount := 0;
      reviewsKey := 0;
    }

    function Rating(): RatingState
      reads this
    {
      RatingState(averageRating, reviewCount)
    }

    method LoadRating(q: RatingQuery)
      modifies this`averageRating, this`reviewCount
      ensures Rating() == RatingAfterLoad(q, old(Rating()))
    {
      var s := RatingAfterLoad(q, Rating());
      averageRating := s.average;
      reviewCount := s.count;
    }

    /** `handleReviewSubmitted`: reload the rating, and bump the key by exactly one so the
        reviews list loads again. */
    method HandleReviewSubmitted(q: RatingQuery)
      modifies this`averageRating, this`reviewCount, this`reviewsKey
      ensures Rating() == RatingAfterLoad(q, old(Rating()))
      ensures reviewsKey == old(reviewsKey) + 1
    {
      LoadRating(q);
      reviewsKey := reviewsKey + 1;
    }
  }
}
