/** The reviews screen, src/pages/ReviewsPage.jsx: the list call with its
    type select, the search and the star filter applied together on the
    loaded page, the star row, the header counts, the sentiment shown in the
    details dialog, and the delete from the row and from the dialog. */
module ReviewsPage {
  import opened Common
  import opened Entities
  import opened Config
  import opened Urls
  import opened ListPages
  import opened ReviewService

  const PageSize: nat := 20

  /** The star select: every rating, or exactly `n` stars. The options are
      "all" and the digits 1 to 5, which `parseInt` reads as that digit. */
  datatype RatingFilter = AllRatings | Stars(n: int)

  datatype Query = Query(searchTerm: string, typeFilter: string, ratingFilter: RatingFilter, currentPage: nat)

  /** `typeFilter !== 'all' ? typeFilter : null`, passed as the list call's
      third argument. */
  function TypeArg(typeFilter: string): (a: Arg)
    ensures a == Null <==> typeFilter == "all"
    ensures a != Null ==> a == Str(typeFilter)
  {
    if typeFilter != "all" then Str(typeFilter) else Null
  }

  /** `fetchReviews()`'s request. */
  function ListCall(c: Config, token: Option<string>, q: Query): Request {
    GetAllReviews(c, token, Some(q.currentPage), Some(PageSize), TypeArg(q.typeFilter), Null)
  }

  /** The list call asks for the current page and twenty rows. The service's
      third parameter is the restaurant id, so a chosen review type
      ("restaurant" or "delivery") goes out as `restaurantId`, and no
      delivery-person id is ever sent. */
  lemma ListCallQuery(c: Config, token: Option<string>, q: Query)
    requires SafeRoot(c.baseUrl) && SafeValue(q.typeFilter)
    ensures ParseUrl(ListCall(c, token, q).url) == ParsedUrl(Root(c) + "/" + "reviews",
              [("page", Dec(q.currentPage)), ("size", Dec(PageSize))]
              + (if q.typeFilter != "all" && q.typeFilter != "" then [("restaurantId", q.typeFilter)] else []))
  {
    GetAllReviewsQuery(c, token, Some(q.currentPage), Some(PageSize), TypeArg(q.typeFilter), Null);
  }

  // ---------------------------------------------------------------------------
  // Search and star filter

  /** User name, comment, restaurant or delivery person contains the term; a
      missing field never matches. */
  predicate MatchesText(term: string, r: Review) {
    || MatchesOptional(r.userName, term) || MatchesOptional(r.comment, term)
    || MatchesOptional(r.restaurantName, term) || MatchesOptional(r.deliveryPersonName, term)
  }

  predicate MatchesRating(f: RatingFilter, r: Review) {
    f.AllRatings? || r.rating == f.n
  }

  predicate MatchesBoth(term: string, f: RatingFilter, r: Review) {
    MatchesText(term, r) && MatchesRating(f, r)
  }

  /** `filteredReviews`: both conditions in one pass. */
  function Visible(reviews: seq<Review>, term: string, f: RatingFilter): (r: seq<Review>)
    ensures IsSubsequence(r, reviews)
    ensures forall i :: 0 <= i < |r| ==> MatchesText(term, r[i]) && MatchesRating(f, r[i])
    ensures forall i :: 0 <= i < |reviews| && MatchesText(term, reviews[i]) && MatchesRating(f, reviews[i]) ==>
              reviews[i] in r
    ensures forall x :: multiset(r)[x] == if MatchesText(term, x) && MatchesRating(f, x) then multiset(reviews)[x] else 0
  {
    FilterCounts(reviews, x => MatchesBoth(term, f, x));
    Filter(reviews, x => MatchesBoth(term, f, x))
  }

  /** The single pass is the same as applying the star filter and then the
      search, or the other way round. */
  lemma VisibleIsTwoFilters(reviews: seq<Review>, term: string, f: RatingFilter)
    ensures Visible(reviews, term, f) == Filter(Filter(reviews, x => MatchesRating(f, x)), x => MatchesText(term, x))
    ensures Visible(reviews, term, f) == Filter(Filter(reviews, x => MatchesText(term, x)), x => MatchesRating(f, x))
  {
    FilterTwice(reviews, x => MatchesRating(f, x), x => MatchesText(term, x), x => MatchesBoth(term, f, x));
    FilterTwice(reviews, x => MatchesText(term, x), x => MatchesRating(f, x), x => MatchesBoth(term, f, x));
  }

  /** With an empty search and every rating, a review is shown exactly when
      it has a user name, comment, restaurant or delivery-person name. */
  lemma EmptySearchNeedsAField(r: Review)
    ensures MatchesBoth("", AllRatings, r)
            <==> r.userName.Some? || r.comment.Some? || r.restaurantName.Some? || r.deliveryPersonName.Some?
  {
    MatchesOptionalEmptyTerm(r.userName);
    MatchesOptionalEmptyTerm(r.comment);
    MatchesOptionalEmptyTerm(r.restaurantName);
    MatchesOptionalEmptyTerm(r.deliveryPersonName);
  }

  // ---------------------------------------------------------------------------
  // Stars and sentiment

  /** `renderStars(rating)`: five stars; star `k` (from 1) is filled when
      `k <= rating`. */
  function StarRow(rating: int): (r: seq<bool>)
    ensures |r| == 5
  {
    seq(5, i requires 0 <= i < 5 => i + 1 <= rating)
  }

  /** The filled stars come first and there are as many as the rating,
      clamped to 0..5: a rating of 0 or less shows none, 5 or more shows
      all five. */
  lemma StarRowShowsRating(rating: int)
    ensures var filled := if rating < 0 then 0 else if rating > 5 then 5 else rating;
            && (forall i :: 0 <= i < filled ==> StarRow(rating)[i])
            && (forall i :: filled <= i < 5 ==> !StarRow(rating)[i])
  {
  }

  datatype Sentiment = Positive | Neutral | Negative

  /** The dialog's sentiment badge: 4 and up positive, 3 neutral, below
      negative. */
  function SentimentOf(rating: int): (s: Sentiment)
    ensures s == Positive <==> rating >= 4
    ensures s == Neutral <==> rating == 3
    ensures s == Negative <==> rating <= 2
  {
    if rating >= 4 then Positive else if rating >= 3 then Neutral else Negative
  }

  // ---------------------------------------------------------------------------
  // Counts

  predicate IsPositive(r: Review) { r.rating >= 4 }
  predicate IsNeutral(r: Review) { r.rating == 3 }
  predicate IsNegative(r: Review) { r.rating <= 2 }
  predicate IsPositiveOrNeutral(r: Review) { IsPositive(r) || IsNeutral(r) }
  predicate AnySentiment(r: Review) { IsPositiveOrNeutral(r) || IsNegative(r) }

  predicate ShowsPositive(r: Review) { SentimentOf(r.rating) == Positive }

  predicate ForRestaurant(r: Review) { r.restaurantId.Some? && r.restaurantId.value != 0 }
  predicate ForDeliveryPerson(r: Review) { r.deliveryPersonId.Some? && r.deliveryPersonId.value != 0 }

  /** The header figures other than the average, over the whole loaded
      page. */
  datatype Stats = Stats(total: nat, restaurantReviews: nat, deliveryReviews: nat, positiveReviews: nat)

  function Counts(reviews: seq<Review>): Stats {
    Stats(|reviews|, Count(reviews, ForRestaurant), Count(reviews, ForDeliveryPerson), Count(reviews, IsPositive))
  }

  /** The "positive" figure counts exactly the reviews whose dialog shows a
      positive sentiment, and the three sentiments split the page: every
      loaded review falls under exactly one. */
  lemma SentimentsSplitPage(reviews: seq<Review>)
    ensures Counts(reviews).positiveReviews == Count(reviews, ShowsPositive)
    ensures Count(reviews, IsPositive) + Count(reviews, IsNeutral) + Count(reviews, IsNegative) == |reviews|
  {
    FilterSame(reviews, IsPositive, ShowsPositive);
    CountUnion(reviews, IsPositive, IsNeutral, IsPositiveOrNeutral);
    CountUnion(reviews, IsPositiveOrNeutral, IsNegative, AnySentiment);
    CountAll(reviews, AnySentiment);
  }

  // ---------------------------------------------------------------------------
  // Details dialog and delete

  datatype Dialog = Dialog(selected: Option<Review>, showViewModal: bool)

  /** `handleView`: a fetched review opens the dialog; a failed call
      changes nothing. */
  function View(d: Dialog, outcome: Result<Review, HttpError>): (r: Dialog)
    ensures outcome.Err? ==> r == d
    ensures outcome.Ok? ==> r == Dialog(Some(outcome.value), true)
  {
    match outcome
    case Ok(x) => Dialog(Some(x), true)
    case Err(_) => d
  }

  function DeleteCalls(c: Config, token: Option<string>, r: Review, confirmed: bool): (rs: seq<Request>)
    ensures confirmed ==> rs == [DeleteReview(c, token, r.reviewId)]
    ensures !confirmed ==> rs == []
  {
    ConfirmedRequests(confirmed, DeleteReview(c, token, r.reviewId))
  }

  /** The dialog's delete button: the same confirmed delete of the selected
      review, and the dialog closes whether or not the admin confirmed. */
  function DialogDelete(c: Config, token: Option<string>, d: Dialog, confirmed: bool): (r: (Dialog, seq<Request>))
    requires d.selected.Some?
    ensures !r.0.showViewModal && r.0.selected == d.selected
    ensures r.1 == DeleteCalls(c, token, d.selected.value, confirmed)
    ensures confirmed <==> r.1 != []
  {
    (d.(showViewModal := false), DeleteCalls(c, token, d.selected.value, confirmed))
  }
}
