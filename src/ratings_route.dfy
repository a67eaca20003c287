/** POST of the rating collection endpoint: a guard on the required fields, a
    guard on the range, then one create call whose failure is mapped to a
    status. */
module RatingsRoute {
  import opened Common

  /** The body of a POST request; a field that is absent or null is None. The
      rating is a JSON number, modelled as an integer. */
  datatype RatingInput = RatingInput(movieId: Option<string>, userId: Option<string>,
                                     rating: Option<int>, review: Option<string>)

  /** The data handed to the create call. */
  datatype RatingData = RatingData(movieId: string, userId: string, rating: int, review: Option<string>)

  const FieldsRequired := "movieId, userId, and rating are required"
  const OutOfRange := "Rating must be between 1 and 5"
  const AlreadyRated := "You have already rated this movie"
  const CreateFailed := "Failed to create rating"

  /** JavaScript truthiness of a number field: present and not 0. */
  predicate TruthyNumber(x: Option<int>)
  {
    x.Some? && x.value != 0
  }

  /** The request passes both guards. */
  predicate Acceptable(input: RatingInput)
  {
    Truthy(input.movieId) && Truthy(input.userId) && TruthyNumber(input.rating)
    && 1 <= input.rating.value <= 5
  }

  /** POST. `body` is None when the request body is not JSON (the parse
      throws and the catch answers 500). */
  function CreateRating(body: Option<RatingInput>, db: DbResult): (h: Handled<RatingData>)
    ensures h.write.Some? <==> body.Some? && Acceptable(body.value)
    ensures h.write.Some? ==> h.write.value == RatingData(body.value.movieId.value, body.value.userId.value,
                                                         body.value.rating.value, OrNull(body.value.review))
    ensures body.Some? && !(Truthy(body.value.movieId) && Truthy(body.value.userId) && TruthyNumber(body.value.rating))
            ==> h.reply == Reply(400, ErrorMessage(FieldsRequired))
    ensures body.Some? && Truthy(body.value.movieId) && Truthy(body.value.userId) && TruthyNumber(body.value.rating)
            && !(1 <= body.value.rating.value <= 5)
            ==> h.reply == Reply(400, ErrorMessage(OutOfRange))
    ensures body.None? ==> h.reply == Reply(500, ErrorMessage(CreateFailed))
    ensures h.write.Some? ==> h.reply == CreateReply(h.write.value, db, AlreadyRated, CreateFailed)
  {
    match body
    case None => Handled(None, Reply(500, ErrorMessage(CreateFailed)))
    case Some(input) =>
      if !Truthy(input.movieId) || !Truthy(input.userId) || !TruthyNumber(input.rating) then
        Handled(None, Reply(400, ErrorMessage(FieldsRequired)))
      else if input.rating.value < 1 || input.rating.value > 5 then
        Handled(None, Reply(400, ErrorMessage(OutOfRange)))
      else
        var data := RatingData(input.movieId.value, input.userId.value, input.rating.value, OrNull(input.review));
        Handled(Some(data), CreateReply(data, db, AlreadyRated, CreateFailed))
  }

  /** A rating of 0 is falsy, so it is reported as a missing field and not as
      out of range; 6 and -1 are reported as out of range. */
  lemma {:induction false} ZeroIsMissingNotOutOfRange(movieId: string, userId: string, review: Option<string>, db: DbResult)
    requires movieId != "" && userId != ""
    ensures CreateRating(Some(RatingInput(Some(movieId), Some(userId), Some(0), review)), db).reply.body
            == ErrorMessage(FieldsRequired)
    ensures CreateRating(Some(RatingInput(Some(movieId), Some(userId), Some(6), review)), db).reply.body
            == ErrorMessage(OutOfRange)
    ensures CreateRating(Some(RatingInput(Some(movieId), Some(userId), Some(-1), review)), db).reply.body
            == ErrorMessage(OutOfRange)
  {
    var ok := Some(movieId);
    assert Truthy(ok) && Truthy(Some(userId));
  }

  /** Every stored rating is between 1 and 5, and its review is null or not
      empty. */
  lemma {:induction false} StoredRatingInRange(body: Option<RatingInput>, db: DbResult)
    ensures var h := CreateRating(body, db);
            h.write.Some? ==> 1 <= h.write.value.rating <= 5
                              && (h.write.value.review.Some? ==> h.write.value.review.value != "")
  {
  }

  /** Every POST ends in one of the four statuses, and a 409 or 201 only
      after both guards passed. */
  lemma {:induction false} CreateRatingStatuses(body: Option<RatingInput>, db: DbResult)
    ensures var h := CreateRating(body, db);
            h.reply.status in {201, 400, 409, 500}
            && (h.reply.status in {201, 409} ==> body.Some? && Acceptable(body.value))
  {
    var h := CreateRating(body, db);
    if h.write.Some? {
      assert h.reply == CreateReply(h.write.value, db, AlreadyRated, CreateFailed);
    }
  }
}
