/** The `/api/food/reviews` route handlers of app/api/food/reviews/route.ts:
    list the reviews of one food photo with their authors' names, add a
    review, delete one. The JSON request body and the backend's answers are
    parameters. A body that cannot be read, or whose destructuring throws,
    lands in the handler's `catch`. */
module FoodReviewsRoute {
  import opened Common
  import Lists

  /** A row of the reviews select, `profiles (username)` joined in: `None`
      for a missing profile, `Some(None)` for a profile without a name. */
  datatype ReviewRow = ReviewRow(id: string, userId: string, review: string, rating: int, createdAt: string,
                                 profiles: Option<Option<string>>)

  /** A row as the handler returns it: `profiles` replaced by `username`. */
  datatype NamedReview = NamedReview(id: string, userId: string, review: string, rating: int, createdAt: string,
                                     username: string)

  /** The fields of a `POST` body; a field the body lacks is `None`. */
  datatype ReviewPost = ReviewPost(foodPhotoId: Option<string>, review: Option<string>, rating: Option<int>, userId: Option<string>)

  datatype ReviewCall =
    | SelectFoodReviews(foodPhotoId: string, orderBy: string, ascending: bool)
    | InsertFoodReview(foodPhotoId: string, userId: string, review: string, rating: int, createdAt: string)
    | DeleteFoodReview(id: string)

  datatype ReviewBody =
    | ReviewList(rows: seq<NamedReview>)
    | ErrorBody(error: string)
    | ErrorDetails(error: string, details: string)
    | StatusBody(status: int)
    | MessageBody(message: string)

  datatype Response = Response(status: int, body: ReviewBody)

  datatype Trace = Trace(calls: seq<ReviewCall>, response: Response)

  const MaxReviewLength := 250

  /** `review.profiles?.username ?? "Unknown"`: a missing profile or a
      missing name reads `Unknown`; any name that is there, the empty one
      included, is kept. */
  function Username(profiles: Option<Option<string>>): (name: string)
    ensures profiles.Some? && profiles.value.Some? ==> name == profiles.value.value
    ensures !(profiles.Some? && profiles.value.Some?) ==> name == "Unknown"
  {
    match profiles
    case None => "Unknown"
    case Some(p) => p.GetOr("Unknown")
  }

  /** `{ ...review, username: ..., profiles: undefined }`. */
  function Named(r: ReviewRow): NamedReview {
    NamedReview(r.id, r.userId, r.review, r.rating, r.createdAt, Username(r.profiles))
  }

  /** The mapping keeps the rows' number and order, each row's own fields,
      and gives each its author's name or `Unknown`. */
  lemma NamedRowsSpec(rows: seq<ReviewRow>)
    ensures |Lists.Map(rows, Named)| == |rows|
    ensures forall i :: 0 <= i < |rows| ==>
      var n := Lists.Map(rows, Named)[i];
      && n.id == rows[i].id && n.userId == rows[i].userId && n.review == rows[i].review
      && n.rating == rows[i].rating && n.createdAt == rows[i].createdAt
      && n.username == Username(rows[i].profiles)
  {
  }

  /** `GET`: a falsy `foodPhotoId` is refused with no query; otherwise the
      photo's reviews, newest first, with names joined. A query error
      answers 500 with its message; a null result throws in `map` and
      answers the generic 500. */
  function Get(foodPhotoId: Option<string>, answer: Db<Option<seq<ReviewRow>>>): (t: Trace)
    ensures !Truthy(foodPhotoId) ==> t == Trace([], Response(400, ErrorBody("Missing foodPhotoId")))
    ensures Truthy(foodPhotoId) ==> t.calls == [SelectFoodReviews(foodPhotoId.value, "created_at", false)]
    ensures Truthy(foodPhotoId) && answer.Failed? ==> t.response == Response(500, ErrorBody(answer.message))
    ensures Truthy(foodPhotoId) && answer.Done? && answer.data.None? ==>
      t.response == Response(500, ErrorBody("Internal Server Error"))
    ensures Truthy(foodPhotoId) && answer.Done? && answer.data.Some? ==>
      t.response == Response(200, ReviewList(Lists.Map(answer.data.value, Named)))
  {
    if !Truthy(foodPhotoId) then Trace([], Response(400, ErrorBody("Missing foodPhotoId")))
    else
      var calls := [SelectFoodReviews(foodPhotoId.value, "created_at", false)];
      match answer
      case Failed(m) => Trace(calls, Response(500, ErrorBody(m)))
      case Done(None) => Trace(calls, Response(500, ErrorBody("Internal Server Error")))
      case Done(Some(rows)) => Trace(calls, Response(200, ReviewList(Lists.Map(rows, Named))))
  }

  /** JavaScript truthiness of a number that may be absent (`NaN` is not
      modelled). */
  predicate TruthyNumber(n: Option<int>) {
    n.Some? && n.value != 0
  }

  /** The four fields `POST` demands, each truthy. */
  predicate Complete(p: ReviewPost) {
    Truthy(p.foodPhotoId) && Truthy(p.review) && TruthyNumber(p.rating) && Truthy(p.userId)
  }

  /** `POST` with the body as parsed (`Parsed(None)` for a `null` body) and
      the clock's ISO text. A missing or falsy field is refused with no
      insert; a rating of 0 counts as missing. The insert runs before the
      length check, so an over-long review is stored and still answered
      400. An insert error answers 500 with its details; success answers
      HTTP 200 with the body `{ status: 201 }`. */
  function Post(body: Json<ReviewPost>, now: string, insertError: Option<string>): (t: Trace)
    ensures body.Threw? || body.body.None? ==> t == Trace([], Response(500, ErrorBody("Internal Server Error")))
    ensures body.Parsed? && body.body.Some? && !Complete(body.body.value) ==>
      t == Trace([], Response(400, ErrorBody("Missing required fields")))
    ensures body.Parsed? && body.body.Some? && Complete(body.body.value) ==>
      var p := body.body.value;
      && t.calls == [InsertFoodReview(p.foodPhotoId.value, p.userId.value, p.review.value, p.rating.value, now)]
      && t.response == if |p.review.value| > MaxReviewLength then Response(400, ErrorBody("Review too long"))
                       else if insertError.Some? then Response(500, ErrorDetails("Failed to add review", insertError.value))
                       else Response(200, StatusBody(201))
  {
    match body
    case Threw(_) => Trace([], Response(500, ErrorBody("Internal Server Error")))
    case Parsed(None) => Trace([], Response(500, ErrorBody("Internal Server Error")))
    case Parsed(Some(p)) =>
      if !Complete(p) then Trace([], Response(400, ErrorBody("Missing required fields")))
      else
        var calls := [InsertFoodReview(p.foodPhotoId.value, p.userId.value, p.review.value, p.rating.value, now)];
        if |p.review.value| > MaxReviewLength then Trace(calls, Response(400, ErrorBody("Review too long")))
        else if insertError.Some? then Trace(calls, Response(500, ErrorDetails("Failed to add review", insertError.value)))
        else Trace(calls, Response(200, StatusBody(201)))
  }

  /** A review is stored exactly when the body is complete, whatever its
      length, so a 400 for a long review comes after the insert. */
  lemma PostInsertsIffComplete(body: Json<ReviewPost>, now: string, insertError: Option<string>)
    ensures |Post(body, now, insertError).calls| == 1 <==> body.Parsed? && body.body.Some? && Complete(body.body.value)
    ensures Post(body, now, insertError).response.status == 400 && Post(body, now, insertError).calls != [] <==>
      body.Parsed? && body.body.Some? && Complete(body.body.value) && |body.body.value.review.value| > MaxReviewLength
  {
  }

  /** A success never carries HTTP status 201: the 201 is only in the body. */
  lemma PostNeverAnswers201(body: Json<ReviewPost>, now: string, insertError: Option<string>)
    ensures Post(body, now, insertError).response.status != 201
    ensures Post(body, now, insertError).response.status == 200 ==>
      Post(body, now, insertError).response.body == StatusBody(201)
  {
  }

  /** A rating of 0 is refused as a missing field. */
  lemma ZeroRatingRefused(foodPhotoId: string, review: string, userId: string, now: string, insertError: Option<string>)
    ensures Post(Parsed(Some(ReviewPost(Some(foodPhotoId), Some(review), Some(0), Some(userId)))), now, insertError)
            == Trace([], Response(400, ErrorBody("Missing required fields")))
  {
  }

  /** `DELETE`: a falsy id is refused with no call; a delete error answers
      500 without its message; success answers `Review deleted`. */
  function Delete(id: Option<string>, error: Option<string>): (t: Trace)
    ensures !Truthy(id) ==> t == Trace([], Response(400, ErrorBody("Missing review ID")))
    ensures Truthy(id) ==> t.calls == [DeleteFoodReview(id.value)]
    ensures Truthy(id) ==> t.response == if error.Some? then Response(500, ErrorBody("Failed to delete review"))
                                         else Response(200, MessageBody("Review deleted"))
  {
    if !Truthy(id) then Trace([], Response(400, ErrorBody("Missing review ID")))
    else if error.Some? then Trace([DeleteFoodReview(id.value)], Response(500, ErrorBody("Failed to delete review")))
    else Trace([DeleteFoodReview(id.value)], Response(200, MessageBody("Review deleted")))
  }
}
