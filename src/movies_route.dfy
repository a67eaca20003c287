/** The movie collection endpoint: GET lists every movie with its rating
    count and its average rating; POST creates a movie. The database is
    abstracted to the rows a query returns (None when the query fails) and to
    the outcome of a create call. Timestamps are milliseconds; the average is
    kept in exact tenths instead of a floating-point number. */
module MoviesRoute {
  import opened Common

  datatype UserRow = UserRow(id: string, name: string, icon: string, createdAt: int, updatedAt: int)

  /** A rating row with its user included. `parentId` is part of the row but
      the listing does not look at it. */
  datatype RatingRow = RatingRow(id: string, movieId: string, userId: string, rating: int,
                                 review: Option<string>, parentId: Option<string>,
                                 createdAt: int, updatedAt: int, user: UserRow)

  datatype MovieRow = MovieRow(id: string, title: string, image: Option<string>,
                               createdAt: int, updatedAt: int, ratings: seq<RatingRow>)

  /** One rating as the listing returns it. */
  datatype RatingView = RatingView(id: string, rating: int, review: Option<string>,
                                   createdAt: int, user: UserSummary)

  /** One movie as the listing returns it; `averageTenths` is ten times
      `averageRating`. */
  datatype MovieStats = MovieStats(id: string, title: string, image: Option<string>,
                                   createdAt: int, updatedAt: int,
                                   averageTenths: int, ratingCount: nat,
                                   ratings: seq<RatingView>)

  /** The `reduce` over the rating values. */
  function Sum(rs: seq<RatingRow>): int
  {
    if rs == [] then 0 else Sum(rs[..|rs| - 1]) + rs[|rs| - 1].rating
  }

  /** `Math.round(avg * 10)` for the mean `avg` of the ratings, 0 when there
      are none: the mean in tenths rounded half up. */
  function AverageTenths(rs: seq<RatingRow>): (t: int)
    ensures |rs| == 0 ==> t == 0
    ensures |rs| > 0 ==> 2 * |rs| * t <= 20 * Sum(rs) + |rs| < 2 * |rs| * (t + 1)
  {
    if |rs| == 0 then 0 else (20 * Sum(rs) + |rs|) / (2 * |rs|)
  }

  predicate InStarRange(rs: seq<RatingRow>)
  {
    forall i :: 0 <= i < |rs| ==> 1 <= rs[i].rating <= 5
  }

  lemma {:induction false} SumBounds(rs: seq<RatingRow>)
    requires InStarRange(rs)
    ensures |rs| <= Sum(rs) <= 5 * |rs|
  {
    if rs != [] {
      SumBounds(rs[..|rs| - 1]);
    }
  }

  /** The arithmetic core: a half-up rounding of 10*s/n with n <= s <= 5*n
      lies between 10 and 50. */
  lemma RoundedMeanBounds(n: int, s: int, t: int)
    requires n > 0 && n <= s <= 5 * n
    requires 2 * n * t <= 20 * s + n < 2 * n * (t + 1)
    ensures 10 <= t <= 50
  {
    if t < 10 {
      MulMonotone(t + 1, 10, 2 * n);
    }
    if t > 50 {
      MulMonotone(51, t, 2 * n);
    }
  }

  /** With every rating between 1 and 5 and at least one rating, the
      average lies between 1.0 and 5.0. */
  lemma {:induction false} AverageInStarRange(rs: seq<RatingRow>)
    requires InStarRange(rs) && |rs| > 0
    ensures 10 <= AverageTenths(rs) <= 50
  {
    SumBounds(rs);
    RoundedMeanBounds(|rs|, Sum(rs), AverageTenths(rs));
  }

  /** Ratings that all have the same value average to exactly that value. */
  lemma {:induction false} UniformAverage(rs: seq<RatingRow>, v: int)
    requires |rs| > 0 && forall i :: 0 <= i < |rs| ==> rs[i].rating == v
    ensures AverageTenths(rs) == 10 * v
  {
    UniformSum(rs, v);
    ExactMean(|rs|, v);
  }

  lemma ExactMean(n: int, v: int)
    requires n > 0
    ensures (20 * (n * v) + n) / (2 * n) == 10 * v
  {
    assert 20 * (n * v) + n == (2 * n) * (10 * v) + n;
    DivOfMultiplePlus(2 * n, 10 * v, n);
  }

  /** Division undoes multiplication when the remainder is in range. */
  lemma DivOfMultiplePlus(d: int, q: int, r: int)
    requires d > 0 && 0 <= r < d
    ensures (d * q + r) / d == q
  {
    var x := d * q + r;
    var q' := x / d;
    assert x == d * q' + x % d;
    assert d * (q - q') == x % d - r;
    if q - q' >= 1 {
      MulMonotone(1, q - q', d);
    } else if q' - q >= 1 {
      MulMonotone(1, q' - q, d);
    }
  }

  lemma {:induction false} UniformSum(rs: seq<RatingRow>, v: int)
    requires forall i :: 0 <= i < |rs| ==> rs[i].rating == v
    ensures Sum(rs) == |rs| * v
  {
    if rs != [] {
      UniformSum(rs[..|rs| - 1], v);
    }
  }

  function ViewOf(r: RatingRow): (v: RatingView)
  {
    RatingView(r.id, r.rating, r.review, r.createdAt, UserSummary(r.user.id, r.user.name, r.user.icon))
  }

  /** The per-movie step of the listing's `map`. */
  function StatsOf(m: MovieRow): (s: MovieStats)
  {
    MovieStats(m.id, m.title, m.image, m.createdAt, m.updatedAt,
               AverageTenths(m.ratings), |m.ratings|,
               seq(|m.ratings|, j requires 0 <= j < |m.ratings| => ViewOf(m.ratings[j])))
  }

  /** What the listing says about one movie: same identity and timestamps,
      every rating row counted and averaged, and the rows passed on one to
      one, in order. */
  predicate Describes(s: MovieStats, m: MovieRow)
  {
    && s.id == m.id && s.title == m.title && s.image == m.image
    && s.createdAt == m.createdAt && s.updatedAt == m.updatedAt
    && s.ratingCount == |m.ratings| && s.averageTenths == AverageTenths(m.ratings)
    && |s.ratings| == |m.ratings|
    && forall j :: 0 <= j < |m.ratings| ==>
         s.ratings[j].id == m.ratings[j].id && s.ratings[j].rating == m.ratings[j].rating
         && s.ratings[j].review == m.ratings[j].review && s.ratings[j].createdAt == m.ratings[j].createdAt
         && s.ratings[j].user == UserSummary(m.ratings[j].user.id, m.ratings[j].user.name, m.ratings[j].user.icon)
  }

  /** GET: 200 with one entry per fetched movie, in the fetched order; when
      the query fails, status 500 with an empty array and never an error
      object. */
  function ListMovies(fetched: Option<seq<MovieRow>>): (r: Reply<seq<MovieStats>>)
    ensures r.body.Payload?
    ensures fetched.None? ==> r.status == 500 && r.body.value == []
    ensures fetched.Some? ==> r.status == 200 && |r.body.value| == |fetched.value|
    ensures fetched.Some? ==> forall i :: 0 <= i < |fetched.value| ==> Describes(r.body.value[i], fetched.value[i])
  {
    match fetched
    case None => Reply(500, Payload([]))
    case Some(ms) => Reply(200, Payload(seq(|ms|, i requires 0 <= i < |ms| => StatsOf(ms[i]))))
  }

  /** A reply row (one with a parent) is counted and averaged like any other
      row: the listing applies no filter. */
  lemma {:induction false} RepliesAreCounted(m: MovieRow, reply: RatingRow)
    requires reply.parentId.Some?
    ensures var m' := m.(ratings := m.ratings + [reply]);
            StatsOf(m').ratingCount == StatsOf(m).ratingCount + 1
            && Sum(m'.ratings) == Sum(m.ratings) + reply.rating
  {
    var rs := m.ratings + [reply];
    assert rs[..|rs| - 1] == m.ratings;
  }

  /** The body of a POST request; a field that is absent or null is None. */
  datatype MovieInput = MovieInput(title: Option<string>, image: Option<string>)

  /** The data handed to the create call. */
  datatype MovieData = MovieData(title: string, image: Option<string>)

  const TitleRequired := "Title is required"
  const MovieExists := "Movie already exists"
  const CreateFailed := "Failed to create movie"

  /** POST. `body` is None when the request body is not JSON (the parse
      throws and the catch answers 500). */
  function CreateMovie(body: Option<MovieInput>, db: DbResult): (h: Handled<MovieData>)
    ensures h.write.Some? <==> body.Some? && Truthy(body.value.title)
    ensures h.write.Some? ==> h.write.value == MovieData(body.value.title.value, OrNull(body.value.image))
    ensures h.reply.status == 400 <==> body.Some? && !Truthy(body.value.title)
    ensures h.reply.status == 400 ==> h.reply.body == ErrorMessage(TitleRequired)
    ensures body.None? ==> h.reply == Reply(500, ErrorMessage(CreateFailed))
    ensures h.write.Some? ==> h.reply == CreateReply(h.write.value, db, MovieExists, CreateFailed)
  {
    match body
    case None => Handled(None, Reply(500, ErrorMessage(CreateFailed)))
    case Some(input) =>
      if !Truthy(input.title) then Handled(None, Reply(400, ErrorMessage(TitleRequired)))
      else
        var data := MovieData(input.title.value, OrNull(input.image));
        Handled(Some(data), CreateReply(data, db, MovieExists, CreateFailed))
  }

  /** Every POST ends in one of the four statuses, and only a 201 carries the
      created movie. */
  lemma {:induction false} CreateMovieStatuses(body: Option<MovieInput>, db: DbResult)
    ensures var h := CreateMovie(body, db);
            h.reply.status in {201, 400, 409, 500}
            && (h.reply.body.Payload? <==> h.reply.status == 201)
  {
    var h := CreateMovie(body, db);
    if h.write.Some? {
      assert h.reply == CreateReply(h.write.value, db, MovieExists, CreateFailed);
    }
  }
}
