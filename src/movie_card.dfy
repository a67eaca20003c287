/** The data shown by a movie card: the "bad movie" badge, the average text,
    the avatars of the first raters, and (in the large view) the rating
    history with star strings. The JSX and the modal state are left out. */
module MovieCard {
  import opened Common
  import Text
  import MoviesRoute

  const FullStar: char := '★'
  const EmptyStar: char := '☆'
  const NoAverage := "無"

  /** `isImageUrl`: a data URL of an image or an http(s) URL. */
  predicate IsImageUrl(icon: string)
  {
    Text.StartsWith(icon, "data:image/") || Text.StartsWith(icon, "http://") || Text.StartsWith(icon, "https://")
  }

  /** The icons the user form offers are emoji, never taken for images. */
  lemma {:induction false} OfferedIconsAreEmoji(icon: string)
    requires icon in ["😊", "😎", "🐻", "🐨", "🤖", "👻", "🎭", "🦄"]
    ensures !IsImageUrl(icon)
  {
  }

  /** An icon starting with an image data URL prefix is shown as a picture,
      whatever follows. */
  lemma {:induction false} DataImagePrefixIsImage(icon: string)
    requires Text.StartsWith(icon, "data:image/")
    ensures IsImageUrl(icon)
  {
  }

  /** `renderStars(rating)`: `repeat` throws on a negative count, so a rating
      outside 0..5 has no star string (None). */
  function RenderStars(rating: int): (r: Option<string>)
    ensures r.Some? <==> 0 <= rating <= 5
    ensures r.Some? ==> |r.value| == 5
    ensures r.Some? ==> forall i :: 0 <= i < 5 ==> r.value[i] == (if i < rating then FullStar else EmptyStar)
  {
    if 0 <= rating <= 5 then Some(Text.Repeat(FullStar, rating) + Text.Repeat(EmptyStar, 5 - rating)) else None
  }

  /** How many of the characters of `s` are `c`. */
  function CountOf(s: string, c: char): nat
  {
    if s == [] then 0 else CountOf(s[..|s| - 1], c) + (if s[|s| - 1] == c then 1 else 0)
  }

  /** The star string of a rating shows exactly that many full stars. */
  lemma {:induction false} StarsCount(rating: int)
    requires 0 <= rating <= 5
    ensures CountOf(RenderStars(rating).value, FullStar) == rating
  {
    var s := RenderStars(rating).value;
    PrefixCount(s, rating, 5);
    assert s[..5] == s;
  }

  lemma {:induction false} PrefixCount(s: string, k: int, n: nat)
    requires n <= |s| && 0 <= k
    requires forall i :: 0 <= i < |s| ==> s[i] == (if i < k then FullStar else EmptyStar)
    ensures CountOf(s[..n], FullStar) == if n < k then n else k
  {
    if n > 0 {
      PrefixCount(s, k, n - 1);
      assert s[..n][..n - 1] == s[..n - 1];
    }
  }

  /** `isBadMovie`: an average strictly between 0 and 3. */
  predicate IsBadMovie(averageTenths: int)
  {
    0 < averageTenths < 30
  }

  /** `toFixed(1)` of a non-negative number given in tenths. */
  function Fixed1(tenths: nat): (s: string)
    ensures |s| >= 3 && s[|s| - 2] == '.'
    ensures forall i :: 0 <= i < |s| && i != |s| - 2 ==> Text.IsDigit(s[i])
  {
    Text.NatToString(tenths / 10) + "." + [Text.DigitChar(tenths % 10)]
  }

  /** Reading the one-decimal text back gives the tenths. */
  lemma {:induction false} Fixed1RoundTrip(tenths: nat)
    ensures var s := Fixed1(tenths);
            Text.ParseDigits(s[..|s| - 2]) * 10 + (s[|s| - 1] as int - '0' as int) == tenths
  {
    var s := Fixed1(tenths);
    assert s[..|s| - 2] == Text.NatToString(tenths / 10);
    Text.NatToStringRoundTrip(tenths / 10);
  }

  /** The average as displayed: one decimal when positive, "無" otherwise. */
  function AverageText(averageTenths: int): (s: string)
    ensures averageTenths > 0 ==> s == Fixed1(averageTenths)
    ensures s == NoAverage <==> averageTenths <= 0
  {
    if averageTenths > 0 then Fixed1(averageTenths) else NoAverage
  }

  datatype Avatar = Picture(url: string) | Emoji(text: string)

  function AvatarOf(icon: string): (a: Avatar)
    ensures a.Picture? <==> IsImageUrl(icon)
    ensures a.Picture? ==> a.url == icon
    ensures a.Emoji? ==> a.text == icon
  {
    if IsImageUrl(icon) then Picture(icon) else Emoji(icon)
  }

  /** `renderRecentRaters`: the avatars of the first three ratings, nothing
      at all when there is no rating. */
  function RecentRaters(ratings: seq<MoviesRoute.RatingView>): (r: Option<seq<Avatar>>)
    ensures r.None? <==> ratings == []
    ensures r.Some? ==> |r.value| == (if |ratings| < 3 then |ratings| else 3)
    ensures r.Some? ==> forall i :: 0 <= i < |r.value| ==> r.value[i] == AvatarOf(ratings[i].user.icon)
  {
    var recent := if |ratings| < 3 then ratings else ratings[..3];
    if recent == [] then None
    else Some(seq(|recent|, i requires 0 <= i < |recent| => AvatarOf(recent[i].user.icon)))
  }

  datatype HistoryEntry = HistoryEntry(avatar: Avatar, name: string, stars: string, review: Option<string>)

  datatype ViewMode = Small | Large

  datatype CardView = CardView(badge: bool, averageText: string, ratingCount: nat,
                               recentRaters: Option<seq<Avatar>>,
                               history: Option<seq<HistoryEntry>>)

  predicate StarsRenderable(ratings: seq<MoviesRoute.RatingView>)
  {
    forall i :: 0 <= i < |ratings| ==> 0 <= ratings[i].rating <= 5
  }

  function HistoryOf(ratings: seq<MoviesRoute.RatingView>): (h: seq<HistoryEntry>)
    requires StarsRenderable(ratings)
    ensures |h| == |ratings|
    ensures forall i :: 0 <= i < |h| ==>
      h[i] == HistoryEntry(AvatarOf(ratings[i].user.icon), ratings[i].user.name,
                           RenderStars(ratings[i].rating).value, OrNull(ratings[i].review))
  {
    seq(|ratings|, i requires 0 <= i < |ratings| =>
      HistoryEntry(AvatarOf(ratings[i].user.icon), ratings[i].user.name,
                   RenderStars(ratings[i].rating).value, OrNull(ratings[i].review)))
  }

  /** The card for a movie of the listing. The badge sits on the poster, so it
      needs an image. The large view lists every rating with its star string
      and renders nothing (None) when a star string cannot be built; the
      small view has no history. */
  function RenderCard(m: MoviesRoute.MovieStats, mode: ViewMode): (c: Option<CardView>)
    ensures c.None? <==> mode == Large && !StarsRenderable(m.ratings)
    ensures c.Some? ==> c.value.badge == (Truthy(m.image) && IsBadMovie(m.averageTenths))
    ensures c.Some? ==> c.value.averageText == AverageText(m.averageTenths)
    ensures c.Some? ==> c.value.ratingCount == m.ratingCount
    ensures c.Some? ==> c.value.recentRaters == RecentRaters(m.ratings)
    ensures c.Some? ==> (c.value.history.Some? <==> mode == Large && m.ratings != [])
    ensures c.Some? && c.value.history.Some? ==> c.value.history.value == HistoryOf(m.ratings)
  {
    if mode == Large && !StarsRenderable(m.ratings) then None
    else
      var history := if mode == Large && m.ratings != [] then Some(HistoryOf(m.ratings)) else None;
      Some(CardView(Truthy(m.image) && IsBadMovie(m.averageTenths), AverageText(m.averageTenths),
                    m.ratingCount, RecentRaters(m.ratings), history))
  }

  /** A movie of the listing without ratings never gets the badge and shows
      "無" as its average; a movie whose ratings are all between 1 and 5 is
      always rendered, and gets the badge exactly when its rounded average is
      below 3.0. */
  lemma {:induction false} ListedMovieCard(row: MoviesRoute.MovieRow, mode: ViewMode)
    ensures var m := MoviesRoute.StatsOf(row);
            var c := RenderCard(m, mode);
            (row.ratings == [] ==> c.Some? && !c.value.badge && c.value.averageText == NoAverage)
            && (MoviesRoute.InStarRange(row.ratings) ==>
                  c.Some? && (c.value.badge <==> Truthy(row.image) && row.ratings != [] && m.averageTenths < 30))
  {
    var m := MoviesRoute.StatsOf(row);
    if MoviesRoute.InStarRange(row.ratings) {
      assert StarsRenderable(m.ratings) by {
        forall i | 0 <= i < |m.ratings| ensures 0 <= m.ratings[i].rating <= 5 {
          assert m.ratings[i].rating == row.ratings[i].rating;
        }
      }
      if row.ratings != [] {
        MoviesRoute.AverageInStarRange(row.ratings);
      }
    }
  }
}
