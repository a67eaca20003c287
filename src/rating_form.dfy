/** The rating form: the user picker, the star picker with its hover state,
    the review text, and the inline user-creation form. Each handler becomes
    a method on the form's state; a request the handler sends is returned,
    and the server's answer is a parameter. Alerts and the loading flag's
    intermediate value are left out. */
module RatingForm {
  import opened Common
  import Text
  import MovieCard
  import RatingsRoute
  import UsersRoute

  const CommonIcons: seq<string> := ["😊", "😎", "🐻", "🐨", "🤖", "👻", "🎭", "🦄"]

  /** The row of five stars for a displayed value: lit up to that value. */
  function StarRow(shown: int): (row: string)
    ensures |row| == 5
    ensures forall i :: 0 <= i < 5 ==> row[i] == (if i + 1 <= shown then MovieCard.FullStar else MovieCard.EmptyStar)
  {
    seq(5, i requires 0 <= i < 5 => if i + 1 <= shown then MovieCard.FullStar else MovieCard.EmptyStar)
  }

  /** The picker lights exactly as many stars as it displays, and draws the
      same row the movie card draws for that rating. */
  lemma {:induction false} StarRowLightsShown(shown: int)
    requires 0 <= shown <= 5
    ensures StarRow(shown) == MovieCard.RenderStars(shown).value
    ensures MovieCard.CountOf(StarRow(shown), MovieCard.FullStar) == shown
  {
    var row, card := StarRow(shown), MovieCard.RenderStars(shown).value;
    assert forall i :: 0 <= i < 5 ==> row[i] == card[i];
    MovieCard.StarsCount(shown);
  }

  const PictureMark := "\U{1F5BC}\U{FE0F}"

  /** The label of a user in the select: an image icon is shown as a picture
      mark, any other icon as itself, then a space and the name. */
  function OptionLabel(u: UserSummary): (text: string)
    ensures MovieCard.IsImageUrl(u.icon) ==> text == PictureMark + " " + u.name
    ensures !MovieCard.IsImageUrl(u.icon) ==> text == u.icon + " " + u.name
  {
    (if MovieCard.IsImageUrl(u.icon) then PictureMark else u.icon) + " " + u.name
  }

  /** A label never starts with an image URL: an icon that is one was
      replaced by the picture mark, and any other icon is followed by a
      space, which none of the URL prefixes holds. */
  lemma {:induction false} LabelHidesImageUrls(u: UserSummary)
    ensures !MovieCard.IsImageUrl(OptionLabel(u))
  {
    var l := OptionLabel(u);
    if MovieCard.IsImageUrl(u.icon) {
      assert l[0] == '\U{1F5BC}';
    } else {
      NotStartedAfterSpace(u.icon, u.name, "data:image/");
      NotStartedAfterSpace(u.icon, u.name, "http://");
      NotStartedAfterSpace(u.icon, u.name, "https://");
    }
  }

  /** Appending a space and more text cannot make a string start with a
      prefix that holds no space. */
  lemma {:induction false} NotStartedAfterSpace(icon: string, name: string, prefix: string)
    requires forall k :: 0 <= k < |prefix| ==> prefix[k] != ' '
    requires !Text.StartsWith(icon, prefix)
    ensures !Text.StartsWith(icon + " " + name, prefix)
  {
    var l := icon + " " + name;
    if |prefix| <= |l| {
      if |icon| >= |prefix| {
        assert l[..|prefix|] == icon[..|prefix|];
      } else {
        assert l[..|prefix|][|icon|] == ' ' != prefix[|icon|];
      }
    }
  }

  /** `review.trim() || null` */
  function ReviewToSend(review: string): (r: Option<string>)
    ensures r.None? <==> Text.AllSpace(review)
    ensures r.Some? ==> r.value == Text.Trim(review) && r.value != ""
  {
    var t := Text.Trim(review);
    if t == "" then None else Some(t)
  }

  /** A request the form sends is accepted by the rating endpoint's guards
      whenever the form is for an actual movie, and the review it carries
      (the trimmed text, or null when that is empty) is stored as sent. */
  lemma {:induction false} SentRatingPassesGuards(movieId: string, userId: string, rating: int, review: string, db: DbResult)
    requires movieId != "" && userId != "" && 1 <= rating <= 5
    ensures var h := RatingsRoute.CreateRating(Some(RatingsRoute.RatingInput(Some(movieId), Some(userId), Some(rating), ReviewToSend(review))), db);
            h.write == Some(RatingsRoute.RatingData(movieId, userId, rating, ReviewToSend(review)))
  {
    var sent := ReviewToSend(review);
    assert sent.Some? ==> sent.value != "";
    StoredAsSent(movieId, userId, rating, sent, db);
  }

  lemma {:induction false} StoredAsSent(movieId: string, userId: string, rating: int, review: Option<string>, db: DbResult)
    requires movieId != "" && userId != "" && 1 <= rating <= 5
    requires review.Some? ==> review.value != ""
    ensures var h := RatingsRoute.CreateRating(Some(RatingsRoute.RatingInput(Some(movieId), Some(userId), Some(rating), review)), db);
            h.write == Some(RatingsRoute.RatingData(movieId, userId, rating, review))
  {
    var input := RatingsRoute.RatingInput(Some(movieId), Some(userId), Some(rating), review);
    assert RatingsRoute.Acceptable(input);
    assert OrNull(review) == review;
  }

  class RatingFormState {
    var users: seq<UserSummary>
    var selectedUserId: string
    var rating: int
    var hoverRating: int
    var review: string
    var loading: bool
    var showUserForm: bool
    var newUserName: string
    var newUserIcon: string

    /** What every handler keeps: a rating of 1 to 5 stars, a hover of 0
        (none) to 5, and an icon from the offered set. */
    predicate Valid()
      reads this
    {
      1 <= rating <= 5 && 0 <= hoverRating <= 5 && newUserIcon in CommonIcons
    }

    constructor ()
      ensures Valid()
      ensures users == [] && selectedUserId == "" && rating == 5 && hoverRating == 0 && review == ""
      ensures !loading && !showUserForm && newUserName == "" && newUserIcon == "😊"
    {
      users := [];
      selectedUserId := "";
      rating := 5;
      hoverRating := 0;
      review := "";
      loading := false;
      showUserForm := false;
      newUserName := "";
      newUserIcon := "😊";
    }

    /** `hoverRating || rating`: the value the picker shows. */
    function Displayed(): (d: int)
      reads this
      requires Valid()
      ensures 1 <= d <= 5
      ensures hoverRating != 0 ==> d == hoverRating
      ensures hoverRating == 0 ==> d == rating
    {
      if hoverRating != 0 then hoverRating else rating
    }

    /** Star `star` is lit. */
    predicate StarLit(star: int)
      reads this
      requires Valid()
    {
      star <= Displayed()
    }

    /** The picker's row is the row of the displayed value. */
    lemma {:induction false} PickerRow()
      requires Valid()
      ensures forall i :: 0 <= i < 5 ==> (StarLit(i + 1) <==> StarRow(Displayed())[i] == MovieCard.FullStar)
      ensures MovieCard.CountOf(StarRow(Displayed()), MovieCard.FullStar) == Displayed()
    {
      StarRowLightsShown(Displayed());
    }

    /** `fetchUsers`: the fetched list replaces the users; the first one is
        selected when there is one and nothing is selected yet. A failed
        fetch (`data` None) changes nothing. */
    method FetchUsers(data: Option<seq<UserSummary>>)
      requires Valid()
      modifies this
      ensures Valid()
      ensures data.Some? ==> users == data.value
      ensures data.Some? && |data.value| > 0 && old(selectedUserId) == "" ==> selectedUserId == data.value[0].id
      ensures !(data.Some? && |data.value| > 0 && old(selectedUserId) == "") ==> selectedUserId == old(selectedUserId)
      ensures data.None? ==> users == old(users)
      ensures rating == old(rating) && hoverRating == old(hoverRating) && review == old(review)
      ensures newUserName == old(newUserName) && newUserIcon == old(newUserIcon) && showUserForm == old(showUserForm)
    {
      if data.Some? {
        users := data.value;
        if |data.value| > 0 && selectedUserId == "" {
          selectedUserId := data.value[0].id;
        }
      }
    }

    /** Choosing a user in the select. */
    method SelectUser(id: string)
      requires Valid()
      modifies this`selectedUserId
      ensures Valid() && selectedUserId == id
    {
      selectedUserId := id;
    }

    /** Clicking star `star`. */
    method ClickStar(star: int)
      requires Valid() && 1 <= star <= 5
      modifies this`rating
      ensures Valid() && rating == star
    {
      rating := star;
    }

    /** The pointer entering star `star`: the picker shows `star`. */
    method HoverStar(star: int)
      requires Valid() && 1 <= star <= 5
      modifies this`hoverRating
      ensures Valid() && hoverRating == star && Displayed() == star
    {
      hoverRating := star;
    }

    /** The pointer leaving the row: the picker shows the rating again. */
    method LeaveStars()
      requires Valid()
      modifies this`hoverRating
      ensures Valid() && hoverRating == 0 && Displayed() == rating
    {
      hoverRating := 0;
    }

    /** Typing in the review box. */
    method EditReview(text: string)
      requires Valid()
      modifies this`review
      ensures Valid() && review == text
    {
      review := text;
    }

    /** `handleSubmit`: without a selected user nothing is sent and nothing
        changes. Otherwise the rating is sent with the trimmed review (or
        null); `accepted` is `response.ok`, after which the review is cleared
        and the rating goes back to 5. */
    method Submit(movieId: string, accepted: bool) returns (sent: Option<RatingsRoute.RatingInput>)
      requires Valid()
      modifies this`review, this`rating, this`loading
      ensures Valid()
      ensures old(selectedUserId) == "" ==> sent == None && review == old(review) && rating == old(rating) && loading == old(loading)
      ensures old(selectedUserId) != "" ==>
        sent == Some(RatingsRoute.RatingInput(Some(movieId), Some(selectedUserId), Some(old(rating)), ReviewToSend(old(review))))
        && !loading
      ensures old(selectedUserId) != "" && accepted ==> review == "" && rating == 5
      ensures old(selectedUserId) != "" && !accepted ==> review == old(review) && rating == old(rating)
    {
      if selectedUserId == "" {
        return None;
      }
      loading := true;
      sent := Some(RatingsRoute.RatingInput(Some(movieId), Some(selectedUserId), Some(rating), ReviewToSend(review)));
      if accepted {
        review := "";
        rating := 5;
      }
      loading := false;
    }

    /** Showing or hiding the user-creation form. */
    method ToggleUserForm()
      requires Valid()
      modifies this`showUserForm
      ensures Valid() && showUserForm == !old(showUserForm)
    {
      showUserForm := !showUserForm;
    }

    /** Typing the new user's name. */
    method EditNewUserName(text: string)
      requires Valid()
      modifies this`newUserName
      ensures Valid() && newUserName == text
    {
      newUserName := text;
    }

    /** Picking one of the offered icons. */
    method PickIcon(icon: string)
      requires Valid() && icon in CommonIcons
      modifies this`newUserIcon
      ensures Valid() && newUserIcon == icon
    {
      newUserIcon := icon;
    }

    /** `handleCreateUser`: a name that trims to nothing sends nothing.
        Otherwise the trimmed name and the icon are sent; `created` is the
        user in a successful response (None otherwise), which is appended to
        the list and selected, and the form is cleared and closed. */
    method CreateUser(created: Option<UserSummary>) returns (sent: Option<UsersRoute.UserInput>)
      requires Valid()
      modifies this`users, this`selectedUserId, this`newUserName, this`showUserForm
      ensures Valid()
      ensures Text.AllSpace(old(newUserName)) ==> sent == None && unchanged(this)
      ensures !Text.AllSpace(old(newUserName)) ==>
        sent == Some(UsersRoute.UserInput(Some(Text.Trim(old(newUserName))), Some(newUserIcon)))
      ensures !Text.AllSpace(old(newUserName)) && created.Some? ==>
        users == old(users) + [created.value] && selectedUserId == created.value.id
        && newUserName == "" && !showUserForm
      ensures Text.AllSpace(old(newUserName)) || created.None? ==>
        users == old(users) && selectedUserId == old(selectedUserId)
        && newUserName == old(newUserName) && showUserForm == old(showUserForm)
    {
      var name := Text.Trim(newUserName);
      if name == "" {
        return None;
      }
      sent := Some(UsersRoute.UserInput(Some(name), Some(newUserIcon)));
      if created.Some? {
        users := users + [created.value];
        selectedUserId := created.value.id;
        newUserName := "";
        showUserForm := false;
      }
    }
  }

  /** A user-creation request the form sends always passes the user
      endpoint's guard: the name is non-blank and the icon one of the
      offered ones. */
  lemma {:induction false} SentUserPassesGuard(name: string, icon: string, db: DbResult)
    requires !Text.AllSpace(name) && icon in CommonIcons
    ensures UsersRoute.CreateUser(Some(UsersRoute.UserInput(Some(Text.Trim(name)), Some(icon))), db).write
            == Some(UsersRoute.UserData(Text.Trim(name), icon))
  {
    assert icon != "";
  }
}
