/** The notification list's presentation helpers: the icon and colour of a
    notification type, the link a notification leads to, and the relative
    time label. Times are integer milliseconds since the epoch. */
module NotificationsPage {
  import opened Common
  import Text

  /** The notification types the page knows, in the order of its switches. */
  const Listed: seq<string> := ["movie_create", "movie_update", "rating_create", "rating_update",
                                "reply_create", "user_create", "user_update"]

  const ClapperIcon := "\U{1F3AC}"
  const PencilIcon := "\U{270F}\U{FE0F}"
  const StarIcon := "\U{2B50}"
  const ArrowsIcon := "\U{1F504}"
  const SpeechIcon := "\U{1F4AC}"
  const PersonIcon := "\U{1F464}"
  const MemoIcon := "\U{1F4DD}"

  /** The icon of each listed type, index for index with `Listed`. */
  const ListedIcons: seq<string> := [ClapperIcon, PencilIcon, StarIcon, ArrowsIcon, SpeechIcon, PersonIcon, PersonIcon]

  /** `getNotificationIcon`. */
  function Icon(kind: string): (icon: string)
    ensures forall i :: 0 <= i < |Listed| && kind == Listed[i] ==> icon == ListedIcons[i]
    ensures kind !in Listed ==> icon == MemoIcon
  {
    if kind == "movie_create" then ClapperIcon
    else if kind == "movie_update" then PencilIcon
    else if kind == "rating_create" then StarIcon
    else if kind == "rating_update" then ArrowsIcon
    else if kind == "reply_create" then SpeechIcon
    else if kind == "user_create" then PersonIcon
    else if kind == "user_update" then PersonIcon
    else MemoIcon
  }

  /** The two user types share the person icon; every other pair of
      listed types, and any listed type and an unknown one, differ. */
  lemma {:induction false} IconsDistinguishTypes(a: string, b: string)
    requires a != b && !(a in {"user_create", "user_update"} && b in {"user_create", "user_update"})
    ensures a in Listed || b in Listed ==> Icon(a) != Icon(b)
  {
    assert Listed == ["movie_create", "movie_update", "rating_create", "rating_update",
                      "reply_create", "user_create", "user_update"];
    assert ClapperIcon[0] == '\U{1F3AC}' && PencilIcon[0] == '\U{270F}' && StarIcon[0] == '\U{2B50}';
    assert ArrowsIcon[0] == '\U{1F504}' && SpeechIcon[0] == '\U{1F4AC}' && PersonIcon[0] == '\U{1F464}';
    assert MemoIcon[0] == '\U{1F4DD}';
  }

  /** The two user types do share one icon. */
  lemma UserTypesShareIcon()
    ensures Icon("user_create") == Icon("user_update") == PersonIcon
  {
  }

  const ListedColors: seq<string> := [
    "bg-blue-600/20 border-blue-600/30", "bg-yellow-600/20 border-yellow-600/30",
    "bg-green-600/20 border-green-600/30", "bg-orange-600/20 border-orange-600/30",
    "bg-purple-600/20 border-purple-600/30", "bg-pink-600/20 border-pink-600/30",
    "bg-indigo-600/20 border-indigo-600/30"]
  const DefaultColor := "bg-gray-600/20 border-gray-600/30"

  /** `getNotificationColor`. */
  function Color(kind: string): (color: string)
    ensures forall i :: 0 <= i < |Listed| && kind == Listed[i] ==> color == ListedColors[i]
    ensures kind !in Listed ==> color == DefaultColor
  {
    if kind == "movie_create" then ListedColors[0]
    else if kind == "movie_update" then ListedColors[1]
    else if kind == "rating_create" then ListedColors[2]
    else if kind == "rating_update" then ListedColors[3]
    else if kind == "reply_create" then ListedColors[4]
    else if kind == "user_create" then ListedColors[5]
    else if kind == "user_update" then ListedColors[6]
    else DefaultColor
  }

  /** The seven colours and the default are pairwise different. */
  lemma ColorsDistinct()
    ensures forall i, j :: 0 <= i < j < |ListedColors| ==> ListedColors[i] != ListedColors[j]
    ensures DefaultColor !in ListedColors
  {
    var all := ListedColors + [DefaultColor];
    var marks := [('b', 'l', 'u'), ('y', 'e', 'l'), ('g', 'r', 'e'), ('o', 'r', 'a'),
                  ('p', 'u', 'r'), ('p', 'i', 'n'), ('i', 'n', 'd'), ('g', 'r', 'a')];
    forall i | 0 <= i < 8
      ensures |all[i]| > 5 && (all[i][3], all[i][4], all[i][5]) == marks[i]
    {
      if i == 7 {
        assert all[i] == DefaultColor;
      } else {
        assert all[i] == ListedColors[i];
      }
    }
  }

  /** Distinct types get distinct colours unless both are unknown, which
      get the gray default. */
  lemma {:induction false} ColorsDistinguishTypes(a: string, b: string)
    requires a != b
    ensures a in Listed || b in Listed ==> Color(a) != Color(b)
  {
    ColorsDistinct();
    if a in Listed {
      var i :| 0 <= i < |Listed| && Listed[i] == a;
      if b in Listed {
        var j :| 0 <= j < |Listed| && Listed[j] == b;
        assert i != j;
        assert ListedColors[i] != ListedColors[j];
      }
    } else if b in Listed {
      var j :| 0 <= j < |Listed| && Listed[j] == b;
      assert Color(b) == ListedColors[j];
    }
  }

  /** `getEntityLink`. `metadataMovieId` is the `movieId` of the
      notification's metadata, None when the metadata or the field is
      absent. */
  function EntityLink(entityId: Option<string>, entityType: Option<string>, metadataMovieId: Option<string>): (link: Option<string>)
    ensures !Truthy(entityId) || !Truthy(entityType) ==> link == None
    ensures Truthy(entityId) && entityType == Some("movie") ==> link == Some("/movies/" + entityId.value)
    ensures Truthy(entityId) && entityType == Some("user") ==> link == Some("/users")
    ensures Truthy(entityId) && entityType == Some("rating") ==>
      link == (if Truthy(metadataMovieId) then Some("/movies/" + metadataMovieId.value) else None)
    ensures Truthy(entityType) && entityType.value !in {"movie", "rating", "user"} ==> link == None
  {
    if !Truthy(entityId) || !Truthy(entityType) then None
    else if entityType.value == "movie" then Some("/movies/" + entityId.value)
    else if entityType.value == "rating" then
      if Truthy(metadataMovieId) then Some("/movies/" + metadataMovieId.value) else None
    else if entityType.value == "user" then Some("/users")
    else None
  }

  /** The movie a link leads to, if it leads to a movie page. */
  function LinkedMovie(link: string): (movieId: Option<string>)
    ensures movieId.Some? <==> Text.StartsWith(link, "/movies/")
    ensures movieId.Some? ==> "/movies/" + movieId.value == link
  {
    if Text.StartsWith(link, "/movies/") then Some(link[8..]) else None
  }

  /** A movie notification links to that movie's page, a rating
      notification to the page of the movie in its metadata, and a user
      notification to a page that is no movie page. */
  lemma {:induction false} LinksLeadToTheirMovie(entityId: string, metadataMovieId: Option<string>)
    requires entityId != ""
    ensures LinkedMovie(EntityLink(Some(entityId), Some("movie"), metadataMovieId).value) == Some(entityId)
    ensures Truthy(metadataMovieId) ==>
      LinkedMovie(EntityLink(Some(entityId), Some("rating"), metadataMovieId).value) == metadataMovieId
    ensures LinkedMovie(EntityLink(Some(entityId), Some("user"), metadataMovieId).value) == None
  {
    var ok := Some(entityId);
    assert Truthy(ok) && Truthy(Some("movie")) && Truthy(Some("rating")) && Truthy(Some("user"));
    var m := "/movies/" + entityId;
    assert m[..8] == "/movies/";
    if Truthy(metadataMovieId) {
      var r := "/movies/" + metadataMovieId.value;
      assert r[..8] == "/movies/";
      assert r[8..] == metadataMovieId.value;
    }
  }

  const MinuteMs := 60000
  const HourMs := 3600000
  const DayMs := 86400000

  /** The label `formatTime` chooses. */
  datatype TimeLabel = JustNow | MinutesAgo(minutes: nat) | HoursAgo(hours: nat) | DaysAgo(days: nat) | OnDate

  /** `formatTime` for a notification created at `createdMs`, shown at
      `nowMs`. Each count is the floored quotient of the elapsed time. */
  function FormatTime(createdMs: int, nowMs: int): (shown: TimeLabel)
    ensures shown.JustNow? <==> nowMs - createdMs < MinuteMs
    ensures shown.MinutesAgo? <==> MinuteMs <= nowMs - createdMs < HourMs
    ensures shown.HoursAgo? <==> HourMs <= nowMs - createdMs < DayMs
    ensures shown.DaysAgo? <==> DayMs <= nowMs - createdMs < 7 * DayMs
    ensures shown.OnDate? <==> 7 * DayMs <= nowMs - createdMs
    ensures shown.MinutesAgo? ==>
      1 <= shown.minutes < 60 && shown.minutes * MinuteMs <= nowMs - createdMs < (shown.minutes + 1) * MinuteMs
    ensures shown.HoursAgo? ==>
      1 <= shown.hours < 24 && shown.hours * HourMs <= nowMs - createdMs < (shown.hours + 1) * HourMs
    ensures shown.DaysAgo? ==>
      1 <= shown.days < 7 && shown.days * DayMs <= nowMs - createdMs < (shown.days + 1) * DayMs
  {
    var diff := nowMs - createdMs;
    var minutes := diff / MinuteMs;
    var hours := diff / HourMs;
    var days := diff / DayMs;
    if minutes < 1 then JustNow
    else if minutes < 60 then MinutesAgo(minutes)
    else if hours < 24 then HoursAgo(hours)
    else if days < 7 then DaysAgo(days)
    else OnDate
  }

  /** How far along the buckets a label is. */
  function Stage(t: TimeLabel): nat
  {
    match t
    case JustNow => 0
    case MinutesAgo(_) => 1
    case HoursAgo(_) => 2
    case DaysAgo(_) => 3
    case OnDate => 4
  }

  /** As time passes a notification's label never moves back to an earlier
      bucket, and within a bucket its count never decreases. */
  lemma {:induction false} LabelsOnlyAge(createdMs: int, nowMs: int, laterMs: int)
    requires nowMs <= laterMs
    ensures var a, b := FormatTime(createdMs, nowMs), FormatTime(createdMs, laterMs);
      Stage(a) <= Stage(b)
      && (a.MinutesAgo? && b.MinutesAgo? ==> a.minutes <= b.minutes)
      && (a.HoursAgo? && b.HoursAgo? ==> a.hours <= b.hours)
      && (a.DaysAgo? && b.DaysAgo? ==> a.days <= b.days)
  {
    var a, b := FormatTime(createdMs, nowMs), FormatTime(createdMs, laterMs);
    if a.MinutesAgo? && b.MinutesAgo? {
      FlooredCountMonotone(nowMs - createdMs, laterMs - createdMs, MinuteMs, a.minutes, b.minutes);
    }
    if a.HoursAgo? && b.HoursAgo? {
      FlooredCountMonotone(nowMs - createdMs, laterMs - createdMs, HourMs, a.hours, b.hours);
    }
    if a.DaysAgo? && b.DaysAgo? {
      FlooredCountMonotone(nowMs - createdMs, laterMs - createdMs, DayMs, a.days, b.days);
    }
  }

  lemma {:induction false} FlooredCountMonotone(x: int, y: int, unit: nat, m: int, n: int)
    requires x <= y && unit > 0
    requires m * unit <= x < (m + 1) * unit && n * unit <= y < (n + 1) * unit
    ensures m <= n
  {
    if n < m {
      MulMonotone(n + 1, m, unit);
    }
  }

  /** The label as displayed; `localeDate` is the creation date as the
      browser formats it for the zh-TW locale. */
  function LabelText(t: TimeLabel, localeDate: string): (text: string)
    ensures t.OnDate? ==> text == localeDate
  {
    match t
    case JustNow => "剛剛"
    case MinutesAgo(n) => Text.NatToString(n) + " 分鐘前"
    case HoursAgo(n) => Text.NatToString(n) + " 小時前"
    case DaysAgo(n) => Text.NatToString(n) + " 天前"
    case OnDate => localeDate
  }

  /** The count a relative label shows, and the words after it. */
  function Count(t: TimeLabel): nat
  {
    match t
    case MinutesAgo(n) => n
    case HoursAgo(n) => n
    case DaysAgo(n) => n
    case _ => 0
  }

  function Unit(t: TimeLabel): string
  {
    match t
    case MinutesAgo(_) => " 分鐘前"
    case HoursAgo(_) => " 小時前"
    case DaysAgo(_) => " 天前"
    case _ => ""
  }

  /** Two relative labels read the same only if they are the same label:
      the text gives back both the bucket and the count. */
  lemma {:induction false} RelativeTextsDiffer(a: TimeLabel, b: TimeLabel, localeDate: string)
    requires !a.OnDate? && !b.OnDate?
    requires LabelText(a, localeDate) == LabelText(b, localeDate)
    ensures a == b
  {
    var t := LabelText(a, localeDate);
    if a.JustNow? || b.JustNow? {
      if !a.JustNow? || !b.JustNow? {
        var other := if a.JustNow? then b else a;
        var digits := Text.NatToString(Count(other));
        assert false;
      }
    } else {
      assert t == Text.NatToString(Count(a)) + Unit(a);
      assert t == Text.NatToString(Count(b)) + Unit(b);
      SplitAfterDigits(Text.NatToString(Count(a)), Unit(a), Text.NatToString(Count(b)), Unit(b));
      Text.NatToStringInjective(Count(a), Count(b));
      assert Unit(a)[1] == Unit(b)[1];
    }
  }

  /** Text made of a run of digits then words that start with a non-digit
      splits at one place only. */
  lemma {:induction false} SplitAfterDigits(d1: string, w1: string, d2: string, w2: string)
    requires forall i :: 0 <= i < |d1| ==> Text.IsDigit(d1[i])
    requires forall i :: 0 <= i < |d2| ==> Text.IsDigit(d2[i])
    requires |w1| > 0 && |w2| > 0 && !Text.IsDigit(w1[0]) && !Text.IsDigit(w2[0])
    requires d1 + w1 == d2 + w2
    ensures d1 == d2 && w1 == w2
  {
    var t := d1 + w1;
    FirstNonDigit(d1, w1);
    FirstNonDigit(d2, w2);
    assert |d1| == |d2|;
    assert d1 == t[..|d1|] == d2;
    assert w1 == t[|d1|..] == w2;
  }

  /** In digits followed by words that start with a non-digit, the first
      non-digit is where the words start. */
  lemma FirstNonDigit(d: string, w: string)
    requires forall i :: 0 <= i < |d| ==> Text.IsDigit(d[i])
    requires |w| > 0 && !Text.IsDigit(w[0])
    ensures forall k :: 0 <= k < |d| ==> Text.IsDigit((d + w)[k])
    ensures !Text.IsDigit((d + w)[|d|])
  {
  }
}
