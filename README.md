# Movie rating app — a verified model of its core

The application is a small movie-rating site: a list of movies with their
average star rating, a form to rate a movie as one of several local users,
user creation with an emoji or image icon, image upload as a data URL, a
notification feed, a log file writer and a database connection diagnostic.

This Dafny project models the logic of that site that does not depend on the
database, the browser or the file system:

- the four API routes for movies, ratings, users and uploads (`src/movies_route.dfy`,
  `src/ratings_route.dfy`, `src/users_route.dfy`, `src/upload_route.dfy`), with the
  database reduced to the outcome of its call (`Ok`, `UniqueViolation`, `OtherFailure`)
  or to the rows it returns;
- the shared API error handler and its route wrapper (`src/api_error_handler.dfy`);
- the movie card, the sortable movie list and the rating form (`src/movie_card.dfy`,
  `src/movie_list.dfy`, `src/rating_form.dfy`); the list and the form keep state that
  their handlers update, so each is a class whose methods are the handlers;
- the notification page's icon, colour, link and relative-time helpers
  (`src/notifications_page.dfy`);
- the password mask and the host, port and username checks of the connection
  diagnostic (`src/diagnose_connection.dfy`);
- the log-line format and the old-log cleanup rule (`src/logger.dfy`).

Shared pieces: `src/common.dfy` (JavaScript truthiness of optional strings, the
database outcome, replies, the 201/409/500 mapping of a create call),
`src/text.dfy` (`startsWith`, `includes`, `repeat`, `trim` and decimal rendering)
and `src/base64.dfy` (the base64 encoding of section 4 of RFC 4648, with a
reference decoder).

Conventions. A JSON field that is absent or null is `None`; an empty string is
`Some("")`, and both are falsy. A request body that is not JSON is `None`, and the
route's catch answers it. Times are integer milliseconds. Average ratings are kept
in exact integer tenths: `averageRating` is `averageTenths / 10`.

Where the repository's own documentation and its code disagree, the model follows
the code:

- the movie listing averages and counts every rating row attached to a movie,
  replies included; the code applies no `parentId` filter (`MoviesRoute.RepliesAreCounted`);
- a successful upload answers with the default status 200, not 201.

## Model

| member | source | states |
|---|---|---|
| Common.OrNull | app/api/ratings/route.ts:50 | `value or null`: a truthy string is kept, an empty or absent one becomes null, so a stored optional string is never empty |
| Common.CreateReply | app/api/movies/route.ts:74-86 | the create call decides the status: 201 with the created record iff it succeeds, 409 with the conflict message iff it hits a unique constraint, 500 with the failure message otherwise |
| Text.Repeat | components/MovieCard.tsx:64 | `repeat(n)` on a one-character string gives exactly n copies of that character |
| Text.Trim | components/RatingForm.tsx:72 | `trim()` keeps a contiguous middle part of the input, removes only white space around it, never starts or ends with white space, and is empty iff the input is all white space |
| Text.TrimIdempotent | components/RatingForm.tsx:94 | trimming an already trimmed name changes nothing |
| Text.NatToString | app/notifications/page.tsx:108 | the decimal text of a count is all digits, non-empty, with no leading zero |
| Text.NatToStringRoundTrip | app/notifications/page.tsx:108-110 | reading the decimal text back gives the number |
| Text.NatToStringInjective | app/notifications/page.tsx:108-110 | different counts have different decimal texts |
| Text.IntToString | lib/api-error-handler.ts:51 | the decimal text of a status: a minus sign exactly for negative values, then the digits of the magnitude |
| Base64.CharOf | app/api/upload/route.ts:33 | every sextet maps to a character of the RFC 4648 alphabet whose value is that sextet |
| Base64.Encode | app/api/upload/route.ts:33 | the encoding of n bytes has length 4·⌈n/3⌉ and uses only alphabet and padding characters |
| Base64.Decode | app/api/upload/route.ts:33 | the reference decoder accepts only texts whose length is a multiple of 4 |
| Base64.TripleRoundTrip | app/api/upload/route.ts:33 | a full 3-byte group decodes back from its four characters |
| Base64.DecodeEncode | app/api/upload/route.ts:33 | decoding the encoding of any byte string gives back exactly those bytes, padding included |
| Base64.EncodeInjective | app/api/upload/route.ts:33 | different byte strings never share an encoding |
| ApiErrorHandler.ErrorText | lib/api-error-handler.ts:28 | the detail text is the thrown message when truthy, else the caller's message |
| ApiErrorHandler.ErrorCode | lib/api-error-handler.ts:29 | the code is the thrown code when truthy, else "UNKNOWN"; it is never empty |
| ApiErrorHandler.LogFor | lib/api-error-handler.ts:44-52 | status 500 logs at error level, any other status from 400 up at warn level with the status in the text, a status below 400 logs nothing |
| ApiErrorHandler.HandleApiError | lib/api-error-handler.ts:16-75 | defaults 500 / "Internal server error" / "unknown" / "unknown"; the response status is the status option and `error` is the option message; development adds details, code and (when truthy) the stack; production omits details and stack and carries the code iff the status is not 500 |
| ApiErrorHandler.ErrorFieldIgnoresThrownText | lib/api-error-handler.ts:58 | two different thrown errors give the same `error` field and the same status |
| ApiErrorHandler.ProductionHidesInternalErrors | lib/api-error-handler.ts:68-74 | outside development a 500 response is the same whatever was thrown |
| ApiErrorHandler.WithErrorHandling | lib/api-error-handler.ts:80-93 | the handler's response passes through unchanged; a throw becomes `handleApiError` with the route name and the request method and no status option |
| ApiErrorHandler.WrappedThrowIs500 | lib/api-error-handler.ts:87-92 | a wrapped handler that throws is answered 500 with the generic message, logged at error level under the route and method, and without a code in production |
| MoviesRoute.AverageTenths | app/api/movies/route.ts:22-25 | the average in tenths is 0 without ratings, else 10·sum/n rounded half up, stated as the pair of inequalities that defines that rounding |
| MoviesRoute.SumBounds | app/api/movies/route.ts:24 | ratings of 1 to 5 stars sum to between n and 5n |
| MoviesRoute.AverageInStarRange | app/api/movies/route.ts:33 | with at least one rating and every rating between 1 and 5, the average lies between 1.0 and 5.0 |
| MoviesRoute.UniformAverage | app/api/movies/route.ts:33 | when all ratings equal v, the average is exactly v.0 |
| MoviesRoute.UniformSum | app/api/movies/route.ts:24 | n equal ratings v sum to n·v |
| MoviesRoute.ListMovies | app/api/movies/route.ts:4-56 | a failed fetch answers 500 with an empty array, never an error object; otherwise 200 with one entry per fetched movie, in order, each carrying the movie's fields, its rating count and average, and its ratings mapped one to one |
| MoviesRoute.RepliesAreCounted | app/api/movies/route.ts:21 | a rating row with a parent still counts: adding one raises the count by one and the sum by its rating |
| MoviesRoute.CreateMovie | app/api/movies/route.ts:58-88 | a create call happens iff the body parses and has a truthy title; a falsy title answers 400 "Title is required"; a falsy image is stored as null; the create outcome decides 201/409/500 |
| MoviesRoute.CreateMovieStatuses | app/api/movies/route.ts:63-86 | every POST ends in 201, 400, 409 or 500, and only 201 carries the movie |
| RatingsRoute.CreateRating | app/api/ratings/route.ts:26-72 | a create call happens iff movieId, userId and rating are truthy and the rating is between 1 and 5; a falsy field answers 400 "required" before the range check answers 400 "between 1 and 5"; the review is stored as the value or null |
| RatingsRoute.ZeroIsMissingNotOutOfRange | app/api/ratings/route.ts:31-43 | a rating of 0 is reported as missing; 6 and -1 as out of range |
| RatingsRoute.StoredRatingInRange | app/api/ratings/route.ts:38-50 | every stored rating is between 1 and 5, and its review is null or non-empty |
| RatingsRoute.CreateRatingStatuses | app/api/ratings/route.ts:31-70 | every POST ends in 201, 400, 409 or 500, and 201 or 409 only after both guards passed |
| UsersRoute.ListUsers | app/api/users/route.ts:5-22 | a failed fetch answers 500 "Failed to fetch users"; otherwise 200 with the users as fetched, in ascending creation order |
| UsersRoute.CreateUser | app/api/users/route.ts:24-59 | corrected POST: a create call happens iff name and icon are truthy; otherwise 400 "Name and icon are required"; the create outcome decides 201/409/500 |
| UsersRoute.CreateUserAsWritten | app/api/users/route.ts:45-58 | POST as written: a unique violation throws out of the catch block instead of answering; every other input is answered as the corrected POST answers it |
| UsersRoute.DuplicateNameNeverAnswered409 | app/api/users/route.ts:48 | a valid body that hits the unique constraint is not answered 409 by the code as written |
| UsersRoute.AsWrittenAgreesElsewhere | app/api/users/route.ts:24-59 | without a unique violation, the code as written and the corrected POST agree |
| UploadRoute.DataUrl | app/api/upload/route.ts:31-34 | the URL is "data:" + type + ";base64," followed by text that decodes back to the file's bytes, per section 3 of RFC 2397, and its length is 13 + \|type\| + 4·⌈n/3⌉ |
| UploadRoute.Upload | app/api/upload/route.ts:4-45 | no file answers 400, then a type not starting with "image/" answers 400, then a size above 5·1024·1024 answers 400; status 200 with the data URL iff all three checks pass and the bytes are read; an unreadable form, or bytes of an admitted file that cannot be read, go to the error handler with status 500 and "Failed to upload image" |
| UploadRoute.SizeLimitInclusive | app/api/upload/route.ts:22-28 | exactly 5,242,880 bytes is accepted, one byte more is refused |
| UploadRoute.TypeCheckedBeforeSize | app/api/upload/route.ts:14-28 | a file that is neither an image nor small enough is refused for its type |
| UploadRoute.UnreadableFormIs500 | app/api/upload/route.ts:31-44 | a failure to read the form, or the bytes of an admitted file, is answered 500 without an error code outside development |
| UploadRoute.UploadedUrlIsImage | app/api/upload/route.ts:31-36 | every URL returned starts with "data:image/" |
| MovieCard.OfferedIconsAreEmoji | components/MovieCard.tsx:8-14 | none of the icons the user form offers is taken for an image URL |
| MovieCard.DataImagePrefixIsImage | components/MovieCard.tsx:8-14 | any icon starting with "data:image/", such as an uploaded one, is shown as an image |
| MovieCard.RenderStars | components/MovieCard.tsx:63-65 | for a rating from 0 to 5 the stars are 5 characters, filled up to the rating and empty after it; any other rating makes `repeat` throw |
| MovieCard.StarsCount | components/MovieCard.tsx:63-65 | the star string of rating r holds exactly r filled stars |
| MovieCard.Fixed1 | components/MovieCard.tsx:142-144 | `toFixed(1)` of a non-negative tenths value: digits, a point, one digit |
| MovieCard.Fixed1RoundTrip | components/MovieCard.tsx:234 | reading the one-decimal text back gives the tenths |
| MovieCard.AverageText | components/MovieCard.tsx:234 | a positive average is shown with one decimal, and "無" is shown iff the average is not positive |
| MovieCard.AvatarOf | components/MovieCard.tsx:84-94 | an icon is drawn as a picture iff it is an image URL, and as text otherwise |
| MovieCard.RecentRaters | components/MovieCard.tsx:71-99 | nothing iff there are no ratings; otherwise the avatars of the first min(3, n) raters, in order |
| MovieCard.HistoryOf | components/MovieCard.tsx:258-289 | one history entry per rating, in order, with its stars and its review shown only when truthy |
| MovieCard.RenderCard | components/MovieCard.tsx:100-291 | the badge shows iff the card has an image and the average is above 0 and below 3.0; average text, count and recent raters as above; the history block exists iff the view is large and there are ratings |
| MovieCard.ListedMovieCard | components/MovieCard.tsx:68 | an unrated movie of the listing never gets the badge and shows "無"; with ratings of 1 to 5 the card renders and gets the badge exactly when it has an image and its rounded average is below 3.0 |
| MovieList.InsertPermutes | components/MovieList.tsx:55-66 | inserting keeps every movie, adds exactly the inserted one |
| MovieList.InsertInOrder | components/MovieList.tsx:55-66 | inserting into a list sorted by the comparator keeps it sorted |
| MovieList.SortInOrder | components/MovieList.tsx:55-66 | the sorted list is non-decreasing in the key for "asc" and non-increasing for "desc" |
| MovieList.SortPermutes | components/MovieList.tsx:55 | the sorted list is a permutation of the movies |
| MovieList.InsertWithKey | components/MovieList.tsx:55-66 | insertion places a movie after every movie with the same key |
| MovieList.SortStable | components/MovieList.tsx:55-66 | movies with equal keys keep their fetched relative order |
| MovieList.SameKeyFlips | components/MovieList.tsx:69-71 | choosing the current key flips the order and keeps the key; doing it twice restores the state |
| MovieList.OtherKeyResets | components/MovieList.tsx:72-76 | choosing another key selects it and resets the order to "desc" |
| MovieList.MovieListState.constructor | components/MovieList.tsx:32-36 | no movies, loading, sorted by date, descending |
| MovieList.MovieListState.FetchMovies | components/MovieList.tsx:39-49 | a successful fetch replaces the movies, a failed one keeps them; loading ends either way; the sort state is untouched |
| MovieList.MovieListState.HandleSortChange | components/MovieList.tsx:68-77 | the new key and order are the toggle of the old ones; the movies are untouched |
| MovieList.MovieListState.SortedMovies | components/MovieList.tsx:55-66 | a permutation of the movies, ordered by the chosen key and direction, stable for equal keys, computed on a copy |
| RatingForm.StarRow | components/RatingForm.tsx:209-222 | star s is filled iff s is at most the displayed value |
| RatingForm.StarRowLightsShown | components/RatingForm.tsx:209-222 | the picker's row equals the card's star string for the same value and fills exactly that many stars |
| RatingForm.OptionLabel | components/RatingForm.tsx:143-147 | a user's option shows a picture mark for an image icon, the icon itself otherwise, then the name |
| RatingForm.LabelHidesImageUrls | components/RatingForm.tsx:145 | for every user, the option label is not an image URL (no `data:image/`, `http://` or `https://` prefix) |
| RatingForm.ReviewToSend | components/RatingForm.tsx:72 | the review sent is the trimmed text, or null iff the text is all white space |
| RatingForm.SentRatingPassesGuards | components/RatingForm.tsx:63-74 | a rating the form sends for a movie passes both guards of the rating endpoint, and the review it sends is the review stored |
| RatingForm.StoredAsSent | app/api/ratings/route.ts:31-50 | a request with both ids, a rating of 1 to 5 and a null or non-empty review is stored exactly as sent |
| RatingForm.SentUserPassesGuard | components/RatingForm.tsx:100-109 | a user the form sends always passes the user endpoint's guard and is stored with the trimmed name and the chosen icon |
| RatingForm.RatingFormState.constructor | components/RatingForm.tsx:27-35 | no users, nothing selected, rating 5, no hover, empty review and name, the smiling icon |
| RatingForm.RatingFormState.Displayed | components/RatingForm.tsx:216-226 | the hover value when non-zero, else the rating; always 1 to 5 |
| RatingForm.RatingFormState.PickerRow | components/RatingForm.tsx:209-222 | exactly the displayed number of stars is lit |
| RatingForm.RatingFormState.FetchUsers | components/RatingForm.tsx:41-52 | loaded users replace the list; the first is selected only if the list is non-empty and nothing was selected; a failed fetch changes nothing |
| RatingForm.RatingFormState.SelectUser | components/RatingForm.tsx:139 | the chosen user becomes the selection |
| RatingForm.RatingFormState.ClickStar | components/RatingForm.tsx:213 | clicking star s sets the rating to s |
| RatingForm.RatingFormState.HoverStar | components/RatingForm.tsx:214 | hovering star s displays s |
| RatingForm.RatingFormState.LeaveStars | components/RatingForm.tsx:208 | leaving the row clears the hover, so the rating is displayed again |
| RatingForm.RatingFormState.EditReview | components/RatingForm.tsx:234 | the review box holds the typed text |
| RatingForm.RatingFormState.Submit | components/RatingForm.tsx:54-90 | with no selected user nothing is sent and nothing changes; otherwise the movie, user, rating and trimmed review (or null) are sent, loading ends, and after a success the review is cleared and the rating is back to 5 |
| RatingForm.RatingFormState.ToggleUserForm | components/RatingForm.tsx:151 | the user form opens or closes |
| RatingForm.RatingFormState.EditNewUserName | components/RatingForm.tsx:168 | the name box holds the typed text |
| RatingForm.RatingFormState.PickIcon | components/RatingForm.tsx:183 | the picked icon, one of the offered ones, becomes the new user's icon |
| RatingForm.RatingFormState.CreateUser | components/RatingForm.tsx:92-125 | a blank name sends nothing and changes nothing; otherwise the trimmed name and icon are sent, and a created user is appended to the list and selected, the name cleared and the form closed |
| NotificationsPage.Icon | app/notifications/page.tsx:38-57 | each of the seven listed types has its fixed icon; any other type gets the memo icon |
| NotificationsPage.IconsDistinguishTypes | app/notifications/page.tsx:38-57 | two different types, at least one of them listed, have different icons unless both are user types |
| NotificationsPage.UserTypesShareIcon | app/notifications/page.tsx:50-53 | user_create and user_update share the person icon |
| NotificationsPage.Color | app/notifications/page.tsx:59-78 | each of the seven listed types has its fixed colour classes; any other type gets gray |
| NotificationsPage.ColorsDistinct | app/notifications/page.tsx:59-78 | the seven colours and the gray default are pairwise different |
| NotificationsPage.ColorsDistinguishTypes | app/notifications/page.tsx:59-78 | two different types, at least one of them listed, have different colours |
| NotificationsPage.EntityLink | app/notifications/page.tsx:80-97 | no link when entityId or entityType is missing or empty; a movie links to its page, a user to the user list, a rating to the page of the movie in its metadata (no link without one), anything else to nothing |
| NotificationsPage.LinkedMovie | app/notifications/page.tsx:85 | reads the movie id back out of a movie-page link, and only out of one |
| NotificationsPage.LinksLeadToTheirMovie | app/notifications/page.tsx:83-96 | a movie notification leads to that movie, a rating notification to the movie in its metadata, a user notification to no movie page |
| NotificationsPage.FormatTime | app/notifications/page.tsx:99-112 | "just now" iff less than a minute has passed (future times included); then minutes below an hour, hours below a day, days below a week, each the floored count of elapsed units; the date otherwise |
| NotificationsPage.LabelsOnlyAge | app/notifications/page.tsx:102-111 | as time passes a label never moves back to an earlier bucket, and its count never decreases within a bucket |
| NotificationsPage.LabelText | app/notifications/page.tsx:107-111 | the date label shows the locale date text |
| NotificationsPage.RelativeTextsDiffer | app/notifications/page.tsx:107-110 | two relative labels with the same text are the same bucket with the same count |
| DiagnoseConnection.RunEnd | scripts/diagnose-connection.ts:64 | the character class `[^:@]+` stops at the first colon or at sign |
| DiagnoseConnection.MatchFrom | scripts/diagnose-connection.ts:64 | the scan finds the leftmost match of `:([^:@]+)@` from a position, or proves there is none |
| DiagnoseConnection.Mask | scripts/diagnose-connection.ts:64 | a string with no match is unchanged; otherwise only the leftmost match is replaced by ":****@", and the text before and after it is kept |
| DiagnoseConnection.MaskIdempotent | scripts/diagnose-connection.ts:64 | masking a masked URL changes nothing |
| DiagnoseConnection.CheckUsername | scripts/diagnose-connection.ts:25-31 | the username is judged correct iff it contains "." |
| DiagnoseConnection.CheckHost | scripts/diagnose-connection.ts:34-41 | pooler iff the host contains "pooler.supabase.com"; direct iff not that but it contains "supabase.co"; unknown iff it does not contain "supabase.co" |
| DiagnoseConnection.PoolerContainsDomain | scripts/diagnose-connection.ts:34-36 | every pooler host also contains "supabase.co", so the pooler test must come first |
| DiagnoseConnection.CheckPort | scripts/diagnose-connection.ts:44-51 | session iff the port is "5432", transaction iff it is "6543", unexpected otherwise |
| DiagnoseConnection.DatabaseName | scripts/diagnose-connection.ts:18 | the database name is the pathname without its first character; an empty pathname gives an empty name |
| DiagnoseConnection.Diagnose | scripts/diagnose-connection.ts:6-70 | a URL the parser rejects gives no report; otherwise the report holds the four verdicts and the masked URL |
| Logger.ErrorLines | lib/logger.ts:35-44 | no error adds nothing; an Error adds its message line first and a stack line only with a truthy stack; any other truthy value adds its JSON text |
| Logger.FormatLogMessage | lib/logger.ts:31-47 | the line starts with "[timestamp] [level] message", is that header plus the error lines, and ends with a newline; with no error it is exactly header plus newline |
| Logger.StackOnlyWhenPresent | lib/logger.ts:36-40 | an Error logs its stack exactly when the stack is truthy |
| Logger.HeaderFields | lib/logger.ts:33 | reads a timestamp and a level off the front of a line, and only fields the line does start with |
| Logger.HeaderReadsBack | lib/logger.ts:33 | the timestamp and level of any formatted line are read back as written when neither contains "]" |
| Logger.MaxAgeMs | lib/logger.ts:144-148 | the cutoff is days · 86,400,000 ms, 7 days when the argument is omitted |
| Logger.ExpiredNamesExact | lib/logger.ts:150-159 | every deleted file is strictly older than the cutoff; when every status can be read, every such file is deleted |
| Logger.LongerCutoffDeletesLess | lib/logger.ts:153-156 | a longer cutoff never deletes a file the shorter one keeps |
| Logger.CleanupOldLogs | lib/logger.ts:144-163 | an unreadable directory deletes nothing and is caught; otherwise the files deleted are the expired ones, in listing order, up to the first whose status cannot be read, and the catch runs iff some status cannot be read |

## Left out

- The database: every `prisma` call is reduced to its outcome or to the rows it returns; the listing order of movies and the relations are not modelled. The users' creation order is a precondition of `UsersRoute.ListUsers`, since only the database can ensure it.
- GET of the rating collection, the routes for single movies and ratings, the notification routes and `lib/notifications.ts`, the health and configuration routes: they pass database results through.
- Floating point: averages, `Math.round` and `toFixed(1)` are exact integer tenths with half-up rounding; binary rounding drift at `.x5` boundaries and non-integer ratings in JSON are not modelled.
- JavaScript coercions of ill-typed JSON fields (a rating sent as a string, a title sent as a number) are not modelled; fields are strings and integers.
- The clock and dates: `Date.now`, `new Date`, `toISOString` and the zh-TW locale formatting are inputs; a date string that does not parse is not modelled.
- The logger's side effects (console, `appendFileSync`, directory creation), the details object `handleApiError` passes to it, and the log line written for each deleted file.
- Logger.CleanupOldLogs: a failure of `unlinkSync` is not modelled; only a failure to read a file's status stops the loop.
- The `URL` parser in the diagnostic script and its console output; the same mask in `scripts/test-connection.ts` is the one modelled here.
- `Buffer` and `File` internals in the upload route: the file is its MIME type and its bytes; a form field holding a string instead of a file is not modelled.
- The `info`, `warn` and `debug` logger methods, which dispatch to the log files and the console; each JSON-encodes its data before `formatLogMessage` encodes that string again, so all three double-encode their data.
- JSX, styling, navigation on card click, the rating modal, alerts, the `onSuccess` callbacks and the intermediate `loading` value of the rating form.
- The add-movie form and the users page: their handlers only trim fields before sending.
- RatingForm.RatingFormState.FetchUsers: a 500 answer from the users endpoint is treated like a failed fetch; the page would store the error object as its user list.
- RatingForm.RatingFormState.CreateUser: the handler appends to the list captured when the page last rendered; the model appends to the current list, which is the same unless two updates race.
- NotificationsPage.EntityLink: `metadata.movieId` is taken to be a string; other JSON values are not modelled.

## Findings

| source | as written | input that shows it | evidently intended | confidence | as-written member | corrected member |
|---|---|---|---|---|---|---|
| app/api/users/route.ts:48 | the catch block reads `name`, which is declared with `const` inside the `try` block and is out of scope there, so the unique-violation branch throws a ReferenceError instead of answering | a POST of `{"name": "Ann", "icon": "x"}` when a user named Ann already exists | answer 409 "User already exists" | high, not executed | UsersRoute.CreateUserAsWritten, UsersRoute.DuplicateNameNeverAnswered409 | UsersRoute.CreateUser |
