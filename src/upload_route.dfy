/** The image upload endpoint: an ordered guard chain on the posted file, then
    the file's bytes returned as a `data:` URL (section 3 of RFC 2397) with a
    base 64 payload (section 4 of RFC 4648). */
module UploadRoute {
  import opened Common
  import Text
  import Base64
  import ApiErrorHandler

  /** A posted file: its MIME type and its bytes (its size is their number). */
  datatype UploadFile = UploadFile(mime: string, bytes: seq<Base64.uint8>)

  /** The `file` entry of the posted form: Success(None) when there is none,
      Failure(e) when reading the form data throws `e`. A failure to read
      the file's bytes, which only happens once the guards pass, is the
      separate `bytesFail` argument of `Upload`. */
  type FormRead = Result<Option<UploadFile>, ApiErrorHandler.Thrown>

  datatype UploadReply =
    | Answered(status: int, body: Body<string>)
    | FromErrorHandler(response: ApiErrorHandler.ErrorResponse)

  const MaxSize := 5 * 1024 * 1024

  const NoFile := "No file provided"
  const NotAnImage := "File must be an image"
  const TooLarge := "File size must be less than 5MB"

  /** `data:${type};base64,${base64}` */
  function DataUrl(mime: string, bytes: seq<Base64.uint8>): (url: string)
    ensures Text.StartsWith(url, "data:" + mime + ";base64,")
    ensures Base64.Decode(url[|"data:" + mime + ";base64,"|..]) == Some(bytes)
    ensures |url| == 13 + |mime| + 4 * ((|bytes| + 2) / 3)
  {
    var prefix := "data:" + mime + ";base64,";
    var url := prefix + Base64.Encode(bytes);
    assert url[..|prefix|] == prefix && url[|prefix|..] == Base64.Encode(bytes);
    Base64.DecodeEncode(bytes);
    url
  }

  /** The reply of the error handler for a thrown `e`. */
  function UploadFailed(e: ApiErrorHandler.Thrown, development: bool): ApiErrorHandler.ErrorResponse
  {
    ApiErrorHandler.HandleApiError(e,
      ApiErrorHandler.ErrorOptions(Some(500), Some("Failed to upload image"), Some("/api/upload"), Some("POST")),
      development)
  }

  /** The file passes the three guards. */
  predicate Admitted(form: FormRead)
  {
    form.Success? && form.value.Some? && Text.StartsWith(form.value.value.mime, "image/")
    && |form.value.value.bytes| <= MaxSize
  }

  /** POST /api/upload. `development` is `NODE_ENV === "development"`;
      `bytesFail` is Some(e) when `file.arrayBuffer()` rejects with `e`. */
  function Upload(form: FormRead, bytesFail: Option<ApiErrorHandler.Thrown>, development: bool): (r: UploadReply)
    ensures form.Success? && form.value.None? ==> r == Answered(400, ErrorMessage(NoFile))
    ensures form.Success? && form.value.Some? && !Text.StartsWith(form.value.value.mime, "image/")
            ==> r == Answered(400, ErrorMessage(NotAnImage))
    ensures form.Success? && form.value.Some? && Text.StartsWith(form.value.value.mime, "image/")
            && |form.value.value.bytes| > MaxSize
            ==> r == Answered(400, ErrorMessage(TooLarge))
    ensures r.Answered? && r.status == 200 <==> Admitted(form) && bytesFail.None?
    ensures r.Answered? && r.status == 200 ==>
            r.body == Payload(DataUrl(form.value.value.mime, form.value.value.bytes))
    ensures form.Failure? ==> r == FromErrorHandler(UploadFailed(form.error, development))
    ensures Admitted(form) && bytesFail.Some? ==> r == FromErrorHandler(UploadFailed(bytesFail.value, development))
  {
    match form
    case Failure(e) => FromErrorHandler(UploadFailed(e, development))
    case Success(None) => Answered(400, ErrorMessage(NoFile))
    case Success(Some(file)) =>
      if !Text.StartsWith(file.mime, "image/") then Answered(400, ErrorMessage(NotAnImage))
      else if |file.bytes| > MaxSize then Answered(400, ErrorMessage(TooLarge))
      else if bytesFail.Some? then FromErrorHandler(UploadFailed(bytesFail.value, development))
      else Answered(200, Payload(DataUrl(file.mime, file.bytes)))
  }

  /** The size limit is inclusive: a file of exactly 5 MiB is accepted, one
      byte more is refused. */
  lemma {:induction false} SizeLimitInclusive(mime: string, bytes: seq<Base64.uint8>, development: bool)
    requires Text.StartsWith(mime, "image/")
    ensures |bytes| == 5242880 ==> Upload(Success(Some(UploadFile(mime, bytes))), None, development).Answered?
                                   && Upload(Success(Some(UploadFile(mime, bytes))), None, development).status == 200
    ensures |bytes| == 5242881 ==> Upload(Success(Some(UploadFile(mime, bytes))), None, development)
                                   == Answered(400, ErrorMessage(TooLarge))
  {
  }

  /** The type check comes before the size check: an oversized non-image is
      refused as not being an image. */
  lemma {:induction false} TypeCheckedBeforeSize(file: UploadFile, bytesFail: Option<ApiErrorHandler.Thrown>, development: bool)
    requires !Text.StartsWith(file.mime, "image/") && |file.bytes| > MaxSize
    ensures Upload(Success(Some(file)), bytesFail, development) == Answered(400, ErrorMessage(NotAnImage))
  {
  }

  /** A failure while reading the form, or the bytes of an admitted file,
      is a 500 with the upload message, and outside development no error
      code is revealed. */
  lemma {:induction false} UnreadableFormIs500(form: FormRead, bytesFail: Option<ApiErrorHandler.Thrown>)
    requires form.Failure? || (Admitted(form) && bytesFail.Some?)
    ensures var r := Upload(form, bytesFail, false);
            r.FromErrorHandler? && r.response.status == 500
            && r.response.body == ApiErrorHandler.ErrorBody("Failed to upload image", None, None, None)
  {
  }

  /** Every URL the endpoint returns starts with "data:image/". */
  lemma {:induction false} UploadedUrlIsImage(form: FormRead, bytesFail: Option<ApiErrorHandler.Thrown>, development: bool)
    ensures var r := Upload(form, bytesFail, development);
            r.Answered? && r.status == 200 ==> Text.StartsWith(r.body.value, "data:image/")
  {
    var r := Upload(form, bytesFail, development);
    if r.Answered? && r.status == 200 {
      var mime := form.value.value.mime;
      var url := r.body.value;
      var prefix := "data:" + mime + ";base64,";
      assert url[..|prefix|] == prefix;
      assert mime[..6] == "image/";
      assert url[..11] == prefix[..11] == "data:" + mime[..6];
    }
  }
}
