/**
 * The thumbnail upload handler, (cfg *apiConfig).handlerUploadThumbnail.
 *
 * The handler runs a fixed chain of checks, each ending the request with one
 * HTTP status when it fails:
 *   video id -> bearer token -> JWT -> multipart form -> form file -> read
 *   -> GetVideo -> owner
 * and only then embeds the image as a base64 data URI in the record's
 * thumbnail URL and writes the record back with UpdateVideo.
 *
 * The library calls the chain depends on (uuid.Parse, auth.GetBearerToken,
 * auth.ValidateJWT, Request.ParseMultipartForm) are the fields of
 * Collaborators; the parts of the form and the result of reading a part are
 * values in the request. Validate is the check chain up to the read, as a
 * function; Handle is the whole handler as a function of its inputs and the
 * store; ApiConfig.HandleUploadThumbnail is the handler itself, proved to
 * behave as Handle says.
 */
module ThumbnailHandler {
  import opened Wrappers
  import opened Bytes
  import opened Database
  import DataUri

  /** Memory threshold (10 << 20 bytes) passed to ParseMultipartForm. */
  const MaxMemory: int := 10 * 1024 * 1024

  /** The form field that holds the image. */
  const FormFileKey: string := "thumbnail"

  const ContentTypeKey: string := "Content-Type"

  const StatusOK: int := 200
  const StatusBadRequest: int := 400
  const StatusUnauthorized: int := 401
  const StatusInternalServerError: int := 500

  /** An HTTP or MIME header: canonical key to its values. */
  type Header = map<string, seq<string>>

  /** Header.Get: the first value for the key, or "" when there is none. */
  function HeaderGet(h: Header, key: string): (v: string)
    ensures key in h && h[key] != [] ==> v == h[key][0]
    ensures key !in h || h[key] == [] ==> v == ""
  {
    if key in h && |h[key]| > 0 then h[key][0] else ""
  }

  /**
   * A file part of the form: its MIME header, whether FileHeader.Open
   * succeeds on it, and what io.ReadAll returns for the opened file.
   */
  datatype FileHeader = FileHeader(header: Header, opening: Result<(), string>, contents: Result<seq<Byte>, string>)

  /** The parsed form's files: field name to the parts sent under it. */
  type MultipartForm = map<string, seq<FileHeader>>

  /**
   * Request.FormFile: the first part under the key once it has been opened;
   * an error when there is no such part or when opening it fails.
   */
  function FormFile(form: MultipartForm, key: string): (r: Result<FileHeader, string>)
    ensures r.Ok? <==> key in form && form[key] != [] && form[key][0].opening.Ok?
    ensures r.Ok? ==> r.value == form[key][0]
  {
    if key in form && |form[key]| > 0 then
      match form[key][0].opening
      case Err(e) => Err(e)
      case Ok(_) => Ok(form[key][0])
    else Err("http: no such file")
  }

  /** The incoming request: the {videoID} path value, the headers and the body. */
  datatype Request = Request(pathVideoID: string, header: Header, body: seq<Byte>)

  /** The library calls that the checks consult, with whatever results they give. */
  datatype Collaborators = Collaborators(
    parseUuid: string -> Result<Uuid, string>,
    getBearerToken: Header -> Result<string, string>,
    validateJwt: (string, string) -> Result<Uuid, string>,
    parseMultipartForm: (Header, seq<Byte>, int) -> Result<MultipartForm, string>)

  /** Whether each of the two store calls fails. */
  datatype DbFaults = DbFaults(getVideoFails: bool, updateVideoFails: bool)

  /** The steps of the handler that can end it with an error, in the order they run. */
  datatype Check =
    | ParseVideoID | GetBearerToken | ValidateJwt | ParseMultipartForm
    | GetFormFile | ReadImage | GetVideo | CheckOwner | UpdateVideo

  function StatusOf(c: Check): int
  {
    match c
    case ParseVideoID => StatusBadRequest
    case GetBearerToken => StatusUnauthorized
    case ValidateJwt => StatusUnauthorized
    case ParseMultipartForm => StatusBadRequest
    case GetFormFile => StatusBadRequest
    case ReadImage => StatusBadRequest
    case GetVideo => StatusInternalServerError
    case CheckOwner => StatusUnauthorized
    case UpdateVideo => StatusInternalServerError
  }

  function MessageOf(c: Check): string
  {
    match c
    case ParseVideoID => "Invalid ID"
    case GetBearerToken => "Couldn't find JWT"
    case ValidateJwt => "Couldn't validate JWT"
    case ParseMultipartForm => "Couldn't parse multipart form"
    case GetFormFile => "Couldn't get file"
    case ReadImage => "Couldn't read image"
    case GetVideo => "Couldn't get video from db"
    case CheckOwner => "User is not the owner of the video"
    case UpdateVideo => "Couldn't update video in db"
  }

  /** What respondWithError or respondWithJSON sends. */
  datatype Body = ErrorBody(message: string) | VideoBody(video: Video)

  datatype Response = Response(status: int, body: Body)

  /** respondWithError for the check that failed. */
  function ErrorResponse(c: Check): (r: Response)
    ensures r.body.ErrorBody? && r.status in {StatusBadRequest, StatusUnauthorized, StatusInternalServerError}
  {
    Response(StatusOf(c), ErrorBody(MessageOf(c)))
  }

  /** What the request-level checks establish: who uploads what for which video. */
  datatype Upload = Upload(videoID: Uuid, userID: Uuid, contentType: string, imageData: seq<Byte>)

  /**
   * The early returns from uuid.Parse through io.ReadAll, in order; the
   * first that fails is the error.
   */
  function Validate(jwtSecret: string, c: Collaborators, req: Request): (r: Result<Upload, Check>)
    ensures r.Err? ==> r.error in {ParseVideoID, GetBearerToken, ValidateJwt, ParseMultipartForm, GetFormFile, ReadImage}
    ensures r.Ok? ==> c.parseUuid(req.pathVideoID) == Ok(r.value.videoID)
  {
    match c.parseUuid(req.pathVideoID)
    case Err(_) => Err(ParseVideoID)
    case Ok(videoID) =>
      match c.getBearerToken(req.header)
      case Err(_) => Err(GetBearerToken)
      case Ok(token) =>
        match c.validateJwt(token, jwtSecret)
        case Err(_) => Err(ValidateJwt)
        case Ok(userID) =>
          match c.parseMultipartForm(req.header, req.body, MaxMemory)
          case Err(_) => Err(ParseMultipartForm)
          case Ok(form) =>
            match FormFile(form, FormFileKey)
            case Err(_) => Err(GetFormFile)
            case Ok(part) =>
              var contentType := HeaderGet(part.header, ContentTypeKey);
              match part.contents
              case Err(_) => Err(ReadImage)
              case Ok(imageData) => Ok(Upload(videoID, userID, contentType, imageData))
  }

  /**
   * The fetched record with its thumbnail reference replaced, as the handler
   * builds it with EncodeToString, Sprintf and `video.ThumbnailURL = &thumbnailURL`.
   */
  function WithThumbnail(video: Video, u: Upload): (v: Video)
    ensures v.id == video.id && v.userID == video.userID && v.metadata == video.metadata
    ensures v.thumbnailURL == Some(DataUri.ThumbnailDataUri(u.contentType, u.imageData))
  {
    video.(thumbnailURL := Some(DataUri.ThumbnailDataUri(u.contentType, u.imageData)))
  }

  /** The response and the store after the handler has run. */
  datatype Outcome = Outcome(response: Response, videos: map<Uuid, Video>)

  /** The whole of handlerUploadThumbnail as a function of its inputs and the store. */
  function Handle(jwtSecret: string, c: Collaborators, req: Request, videos: map<Uuid, Video>, faults: DbFaults): (o: Outcome)
    requires Keyed(videos)
    ensures Keyed(o.videos)
    ensures o.response.status == StatusOK <==> o.response.body.VideoBody?
    ensures o.response.status != StatusOK ==> o.videos == videos
    ensures o.response.status == StatusOK ==>
      var v := o.response.body.video;
      v.id in videos && o.videos == videos[v.id := v] &&
      v == videos[v.id].(thumbnailURL := v.thumbnailURL) && v.thumbnailURL.Some?
  {
    match Validate(jwtSecret, c, req)
    case Err(failed) => Outcome(ErrorResponse(failed), videos)
    case Ok(u) =>
      match Fetch(videos, u.videoID, faults.getVideoFails)
      case Err(_) => Outcome(ErrorResponse(GetVideo), videos)
      case Ok(video) =>
        if video.userID != u.userID then Outcome(ErrorResponse(CheckOwner), videos)
        else
          var updated := WithThumbnail(video, u);
          match Store(videos, updated, faults.updateVideoFails)
          case Err(_) => Outcome(ErrorResponse(UpdateVideo), videos)
          case Ok(after) => Outcome(Response(StatusOK, VideoBody(updated)), after)
  }

  /** apiConfig: the JWT secret and the database handle. */
  class ApiConfig {
    const jwtSecret: string
    const db: VideoStore

    constructor (jwtSecret: string, db: VideoStore)
      ensures this.jwtSecret == jwtSecret && this.db == db
    {
      this.jwtSecret := jwtSecret;
      this.db := db;
    }

    /** handlerUploadThumbnail: the response it sends, and the store it leaves, are Handle's. */
    method HandleUploadThumbnail(c: Collaborators, req: Request, faults: DbFaults) returns (resp: Response)
      requires db.Valid()
      modifies db
      ensures db.Valid()
      ensures resp == Handle(jwtSecret, c, req, old(db.videos), faults).response
      ensures db.videos == Handle(jwtSecret, c, req, old(db.videos), faults).videos
    {
      var checked := Validate(jwtSecret, c, req);
      if checked.Err? {
        return ErrorResponse(checked.error);
      }
      var upload := checked.value;
      var fetched := db.GetVideo(upload.videoID, faults.getVideoFails);
      if fetched.Err? {
        return ErrorResponse(GetVideo);
      }
      var video := fetched.value;
      if video.userID != upload.userID {
        return ErrorResponse(CheckOwner);
      }
      var thumbnailURL := DataUri.ThumbnailDataUri(upload.contentType, upload.imageData);
      video := video.(thumbnailURL := Some(thumbnailURL));
      var updated := db.UpdateVideo(video, faults.updateVideoFails);
      if updated.Err? {
        return ErrorResponse(UpdateVideo);
      }
      return Response(StatusOK, VideoBody(video));
    }
  }
}
