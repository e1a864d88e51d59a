/**
 * What the thumbnail upload handler guarantees, stated over Handle (and so,
 * through its postcondition, over ApiConfig.HandleUploadThumbnail).
 *
 * Each rejection lemma assumes only that the checks before it passed and
 * that its own check failed; its conclusion fixes the whole outcome (the
 * status, the message, and the store left as it was) without mentioning any
 * later collaborator, so nothing that runs later can influence it.
 */
module ThumbnailHandlerProperties {
  import opened Wrappers
  import opened Bytes
  import opened Database
  import opened ThumbnailHandler
  import DataUri
  import Base64

  /** Outcome of a rejected request: an error body and the store untouched. */
  function Rejected(status: int, message: string, videos: map<Uuid, Video>): Outcome
  {
    Outcome(Response(status, ErrorBody(message)), videos)
  }

  /** An unparseable videoID is a 400; no other check runs. */
  lemma InvalidVideoIDRejected(jwtSecret: string, c: Collaborators, req: Request,
                               videos: map<Uuid, Video>, faults: DbFaults)
    requires Keyed(videos)
    requires c.parseUuid(req.pathVideoID).Err?
    ensures Handle(jwtSecret, c, req, videos, faults) == Rejected(400, "Invalid ID", videos)
  {
  }

  /** A missing bearer token is a 401, before the body, form or store are looked at. */
  lemma MissingTokenRejected(jwtSecret: string, c: Collaborators, req: Request,
                             videos: map<Uuid, Video>, faults: DbFaults)
    requires Keyed(videos)
    requires c.parseUuid(req.pathVideoID).Ok?
    requires c.getBearerToken(req.header).Err?
    ensures Handle(jwtSecret, c, req, videos, faults) == Rejected(401, "Couldn't find JWT", videos)
  {
  }

  /** A token that fails validation against the secret is a 401, before the form or store. */
  lemma InvalidTokenRejected(jwtSecret: string, c: Collaborators, req: Request,
                             videos: map<Uuid, Video>, faults: DbFaults, token: string)
    requires Keyed(videos)
    requires c.parseUuid(req.pathVideoID).Ok?
    requires c.getBearerToken(req.header) == Ok(token)
    requires c.validateJwt(token, jwtSecret).Err?
    ensures Handle(jwtSecret, c, req, videos, faults) == Rejected(401, "Couldn't validate JWT", videos)
  {
  }

  /** An authenticated request whose body is not a multipart form parsed with MaxMemory is a 400. */
  lemma MalformedFormRejected(jwtSecret: string, c: Collaborators, req: Request,
                              videos: map<Uuid, Video>, faults: DbFaults, token: string)
    requires Keyed(videos)
    requires c.parseUuid(req.pathVideoID).Ok?
    requires c.getBearerToken(req.header) == Ok(token)
    requires c.validateJwt(token, jwtSecret).Ok?
    requires c.parseMultipartForm(req.header, req.body, MaxMemory).Err?
    ensures Handle(jwtSecret, c, req, videos, faults) == Rejected(400, "Couldn't parse multipart form", videos)
  {
  }

  /** A form without a "thumbnail" file, or whose first such file cannot be opened, is a 400. */
  lemma MissingFormFileRejected(jwtSecret: string, c: Collaborators, req: Request,
                                videos: map<Uuid, Video>, faults: DbFaults, token: string, form: MultipartForm)
    requires Keyed(videos)
    requires c.parseUuid(req.pathVideoID).Ok?
    requires c.getBearerToken(req.header) == Ok(token)
    requires c.validateJwt(token, jwtSecret).Ok?
    requires c.parseMultipartForm(req.header, req.body, MaxMemory) == Ok(form)
    requires FormFileKey !in form || form[FormFileKey] == [] || form[FormFileKey][0].opening.Err?
    ensures Handle(jwtSecret, c, req, videos, faults) == Rejected(400, "Couldn't get file", videos)
  {
  }

  /** A thumbnail part that opens but whose contents cannot be read is a 400. */
  lemma UnreadableImageRejected(jwtSecret: string, c: Collaborators, req: Request,
                                videos: map<Uuid, Video>, faults: DbFaults, token: string, form: MultipartForm)
    requires Keyed(videos)
    requires c.parseUuid(req.pathVideoID).Ok?
    requires c.getBearerToken(req.header) == Ok(token)
    requires c.validateJwt(token, jwtSecret).Ok?
    requires c.parseMultipartForm(req.header, req.body, MaxMemory) == Ok(form)
    requires FormFileKey in form && form[FormFileKey] != []
    requires form[FormFileKey][0].opening.Ok? && form[FormFileKey][0].contents.Err?
    ensures Handle(jwtSecret, c, req, videos, faults) == Rejected(400, "Couldn't read image", videos)
  {
  }

  /** Every request-level check passes, with these values. */
  ghost predicate ChecksPass(jwtSecret: string, c: Collaborators, req: Request, token: string, part: FileHeader, u: Upload)
  {
    && c.parseUuid(req.pathVideoID) == Ok(u.videoID)
    && c.getBearerToken(req.header) == Ok(token)
    && c.validateJwt(token, jwtSecret) == Ok(u.userID)
    && c.parseMultipartForm(req.header, req.body, MaxMemory).Ok?
    && FormFile(c.parseMultipartForm(req.header, req.body, MaxMemory).value, FormFileKey) == Ok(part)
    && part.contents == Ok(u.imageData)
    && u.contentType == HeaderGet(part.header, ContentTypeKey)
  }

  /**
   * The request-level checks accept exactly the requests on which every one
   * of them passes, and the upload they yield takes the user from the token
   * and the content type verbatim from the part's Content-Type header.
   */
  lemma ValidateAccepts(jwtSecret: string, c: Collaborators, req: Request, u: Upload)
    ensures Validate(jwtSecret, c, req) == Ok(u) <==>
      exists token, part :: ChecksPass(jwtSecret, c, req, token, part, u)
  {
    if Validate(jwtSecret, c, req) == Ok(u) {
      var token := c.getBearerToken(req.header).value;
      var form := c.parseMultipartForm(req.header, req.body, MaxMemory).value;
      var part := FormFile(form, FormFileKey).value;
      assert ChecksPass(jwtSecret, c, req, token, part, u);
    }
    if exists token, part :: ChecksPass(jwtSecret, c, req, token, part, u) {
      var token, part :| ChecksPass(jwtSecret, c, req, token, part, u);
      assert Validate(jwtSecret, c, req) == Ok(u);
    }
  }

  /** A store failure, or no record with that id, is a 500 after the request-level checks. */
  lemma GetVideoFailureRejected(jwtSecret: string, c: Collaborators, req: Request, videos: map<Uuid, Video>,
                                faults: DbFaults, token: string, part: FileHeader, u: Upload)
    requires Keyed(videos)
    requires ChecksPass(jwtSecret, c, req, token, part, u)
    requires faults.getVideoFails || u.videoID !in videos
    ensures Handle(jwtSecret, c, req, videos, faults) == Rejected(500, "Couldn't get video from db", videos)
  {
    ValidateAccepts(jwtSecret, c, req, u);
  }

  /**
   * Someone other than the owner gets a 401 and the store is unchanged;
   * UpdateVideo is not reached, so whether it would fail makes no difference.
   */
  lemma NonOwnerRejected(jwtSecret: string, c: Collaborators, req: Request, videos: map<Uuid, Video>,
                         faults: DbFaults, token: string, part: FileHeader, u: Upload)
    requires Keyed(videos)
    requires ChecksPass(jwtSecret, c, req, token, part, u)
    requires !faults.getVideoFails && u.videoID in videos
    requires videos[u.videoID].userID != u.userID
    ensures Handle(jwtSecret, c, req, videos, faults) == Rejected(401, "User is not the owner of the video", videos)
    ensures forall b: bool :: Handle(jwtSecret, c, req, videos, faults.(updateVideoFails := b)) == Handle(jwtSecret, c, req, videos, faults)
  {
    ValidateAccepts(jwtSecret, c, req, u);
  }

  /** When UpdateVideo fails the owner gets a 500 and no success response is sent. */
  lemma UpdateFailureRejected(jwtSecret: string, c: Collaborators, req: Request, videos: map<Uuid, Video>,
                              faults: DbFaults, token: string, part: FileHeader, u: Upload)
    requires Keyed(videos)
    requires ChecksPass(jwtSecret, c, req, token, part, u)
    requires !faults.getVideoFails && u.videoID in videos
    requires videos[u.videoID].userID == u.userID
    requires faults.updateVideoFails
    ensures Handle(jwtSecret, c, req, videos, faults) == Rejected(500, "Couldn't update video in db", videos)
  {
    ValidateAccepts(jwtSecret, c, req, u);
  }

  /**
   * The owner's upload succeeds with 200 and the updated record; the store
   * holds that record under the video's id and nothing else changed; its
   * thumbnail is "data:" + content type + ";base64," + base64 of the bytes,
   * which reads back as exactly that content type and those bytes.
   */
  lemma OwnerUploadSucceeds(jwtSecret: string, c: Collaborators, req: Request, videos: map<Uuid, Video>,
                            faults: DbFaults, token: string, part: FileHeader, u: Upload)
    requires Keyed(videos)
    requires ChecksPass(jwtSecret, c, req, token, part, u)
    requires !faults.getVideoFails && !faults.updateVideoFails && u.videoID in videos
    requires videos[u.videoID].userID == u.userID
    ensures var o, v := Handle(jwtSecret, c, req, videos, faults), WithThumbnail(videos[u.videoID], u);
      && o.response == Response(200, VideoBody(v))
      && o.videos == videos[u.videoID := v]
      && v.thumbnailURL == Some("data:" + u.contentType + ";base64," + Base64.Encode(u.imageData))
      && DataUri.ParseDataUri(v.thumbnailURL.value) == Some((u.contentType, u.imageData))
  {
    ValidateAccepts(jwtSecret, c, req, u);
    DataUri.ParseThumbnailDataUri(u.contentType, u.imageData);
  }

  /** A 200 is only ever sent when both store calls succeeded. */
  lemma SuccessNeedsStore(jwtSecret: string, c: Collaborators, req: Request, videos: map<Uuid, Video>, faults: DbFaults)
    requires Keyed(videos)
    requires Handle(jwtSecret, c, req, videos, faults).response.status == 200
    ensures !faults.getVideoFails && !faults.updateVideoFails
    ensures Validate(jwtSecret, c, req).Ok?
    ensures var u := Validate(jwtSecret, c, req).value;
      u.videoID in videos && videos[u.videoID].userID == u.userID
  {
  }

  /**
   * A second successful upload for the same video overwrites the first: the
   * stored record is the original with the second upload's thumbnail, as if
   * the first had never happened.
   */
  lemma ReuploadOverwrites(jwtSecret: string, c1: Collaborators, r1: Request, f1: DbFaults,
                           c2: Collaborators, r2: Request, f2: DbFaults, videos: map<Uuid, Video>,
                           t1: string, p1: FileHeader, u1: Upload, t2: string, p2: FileHeader, u2: Upload)
    requires Keyed(videos)
    requires ChecksPass(jwtSecret, c1, r1, t1, p1, u1) && ChecksPass(jwtSecret, c2, r2, t2, p2, u2)
    requires u1.videoID == u2.videoID && u1.videoID in videos
    requires Handle(jwtSecret, c1, r1, videos, f1).response.status == 200
    requires Handle(jwtSecret, c2, r2, Handle(jwtSecret, c1, r1, videos, f1).videos, f2).response.status == 200
    ensures var final := Handle(jwtSecret, c2, r2, Handle(jwtSecret, c1, r1, videos, f1).videos, f2).videos;
      final == videos[u2.videoID := WithThumbnail(videos[u2.videoID], u2)]
  {
    var o1 := Handle(jwtSecret, c1, r1, videos, f1);
    SuccessNeedsStore(jwtSecret, c1, r1, videos, f1);
    ValidateAccepts(jwtSecret, c1, r1, u1);
    OwnerUploadSucceeds(jwtSecret, c1, r1, videos, f1, t1, p1, u1);
    var mid := o1.videos;
    SuccessNeedsStore(jwtSecret, c2, r2, mid, f2);
    ValidateAccepts(jwtSecret, c2, r2, u2);
    assert mid[u2.videoID].userID == videos[u2.videoID].userID;
    OwnerUploadSucceeds(jwtSecret, c2, r2, mid, f2, t2, p2, u2);
    assert WithThumbnail(mid[u2.videoID], u2) == WithThumbnail(videos[u2.videoID], u2);
  }
}
