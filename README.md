# Thumbnail upload handler — Dafny model

This project models `handlerUploadThumbnail`, the HTTP handler that
attaches a thumbnail image to a video record. The handler authenticates the
uploader and checks that they own the video. It then stores the uploaded
image inline on the video record, as a `data:` URI (section 3 of RFC 2397)
whose payload is standard base64 (section 4 of RFC 4648).

The model has three parts:

- **The check chain.** `ThumbnailHandler.Validate` is the chain of early
  returns from `uuid.Parse` through `io.ReadAll`: video id → bearer token → JWT → multipart form →
  form file → read. `ThumbnailHandler.Handle` extends it through GetVideo,
  the owner check and UpdateVideo. It is a pure function of the
  collaborators' results and the store (a map from id to record), and it
  returns the response and the new store. The library calls are the fields
  of `Collaborators`: `uuid.Parse`, `auth.GetBearerToken`,
  `auth.ValidateJWT` and `Request.ParseMultipartForm`. The form's parts and
  what `io.ReadAll` returns for a part are values in the request. Whether a
  store call fails is the input `DbFaults`.
- **The handler itself.** `ThumbnailHandler.ApiConfig.HandleUploadThumbnail`
  is a method on a class holding the JWT secret and the database. The
  database is the class `Database.VideoStore`, whose field `videos` is the
  table. The method runs the checks, fetches the record, modifies a local
  copy (Go's `video.ThumbnailURL = &thumbnailURL`) and writes it back with
  `UpdateVideo`. Its postcondition says that its response and the store it
  leaves are exactly what `Handle` gives.
- **The thumbnail reference.** `DataUri.ThumbnailDataUri` is
  `"data:" + contentType + ";base64," + Base64.Encode(imageData)`.
  `Base64.Encode` follows `base64.StdEncoding`: full 3-byte groups, then one
  padded final quantum. `Base64.Decode` is a strict decoder written as the
  encoder's partner. `DataUri.ParseDataUri` reads a reference back by
  splitting it at its last `;`. The payload never contains `;`, so this
  works for any content type.

The handler as written has no content-type allow-list, so there is no 415
response. It has no file-backed storage and no size check of its own.
The model follows the code in all three points.

Go's `byte` is `Bytes.Byte`, an integer in 0..255. A `uuid.UUID` is a
16-byte sequence. A nil `*string` is `None`. The record's columns other than
id, owner and thumbnail are one `Metadata` value that the handler carries
along unread.

## Model

| member | source | states |
|---|---|---|
| `Base64.Encode` | handler_upload_thumbnail.go:69 | The encoding of n bytes has length 4·⌈n/3⌉. |
| `Base64.EncodeShape` | handler_upload_thumbnail.go:69 | Every character is in the standard alphabet except the last `(3 − n mod 3) mod 3` characters, which are `=`. |
| `Base64.EncodePadCount` | handler_upload_thumbnail.go:69 | The encoding holds exactly `(3 − n mod 3) mod 3` `=` characters, so at most two. |
| `Base64.EncodeTestVectors` | handler_upload_thumbnail.go:69 | The encoder gives the base64 test vectors of section 10 of RFC 4648 ("", "Zg==", "Zm8=", "Zm9v"), "////" for three 0xFF bytes and "++8=" for 0xFB 0xEF. |
| `Base64.DecodeEncode` | handler_upload_thumbnail.go:69 | Decoding the encoding of any bytes returns those bytes. |
| `Base64.EncodeDecode` | handler_upload_thumbnail.go:69 | Any text the decoder accepts is the encoding of the bytes it returns. |
| `Base64.DecodeIffEncode` | handler_upload_thumbnail.go:69 | Decode(s) = Some(b) if and only if s = Encode(b). |
| `DataUri.ThumbnailDataUri` | handler_upload_thumbnail.go:71 | The reference is 5 + \|contentType\| + 8 + 4·⌈n/3⌉ characters long. |
| `DataUri.ParseThumbnailDataUri` | handler_upload_thumbnail.go:69-71 | Parsing the reference gives back exactly the content type and image bytes it was built from, for every content type. |
| `DataUri.ThumbnailDataUriOfParse` | handler_upload_thumbnail.go:69-71 | Any text that parses as a base64 data URI equals the reference built from its parsed parts. |
| `Database.Fetch` | handler_upload_thumbnail.go:58 | Assumed database behaviour, not a proved property: GetVideo succeeds exactly when the store does not fail and holds the id, and then returns the stored record. |
| `Database.Store` | handler_upload_thumbnail.go:75 | Assumed database behaviour, not a proved property: UpdateVideo succeeds exactly when the store does not fail and holds the record's id, and then replaces that one entry. |
| `Database.FetchAfterStore` | handler_upload_thumbnail.go:73-75 | After a write, reading the written id returns the new record, every other id reads as before, and the ids are the same. |
| `Database.VideoStore.GetVideo` | handler_upload_thumbnail.go:58 | The method returns what `Fetch` specifies, keyed by the requested id. |
| `Database.VideoStore.UpdateVideo` | handler_upload_thumbnail.go:75 | The method leaves the table as `Store` specifies and changes nothing when it reports an error. |
| `ThumbnailHandler.HeaderGet` | handler_upload_thumbnail.go:50 | `Header.Get` gives the first value under the key, and "" when the key is absent or has no values. |
| `ThumbnailHandler.FormFile` | handler_upload_thumbnail.go:44 | `Request.FormFile` succeeds exactly when the key has a part and the first part opens, and then gives that first part. |
| `ThumbnailHandler.Validate` | handler_upload_thumbnail.go:17-56 | The early returns run before any store access: a rejection names one of the six request-level checks, never GetVideo, the owner check or UpdateVideo. An accepted upload carries the parsed path id. `ValidateAccepts` characterises acceptance completely. |
| `ThumbnailHandler.ErrorResponse` | handler_upload_thumbnail.go:17-79 | Every failed check sends an error body with status 400, 401 or 500. |
| `ThumbnailHandler.WithThumbnail` | handler_upload_thumbnail.go:69-73 | The updated record keeps id, owner and metadata, and its thumbnail is the data URI of the upload. |
| `ThumbnailHandler.Handle` | handler_upload_thumbnail.go:16-82 | The status is 200 exactly when the body is the video. Otherwise the store is unchanged. On 200 the store holds the sent record under its id, and that record differs from the stored one only in its set thumbnail. |
| `ThumbnailHandler.ApiConfig.HandleUploadThumbnail` | handler_upload_thumbnail.go:16-82 | The handler's response and the table it leaves are those of `Handle` on the table it started with. |
| `ThumbnailHandlerProperties.InvalidVideoIDRejected` | handler_upload_thumbnail.go:17-22 | An unparseable videoID gives 400 "Invalid ID" with the store unchanged, whatever the later collaborators would do. |
| `ThumbnailHandlerProperties.MissingTokenRejected` | handler_upload_thumbnail.go:24-28 | With a valid id and no bearer token, the response is 401, before any form parsing or store access. |
| `ThumbnailHandlerProperties.InvalidTokenRejected` | handler_upload_thumbnail.go:30-34 | A token that fails ValidateJWT with the configured secret gives 401, before any form parsing or store access. |
| `ThumbnailHandlerProperties.MalformedFormRejected` | handler_upload_thumbnail.go:38-42 | After authentication, a failed ParseMultipartForm(MaxMemory) gives 400 with the store unchanged. |
| `ThumbnailHandlerProperties.MissingFormFileRejected` | handler_upload_thumbnail.go:44-48 | A form with no "thumbnail" file, or whose first "thumbnail" file fails to open, gives 400 "Couldn't get file" with the store unchanged. |
| `ThumbnailHandlerProperties.UnreadableImageRejected` | handler_upload_thumbnail.go:52-56 | A thumbnail part that opens but cannot be read gives 400 "Couldn't read image" with the store unchanged. |
| `ThumbnailHandlerProperties.ValidateAccepts` | handler_upload_thumbnail.go:17-56 | The checks accept a request exactly when every one of them passes. The upload then carries the video id, the user id from the token, the bytes read, and the part's Content-Type header copied verbatim. |
| `ThumbnailHandlerProperties.GetVideoFailureRejected` | handler_upload_thumbnail.go:58-62 | A failing or missing GetVideo gives 500 with the store unchanged. |
| `ThumbnailHandlerProperties.NonOwnerRejected` | handler_upload_thumbnail.go:64-67 | A user who is not the owner gets 401 and the store is unchanged. UpdateVideo is never reached, so the outcome is the same whether or not it would fail. |
| `ThumbnailHandlerProperties.UpdateFailureRejected` | handler_upload_thumbnail.go:75-79 | A failing UpdateVideo gives 500, and no 200 response is sent. |
| `ThumbnailHandlerProperties.OwnerUploadSucceeds` | handler_upload_thumbnail.go:69-81 | The owner's upload gives 200 with the fetched record, in which only the thumbnail is replaced. The store holds that record. The thumbnail is `"data:" + contentType + ";base64," + Encode(imageData)` and reads back as that content type and those bytes. |
| `ThumbnailHandlerProperties.SuccessNeedsStore` | handler_upload_thumbnail.go:58-81 | A 200 means that every check passed, the caller owns the video, and both GetVideo and UpdateVideo succeeded. |
| `ThumbnailHandlerProperties.ReuploadOverwrites` | handler_upload_thumbnail.go:73-75 | After two successful uploads for one video, the stored record is the original with the second upload's thumbnail. Nothing of the first upload remains. |

## Left out

- HTTP mechanics, `respondWithError`, `respondWithJSON` and JSON serialisation are not modelled. A response is a status plus either the error message or the video record.
- The `err` passed to `respondWithError` is only logged by that helper, so the model drops it. This includes the stale `err` at line 65.
- `fmt.Println` at line 36 is logging only.
- `uuid.Parse`, `auth.GetBearerToken` and `auth.ValidateJWT` are foreign library calls. They are opaque functions in `Collaborators`. Any dependence of JWT validation on the clock is folded into that function.
- `Request.ParseMultipartForm` is an opaque function of the headers, the body and `MaxMemory`. In Go, `MaxMemory` (10 << 20 bytes) is an in-memory threshold, not a size limit. The handler has no size check of its own. A size-related failure inside the library is one of the failures of this opaque function, and it gets the 400 of `MalformedFormRejected`.
- `Request.FormFile` and `Header.Get` are modelled only to the extent the handler relies on them. FormFile returns the first part under the key, or an error when there is no such part or when opening it fails (the `Open` inside `Request.FormFile`). Whether opening fails and what `io.ReadAll` returns are inputs in each part. Get returns the first value or "". Header key canonicalisation is not modelled.
- The database is modelled only as a map from id to record, plus a failure input per call. Five behaviours are assumptions, because the database code is not part of this model:
  - GetVideo reports an error for an id it does not hold. The missing-id half of `GetVideoFailureRejected` (a 500) rests on this. A database that returned a zero record instead would make the handler answer 401 at the owner check.
  - UpdateVideo reports an error for an id it does not hold.
  - UpdateVideo does not touch other columns such as timestamps.
  - A failing UpdateVideo leaves the table as it was. The handler sees only `err` and cannot tell whether the write happened. `Handle`'s "store unchanged on every non-200 outcome" and the unchanged store in `UpdateFailureRejected` rest on this.
  - Every record is stored under its own id (`Database.Keyed`), so GetVideo(id) returns a record whose ID is id. The handler never checks this, and UpdateVideo writes by the record's own ID. `Handle` and `VideoStore.Valid` require it, and the single-entry update on success rests on it.
- Concurrency is not modelled. Two simultaneous uploads for one video can lose an update in the source, because the read-then-write is not transactional.
- The content-type allow-list, the 415 response and the file-backed storage strategy do not exist in this handler, so they are not modelled.
- DataUri.ThumbnailDataUri: strings are sequences of Unicode characters, while Go strings are bytes. The stated length counts characters, which equals Go's `len` only for an ASCII content type, and header values that are not valid UTF-8 cannot be represented.
- `Base64.Decode` has no counterpart in the handler, which only encodes. It is the strict decoder of section 3.5 of RFC 4648, which rejects non-zero pad bits, and it exists to state the round trip.
