/**
 * The video records and the two store operations the handler uses,
 * GetVideo(id) and UpdateVideo(video). The database itself is a map from
 * video id to record; a store failure (connection, query) is an explicit
 * input of each call.
 */
module Database {
  import opened Wrappers
  import opened Bytes

  /** A uuid.UUID: 16 bytes. */
  type Uuid = s: seq<Byte> | |s| == 16 witness seq(16, _ => 0)

  /** The record's other columns, which the thumbnail upload carries along unread. */
  datatype Metadata = Metadata(columns: map<string, string>)

  /** A video record; thumbnailURL is nil (None) until a thumbnail is uploaded. */
  datatype Video = Video(id: Uuid, userID: Uuid, thumbnailURL: Option<string>, metadata: Metadata)

  /** Every record is stored under its own id. */
  ghost predicate Keyed(videos: map<Uuid, Video>)
  {
    forall id :: id in videos ==> videos[id].id == id
  }

  /** GetVideo: the stored record, or an error if the store fails or has no such record. */
  function Fetch(videos: map<Uuid, Video>, id: Uuid, fails: bool): (r: Result<Video, string>)
    ensures r.Ok? <==> !fails && id in videos
    ensures r.Ok? ==> r.value == videos[id]
  {
    if fails then Err("database error")
    else if id !in videos then Err("sql: no rows in result set")
    else Ok(videos[id])
  }

  /** UpdateVideo: the record replaces the stored one with its id, or an error. */
  function Store(videos: map<Uuid, Video>, video: Video, fails: bool): (r: Result<map<Uuid, Video>, string>)
    ensures r.Ok? <==> !fails && video.id in videos
    ensures r.Ok? ==> r.value == videos[video.id := video]
  {
    if fails then Err("database error")
    else if video.id !in videos then Err("no such video")
    else Ok(videos[video.id := video])
  }

  /** Reading after a successful write: the written record is returned, nothing else changed. */
  lemma FetchAfterStore(videos: map<Uuid, Video>, video: Video, id: Uuid)
    requires Keyed(videos)
    requires Store(videos, video, false).Ok?
    ensures var after := Store(videos, video, false).value;
      Keyed(after) && after.Keys == videos.Keys &&
      Fetch(after, id, false) == if id == video.id then Ok(video) else Fetch(videos, id, false)
  {
  }

  /** The database: a table of video records. */
  class VideoStore {
    var videos: map<Uuid, Video>

    ghost predicate Valid()
      reads this
    {
      Keyed(videos)
    }

    constructor (initial: map<Uuid, Video>)
      requires Keyed(initial)
      ensures Valid() && videos == initial
    {
      videos := initial;
    }

    /** cfg.db.GetVideo: reads, changes nothing. */
    method GetVideo(id: Uuid, fails: bool) returns (r: Result<Video, string>)
      requires Valid()
      ensures r == Fetch(videos, id, fails)
      ensures r.Ok? ==> r.value.id == id
    {
      if fails {
        return Err("database error");
      }
      if id !in videos {
        return Err("sql: no rows in result set");
      }
      return Ok(videos[id]);
    }

    /** cfg.db.UpdateVideo: writes the whole record over the stored one with the same id. */
    method UpdateVideo(video: Video, fails: bool) returns (r: Result<(), string>)
      requires Valid()
      modifies this
      ensures Valid()
      ensures r.Ok? <==> Store(old(videos), video, fails).Ok?
      ensures videos == if r.Ok? then Store(old(videos), video, fails).value else old(videos)
    {
      if fails {
        return Err("database error");
      }
      if video.id !in videos {
        return Err("no such video");
      }
      videos := videos[video.id := video];
      return Ok(());
    }
  }
}
