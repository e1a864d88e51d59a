/**
 * The thumbnail reference: a "data:" URI (section 3 of RFC 2397) of the form
 * data:<content type>;base64,<standard base64 of the image bytes>,
 * built as fmt.Sprintf("data:%s;base64,%s", contentType, imageBase64) does.
 *
 * The content type is copied verbatim and may itself contain ';'. The base64
 * payload never does, so the reference is read back by splitting at its LAST
 * ';', and the round trip holds for every content type.
 */
module DataUri {
  import opened Wrappers
  import opened Bytes
  import Base64

  const Scheme: string := "data:"
  const Base64Marker: string := ";base64,"

  /** The reference stored on the video record for an upload. */
  function ThumbnailDataUri(contentType: string, imageData: seq<Byte>): (uri: string)
    ensures |uri| == |Scheme| + |contentType| + |Base64Marker| + 4 * ((|imageData| + 2) / 3)
  {
    Scheme + contentType + Base64Marker + Base64.Encode(imageData)
  }

  /** The position of the last c in s, if any. */
  function LastIndexOf(s: string, c: char): (r: Option<nat>)
    ensures r.Some? ==> r.value < |s| && s[r.value] == c && forall i :: r.value < i < |s| ==> s[i] != c
    ensures r.None? ==> forall i :: 0 <= i < |s| ==> s[i] != c
    decreases |s|
  {
    if |s| == 0 then None
    else if s[|s| - 1] == c then Some(|s| - 1)
    else LastIndexOf(s[..|s| - 1], c)
  }

  /** The content type and image bytes of a base64 data URI, or None if it is not one. */
  function ParseDataUri(uri: string): Option<(string, seq<Byte>)>
  {
    if |uri| < |Scheme| || uri[..|Scheme|] != Scheme then None
    else
      match LastIndexOf(uri, ';')
      case None => None
      case Some(j) =>
        if j < |Scheme| || |uri| < j + |Base64Marker| || uri[j..j + |Base64Marker|] != Base64Marker then None
        else
          match Base64.Decode(uri[j + |Base64Marker|..])
          case None => None
          case Some(data) => Some((uri[|Scheme|..j], data))
  }

  lemma NoSemicolonInPayload(data: seq<Byte>)
    ensures forall i :: 0 <= i < |Base64.Encode(data)| ==> Base64.Encode(data)[i] != ';'
  {
    Base64.EncodeShape(data);
  }

  /** Reading the reference back gives the content type and the bytes that built it. */
  lemma ParseThumbnailDataUri(contentType: string, imageData: seq<Byte>)
    ensures ParseDataUri(ThumbnailDataUri(contentType, imageData)) == Some((contentType, imageData))
  {
    var uri := ThumbnailDataUri(contentType, imageData);
    var payload := Base64.Encode(imageData);
    var j := |Scheme| + |contentType|;
    assert uri == Scheme + contentType + Base64Marker + payload;
    assert uri[..|Scheme|] == Scheme;
    assert uri[j] == ';';
    NoSemicolonInPayload(imageData);
    forall i | j < i < |uri| ensures uri[i] != ';' {
      if i < j + |Base64Marker| {
        assert uri[i] == Base64Marker[i - j];
      } else {
        assert uri[i] == payload[i - j - |Base64Marker|];
      }
    }
    var r := LastIndexOf(uri, ';');
    assert r == Some(j);
    assert uri[j..j + |Base64Marker|] == Base64Marker;
    assert uri[j + |Base64Marker|..] == payload;
    assert uri[|Scheme|..j] == contentType;
    Base64.DecodeEncode(imageData);
  }

  /** Whatever parses as a base64 data URI is exactly the reference built from its parts. */
  lemma ThumbnailDataUriOfParse(uri: string, contentType: string, imageData: seq<Byte>)
    requires ParseDataUri(uri) == Some((contentType, imageData))
    ensures ThumbnailDataUri(contentType, imageData) == uri
  {
    var j := LastIndexOf(uri, ';').value;
    var payload := uri[j + |Base64Marker|..];
    Base64.EncodeDecode(payload, imageData);
    assert uri == uri[..|Scheme|] + uri[|Scheme|..j] + uri[j..j + |Base64Marker|] + payload;
  }
}
