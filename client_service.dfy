/** The browser-side API client (frontend/src/services/videoService.js): the HLS playlist
    URL derived from a provider video URL, the thumbnail URL, and how a finished upload
    request settles. The `baseURL` the client was constructed with is a parameter. */
module ClientService {
  import opened Wrappers
  import opened Text

  /** The base URL used when none is configured. */
  const DefaultBaseUrl: string := "http://localhost:8000"

  /** The path segment that precedes the version and public id in a provider URL. */
  const UploadMarker: string := "/video/upload/"

  /** The host name that marks a provider URL. */
  const ProviderHost: string := "cloudinary.com"

  // ---------------------------------------------------------------------------
  // Upload replies

  /** The `video` object of an upload reply; `""` stands for a missing or empty field. */
  datatype ReplyVideo = ReplyVideo(id: string, cloudinaryId: string)

  /** The JSON fields of a reply body the application reads; `""` stands for a missing
      or empty field. */
  datatype UploadReply = UploadReply(video: Option<ReplyVideo>, id: string, videoId: string, message: string)

  /** A response text: parsed as JSON, or not parseable (`text` is the raw text). */
  datatype Body = Json(reply: UploadReply) | NotJson(text: string)

  /** How the request ended: a `load` event with a status and a body, or an `error` event. */
  datatype RequestOutcome = Loaded(status: int, body: Body) | NetworkError

  /** The `load`/`error` handlers of `uploadVideo`: resolve with the parsed reply, or
      reject with a message. */
  function SettleUpload(outcome: RequestOutcome): (r: Result<UploadReply, string>)
    ensures r.Ok? <==> outcome.Loaded? && 200 <= outcome.status < 300 && outcome.body.Json?
    ensures r.Ok? ==> r.value == outcome.body.reply
    ensures r.Err? ==> r.error != ""
  {
    match outcome
    case NetworkError => Err("Upload failed")
    case Loaded(status, body) =>
      if 200 <= status < 300 then
        match body
        case Json(reply) => Ok(reply)
        case NotJson(text) => Err(if text != "" then text else "Invalid response from server")
      else
        var fallback := "Upload failed with status " + IntToString(status);
        match body
        case Json(reply) => Err(if reply.message != "" then reply.message else fallback)
        case NotJson(_) => Err(fallback)
  }

  /** A rejected upload reports the server's own message when it sent one, otherwise the
      status; a failed connection always reads "Upload failed". */
  lemma RejectionMessages(status: int, body: Body)
    requires !(200 <= status < 300)
    ensures body.Json? && body.reply.message != "" ==> SettleUpload(Loaded(status, body)) == Err(body.reply.message)
    ensures body.NotJson? || body.reply.message == "" ==>
              SettleUpload(Loaded(status, body)) == Err("Upload failed with status " + IntToString(status))
    ensures SettleUpload(NetworkError) == Err("Upload failed")
  {
  }

  /** A rejection whose body is not JSON, whatever its text, is reported with the status
      written out in decimal after a fixed prefix, so the status can be read back from
      the message. */
  lemma StatusInRejection(status: nat, text: string)
    requires !(200 <= status < 300)
    ensures var prefix := "Upload failed with status ";
            var r := SettleUpload(Loaded(status, NotJson(text)));
            && r.Err? && |prefix| < |r.error| && r.error[..|prefix|] == prefix
            && IsNumeral(r.error[|prefix|..]) && ParseNat(r.error[|prefix|..]) == status
  {
    var prefix := "Upload failed with status ";
    var digits := NatToString(status);
    assert SettleUpload(Loaded(status, NotJson(text))).error == prefix + digits;
    assert (prefix + digits)[..|prefix|] == prefix;
    assert (prefix + digits)[|prefix|..] == digits;
    ParseNatToString(status);
  }

  // ---------------------------------------------------------------------------
  // Playlist and thumbnail URLs

  /** The playlist URL of a video kept by the application server itself. */
  function FallbackStreamUrl(baseUrl: string, videoId: string): string {
    baseUrl + "/uploads/courses/" + videoId + "/index.m3u8"
  }

  /** `getVideoStreamUrl`: a provider URL (one containing `cloudinary.com`) with an
      upload marker becomes the HLS playlist of its public id, which is the text after
      the first marker and before any second one, without a leading version segment and
      without its extension. A provider URL without the marker is kept; a missing (`""`)
      or other URL gives the server's own playlist. */
  function StreamUrl(baseUrl: string, videoId: string, videoUrl: string): string {
    if videoUrl != "" && Contains(videoUrl, ProviderHost) then
      var parts := Split(videoUrl, UploadMarker);
      if |parts| > 1 then PlaylistUrl(parts[0], PlaylistPublicId(parts[1])) else videoUrl
    else FallbackStreamUrl(baseUrl, videoId)
  }

  /** The public id in the text after the marker: without a leading version segment and
      without its extension. */
  function PlaylistPublicId(versionAndId: string): string {
    StripExtension(StripVersionPrefix(versionAndId))
  }

  /** The provider's HLS playlist for a public id under the URL prefix `p`. */
  function PlaylistUrl(p: string, publicId: string): string {
    p + "/video/upload/sp_hls/" + publicId + ".m3u8"
  }

  /** A provider URL whose only upload marker follows `p` is rewritten from `p` and the
      rest. */
  lemma ProviderUrlParts(baseUrl: string, videoId: string, p: string, rest: string)
    requires Contains(p, ProviderHost) && !Contains(p + "/video/upload", UploadMarker)
    requires !Contains(rest, UploadMarker)
    ensures StreamUrl(baseUrl, videoId, p + UploadMarker + rest) == PlaylistUrl(p, PlaylistPublicId(rest))
  {
    HostBeforeMarker(p, rest);
    SplitAtMarker(p, rest);
  }

  /** A provider host before the marker is still found in the whole URL. */
  lemma HostBeforeMarker(p: string, rest: string)
    requires Contains(p, ProviderHost)
    ensures Contains(p + UploadMarker + rest, ProviderHost)
  {
    ContainsPrefix(p, UploadMarker, ProviderHost);
    ContainsPrefix(p + UploadMarker, rest, ProviderHost);
  }

  /** A URL whose only upload marker follows `p` splits on it into `p` and the rest. */
  lemma SplitAtMarker(p: string, rest: string)
    requires !Contains(p + "/video/upload", UploadMarker) && !Contains(rest, UploadMarker)
    ensures Split(p + UploadMarker + rest, UploadMarker) == [p, rest]
  {
    assert UploadMarker[..|UploadMarker| - 1] == "/video/upload";
    SplitOnce(p, UploadMarker, rest);
  }

  /** `P/video/upload/v<digits>/<id>.<ext>` becomes `P/video/upload/sp_hls/<id>.m3u8`. */
  lemma StreamUrlOfProviderUrl(baseUrl: string, videoId: string, p: string, digits: string, id: string, ext: string)
    requires Contains(p, ProviderHost) && !Contains(p + "/video/upload", UploadMarker)
    requires IsNumeral(digits) && ext != "" && IsPlain(ext)
    requires !Contains("v" + digits + "/" + id + "." + ext, UploadMarker)
    ensures StreamUrl(baseUrl, videoId, p + UploadMarker + ("v" + digits + "/" + id + "." + ext))
            == p + "/video/upload/sp_hls/" + id + ".m3u8"
  {
    var rest := "v" + digits + "/" + id + "." + ext;
    PublicIdOfVersionedFile(digits, id, ext);
    RewriteOfRest(baseUrl, videoId, p, rest, id);
  }

  /** The public id of `v<digits>/<id>.<ext>` is `<id>`. */
  lemma PublicIdOfVersionedFile(digits: string, id: string, ext: string)
    requires IsNumeral(digits) && ext != "" && IsPlain(ext)
    ensures PlaylistPublicId("v" + digits + "/" + id + "." + ext) == id
  {
    Regroup(digits, id, ext);
    StripVersionOf(digits, id + "." + ext);
    StripExtensionOf(id, ext);
  }

  lemma Regroup(digits: string, id: string, ext: string)
    ensures "v" + digits + "/" + id + "." + ext == "v" + digits + "/" + (id + "." + ext)
  {
  }

  lemma RewriteOfRest(baseUrl: string, videoId: string, p: string, rest: string, id: string)
    requires Contains(p, ProviderHost) && !Contains(p + "/video/upload", UploadMarker)
    requires !Contains(rest, UploadMarker) && PlaylistPublicId(rest) == id
    ensures StreamUrl(baseUrl, videoId, p + UploadMarker + rest) == p + "/video/upload/sp_hls/" + id + ".m3u8"
  {
    ProviderUrlParts(baseUrl, videoId, p, rest);
  }

  /** A provider URL without the upload marker is used as it is, and a URL that is not
      a provider URL is replaced by the server's playlist for the id. */
  lemma StreamUrlKeepsOrFallsBack(baseUrl: string, videoId: string, videoUrl: string)
    ensures Contains(videoUrl, ProviderHost) && !Contains(videoUrl, UploadMarker) ==>
              StreamUrl(baseUrl, videoId, videoUrl) == videoUrl
    ensures !Contains(videoUrl, ProviderHost) ==>
              StreamUrl(baseUrl, videoId, videoUrl) == FallbackStreamUrl(baseUrl, videoId)
  {
  }

  /** The rewrite is not idempotent: rewriting a rewritten URL inserts a second
      `sp_hls/` segment. */
  lemma StreamUrlNotIdempotent(baseUrl: string, videoId: string, p: string, id: string)
    requires Contains(p, ProviderHost) && !Contains(p + "/video/upload", UploadMarker)
    requires !Contains("sp_hls/" + id + ".m3u8", UploadMarker)
    ensures var once := p + UploadMarker + ("sp_hls/" + id + ".m3u8");
            StreamUrl(baseUrl, videoId, once) == p + "/video/upload/sp_hls/sp_hls/" + id + ".m3u8"
            && StreamUrl(baseUrl, videoId, once) != once
  {
    var rest := "sp_hls/" + id + ".m3u8";
    ProviderUrlParts(baseUrl, videoId, p, rest);
    PublicIdOfPlaylistPath(id);
    RewrittenTwice(p, id);
  }

  lemma RewrittenTwice(p: string, id: string)
    ensures PlaylistUrl(p, "sp_hls/" + id) == p + "/video/upload/sp_hls/sp_hls/" + id + ".m3u8"
    ensures PlaylistUrl(p, "sp_hls/" + id) != p + UploadMarker + ("sp_hls/" + id + ".m3u8")
  {
    assert |PlaylistUrl(p, "sp_hls/" + id)| == |p + UploadMarker + ("sp_hls/" + id + ".m3u8")| + 7;
  }

  lemma PublicIdOfPlaylistPath(id: string)
    ensures PlaylistPublicId("sp_hls/" + id + ".m3u8") == "sp_hls/" + id
  {
    var rest := "sp_hls/" + id + ".m3u8";
    assert rest[0] == 's';
    assert StripVersionPrefix(rest) == rest;
    assert IsPlain("m3u8");
    StripExtensionOf("sp_hls/" + id, "m3u8");
    assert rest == "sp_hls/" + id + "." + "m3u8";
  }

  /** `getThumbnailUrl`: a given (non-empty) thumbnail URL wins; otherwise the server's
      own thumbnail for the id. */
  function ThumbnailUrl(baseUrl: string, videoId: string, thumbnailUrl: string): (url: string)
    ensures thumbnailUrl != "" ==> url == thumbnailUrl
    ensures thumbnailUrl == "" ==> url == baseUrl + "/uploads/courses/" + videoId + "/thumbnail.jpg"
  {
    if thumbnailUrl != "" then thumbnailUrl else baseUrl + "/uploads/courses/" + videoId + "/thumbnail.jpg"
  }
}
