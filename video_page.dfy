/** The watch page's playlist link (frontend/src/pages/VideoPage.jsx, the `videoLink`
    memo): a provider URL is turned into its HLS playlist, keeping the file extension;
    without a URL the server's playlist for a fallback id is used. */
module VideoPage {
  import opened Wrappers
  import opened Text
  import opened ClientService

  /** The id used when neither the video nor the route supplies one. */
  const DefaultVideoId: string := "104d2093-abb0-413b-8702-c3d70c8c7332"

  /** The fields of the `video` prop the link reads; `""` stands for a missing or empty
      field. */
  datatype PageVideo = PageVideo(videoUrl: string, id: string, mongoId: string)

  /** The id for the server's playlist: `video.id`, then `video._id`, then the route's
      `videoId`, then the default. */
  function FallbackId(video: Option<PageVideo>, videoId: string): string {
    var candidates := if video.Some? then [video.value.id, video.value.mongoId, videoId] else ["", "", videoId];
    FirstPresent(candidates).GetOr(DefaultVideoId)
  }

  /** `videoLink`: a provider URL that is not already a playlist is rewritten when it
      has an upload marker, dropping a leading version segment but keeping the rest,
      extension included; any other URL is used as it is. */
  function VideoLink(baseUrl: string, video: Option<PageVideo>, videoId: string): string {
    if video.Some? && video.value.videoUrl != "" then
      var url := video.value.videoUrl;
      if Contains(url, ProviderHost) && !Contains(url, ".m3u8") then
        var parts := Split(url, UploadMarker);
        if |parts| > 1 then PlaylistUrl(parts[0], StripVersionPrefix(parts[1])) else url
      else url
    else StreamUrl(baseUrl, FallbackId(video, videoId), "")
  }

  /** A URL that already names a playlist, or is not a provider URL, or has no upload
      marker, is used unchanged. */
  lemma VideoLinkKeepsUrl(baseUrl: string, v: PageVideo, videoId: string)
    requires v.videoUrl != ""
    requires Contains(v.videoUrl, ".m3u8") || !Contains(v.videoUrl, ProviderHost) || !Contains(v.videoUrl, UploadMarker)
    ensures VideoLink(baseUrl, Some(v), videoId) == v.videoUrl
  {
  }

  /** `P/video/upload/v<digits>/<id>.<ext>` becomes `P/video/upload/sp_hls/<id>.<ext>.m3u8`,
      which is not the service's `P/video/upload/sp_hls/<id>.m3u8`. */
  lemma VideoLinkKeepsExtension(baseUrl: string, v: PageVideo, videoId: string,
                                p: string, digits: string, id: string, ext: string)
    requires Contains(p, ProviderHost) && !Contains(p + "/video/upload", UploadMarker)
    requires IsNumeral(digits) && ext != "" && IsPlain(ext)
    requires !Contains("v" + digits + "/" + id + "." + ext, UploadMarker)
    requires v.videoUrl == p + UploadMarker + ("v" + digits + "/" + id + "." + ext)
    requires !Contains(v.videoUrl, ".m3u8")
    ensures VideoLink(baseUrl, Some(v), videoId) == p + "/video/upload/sp_hls/" + (id + "." + ext) + ".m3u8"
    ensures VideoLink(baseUrl, Some(v), videoId) != StreamUrl(baseUrl, videoId, v.videoUrl)
  {
    var rest := "v" + digits + "/" + id + "." + ext;
    PageUrlParts(baseUrl, v, videoId, p, rest);
    VersionOfRest(digits, id, ext);
    StreamUrlOfProviderUrl(baseUrl, videoId, p, digits, id, ext);
    ExtensionLengthens(p, id, ext);
  }

  lemma VersionOfRest(digits: string, id: string, ext: string)
    requires IsNumeral(digits)
    ensures StripVersionPrefix("v" + digits + "/" + id + "." + ext) == id + "." + ext
  {
    StripVersionOf(digits, id + "." + ext);
    Regroup(digits, id, ext);
  }

  lemma ExtensionLengthens(p: string, id: string, ext: string)
    ensures PlaylistUrl(p, id + "." + ext) == p + "/video/upload/sp_hls/" + (id + "." + ext) + ".m3u8"
    ensures PlaylistUrl(p, id + "." + ext) != PlaylistUrl(p, id)
  {
    assert |PlaylistUrl(p, id + "." + ext)| > |PlaylistUrl(p, id)|;
  }

  /** A provider URL whose only upload marker follows `p` is rewritten from `p` and the
      rest. */
  lemma PageUrlParts(baseUrl: string, v: PageVideo, videoId: string, p: string, rest: string)
    requires Contains(p, ProviderHost) && !Contains(p + "/video/upload", UploadMarker)
    requires !Contains(rest, UploadMarker)
    requires v.videoUrl == p + UploadMarker + rest && !Contains(v.videoUrl, ".m3u8")
    ensures VideoLink(baseUrl, Some(v), videoId) == PlaylistUrl(p, StripVersionPrefix(rest))
  {
    HostBeforeMarker(p, rest);
    SplitAtMarker(p, rest);
  }

  /** Without a URL the link is the server's playlist for the first present id among
      `video.id`, `video._id` and `videoId`, or for the default id. */
  lemma VideoLinkFallback(baseUrl: string, video: Option<PageVideo>, videoId: string)
    requires video.None? || video.value.videoUrl == ""
    ensures var id :=
              if video.Some? && video.value.id != "" then video.value.id
              else if video.Some? && video.value.mongoId != "" then video.value.mongoId
              else if videoId != "" then videoId
              else DefaultVideoId;
            VideoLink(baseUrl, video, videoId) == FallbackStreamUrl(baseUrl, id)
  {
    var candidates := if video.Some? then [video.value.id, video.value.mongoId, videoId] else ["", "", videoId];
    var k := FirstPresentIndex(candidates);
    if k > 0 {
      assert candidates[0] == "";
    }
    if k > 1 {
      assert candidates[1] == "";
    }
    if k > 2 {
      assert candidates[2] == "";
    }
  }
}
