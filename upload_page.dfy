/** The upload page (frontend/src/pages/UploadPage.jsx): which id a successful upload
    reply names, the `uploadedVideoId` state it is written to, and the banner text. */
module UploadPage {
  import opened Wrappers
  import opened Text
  import opened ClientService

  /** The value `uploadedVideoId` holds when a reply names no id. */
  const ProcessingSentinel: string := "processing"

  const BannerPrefix: string := "Your video is being processed. Video ID: "
  const ProcessingMessage: string := "Your video is being processed. Processing may take a few minutes."

  /** The id candidates of a reply in the order the handler tries them. */
  function IdCandidates(reply: UploadReply): seq<string> {
    if reply.video.Some? then [reply.video.value.id, reply.video.value.cloudinaryId, reply.id, reply.videoId]
    else ["", "", reply.id, reply.videoId]
  }

  /** `handleUploadSuccess`'s if-else chain: the first present one of `video.id`,
      `video.cloudinaryId`, `id` and `videoId`. */
  function ExtractVideoId(reply: UploadReply): (r: Option<string>)
    ensures r.Some? ==> r.value != "" && r.value in IdCandidates(reply)
    ensures r.None? <==> forall c <- IdCandidates(reply) :: c == ""
  {
    var c := IdCandidates(reply);
    var k := FirstPresentIndex(c);
    if k == |c| then
      assert forall j | 0 <= j < |c| :: c[j] == "";
      None
    else
      Some(c[k])
  }

  /** The chain field by field, as the handler writes it: each field is taken only when
      every earlier one is missing or empty. */
  lemma ExtractVideoIdOrder(reply: UploadReply)
    ensures ExtractVideoId(reply) ==
              if reply.video.Some? && reply.video.value.id != "" then Some(reply.video.value.id)
              else if reply.video.Some? && reply.video.value.cloudinaryId != "" then Some(reply.video.value.cloudinaryId)
              else if reply.id != "" then Some(reply.id)
              else if reply.videoId != "" then Some(reply.videoId)
              else None
  {
    var c := IdCandidates(reply);
    var k := FirstPresentIndex(c);
    if k > 0 { assert c[0] == ""; }
    if k > 1 { assert c[1] == ""; }
    if k > 2 { assert c[2] == ""; }
    if k > 3 { assert c[3] == ""; }
  }

  /** The page's state and the log of `onVideoUploaded` calls; `""` is `null`. */
  class UploadPageState {
    var uploadedVideoId: string
    const hasOnVideoUploaded: bool
    var announced: seq<string>

    constructor (hasOnVideoUploaded: bool)
      ensures uploadedVideoId == "" && announced == [] && this.hasOnVideoUploaded == hasOnVideoUploaded
    {
      uploadedVideoId := "";
      this.hasOnVideoUploaded := hasOnVideoUploaded;
      announced := [];
    }

    /** `handleUploadSuccess`: a found id is stored and announced once (when the page was
        given the callback); without one the state is the sentinel and nobody is told. */
    method HandleUploadSuccess(reply: UploadReply)
      modifies this
      ensures match ExtractVideoId(reply)
              case Some(id) => uploadedVideoId == id
                               && announced == old(announced) + (if hasOnVideoUploaded then [id] else [])
              case None => uploadedVideoId == ProcessingSentinel && announced == old(announced)
    {
      var found := ExtractVideoId(reply);
      if found.Some? {
        uploadedVideoId := found.value;
        if hasOnVideoUploaded {
          announced := announced + [found.value];
        }
      } else {
        uploadedVideoId := ProcessingSentinel;
      }
    }
  }

  /** The success banner: absent while `uploadedVideoId` is `null`, otherwise the message
      naming the id, or the generic one for the sentinel. */
  function Banner(uploadedVideoId: string): Option<string> {
    if uploadedVideoId == "" then None
    else if uploadedVideoId != ProcessingSentinel then Some(BannerPrefix + uploadedVideoId)
    else Some(ProcessingMessage)
  }

  /** The banner appears once an upload succeeded, and it names the id exactly when the
      state is not the sentinel. */
  lemma BannerNamesId(uploadedVideoId: string)
    ensures Banner(uploadedVideoId).Some? <==> uploadedVideoId != ""
    ensures Banner(uploadedVideoId) == Some(BannerPrefix + uploadedVideoId) <==>
              uploadedVideoId != "" && uploadedVideoId != ProcessingSentinel
  {
    if uploadedVideoId == ProcessingSentinel {
      assert |ProcessingMessage| != |BannerPrefix + ProcessingSentinel|;
    }
  }

  /** After a successful upload the banner shows, and it names the extracted id unless
      that id happens to be the sentinel text itself. */
  method UploadThenBanner(page: UploadPageState, reply: UploadReply) returns (banner: Option<string>)
    modifies page
    ensures banner.Some?
    ensures ExtractVideoId(reply).Some? && ExtractVideoId(reply).value != ProcessingSentinel ==>
              banner == Some(BannerPrefix + ExtractVideoId(reply).value)
    ensures ExtractVideoId(reply).None? ==> banner == Some(ProcessingMessage)
  {
    page.HandleUploadSuccess(reply);
    banner := Banner(page.uploadedVideoId);
  }
}
