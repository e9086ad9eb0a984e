/** The server's video routes (backend/routes/videoRoutes.js): the upload filter and size
    limit, the `POST /upload` pipeline with its temporary-file cleanup, and the
    responses of `GET /` and `GET /:id`. */
module VideoRoutes {
  import opened Wrappers
  import opened Text
  import opened VideoModel
  import opened BackendService
  import VideoUpload

  // ---------------------------------------------------------------------------
  // Upload filter

  const AllowedTypes: seq<string> :=
    ["video/mp4", "video/webm", "video/ogg", "video/quicktime", "video/x-msvideo"]

  /** The upload size limit: 2 GiB. */
  const MaxUploadSize: nat := 2 * 1024 * 1024 * 1024

  const FilterMessage: string := "Invalid file type. Only video files are allowed."

  /** The multer `fileFilter`: a listed MIME type is let through, anything else is
      refused with the fixed message. */
  function FileFilter(mimeType: string): (r: Result<(), string>)
    ensures r.Ok? <==> mimeType in AllowedTypes
    ensures r.Err? ==> r.error == FilterMessage
  {
    if mimeType in AllowedTypes then Ok(()) else Err(FilterMessage)
  }

  /** The filter lets through exactly the types the upload form accepts, and the size
      limit is the form's. */
  lemma FilterAgreesWithForm(mimeType: string)
    ensures FileFilter(mimeType).Ok? <==> mimeType in VideoUpload.AcceptedVideoTypes
    ensures MaxUploadSize == VideoUpload.MaxFileSize
  {
  }

  /** A file the form accepts is never refused by the server's filter or size limit,
      and a non-empty file the server accepts would also pass the form. */
  lemma FormAndServerAgree(f: VideoUpload.FileInfo)
    ensures VideoUpload.ValidateFile(f).Ok? <==> FileFilter(f.mimeType).Ok? && 0 < f.size <= MaxUploadSize
  {
    FilterAgreesWithForm(f.mimeType);
  }

  // ---------------------------------------------------------------------------
  // The upload pipeline

  /** What multer hands the route: the stored temporary file's path, the client's file
      name and the byte count. */
  datatype UploadedFile = UploadedFile(path: string, originalName: string, size: nat)

  /** The public id the route asks the provider to use. */
  function RequestedPublicId(videoId: string): string {
    "video-streaming/" + videoId
  }

  /** `videoData`: the title is the file name without its final extension, the ids and
      URL come from the provider, a missing thumbnail is `""`, a missing or zero
      duration is `0`, and the record is an HLS video that is ready. */
  function VideoData(file: UploadedFile, upload: ProviderUpload, thumbnailUrl: Option<string>): Record {
    map["title" := Str(StripExtension(file.originalName)),
        "cloudinaryId" := Str(upload.publicId),
        "videoUrl" := Str(upload.secureUrl),
        "thumbnailUrl" := Str(thumbnailUrl.GetOr("")),
        "duration" := Num(if upload.duration.Some? then upload.duration.value else 0.0),
        "fileSize" := Num(file.size as real),
        "format" := Str("hls"),
        "status" := Str("ready")]
  }

  /** The record the route saves is ready, HLS, with the thumbnail and duration
      defaulted and the file's byte count. */
  lemma VideoDataFields(file: UploadedFile, upload: ProviderUpload, thumbnailUrl: Option<string>)
    ensures var d := VideoData(file, upload, thumbnailUrl);
            && d["status"] == Str("ready") && d["format"] == Str("hls")
            && (thumbnailUrl.None? ==> d["thumbnailUrl"] == Str(""))
            && (upload.duration.None? ==> d["duration"] == Num(0.0))
            && d["fileSize"] == Num(file.size as real)
  {
    DataKeysDistinct();
  }

  /** The record passes the schema exactly when the file name leaves a title and the
      provider gave an id and a URL. */
  lemma VideoDataConforms(file: UploadedFile, upload: ProviderUpload, thumbnailUrl: Option<string>)
    ensures StripExtension(file.originalName) != "" && upload.publicId != "" && upload.secureUrl != "" <==>
              Conforms(WithDefaults(VideoData(file, upload, thumbnailUrl)))
  {
    var d := VideoData(file, upload, thumbnailUrl);
    DataKeysDistinct();
    assert d["title"] == Str(StripExtension(file.originalName));
    assert d["cloudinaryId"] == Str(upload.publicId) && d["videoUrl"] == Str(upload.secureUrl);
    assert d["status"] == Str("ready");
    ConformsWithStatus(d);
  }

  /** The eight field names of `videoData` are pairwise different. */
  lemma DataKeysDistinct()
    ensures "status" !in {"title", "cloudinaryId", "videoUrl", "thumbnailUrl", "duration", "fileSize", "format"}
    ensures "format" !in {"title", "cloudinaryId", "videoUrl", "thumbnailUrl", "duration", "fileSize"}
    ensures "fileSize" !in {"title", "cloudinaryId", "videoUrl", "thumbnailUrl", "duration"}
    ensures "duration" !in {"title", "cloudinaryId", "videoUrl", "thumbnailUrl"}
    ensures "thumbnailUrl" !in {"title", "cloudinaryId", "videoUrl"}
    ensures "videoUrl" !in {"title", "cloudinaryId"}
    ensures "cloudinaryId" != "title"
  {
    assert "status"[0] == 's' && "format"[1] == 'o' && "fileSize"[1] == 'i' && "duration"[0] == 'd';
    assert "thumbnailUrl"[1] == 'h' && "videoUrl"[0] == 'v' && "cloudinaryId"[0] == 'c' && "title"[1] == 'i';
  }

  /** The title drops only a final extension: `clip.final.mp4` gives `clip.final`. */
  lemma TitleDropsLastExtension(stem: string, ext: string, file: UploadedFile, upload: ProviderUpload)
    requires ext != "" && IsPlain(ext) && file.originalName == stem + "." + ext
    ensures VideoData(file, upload, None)["title"] == Str(stem)
  {
    StripExtensionOf(stem, ext);
  }

  /** `savedVideo._id || savedVideo.cloudinaryId`, absent when both are missing. */
  function ResponseId(saved: Record): Option<Value> {
    if Truthy(saved, "_id") then Some(saved["_id"])
    else if "cloudinaryId" in saved then Some(saved["cloudinaryId"])
    else None
  }

  /** The fields of the saved record the reply copies besides `id`. */
  const ReplyFields: set<string> := {"cloudinaryId", "videoUrl", "thumbnailUrl", "title", "duration", "status"}

  /** The reply's `video` object (a field that is `undefined` is left out of the JSON). */
  function ReplyVideo(saved: Record): (v: Record)
    ensures v.Keys == (saved.Keys * ReplyFields) + (if ResponseId(saved).Some? then {"id"} else {})
    ensures forall k <- v | k != "id" :: v[k] == saved[k]
    ensures ResponseId(saved).Some? ==> v["id"] == ResponseId(saved).value
  {
    var copied := map k | k in saved.Keys * ReplyFields :: saved[k];
    if ResponseId(saved).Some? then copied + map["id" := ResponseId(saved).value] else copied
  }

  /** The reply's `id` is the record's `_id` whenever the gateway saved the route's
      data: the database's object id, or in memory the provider's public id (or the clock
      when that is empty). */
  lemma ReplyIdIsSavedId(data: Record, objectId: string, now: nat)
    requires "_id" !in data && "cloudinaryId" in data && data["cloudinaryId"].Str?
    requires objectId != ""
    ensures ResponseId(DurableDoc(data, objectId, now)) == Some(Str(objectId))
    ensures ResponseId(NewRecord(data, now)) ==
              Some(if data["cloudinaryId"].s != "" then data["cloudinaryId"] else Str(NatToString(now)))
  {
    DurableIdIsObjectId(data, objectId, now);
    MemoryIdIsCloudinaryId(data, now);
  }

  lemma DurableIdIsObjectId(data: Record, objectId: string, now: nat)
    requires "_id" !in data && objectId != ""
    ensures DurableDoc(data, objectId, now)["_id"] == Str(objectId)
  {
    assert "_id" !in SchemaDefaults;
  }

  lemma MemoryIdIsCloudinaryId(data: Record, now: nat)
    requires "_id" !in data && "cloudinaryId" in data && data["cloudinaryId"].Str?
    ensures NewRecord(data, now)["_id"] ==
              (if data["cloudinaryId"].s != "" then data["cloudinaryId"] else Str(NatToString(now)))
  {
  }

  /** A route's reply: the status code and what the JSON body says. */
  datatype Response =
    | Listed(count: nat, videos: seq<Record>)
    | Found(video: Record)
    | Uploaded(message: string, video: Record)
    | Failure(status: nat, message: string, error: Option<string>)

  /** The temporary upload directory: the files present and the deletions requested. */
  class TempFiles {
    var present: set<string>
    var deletions: seq<string>

    constructor (present: set<string>)
      ensures this.present == present && deletions == []
    {
      this.present := present;
      deletions := [];
    }

    /** `fs.unlink`: the deletion is asked for; `ok` says whether the file system
        carries it out. A failure is only logged, and the file then stays. */
    method Unlink(path: string, ok: bool)
      modifies this
      ensures present == (if ok then old(present) - {path} else old(present))
      ensures deletions == old(deletions) + [path]
    {
      if ok {
        present := present - {path};
      }
      deletions := deletions + [path];
    }
  }

  /** The provider as the route sees it: the outcome it will report and the uploads it
      was asked for. */
  class Provider {
    const outcome: Result<ProviderUpload, string>
    var requests: seq<(string, string)>

    constructor (outcome: Result<ProviderUpload, string>)
      ensures this.outcome == outcome && requests == []
    {
      this.outcome := outcome;
      requests := [];
    }

    /** `uploadVideoToCloudinary(path, {public_id})` */
    method Upload(path: string, publicId: string) returns (r: Result<ProviderUpload, string>)
      modifies this
      ensures requests == old(requests) + [(path, publicId)]
      ensures r == UploadVideoToProvider(outcome)
    {
      requests := requests + [(path, publicId)];
      r := UploadVideoToProvider(outcome);
    }
  }

  const UploadedMessage: string := "Video uploaded successfully"

  /** `POST /upload`. `file` is multer's `req.file`, `videoId` the fresh uuid,
      `thumbnailOf` the provider's URL builder, `objectId`, `now` and `durableFails` what
      the database's save would assign and whether it throws, `unlinkOk` whether the
      file system carries out the deletion of the temporary file. Without a file the
      reply is 400 and nothing else happens. Otherwise the only failure that reaches the
      reply is the provider's, as a 500; thumbnail and save problems are absorbed by the
      service. On both paths the deletion of the temporary file is asked for (on the
      failure path only when the file exists), and the file is gone afterwards exactly
      when that deletion went through. */
  method HandleUpload(file: Option<UploadedFile>, videoId: string, provider: Provider,
                      thumbnailOf: string -> Option<string>, gateway: Gateway, temp: TempFiles,
                      objectId: string, now: nat, durableFails: bool, unlinkOk: bool)
    returns (response: Response)
    requires gateway.Valid()
    modifies provider, temp, gateway`durable, gateway.memory`videos
    ensures gateway.Valid()
    ensures file.None? ==>
              response == Failure(400, "No file uploaded", None)
              && provider.requests == old(provider.requests) && temp.present == old(temp.present)
              && temp.deletions == old(temp.deletions)
              && gateway.durable == old(gateway.durable) && gateway.memory.videos == old(gateway.memory.videos)
    ensures file.Some? ==>
              provider.requests == old(provider.requests) + [(file.value.path, RequestedPublicId(videoId))]
              && temp.present == (if unlinkOk then old(temp.present) - {file.value.path} else old(temp.present))
    ensures file.Some? && provider.outcome.Err? ==>
              response == Failure(500, "Error uploading video", Some(ProviderErrorPrefix + provider.outcome.error))
              && gateway.durable == old(gateway.durable) && gateway.memory.videos == old(gateway.memory.videos)
              && temp.deletions == old(temp.deletions) + (if file.value.path in old(temp.present) then [file.value.path] else [])
    ensures file.Some? && provider.outcome.Ok? ==>
              var data := VideoData(file.value, provider.outcome.value,
                                    GenerateThumbnail(Some(provider.outcome.value.secureUrl), thumbnailOf));
              && response.Uploaded? && response.message == UploadedMessage
              && temp.deletions == old(temp.deletions) + [file.value.path]
              && ((gateway.durable == old(gateway.durable) + [DurableDoc(data, objectId, now)]
                   && gateway.memory.videos == old(gateway.memory.videos)
                   && response.video == ReplyVideo(DurableDoc(data, objectId, now)))
                  || (gateway.memory.videos == old(gateway.memory.videos) + [NewRecord(data, now)]
                      && gateway.durable == old(gateway.durable)
                      && response.video == ReplyVideo(NewRecord(data, now))))
  {
    if file.None? {
      return Failure(400, "No file uploaded", None);
    }
    var f := file.value;
    var uploadResult := provider.Upload(f.path, RequestedPublicId(videoId));
    match uploadResult {
      case Err(message) =>
        if f.path in temp.present {
          temp.Unlink(f.path, unlinkOk);
        }
        response := Failure(500, "Error uploading video", Some(message));
      case Ok(upload) =>
        var thumbnailUrl := GenerateThumbnail(Some(upload.secureUrl), thumbnailOf);
        var data := VideoData(f, upload, thumbnailUrl);
        var saved := gateway.SaveVideoMetadata(data, objectId, now, durableFails);
        temp.Unlink(f.path, unlinkOk);
        response := Uploaded(UploadedMessage, ReplyVideo(saved));
    }
  }

  // ---------------------------------------------------------------------------
  // Reading

  /** `GET /`'s reply: the list and its length. */
  function ListResponse(videos: seq<Record>): (r: Response)
    ensures r.Listed? && r.count == |r.videos| && r.videos == videos
  {
    Listed(|videos|, videos)
  }

  /** `GET /:id`'s reply: the record, or 404 when the lookup found nothing. */
  function GetResponse(video: Option<Record>): (r: Response)
    ensures r.Failure? <==> video.None?
    ensures r.Failure? ==> r.status == 404 && r.message == "Video not found" && r.error.None?
    ensures r.Found? ==> r.video == video.value
  {
    if video.None? then Failure(404, "Video not found", None) else Found(video.value)
  }

  /** `GET /`: every stored video, newest first, with the count. The service never
      throws, so the route's 500 branch is never taken. */
  method HandleList(gateway: Gateway, durableFails: bool) returns (response: Response)
    modifies gateway.memory`videos
    ensures response.Listed? && response.count == |response.videos| && NewestFirst(response.videos)
    ensures gateway.connected && !durableFails ==> multiset(response.videos) == multiset(gateway.durable)
    ensures !(gateway.connected && !durableFails) ==> multiset(response.videos) == multiset(old(gateway.memory.videos))
  {
    var videos := gateway.GetAllVideos(durableFails);
    SortIsNewestFirst(gateway.durable);
    SortIsNewestFirst(old(gateway.memory.videos));
    response := ListResponse(videos);
  }

  /** `GET /:id`: 404 exactly when no stored record has the id as its `_id` or
      `cloudinaryId`. The service never throws, so the route's 500 branch is never
      taken. */
  method HandleGet(gateway: Gateway, id: string, durableFails: bool) returns (response: Response)
    ensures var store := if gateway.connected && !durableFails then gateway.durable else gateway.memory.videos;
            response.Failure? <==> forall j :: 0 <= j < |store| ==> !Matches(store[j], id)
    ensures response.Failure? ==> response == Failure(404, "Video not found", None)
    ensures response.Found? ==> Matches(response.video, id)
  {
    var video := gateway.GetVideoById(id, durableFails);
    DurableLookupPrefersId(gateway.durable, id);
    response := GetResponse(video);
  }
}
