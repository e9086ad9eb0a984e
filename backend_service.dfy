/** The server's video service (backend/services/videoService.js): the provider upload's
    error wrapping, the thumbnail's public id taken from a provider URL, and the
    persistence gateway that uses the database while it is connected and the in-memory
    table otherwise or when the database fails. */
module BackendService {
  import opened Wrappers
  import opened Text
  import opened VideoModel
  import ClientService

  // ---------------------------------------------------------------------------
  // Provider upload

  const ProviderErrorPrefix: string := "Failed to upload video to Cloudinary: "

  /** The fields of the provider's upload result the server reads. */
  datatype ProviderUpload = ProviderUpload(publicId: string, secureUrl: string, duration: Option<real>)

  /** `uploadVideoToCloudinary`: the provider's result passes through; its failure is
      rethrown with the prefix in front of the provider's message. */
  function UploadVideoToProvider(outcome: Result<ProviderUpload, string>): (r: Result<ProviderUpload, string>)
    ensures r.Ok? <==> outcome.Ok?
    ensures r.Ok? ==> r.value == outcome.value
  {
    match outcome
    case Ok(upload) => Ok(upload)
    case Err(message) => Err(ProviderErrorPrefix + message)
  }

  /** The provider's own message, read back from a wrapped one. */
  function ProviderCause(message: string): Option<string> {
    if |ProviderErrorPrefix| <= |message| && message[..|ProviderErrorPrefix|] == ProviderErrorPrefix
    then Some(message[|ProviderErrorPrefix|..]) else None
  }

  /** A wrapped failure starts with the prefix and still carries the provider's message
      in full. */
  lemma ProviderErrorKeepsCause(outcome: Result<ProviderUpload, string>)
    ensures outcome.Err? ==> ProviderCause(UploadVideoToProvider(outcome).error) == Some(outcome.error)
  {
    if outcome.Err? {
      var m := ProviderErrorPrefix + outcome.error;
      assert m[..|ProviderErrorPrefix|] == ProviderErrorPrefix;
      assert m[|ProviderErrorPrefix|..] == outcome.error;
    }
  }

  // ---------------------------------------------------------------------------
  // Thumbnail

  const UploadMarker: string := "/video/upload/"

  /** The capture group of `(?:v\d+\/)?(.+)` on the text after the marker: a leading
      version segment is skipped unless nothing would be left, in which case the regex
      backtracks and captures the whole text. */
  function CaptureAfterVersion(rest: string): (id: string)
    requires rest != ""
    ensures id != "" && |id| <= |rest|
    ensures id == rest || (IsVersionSegment(rest[..|rest| - |id|]) && rest[|rest| - |id|..] == id)
  {
    var stripped := StripVersionPrefix(rest);
    if stripped == "" then rest else stripped
  }

  /** The public id `generateThumbnail` asks a thumbnail for: `None` when the URL has
      no upload marker followed by at least one character; otherwise the text after the
      first marker, without one optional version segment and without a final extension. */
  function ThumbnailPublicId(videoUrl: string): Option<string> {
    match IndexOf(videoUrl, UploadMarker)
    case None => None
    case Some(i) =>
      var rest := videoUrl[i + |UploadMarker|..];
      if rest == "" then None else Some(StripExtension(CaptureAfterVersion(rest)))
  }

  /** `generateThumbnail`: `videoUrl` is `None` when it is not a string (calling `match`
      on it throws); `urlOf` is the provider's URL builder, `None` when it throws. Every
      failure gives `null`. */
  function GenerateThumbnail(videoUrl: Option<string>, urlOf: string -> Option<string>): (r: Option<string>)
    ensures videoUrl.None? ==> r.None?
    ensures videoUrl.Some? && !Contains(videoUrl.value, UploadMarker) ==> r.None?
    ensures r.Some? ==> ThumbnailPublicId(videoUrl.value).Some? && r == urlOf(ThumbnailPublicId(videoUrl.value).value)
    ensures videoUrl.Some? && ThumbnailPublicId(videoUrl.value).Some? ==>
              r == urlOf(ThumbnailPublicId(videoUrl.value).value)
    ensures videoUrl.Some? && ThumbnailPublicId(videoUrl.value).None? ==> r.None?
  {
    if videoUrl.None? then None
    else match ThumbnailPublicId(videoUrl.value)
         case None => None
         case Some(publicId) => urlOf(publicId)
  }

  /** For a provider URL `p/video/upload/<rest>` with one marker, the server asks a
      thumbnail for the same public id the client's `getVideoStreamUrl` derives for the
      playlist, except when the rest is nothing but a version segment: the regex then
      keeps it, while the client's rewrite drops it. */
  lemma ThumbnailMatchesPlaylistId(baseUrl: string, videoId: string, p: string, rest: string)
    requires !Contains(p + "/video/upload", UploadMarker) && rest != "" && !Contains(rest, UploadMarker)
    ensures !IsVersionSegment(rest) ==>
              ThumbnailPublicId(p + UploadMarker + rest) == Some(ClientService.PlaylistPublicId(rest))
    ensures IsVersionSegment(rest) ==>
              ThumbnailPublicId(p + UploadMarker + rest) == Some(rest) && ClientService.PlaylistPublicId(rest) == ""
    ensures !IsVersionSegment(rest) && Contains(p, ClientService.ProviderHost) ==>
              ClientService.StreamUrl(baseUrl, videoId, p + UploadMarker + rest)
              == ClientService.PlaylistUrl(p, ThumbnailPublicId(p + UploadMarker + rest).value)
  {
    ThumbnailOfRest(p, rest);
    CaptureOfRest(rest);
    if IsVersionSegment(rest) {
      VersionSegmentIsWholeStrip(rest);
      NoExtensionInVersion(rest);
    } else if Contains(p, ClientService.ProviderHost) {
      ClientService.ProviderUrlParts(baseUrl, videoId, p, rest);
    }
  }

  /** The server reads the public id from the text after the only marker. */
  lemma ThumbnailOfRest(p: string, rest: string)
    requires !Contains(p + "/video/upload", UploadMarker) && rest != ""
    ensures ThumbnailPublicId(p + UploadMarker + rest) == Some(StripExtension(CaptureAfterVersion(rest)))
  {
    MarkerAt(p, rest);
  }

  /** The capture keeps a bare version segment and otherwise drops a leading one. */
  lemma CaptureOfRest(rest: string)
    requires rest != ""
    ensures CaptureAfterVersion(rest) == if IsVersionSegment(rest) then rest else StripVersionPrefix(rest)
  {
    if IsVersionSegment(rest) {
      VersionSegmentIsWholeStrip(rest);
    } else {
      assert rest[..|rest|] == rest;
    }
  }

  /** The first marker of `p + marker + rest` is the one after `p`. */
  lemma MarkerAt(p: string, rest: string)
    requires !Contains(p + "/video/upload", UploadMarker)
    ensures IndexOf(p + UploadMarker + rest, UploadMarker) == Some(|p|)
    ensures (p + UploadMarker + rest)[|p| + |UploadMarker|..] == rest
  {
    assert UploadMarker[..|UploadMarker| - 1] == "/video/upload";
    IndexOfSeparator(p, UploadMarker, rest);
  }

  /** A version segment on its own is removed entirely by the client's rewrite. */
  lemma VersionSegmentIsWholeStrip(rest: string)
    requires IsVersionSegment(rest)
    ensures StripVersionPrefix(rest) == ""
  {
    var digits := rest[1..|rest| - 1];
    assert IsNumeral(digits) by {
      assert forall i :: 0 <= i < |digits| ==> digits[i] == rest[i + 1];
    }
    assert rest == "v" + digits + "/" + "";
    StripVersionOf(digits, "");
  }

  /** A version segment holds no dot, so it has no extension to strip. */
  lemma NoExtensionInVersion(rest: string)
    requires IsVersionSegment(rest)
    ensures StripExtension(rest) == rest
  {
    assert PlainSuffix(rest) == 0;
  }

  /** A URL without the marker, or with nothing after its first marker, gets no
      thumbnail. */
  lemma ThumbnailNeedsMarker(videoUrl: string)
    ensures ThumbnailPublicId(videoUrl).None? <==>
              !Contains(videoUrl, UploadMarker) || IndexOf(videoUrl, UploadMarker).value + |UploadMarker| == |videoUrl|
  {
  }

  // ---------------------------------------------------------------------------
  // The durable store, as pure functions

  /** `new Video(data)` as saved: a fresh object id (a given `_id` wins), the schema's
      defaults under the given fields, and both timestamps. */
  function DurableDoc(data: Record, objectId: string, now: nat): Record {
    map["_id" := Str(objectId)] + WithDefaults(data) + map["createdAt" := Time(now), "updatedAt" := Time(now)]
  }

  function CloudinaryIdOf(doc: Record): Option<Value> {
    if "cloudinaryId" in doc then Some(doc["cloudinaryId"]) else None
  }

  /** The unique index on `cloudinaryId`: no two documents share one (a missing one
      counts as `null`, which may also occur only once). */
  predicate UniqueCloudinaryIds(docs: seq<Record>) {
    forall i, j :: 0 <= i < j < |docs| ==> CloudinaryIdOf(docs[i]) != CloudinaryIdOf(docs[j])
  }

  /** A document the collection refuses: it fails the schema's checks or repeats a
      stored `cloudinaryId`. */
  predicate DurableRejects(docs: seq<Record>, doc: Record) {
    !Conforms(doc) || exists j :: 0 <= j < |docs| && CloudinaryIdOf(docs[j]) == CloudinaryIdOf(doc)
  }

  /** Appending an accepted document keeps the index unique. */
  lemma AcceptedKeepsUnique(docs: seq<Record>, doc: Record)
    requires UniqueCloudinaryIds(docs) && !DurableRejects(docs, doc)
    ensures UniqueCloudinaryIds(docs + [doc])
  {
    var t := docs + [doc];
    forall i, j | 0 <= i < j < |t| ensures CloudinaryIdOf(t[i]) != CloudinaryIdOf(t[j]) {
      assert t[i] == docs[i];
      if j < |docs| {
        assert t[j] == docs[j];
      }
    }
  }

  /** The first document whose `field` is the string `id`. */
  function FindByField(docs: seq<Record>, field: string, id: string): (k: Option<nat>)
    ensures k.Some? ==> k.value < |docs| && field in docs[k.value] && docs[k.value][field] == Str(id)
    ensures k.Some? ==> forall j :: 0 <= j < k.value ==> !(field in docs[j] && docs[j][field] == Str(id))
    ensures k.None? <==> forall j :: 0 <= j < |docs| ==> !(field in docs[j] && docs[j][field] == Str(id))
  {
    if docs == [] then None
    else if field in docs[0] && docs[0][field] == Str(id) then Some(0)
    else match FindByField(docs[1..], field, id)
         case None => None
         case Some(j) => Some(j + 1)
  }

  /** `findById`, then `findOne({cloudinaryId})` when that finds nothing. */
  function DurableLookup(docs: seq<Record>, id: string): Option<Record> {
    match FindByField(docs, "_id", id)
    case Some(k) => Some(docs[k])
    case None =>
      match FindByField(docs, "cloudinaryId", id)
      case Some(k) => Some(docs[k])
      case None => None
  }

  /** The database finds a document exactly when the memory table would find it among
      the same documents, but an `_id` match anywhere beats an earlier `cloudinaryId`
      match. */
  lemma DurableLookupPrefersId(docs: seq<Record>, id: string)
    ensures DurableLookup(docs, id).None? <==> Lookup(docs, id).None?
    ensures DurableLookup(docs, id).Some? ==> Matches(DurableLookup(docs, id).value, id)
    ensures FindByField(docs, "_id", id).Some? ==>
              DurableLookup(docs, id) == Some(docs[FindByField(docs, "_id", id).value])
  {
    if FindByField(docs, "_id", id).None? && FindByField(docs, "cloudinaryId", id).None? {
      assert forall j :: 0 <= j < |docs| ==> !Matches(docs[j], id);
    }
    if FindIndex(docs, id).None? {
      assert forall j :: 0 <= j < |docs| ==> !Matches(docs[j], id);
    }
  }

  // ---------------------------------------------------------------------------
  // The gateway

  /** The persistence gateway: the database's connection state and documents, and the
      in-memory table. A `durableFails` argument says whether the database call throws
      (a lost connection, a timeout, a refused cast). */
  class Gateway {
    var connected: bool
    var durable: seq<Record>
    const memory: MemoryTable

    ghost predicate Valid()
      reads this
    {
      UniqueCloudinaryIds(durable)
    }

    constructor (connected: bool)
      ensures this.connected == connected && durable == [] && fresh(memory) && memory.videos == [] && Valid()
    {
      this.connected := connected;
      durable := [];
      memory := new MemoryTable();
    }

    /** `saveVideoMetadata`: saved in the database when connected and the save goes
        through; otherwise, and whenever the save throws, created in memory. It never
        fails. */
    method SaveVideoMetadata(data: Record, objectId: string, now: nat, durableFails: bool) returns (saved: Record)
      requires Valid()
      modifies this`durable, memory`videos
      ensures Valid()
      ensures var toDurable := connected && !durableFails && !DurableRejects(old(durable), DurableDoc(data, objectId, now));
              && (toDurable ==> saved == DurableDoc(data, objectId, now) && durable == old(durable) + [saved]
                                && memory.videos == old(memory.videos))
              && (!toDurable ==> saved == NewRecord(data, now) && memory.videos == old(memory.videos) + [saved]
                                 && durable == old(durable))
    {
      if connected && !durableFails {
        var doc := DurableDoc(data, objectId, now);
        if !DurableRejects(durable, doc) {
          AcceptedKeepsUnique(durable, doc);
          durable := durable + [doc];
          return doc;
        }
      }
      saved := memory.Create(data, now);
    }

    /** `getAllVideos`: the database's documents newest first, or the memory table,
        sorted in place, when disconnected or on failure. */
    method GetAllVideos(durableFails: bool) returns (videos: seq<Record>)
      modifies memory`videos
      ensures NewestFirst(videos)
      ensures connected && !durableFails ==>
                videos == SortNewestFirst(durable) && memory.videos == old(memory.videos)
      ensures !(connected && !durableFails) ==>
                videos == memory.videos && memory.videos == SortNewestFirst(old(memory.videos))
    {
      if connected && !durableFails {
        SortIsNewestFirst(durable);
        return SortNewestFirst(durable);
      }
      videos := memory.GetAll();
    }

    /** `getVideoById`: the database's lookup when connected, the memory table's when
        disconnected or on failure. */
    method GetVideoById(id: string, durableFails: bool) returns (video: Option<Record>)
      ensures connected && !durableFails ==> video == DurableLookup(durable, id)
      ensures !(connected && !durableFails) ==> video == Lookup(memory.videos, id)
    {
      if connected && !durableFails {
        return DurableLookup(durable, id);
      }
      video := memory.GetById(id);
      assert video == Lookup(memory.videos, id) by {
        if video.Some? {
          var k :| 0 <= k < |memory.videos| && video.value == memory.videos[k] && Matches(memory.videos[k], id)
                   && forall j :: 0 <= j < k ==> !Matches(memory.videos[j], id);
          assert FindIndex(memory.videos, id) == Some(k);
        }
      }
    }

    /** `updateVideoStatus`: the first document matching by `_id` or `cloudinaryId`
        is patched and returned, in the database when connected (a patch that would
        repeat another document's `cloudinaryId` is refused by the index) or in memory
        otherwise; nothing is found, or the database fails, gives `null`. */
    method UpdateVideoStatus(id: string, status: string, extra: Record, now: nat, durableFails: bool)
      returns (video: Option<Record>)
      requires Valid()
      modifies this`durable, memory`videos
      ensures Valid()
      ensures connected && durableFails ==> video.None? && durable == old(durable) && memory.videos == old(memory.videos)
      ensures connected && !durableFails ==> memory.videos == old(memory.videos)
      ensures connected && !durableFails && FindIndex(old(durable), id).None? ==> video.None? && durable == old(durable)
      ensures connected && !durableFails && FindIndex(old(durable), id).Some? ==>
                var k := FindIndex(old(durable), id).value;
                var u := UpdateStatusIn(old(durable), id, status, extra, now);
                && (UniqueCloudinaryIds(u) ==> durable == u && video == Some(u[k]))
                && (!UniqueCloudinaryIds(u) ==> durable == old(durable) && video.None?)
      ensures !connected ==>
                durable == old(durable) && memory.videos == UpdateStatusIn(old(memory.videos), id, status, extra, now)
                && (video.None? <==> Lookup(old(memory.videos), id).None?)
                && (video.Some? ==> video.value == Lookup(old(memory.videos), id).value + StatusPatch(status, extra, now))
    {
      if connected {
        if durableFails {
          return None;
        }
        var k := FindIndex(durable, id);
        if k.None? {
          return None;
        }
        var patched := durable[k.value] + StatusPatch(status, extra, now);
        var updated := durable[k.value := patched];
        if !UniqueCloudinaryIds(updated) {
          return None;
        }
        durable := updated;
        return Some(patched);
      }
      video := memory.UpdateStatus(id, status, extra, now);
    }
  }
}
