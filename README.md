# Video streaming application — a verified model of its core logic

This project models, in Dafny, the sequential logic of a small video streaming
application: a React front end that plays HLS video through a video.js engine and
uploads files, and an Express back end that forwards uploads to a media provider
(Cloudinary) and stores video records in MongoDB or, without a database, in an
in-memory array.

The model covers:

- **The playback hook** (`Playback`, from `useVideoPlayer.js`).
  - The engine is an abstract mutable object (`Playback.Engine`).
  - Each of the eleven event handlers and eight commands is a method of the hook class `Playback.VideoPlayerHook`.
  - Each method is specified by the pure reducers `Reduce` (events) and `Apply` (commands).
  - Lemmas over event traces show that the last relevant event decides `isLoading` and `isPlaying`, and that `onEnded` fires once per `ended`.
- **The player component** (`VideoPlayer`).
  - The keyboard-shortcut table and its focus guard.
  - The show/hide state machine of the control overlay and the settings toggle.
- **The control bar helpers** (`VideoControls`).
  - `formatTime`, with JavaScript's truncating `%` written out, and a proved round trip through a clock parser.
  - Buffered ranges, the volume icon, the slider value and the rate badge.
- **The upload form** (`VideoUpload`).
  - The validator, with its fixed check order and messages.
  - The five state fields as a class whose transitions keep an invariant.
- **The upload page, the list page and the watch page** (`UploadPage`, `HomePage`, `VideoPage`).
  - The id-priority chains, the `"processing"` sentinel and the banner.
  - `fetchVideos` and the card contents.
  - The watch page's playlist link.
- **The browser API client** (`ClientService`).
  - The rewrite of a provider URL into the URL of its HLS playlist (RFC 8216), ending in `.m3u8`; only the URL is built, not the playlist.
  - The thumbnail URL.
  - How a finished upload request settles.
- **The server** (`VideoModel`, `BackendService`, `VideoRoutes`).
  - The schema's defaults and the in-memory table: append, lookup, an in-place sort proved stable, and in-place status update.
  - The gateway that routes each call to the database or to memory.
  - The thumbnail public id.
  - The `POST /upload` pipeline with its temp-file clean-up, and the `GET` routes.

Records on the server are `map<string, Value>`. JavaScript's object spread
`{...a, ...b}` and `Object.assign(a, b)` are both `a + b` (the right operand wins on
a shared key). A missing or empty string is written `""` wherever the source treats
both alike as falsy. Clocks, uuids and object ids are parameters. The database, the
provider and the file system are oracles whose failure is a parameter.

Notes on the code as written, which the model follows:

- The rewrite in `getVideoStreamUrl` is not idempotent: applied to its own output it inserts a second `sp_hls/` segment (`ClientService.StreamUrlNotIdempotent`).
- The watch page's own rewrite keeps the file extension (`sp_hls/id.mp4.m3u8`), so it differs from the client service's URL for the same video (`VideoPage.VideoLinkKeepsExtension`).
- For a URL with a single `/video/upload/` whose text after it is only a version segment such as `v12/`, the server's thumbnail regex backtracks and keeps `v12/` as the public id, while the client's rewrite leaves an empty id (`BackendService.ThumbnailMatchesPlaylistId`). With a second marker in the URL the two differ in another way: the server's id runs to the end of the URL, while the client's stops at the second marker; such URLs are outside that lemma.
- Only a provider failure turns `POST /upload` into a 500 reply.
  - `generateThumbnail` catches its own errors and returns `null`.
  - `saveVideoMetadata` catches its own errors and falls back to memory.
  - So thumbnail and save failures never reach the route's `catch` (`VideoRoutes.HandleUpload`).
- The same holds for the 500 branches of `GET /` and `GET /:id`: the service functions they call catch every error themselves, so those branches cannot be taken (`VideoRoutes.HandleList`, `VideoRoutes.HandleGet`).
- A card's duration badge is drawn only for a positive duration, so the `"N/A"` text of `formatDuration` never appears on a card (`HomePage.CardBadges`).
- An upload whose id is literally `processing` gets the generic banner instead of one naming the id (`UploadPage.BannerNamesId`).

## Model

| member | source | states |
|---|---|---|
| Text.StripVersionPrefix | frontend/src/services/videoService.js:111 | `replace(/^v\d+\//, '')`: the result is the input, or the input with exactly one leading `v<digits>/` segment removed |
| Text.StripVersionOf | frontend/src/services/videoService.js:111 | a leading `v<digits>/` is always removed, and nothing else |
| Text.StripExtension | frontend/src/services/videoService.js:111 | `replace(/\.[^/.]+$/, '')`: the result is the input, or a prefix of it whose removed rest is one extension (a dot and at least one character other than `/` and `.`) |
| Text.StripExtensionOnlyIfExtension | frontend/src/services/videoService.js:111 | a text left unchanged has no suffix that is an extension |
| Text.StripExtensionOf | frontend/src/services/videoService.js:111 | `stem.ext` with a plain `ext` becomes `stem`, so only the last extension goes |
| Text.Split | frontend/src/services/videoService.js:107 | `split` on a non-empty separator always yields at least one piece |
| Text.SplitCount | frontend/src/services/videoService.js:107-108 | `parts.length > 1` exactly when the text contains the separator |
| Text.JoinSplit | frontend/src/services/videoService.js:107 | joining the pieces with the separator gives back the text, so the split loses nothing |
| Text.FirstPresentIndex | frontend/src/pages/HomePage.jsx:30 | the `a \|\| b \|\| c` chain stops at the first non-empty candidate; every earlier one is empty |
| Playback.Engine.OnEach | frontend/src/hooks/useVideoPlayer.js:87-97 | registering handlers for a list of events adds exactly those events to the engine's listeners |
| Playback.Engine.OffEach | frontend/src/hooks/useVideoPlayer.js:100-112 | removing the handlers for a list of events takes exactly those events away |
| Playback.RunSnoc | frontend/src/hooks/useVideoPlayer.js:24-74 | handling a trace and then one more event is handling the longer trace |
| Playback.Reduce | frontend/src/hooks/useVideoPlayer.js:24-74 | the snapshot after one event handler: each of the eleven events sets only its own fields; its consequences are stated by `Playback.LoadingFollowsLastSignal`, `Playback.PlayingFollowsLastSignal` and `Playback.EventsKeepQuality`, and `Playback.VideoPlayerHook.Deliver` ties the handlers to it |
| Playback.Run | frontend/src/hooks/useVideoPlayer.js:24-74 | handlers run one after another in emission order; `Playback.RunSnoc` and the two `FollowsLastSignal` lemmas state what a whole trace leaves |
| Playback.Sample | frontend/src/hooks/useVideoPlayer.js:76-84 | bind-time sampling copies the eight engine getters and keeps quality and loading; `Playback.VideoPlayerHook.Attach` and `Playback.BindMidPlayback` state it |
| Playback.LoadingFollowsLastSignal | frontend/src/hooks/useVideoPlayer.js:24-59 | after any event trace, `isLoading` is the value set by the last `waiting` (true) or `canplay`/`play` (false) event, or its old value if there was none |
| Playback.PlayingFollowsLastSignal | frontend/src/hooks/useVideoPlayer.js:24-70 | after any trace, `isPlaying` is set by the last `play` (true) or `pause`/`ended` (false) event |
| Playback.EndedNoticedOncePerEnded | frontend/src/hooks/useVideoPlayer.js:65-70 | `onEnded` is called exactly once per `ended` event when supplied, never otherwise |
| Playback.EventsKeepQuality | frontend/src/hooks/useVideoPlayer.js:24-74 | no engine event changes the quality preference |
| Playback.BindMidPlayback | frontend/src/hooks/useVideoPlayer.js:76-84 | binding to an engine already playing at 12.4 s shows it playing at 12.4 s, with quality `auto` and not loading, before any event |
| Playback.SeekTarget | frontend/src/hooks/useVideoPlayer.js:126 | the seek target lies in `[0, duration]`; an in-range time is kept; past the end gives `duration`, below zero gives 0 |
| Playback.ClampVolume | frontend/src/hooks/useVideoPlayer.js:133 | the volume lies in `[0, 1]`; an in-range level is kept; the result is positive exactly when the request is |
| Playback.Apply | frontend/src/hooks/useVideoPlayer.js:115-180 | per command: seek clamps and writes engine and snapshot alike; volume clamps and unmutes a muted engine only for a positive level; mute negates the engine's flag and copies it; rate is forwarded verbatim; quality touches only the snapshot; the three toggles send play/pause, exit/request fullscreen and exit/request picture-in-picture according to the engine's current state |
| Playback.VolumeEffect | frontend/src/hooks/useVideoPlayer.js:133-139 | the clamped level lies in [0, 1] and goes to engine and snapshot alike; the engine stays muted only at level 0, and the snapshot's mute flag is cleared exactly when a positive level unmuted a muted engine |
| Playback.VideoPlayerHook.constructor | frontend/src/hooks/useVideoPlayer.js:4-13 | the ten `useState` initial values, and no engine bound |
| Playback.VideoPlayerHook.Bind | frontend/src/hooks/useVideoPlayer.js:76-97 | binding samples every getter into the snapshot (keeping quality and loading) and registers the eleven handlers |
| Playback.VideoPlayerHook.Attach | frontend/src/hooks/useVideoPlayer.js:76-84 | the snapshot becomes the sample of the engine's getters |
| Playback.VideoPlayerHook.Unbind | frontend/src/hooks/useVideoPlayer.js:100-112 | cleanup removes exactly the eleven subscriptions made at bind |
| Playback.VideoPlayerHook.OnPlay | frontend/src/hooks/useVideoPlayer.js:24-27 | playing, and no longer loading |
| Playback.VideoPlayerHook.OnPause | frontend/src/hooks/useVideoPlayer.js:29-31 | not playing; nothing else changes |
| Playback.VideoPlayerHook.OnTimeUpdate | frontend/src/hooks/useVideoPlayer.js:33-38 | copies the engine's time and calls `onTimeUpdate` with it when supplied |
| Playback.VideoPlayerHook.OnDurationChange | frontend/src/hooks/useVideoPlayer.js:40-42 | copies the engine's duration |
| Playback.VideoPlayerHook.OnVolumeChange | frontend/src/hooks/useVideoPlayer.js:44-47 | copies both the engine's volume and its mute flag |
| Playback.VideoPlayerHook.OnRateChange | frontend/src/hooks/useVideoPlayer.js:49-51 | copies the engine's rate |
| Playback.VideoPlayerHook.OnWaiting | frontend/src/hooks/useVideoPlayer.js:53-55 | loading |
| Playback.VideoPlayerHook.OnCanPlay | frontend/src/hooks/useVideoPlayer.js:57-59 | not loading |
| Playback.VideoPlayerHook.OnProgress | frontend/src/hooks/useVideoPlayer.js:61-63 | copies the engine's buffered ranges |
| Playback.VideoPlayerHook.OnEnded | frontend/src/hooks/useVideoPlayer.js:65-70 | not playing, and `onEnded` called once when supplied |
| Playback.VideoPlayerHook.OnFullscreenChange | frontend/src/hooks/useVideoPlayer.js:72-74 | copies the engine's fullscreen state |
| Playback.VideoPlayerHook.Deliver | frontend/src/hooks/useVideoPlayer.js:87-97 | an event reaches the handler registered for it, which updates the snapshot as `Reduce` says |
| Playback.VideoPlayerHook.PlayPause | frontend/src/hooks/useVideoPlayer.js:115-122 | no-op without an engine; otherwise `play` exactly when the engine is paused, else `pause` |
| Playback.VideoPlayerHook.Seek | frontend/src/hooks/useVideoPlayer.js:124-129 | no-op without an engine; otherwise the clamped time goes to the engine and the snapshot |
| Playback.VideoPlayerHook.SetVolume | frontend/src/hooks/useVideoPlayer.js:131-140 | no-op without an engine; otherwise the clamped volume goes to both, and a positive one unmutes a muted engine and snapshot |
| Playback.VideoPlayerHook.ToggleMute | frontend/src/hooks/useVideoPlayer.js:142-146 | no-op without an engine; otherwise the engine gets the negation of its flag and the snapshot copies it |
| Playback.VideoPlayerHook.SetPlaybackRate | frontend/src/hooks/useVideoPlayer.js:148-152 | no-op without an engine; otherwise the rate is forwarded verbatim to both |
| Playback.VideoPlayerHook.SetQuality | frontend/src/hooks/useVideoPlayer.js:154-162 | no-op without an engine; otherwise only the local quality changes and the engine is untouched |
| Playback.VideoPlayerHook.ToggleFullscreen | frontend/src/hooks/useVideoPlayer.js:164-171 | no-op without an engine; otherwise exit when already fullscreen, else request |
| Playback.VideoPlayerHook.TogglePictureInPicture | frontend/src/hooks/useVideoPlayer.js:173-180 | no-op without an engine; otherwise exit when already in picture-in-picture, else request |
| Playback.VideoPlayerHook.Perform | frontend/src/hooks/useVideoPlayer.js:115-180 | any command does what `Apply` says, and nothing without an engine |
| Playback.BindThenUnbind | frontend/src/hooks/useVideoPlayer.js:87-112 | bind followed by cleanup leaves the engine's handlers as they were |
| VideoPlayer.KeyTable | frontend/src/components/VideoPlayer/VideoPlayer.jsx:115-155 | a key press acts exactly when the target is not INPUT/TEXTAREA and the key is one of the nine shortcuts (so upper-case letters do nothing); space and `k` toggle play, `m` mute, `f` fullscreen, `p` picture-in-picture |
| VideoPlayer.KeyAction | frontend/src/components/VideoPlayer/VideoPlayer.jsx:114-156 | `handleKeyDown`'s switch; which keys act and what they do is stated by `VideoPlayer.KeyTable`, `VideoPlayer.ArrowSeekClamped` and `VideoPlayer.ArrowVolumeInRange` |
| VideoPlayer.ArrowSeekClamped | frontend/src/components/VideoPlayer/VideoPlayer.jsx:125-132 | the arrows request a seek 10 s back or forward, which the hook clamps into `[0, duration]`, keeping an in-range target |
| VideoPlayer.ArrowVolumeInRange | frontend/src/components/VideoPlayer/VideoPlayer.jsx:133-140 | from a volume in `[0, 1]` the up/down arrows request a volume in `[0, 1]`, one tenth away unless that leaves the range |
| VideoPlayer.HandleKeyDown | frontend/src/components/VideoPlayer/VideoPlayer.jsx:114-156 | a shortcut has its default prevented and performs its command on the hook; any other key changes nothing |
| VideoPlayer.RateBadgeOnMenu | frontend/src/components/VideoPlayer/VideoPlayer.jsx:65 | of the offered rates only the normal one (the fourth) hides the rate badge |
| VideoPlayer.ControlsVisibility.constructor | frontend/src/components/VideoPlayer/VideoPlayer.jsx:23-24 | controls start visible and the settings menu closed |
| VideoPlayer.ControlsVisibility.MouseMove | frontend/src/components/VideoPlayer/VideoPlayer.jsx:170-178 | controls shown and the hide timer restarted |
| VideoPlayer.ControlsVisibility.MouseLeave | frontend/src/components/VideoPlayer/VideoPlayer.jsx:180-184 | hides the controls only while playing; paused, visibility is unchanged |
| VideoPlayer.ControlsVisibility.TimerFires | frontend/src/components/VideoPlayer/VideoPlayer.jsx:173-177 | the expired timer hides the controls only while playing |
| VideoPlayer.ControlsVisibility.PlayingChanged | frontend/src/components/VideoPlayer/VideoPlayer.jsx:189-194 | a new `isPlaying` value clears the pending timer and leaves visibility alone |
| VideoPlayer.ControlsVisibility.ToggleSettings | frontend/src/components/VideoPlayer/VideoPlayer.jsx:196-198 | flips `isSettingsOpen` |
| VideoPlayer.ControlsVisibility.CloseSettings | frontend/src/components/VideoPlayer/VideoPlayer.jsx:23 | closes the settings menu |
| VideoPlayer.ToggleTwice | frontend/src/components/VideoPlayer/VideoPlayer.jsx:196-198 | two toggles restore the settings menu |
| VideoPlayer.PausedStaysVisible | frontend/src/components/VideoPlayer/VideoPlayer.jsx:170-184 | while paused, visible controls stay visible through any sequence of mouse moves, leaves and timer expiries |
| VideoControls.FormatTimeRoundTrip | frontend/src/components/VideoPlayer/VideoControls.jsx:27-37 | for a non-negative time the text is `m:ss` below an hour and `h:mm:ss` from an hour on, with two-digit padded fields below 60, and reads back as the whole seconds |
| VideoControls.FormatTime | frontend/src/components/VideoPlayer/VideoControls.jsx:27-37 | `formatTime` with `Math.floor` and a truncating `%`; its shape and round trip are stated by `VideoControls.FormatTimeRoundTrip` |
| VideoControls.ClockBelowHour | frontend/src/components/VideoPlayer/VideoControls.jsx:36 | below an hour the text is the minutes, a colon and the padded seconds, and parses back to the seconds |
| VideoControls.ClockFromHour | frontend/src/components/VideoPlayer/VideoControls.jsx:33-35 | from an hour on the text has three fields and parses back to the seconds |
| VideoControls.WholeSecondParts | frontend/src/components/VideoPlayer/VideoControls.jsx:29-31 | hours, minutes and seconds computed with `Math.floor` and JavaScript's `%` are those of the whole seconds |
| VideoControls.RemainderFloor | frontend/src/components/VideoPlayer/VideoControls.jsx:30-31 | on a non-negative time, `%` by 60 or 3600 is non-negative and floors to the remainder of the whole seconds |
| VideoControls.GetBufferedRanges | frontend/src/components/VideoPlayer/VideoControls.jsx:39-45 | no ranges for a missing list; otherwise exactly one pair per range, in index order, with the same start and end |
| VideoControls.VolumeIconMonotone | frontend/src/components/VideoPlayer/VideoControls.jsx:144-156 | muted always shows the muted icon; unmuted, a louder volume never shows a quieter icon, and the muted icon appears exactly at volume 0 |
| VideoControls.SliderZeroIffMutedIcon | frontend/src/components/VideoPlayer/VideoControls.jsx:165 | the slider rests at 0 exactly when the button shows the muted icon |
| VideoControls.ChooseVolumeIcon | frontend/src/components/VideoPlayer/VideoControls.jsx:144-156 | the mute button's icon; `VideoControls.VolumeIconMonotone` states that it is muted exactly when muted or at 0 and never quieter for a louder volume |
| VideoControls.SliderValue | frontend/src/components/VideoPlayer/VideoControls.jsx:165 | the slider's value; `VideoControls.SliderZeroIffMutedIcon` states it is 0 exactly when the icon is the muted one |
| VideoControls.ShowsRateBadge | frontend/src/components/VideoPlayer/VideoControls.jsx:183-187 | the badge is drawn for every rate but 1; `VideoPlayer.RateBadgeOnMenu` states which offered rates show it |
| VideoUpload.ValidateFile | frontend/src/components/VideoUpload/VideoUpload.jsx:25-46 | a file passes exactly when its type is one of the five listed and its size is in `(0, 2 GiB]`; a failure carries one of the three messages |
| VideoUpload.ValidationMessages | frontend/src/components/VideoUpload/VideoUpload.jsx:27-43 | type is checked before size and size before emptiness, so a wrong type always gets the type message and an empty file is always rejected |
| VideoUpload.InvalidTypeText | frontend/src/components/VideoUpload/VideoUpload.jsx:28-30 | the type message in full: "Invalid file type. Accepted formats: mp4, webm, ogg, mov, avi" |
| VideoUpload.TooLargeText | frontend/src/components/VideoUpload/VideoUpload.jsx:36-37 | the size message in full: "File size exceeds maximum limit of 2GB" |
| VideoUpload.ExtensionList | frontend/src/components/VideoUpload/VideoUpload.jsx:28-30 | the listed extensions joined with `", "` |
| VideoUpload.SizeBoundary | frontend/src/components/VideoUpload/VideoUpload.jsx:23-38 | exactly 2·1024³ bytes passes, one byte more is too large |
| VideoUpload.UploadSession.constructor | frontend/src/components/VideoUpload/VideoUpload.jsx:8-12 | the initial state: no file, progress 0, not uploading, no status, no message |
| VideoUpload.UploadSession.SelectFile | frontend/src/components/VideoUpload/VideoUpload.jsx:48-63 | an accepted file is selected with status, message and progress reset; a rejected one clears the selection, sets the error status and message, and calls `onUploadError` once |
| VideoUpload.UploadSession.StartUpload | frontend/src/components/VideoUpload/VideoUpload.jsx:100-106 | nothing changes without a selected file; otherwise uploading with status, message and progress cleared |
| VideoUpload.UploadSession.ReportProgress | frontend/src/components/VideoUpload/VideoUpload.jsx:111-113 | the bar shows the reported percentage |
| VideoUpload.UploadSession.UploadSucceeded | frontend/src/components/VideoUpload/VideoUpload.jsx:116-133 | success, progress 100, not uploading, and `onUploadSuccess` called with the reply |
| VideoUpload.UploadSession.UploadFailed | frontend/src/components/VideoUpload/VideoUpload.jsx:122-133 | error status, progress 0, not uploading, the thrown message or "Upload failed. Please try again.", and `onUploadError` called with it |
| VideoUpload.UploadSession.UploadSettled | frontend/src/components/VideoUpload/VideoUpload.jsx:108-133 | the settled request decides success or failure as the client service rejects or resolves; every transition keeps the invariant (success implies progress 100; a message is shown exactly with the error status) |
| VideoUpload.UploadSession.Reset | frontend/src/components/VideoUpload/VideoUpload.jsx:136-145 | all five fields back to their initial values |
| VideoUpload.SelectAndUpload | frontend/src/components/VideoUpload/VideoUpload.jsx:48-133 | choosing an acceptable file and uploading it successfully ends in success at 100 with that file still selected |
| ClientService.SettleUpload | frontend/src/services/videoService.js:31-55 | resolves exactly on a 2xx status with a JSON body, with that body; every rejection carries a non-empty message |
| ClientService.RejectionMessages | frontend/src/services/videoService.js:43-55 | a non-2xx reply rejects with the body's `message`, else "Upload failed with status N"; a network error rejects with "Upload failed" |
| ClientService.StatusInRejection | frontend/src/services/videoService.js:43-51 | a non-2xx reply without a JSON body, whatever its text, rejects with "Upload failed with status " followed by the status in decimal, which reads back as the status |
| ClientService.ProviderUrlParts | frontend/src/services/videoService.js:105-113 | a provider URL with one marker is rebuilt from the text before the marker and the public id after it |
| ClientService.StreamUrl | frontend/src/services/videoService.js:103-119 | `getVideoStreamUrl`; stated by `ClientService.ProviderUrlParts`, `ClientService.StreamUrlOfProviderUrl`, `ClientService.StreamUrlKeepsOrFallsBack` and `ClientService.StreamUrlNotIdempotent` |
| ClientService.PlaylistPublicId | frontend/src/services/videoService.js:109-111 | the version segment and then the extension are stripped; `ClientService.PublicIdOfVersionedFile` states that `v<digits>/<id>.<ext>` gives `<id>` |
| ClientService.PublicIdOfVersionedFile | frontend/src/services/videoService.js:111 | the public id of `v<digits>/<id>.<ext>` with a plain extension is `<id>` |
| ClientService.FallbackStreamUrl | frontend/src/services/videoService.js:118 | the server's `uploads/courses/<id>/index.m3u8`; `ClientService.StreamUrlKeepsOrFallsBack` states when it is used |
| ClientService.StreamUrlOfProviderUrl | frontend/src/services/videoService.js:105-113 | `P/video/upload/v<digits>/<id>.<ext>` becomes `P/video/upload/sp_hls/<id>.m3u8` |
| ClientService.StreamUrlKeepsOrFallsBack | frontend/src/services/videoService.js:115-118 | a provider URL without the marker is returned unchanged; any other URL gives the server's `uploads/courses/<id>/index.m3u8` |
| ClientService.StreamUrlNotIdempotent | frontend/src/services/videoService.js:107-113 | rewriting a rewritten URL inserts a second `sp_hls/` segment, so the rewrite is not idempotent |
| ClientService.RewrittenTwice | frontend/src/services/videoService.js:113 | the playlist URL of `sp_hls/<id>` has two `sp_hls/` segments and differs from its input |
| ClientService.PublicIdOfPlaylistPath | frontend/src/services/videoService.js:111 | the public id read from `sp_hls/<id>.m3u8` is `sp_hls/<id>` |
| ClientService.ThumbnailUrl | frontend/src/services/videoService.js:127-132 | a non-empty thumbnail URL wins; otherwise the server's `uploads/courses/<id>/thumbnail.jpg` |
| VideoPage.VideoLinkKeepsUrl | frontend/src/pages/VideoPage.jsx:15-28 | a URL that already names a playlist, is not a provider URL, or lacks the marker is used unchanged |
| VideoPage.VideoLinkKeepsExtension | frontend/src/pages/VideoPage.jsx:19-25 | `v<digits>/<id>.<ext>` becomes `sp_hls/<id>.<ext>.m3u8`, which differs from the client service's URL |
| VideoPage.VersionOfRest | frontend/src/pages/VideoPage.jsx:23 | the page strips the version segment and keeps the extension |
| VideoPage.ExtensionLengthens | frontend/src/pages/VideoPage.jsx:25 | a kept extension makes the playlist URL differ from the one without it |
| VideoPage.PageUrlParts | frontend/src/pages/VideoPage.jsx:16-25 | a provider URL with one marker is rebuilt from the text before it and the rest without its version segment |
| VideoPage.VideoLinkFallback | frontend/src/pages/VideoPage.jsx:31-32 | without a URL the link is the server playlist for `video.id`, else `video._id`, else the route's id, else the fixed default id |
| VideoPage.VideoLink | frontend/src/pages/VideoPage.jsx:11-33 | `videoLink`; stated by `VideoPage.VideoLinkKeepsUrl`, `VideoPage.VideoLinkKeepsExtension`, `VideoPage.PageUrlParts` and `VideoPage.VideoLinkFallback` |
| VideoPage.FallbackId | frontend/src/pages/VideoPage.jsx:31 | the `\|\|` chain with the fixed default id; `VideoPage.VideoLinkFallback` states its order |
| UploadPage.ExtractVideoId | frontend/src/pages/UploadPage.jsx:14-24 | a found id is non-empty and one of the four candidates; none is found exactly when all four are empty |
| UploadPage.ExtractVideoIdOrder | frontend/src/pages/UploadPage.jsx:16-24 | the priority is `video.id`, `video.cloudinaryId`, `id`, `videoId`, each taken only when every earlier one is empty |
| UploadPage.IdCandidates | frontend/src/pages/UploadPage.jsx:16-24 | the four candidates in the order the handler tries them; `UploadPage.ExtractVideoId` and `UploadPage.ExtractVideoIdOrder` state the choice among them |
| UploadPage.UploadPageState.constructor | frontend/src/pages/UploadPage.jsx:7 | `uploadedVideoId` starts as `null` |
| UploadPage.UploadPageState.HandleUploadSuccess | frontend/src/pages/UploadPage.jsx:26-36 | a found id is stored and `onVideoUploaded` is called once with it when supplied; otherwise the state is `"processing"` and nobody is told |
| UploadPage.BannerNamesId | frontend/src/pages/UploadPage.jsx:51-63 | the banner shows exactly when an id is stored, and names the id exactly when it is not `"processing"` |
| UploadPage.Banner | frontend/src/pages/UploadPage.jsx:51-63 | the success banner; `UploadPage.BannerNamesId` and `UploadPage.UploadThenBanner` state when it shows and what it names |
| UploadPage.UploadThenBanner | frontend/src/pages/UploadPage.jsx:26-63 | after a successful upload the banner shows, naming the extracted id, or the generic text when none was found |
| HomePage.ClickAndKeyOrders | frontend/src/pages/HomePage.jsx:114 | the click uses `id` first and the card key `_id` first; they agree exactly when the video does not carry two different values in them |
| HomePage.ClickedVideoId | frontend/src/pages/HomePage.jsx:30 | `id`, else `_id`, else `cloudinaryId`; `HomePage.ClickAndKeyOrders` states the order and when it agrees with the card key |
| HomePage.CardKey | frontend/src/pages/HomePage.jsx:114 | `_id`, else `id`, else `cloudinaryId`; stated by `HomePage.ClickAndKeyOrders` |
| HomePage.FormatDurationClock | frontend/src/pages/HomePage.jsx:38-48 | zero reads "N/A"; a positive duration reads as the control bar's clock text, which is never "N/A" and parses back to its whole seconds |
| HomePage.FormatDuration | frontend/src/pages/HomePage.jsx:38-48 | `formatDuration`; `HomePage.FormatDurationClock` states it is "N/A" at 0 and the control bar's clock otherwise |
| HomePage.Card | frontend/src/pages/HomePage.jsx:140 | a card always shows a non-empty title |
| HomePage.CardBadges | frontend/src/pages/HomePage.jsx:128-142 | the duration and size appear exactly for positive values and the status exactly when present; a shown duration is never "N/A"; the title falls back to "Untitled Video" |
| HomePage.CountLabelPlural | frontend/src/pages/HomePage.jsx:92 | the header says "videos" exactly when the count is not one |
| HomePage.CountLabel | frontend/src/pages/HomePage.jsx:92 | the header line; `HomePage.CountLabelPlural` states when its noun is plural |
| HomePage.HomeState.constructor | frontend/src/pages/HomePage.jsx:6-8 | an empty list, loading, no error |
| HomePage.HomeState.View | frontend/src/pages/HomePage.jsx:58-111 | the spinner exactly while loading; the error screen exactly when not loading and an error is set; the grid holds the videos |
| HomePage.HomeState.FetchStarted | frontend/src/pages/HomePage.jsx:16-17 | loading, with the error cleared |
| HomePage.HomeState.FetchSettled | frontend/src/pages/HomePage.jsx:18-25 | a reply sets the list (empty when it has no `videos`); a failure sets the fixed message; loading ends on both paths |
| HomePage.FetchVideos | frontend/src/pages/HomePage.jsx:14-26 | a whole fetch ends in the grid, the empty state or the fixed error screen, never the spinner |
| VideoModel.WithDefaults | backend/models/Video.js:3-52 | a document has every default field, keeps every given value, and has no other fields |
| VideoModel.SchemaDefaultValues | backend/models/Video.js:35-47 | `status` defaults to `processing`, `format` to `hls`, `uploadedBy` to `anonymous`; such a document conforms exactly when its required fields are given |
| VideoModel.ConformsWithStatus | backend/models/Video.js:5-43 | a document with an allowed `status` of its own conforms exactly when `title`, `cloudinaryId` and `videoUrl` are non-empty strings |
| VideoModel.NewRecordFields | backend/models/Video.js:69-75 | the new record keeps every given field except the two timestamps, which are the clock; `_id` is the given one, else the truthy `cloudinaryId`, else the clock as text |
| VideoModel.NewRecord | backend/models/Video.js:69-75 | `createVideoInMemory`'s object; stated by `VideoModel.NewRecordFields` and `VideoRoutes.MemoryIdIsCloudinaryId` |
| VideoModel.FindIndex | backend/models/Video.js:84-86 | `find` stops at the first record whose `_id` or `cloudinaryId` is the id; nothing is found exactly when no record matches |
| VideoModel.Lookup | backend/models/Video.js:84-86 | `find` by `_id` or `cloudinaryId`; `VideoModel.CreateThenLookup`, `VideoModel.MemoryTable.GetById` and `BackendService.DurableLookupPrefersId` state what it finds |
| VideoModel.CreateThenLookup | backend/models/Video.js:69-86 | after creating a record with a non-empty `cloudinaryId`, looking that id up finds a record: the new one unless an earlier record matches |
| VideoModel.UpdateStatusIn | backend/services/videoService.js:118-121 | the status update keeps the table's length |
| VideoModel.UpdateStatusChangesOnlyMatch | backend/services/videoService.js:116-123 | an unknown id changes nothing; otherwise only the first match changes, and in it only `status`, the extra fields and `updatedAt` |
| VideoModel.PatchFields | backend/services/videoService.js:118-121 | `Object.assign` with the patch keeps every other field, adds the extra fields, stamps `updatedAt`, and sets `status` unless the extra fields carry their own |
| VideoModel.Insert | backend/models/Video.js:81 | one insertion step of the sort adds exactly one element |
| VideoModel.SortNewestFirst | backend/models/Video.js:81 | the sort is a permutation of the table |
| VideoModel.InsertKeepsOrder | backend/models/Video.js:81 | inserting into a newest-first table keeps it newest first |
| VideoModel.SortIsNewestFirst | backend/models/Video.js:81 | the sorted table has non-increasing `createdAt` and is a permutation of the table before |
| VideoModel.SortKeepsSorted | backend/models/Video.js:81 | a table already newest first is left exactly as it is |
| VideoModel.SortIdempotent | backend/models/Video.js:81 | sorting twice is sorting once |
| VideoModel.CreatedAtTime | backend/models/Video.js:81 | the records with a given `createdAt`, in their order; used to state stability |
| VideoModel.InsertStable | backend/models/Video.js:81 | an insertion step puts the new record in front of the records with its `createdAt` and moves none of them |
| VideoModel.SortIsStable | backend/models/Video.js:81 | the sort is stable: for every time, the records created then keep their relative order |
| VideoModel.MemoryTable.constructor | backend/models/Video.js:64 | the table starts empty |
| VideoModel.MemoryTable.Create | backend/models/Video.js:69-78 | appends exactly one record at the end and returns it; earlier records are unchanged |
| VideoModel.MemoryTable.GetAll | backend/models/Video.js:80-82 | sorts the table itself and returns it: newest first and a permutation of what was there |
| VideoModel.MemoryTable.GetById | backend/models/Video.js:84-86 | returns the first record matching by `_id` or `cloudinaryId`, and nothing exactly when no record matches |
| VideoModel.MemoryTable.UpdateStatus | backend/services/videoService.js:116-123 | patches the first match in place with the status, the extra fields and the clock; returns nothing exactly when nothing matches |
| BackendService.UploadVideoToProvider | backend/services/videoService.js:5-23 | the provider's result passes through unchanged; a failure stays a failure |
| BackendService.ProviderErrorKeepsCause | backend/services/videoService.js:19-22 | a failure is rethrown with the prefix "Failed to upload video to Cloudinary: " followed by the provider's whole message |
| BackendService.CaptureAfterVersion | backend/services/videoService.js:28 | the capture group of `(?:v\d+\/)?(.+)` is non-empty: the whole rest, or the rest after one leading version segment |
| BackendService.ThumbnailPublicId | backend/services/videoService.js:28-33 | the public id read by the regex, without its extension; stated by `BackendService.ThumbnailNeedsMarker` and `BackendService.ThumbnailMatchesPlaylistId` |
| BackendService.GenerateThumbnail | backend/services/videoService.js:25-50 | `null` for a non-string URL, for a URL from which no public id is read (in particular one without `/video/upload/`) and for any thrown error; whenever a public id is read, exactly the provider's URL for it |
| BackendService.ThumbnailMatchesPlaylistId | backend/services/videoService.js:28-33 | for a URL with a single `/video/upload/`, the thumbnail's public id is the client's `PlaylistPublicId` of the same rest, and the client streams the playlist of that id, except that a bare version segment is kept by the server and dropped by the client |
| BackendService.MarkerAt | backend/services/videoService.js:28 | the first marker in `p/video/upload/rest` is the one after `p`, and the text after it is `rest` |
| BackendService.VersionSegmentIsWholeStrip | frontend/src/services/videoService.js:111 | a bare version segment is removed entirely by the client's rewrite |
| BackendService.NoExtensionInVersion | backend/services/videoService.js:33 | a version segment has no extension to strip |
| BackendService.ThumbnailNeedsMarker | backend/services/videoService.js:28-31 | no public id exactly when the URL has no marker or nothing follows its first one |
| BackendService.AcceptedKeepsUnique | backend/models/Video.js:14-18 | a document the collection accepts keeps `cloudinaryId` unique |
| BackendService.DurableDoc | backend/services/videoService.js:56-57 | the saved document: `_id`, the schema defaults under the given fields, both timestamps; stated by `VideoRoutes.DurableIdIsObjectId` and `BackendService.Gateway.SaveVideoMetadata` |
| BackendService.FindByField | backend/services/videoService.js:91-94 | the first document whose field is the id; nothing exactly when none has it |
| BackendService.DurableLookup | backend/services/videoService.js:87-96 | `findById`, then `findOne({cloudinaryId})`; `BackendService.DurableLookupPrefersId` states what it finds |
| BackendService.DurableLookupPrefersId | backend/services/videoService.js:90-96 | the database finds a record exactly when the memory lookup would; an `_id` match anywhere wins over a `cloudinaryId` match |
| BackendService.Gateway.constructor | backend/services/videoService.js:55 | a connection state, an empty collection and an empty memory table |
| BackendService.Gateway.SaveVideoMetadata | backend/services/videoService.js:52-68 | connected with a successful save: the document goes to the database and memory is untouched; otherwise (not connected, or the save throws) the record goes to memory; an error never surfaces |
| BackendService.Gateway.GetAllVideos | backend/services/videoService.js:70-85 | the database's documents newest first, or, when not connected or on error, the memory table sorted in place |
| BackendService.Gateway.GetVideoById | backend/services/videoService.js:87-105 | the database lookup (by `_id`, then by `cloudinaryId`) when connected; the memory lookup when not connected or on error |
| BackendService.Gateway.UpdateVideoStatus | backend/services/videoService.js:107-128 | a database error returns null and changes nothing; the database updates the first match unless that breaks the unique index; in memory only the match changes, and the record returned is that match patched with the status, the extra fields and the new `updatedAt`; an unknown id gives nothing |
| VideoRoutes.FileFilter | backend/routes/videoRoutes.js:36-43 | exactly the five listed MIME types pass; any other is refused with the fixed message |
| VideoRoutes.FilterAgreesWithForm | backend/routes/videoRoutes.js:33-43 | the server's filter lets through exactly the upload form's `AcceptedVideoTypes`, and its size limit is the form's `MaxFileSize` |
| VideoRoutes.FormAndServerAgree | backend/routes/videoRoutes.js:33-43 | a file passes the upload form exactly when it passes the server's filter and size limit and is not empty |
| VideoRoutes.VideoDataFields | backend/routes/videoRoutes.js:117-126 | the record is ready and HLS, with thumbnail `""` and duration 0 by default, and the upload size |
| VideoRoutes.VideoDataConforms | backend/routes/videoRoutes.js:117-126 | the record passes the schema exactly when the title, the provider id and the URL are non-empty |
| VideoRoutes.VideoData | backend/routes/videoRoutes.js:117-126 | the eight fields of `videoData`; stated by `VideoRoutes.VideoDataFields`, `VideoRoutes.VideoDataConforms` and `VideoRoutes.TitleDropsLastExtension` |
| VideoRoutes.TitleDropsLastExtension | backend/routes/videoRoutes.js:118 | the title drops only the final extension of the file name |
| VideoRoutes.ReplyVideo | backend/routes/videoRoutes.js:138-146 | the reply copies the six named fields the saved record has, plus the response id |
| VideoRoutes.ReplyIdIsSavedId | backend/routes/videoRoutes.js:139 | the reply `id` is the database object id, or in memory the `cloudinaryId` (the clock text when it is empty) |
| VideoRoutes.ResponseId | backend/routes/videoRoutes.js:139 | `savedVideo._id \|\| savedVideo.cloudinaryId`; `VideoRoutes.ReplyIdIsSavedId` states which id it is |
| VideoRoutes.DurableIdIsObjectId | backend/routes/videoRoutes.js:139 | a saved document's `_id` is its object id |
| VideoRoutes.MemoryIdIsCloudinaryId | backend/models/Video.js:71 | a memory record's `_id` is its `cloudinaryId`, or the clock text when that is empty |
| VideoRoutes.TempFiles.constructor | backend/routes/videoRoutes.js:99 | the temporary files present and no deletions yet |
| VideoRoutes.TempFiles.Unlink | backend/routes/videoRoutes.js:131-133 | the deletion is recorded; the file is gone exactly when the file system carried it out, and stays otherwise |
| VideoRoutes.Provider.constructor | backend/routes/videoRoutes.js:106-109 | the provider's outcome and no requests yet |
| VideoRoutes.Provider.Upload | backend/routes/videoRoutes.js:106-109 | the request is recorded with the `video-streaming/<uuid>` public id; the result is the wrapped outcome |
| VideoRoutes.HandleUpload | backend/routes/videoRoutes.js:90-164 | no file: 400 "No file uploaded" and nothing happens; otherwise the provider is asked once and the temp file is gone afterwards exactly when its deletion went through; a provider failure gives 500 "Error uploading video" with the wrapped message and asks for the deletion only if the file exists; success saves the record to the database or to memory, asks for the deletion and replies with the saved record |
| VideoRoutes.ListResponse | backend/routes/videoRoutes.js:50-54 | the list reply's `count` is the list's length |
| VideoRoutes.GetResponse | backend/routes/videoRoutes.js:69-78 | 404 "Video not found" exactly when the lookup found nothing; otherwise the video |
| VideoRoutes.HandleList | backend/routes/videoRoutes.js:47-63 | every stored video, newest first, with its count, from the database or memory |
| VideoRoutes.HandleGet | backend/routes/videoRoutes.js:66-87 | 404 exactly when no stored record has the id as `_id` or `cloudinaryId`; a found video matches the id |

## Left out

- The video.js engine internals, player creation and disposal, source switching and the DOM (`VideoPlayer.jsx` lines 50-110), and all rendering, CSS and SVG. The engine is an abstract object.
- Network plumbing: the XHR and `fetch` calls of the browser client. `getAllVideos` and `getVideoById` there only forward the reply or throw; `HomePage.FetchSettled` takes their outcome as a parameter. Express routing, CORS and server start-up are also left out.
- Multer disk storage and `fs` calls: the temp directory is the `TempFiles` object. A file refused by the filter or over the size limit never reaches the route handler: multer hands the error to Express's default error handler. That middleware step and the handler's reply are not modelled; `HandleUpload` is the route handler alone.
- The Cloudinary SDK (`uploader.upload`, `cloudinary.url`) and Mongoose queries: they are oracles (`Provider`, the `urlOf` function and a `durableFails` flag). Mongoose's `findById` cast errors, the title `trim` and update validators are not modelled.
- Asynchrony and timers: promises and events are sequential steps, the 3-second hide timer is an explicit `TimerFires` event, and `Date.now()`, uuids and object ids are parameters.
- IEEE-754 arithmetic: times and volumes are exact reals, so `NaN`, infinities and rounding of the 0.1 volume step are not modelled, and `formatTime`'s `isNaN` branch is left out.
- The progress-bar pixel math, the upload percentage computed from XHR progress events, and `formatFileSize` (it uses `Math.log`).
- Drag-and-drop handlers and `isDragging` in the upload form: they only feed `handleFileSelect`, which is modelled as `SelectFile`.
- Aliasing of in-memory records: `Object.assign` mutates the object the table holds, and the model replaces that element of the table's sequence instead. A caller still holding the old object is not modelled.
- JSON values other than strings, numbers and dates in records.
- BackendService.ThumbnailPublicId: the model's capture runs to the end of the URL, while the regex's `(.+)` stops at a line terminator (and may then match a later marker); URLs with line terminators are not modelled.
- `fs.unlink` is asynchronous: the route replies without waiting for it. The model performs the deletion before the reply and takes its outcome as a parameter (`unlinkOk`).
- Playback.BindMidPlayback: states the sampling for one engine state (playing at 12.4 s); the general statement is `Playback.VideoPlayerHook.Bind`'s contract.
- VideoModel.UpdateStatusIn: its own contract states only the length; what changes is stated by `VideoModel.UpdateStatusChangesOnlyMatch`.
- BackendService.Gateway.UpdateVideoStatus: the database path's `findOneAndUpdate` matches by `_id` or `cloudinaryId` in one query; the model takes the first document in collection order that matches either way, as the memory table does.
- VideoUpload.UploadSession.SelectFile: requires that no upload is in flight. The drop zone and file input are drawn only while no file is selected (`VideoUpload.jsx` line 162), and an upload always has one, so a selection during an upload is not modelled.
