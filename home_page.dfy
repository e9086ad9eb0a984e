/** The video list page (frontend/src/pages/HomePage.jsx): the `videos`, `loading` and
    `error` state that `fetchVideos` drives, which screen that state shows, and what a
    video card shows and which id it hands on when clicked. */
module HomePage {
  import opened Wrappers
  import opened Text
  import VideoControls

  // ---------------------------------------------------------------------------
  // Cards

  /** The fields of a listed video the page reads; `""` stands for a missing or empty
      string and `mongoId` is `_id`. */
  datatype ListedVideo = ListedVideo(id: string, mongoId: string, cloudinaryId: string,
                                     title: string, status: string, duration: real, fileSize: real)

  /** `handleVideoClick`'s id: `id`, else `_id`, else `cloudinaryId`. */
  function ClickedVideoId(v: ListedVideo): Option<string> {
    FirstPresent([v.id, v.mongoId, v.cloudinaryId])
  }

  /** The React key of a card: `_id`, else `id`, else `cloudinaryId`. */
  function CardKey(v: ListedVideo): Option<string> {
    FirstPresent([v.mongoId, v.id, v.cloudinaryId])
  }

  /** The two chains name the same id exactly when the video does not carry two
      different ids in `id` and `_id`; with both present the click uses `id` and the key
      `_id`. */
  lemma ClickAndKeyOrders(v: ListedVideo)
    ensures ClickedVideoId(v) == CardKey(v) <==> v.id == "" || v.mongoId == "" || v.id == v.mongoId
    ensures v.id != "" ==> ClickedVideoId(v) == Some(v.id)
    ensures v.mongoId != "" ==> CardKey(v) == Some(v.mongoId)
    ensures v.id == "" && v.mongoId == "" ==>
              ClickedVideoId(v) == CardKey(v) == (if v.cloudinaryId != "" then Some(v.cloudinaryId) else None)
  {
    var c := [v.id, v.mongoId, v.cloudinaryId];
    var d := [v.mongoId, v.id, v.cloudinaryId];
    var k, j := FirstPresentIndex(c), FirstPresentIndex(d);
    if k > 0 { assert c[0] == ""; }
    if k > 1 { assert c[1] == ""; }
    if k > 2 { assert c[2] == ""; }
    if j > 0 { assert d[0] == ""; }
    if j > 1 { assert d[1] == ""; }
    if j > 2 { assert d[2] == ""; }
  }

  const NotAvailable: string := "N/A"

  /** `formatDuration`: a zero (falsy) duration reads "N/A"; any other one goes through
      the same hours, minutes and seconds arithmetic as the control bar's clock. */
  function FormatDuration(seconds: real): string {
    if seconds == 0.0 then NotAvailable else VideoControls.FormatTime(seconds)
  }

  /** A positive duration reads as the control bar's clock text, which is never "N/A"
      and reads back as its whole seconds. */
  lemma FormatDurationClock(seconds: real)
    ensures FormatDuration(0.0) == NotAvailable
    ensures seconds > 0.0 ==> FormatDuration(seconds) == VideoControls.FormatTime(seconds)
    ensures seconds > 0.0 ==> VideoControls.ParseClock(FormatDuration(seconds)) == Some(seconds.Floor as nat)
    ensures seconds > 0.0 ==> FormatDuration(seconds) != NotAvailable
  {
    assert VideoControls.ParseClock(NotAvailable) == None by {
      assert !Contains(NotAvailable, ":") by {
        assert forall i | 0 <= i <= |NotAvailable| - 1 :: !OccursAt(NotAvailable, ":", i) by {
          forall i | 0 <= i <= |NotAvailable| - 1 ensures !OccursAt(NotAvailable, ":", i) {
            assert NotAvailable[i] != ':';
          }
        }
      }
    }
    if seconds > 0.0 {
      VideoControls.FormatTimeRoundTrip(seconds);
    }
  }

  /** What a card shows: its title (or a placeholder), a duration badge, a status badge
      and whether the size line appears. */
  datatype CardFace = CardFace(title: string, durationBadge: Option<string>, statusBadge: Option<string>,
                               showsSize: bool)

  const UntitledVideo: string := "Untitled Video"

  function Card(v: ListedVideo): (face: CardFace)
    ensures face.title != ""
  {
    CardFace(if v.title != "" then v.title else UntitledVideo,
             if v.duration > 0.0 then Some(FormatDuration(v.duration)) else None,
             if v.status != "" then Some(v.status) else None,
             v.fileSize > 0.0)
  }

  /** The badges appear only for positive values, so a card never shows "N/A": its
      duration badge is always a clock text that reads back as the duration's seconds. */
  lemma CardBadges(v: ListedVideo)
    ensures Card(v).durationBadge.Some? <==> v.duration > 0.0
    ensures Card(v).showsSize <==> v.fileSize > 0.0
    ensures Card(v).statusBadge.Some? <==> v.status != ""
    ensures Card(v).durationBadge.Some? ==>
              Card(v).durationBadge.value != NotAvailable
              && VideoControls.ParseClock(Card(v).durationBadge.value) == Some(v.duration.Floor as nat)
    ensures Card(v).title == UntitledVideo <==> v.title == "" || v.title == UntitledVideo
  {
    FormatDurationClock(v.duration);
  }

  /** The header line under the page title. */
  function CountLabel(count: nat): string {
    NatToString(count) + " video" + (if count != 1 then "s" else "") + " available"
  }

  /** The noun is plural exactly when the count is not one. */
  lemma CountLabelPlural(count: nat)
    ensures CountLabel(count) == NatToString(count) + " videos available" <==> count != 1
    ensures count == 1 ==> CountLabel(count) == "1 video available"
  {
    var t := NatToString(count);
    if count == 1 {
      assert t == "1";
      SingularLabel(t);
    } else {
      PluralLabel(t);
    }
  }

  lemma PluralLabel(t: string)
    ensures t + " video" + "s" + " available" == t + " videos available"
  {
  }

  lemma SingularLabel(t: string)
    ensures |t + " video" + "" + " available"| < |t + " videos available"|
    ensures t == "1" ==> t + " video" + "" + " available" == "1 video available"
  {
  }

  // ---------------------------------------------------------------------------
  // Fetching the list

  const LoadFailedMessage: string := "Failed to load videos. Please try again."

  /** What the page renders. */
  datatype Screen = LoadingScreen | ErrorScreen(message: string) | EmptyList | Grid(cards: seq<ListedVideo>)

  /** The page's three state fields; `error` is `""` for `null`. */
  class HomeState {
    var videos: seq<ListedVideo>
    var loading: bool
    var error: string

    /** The `useState` initial values: an empty list, loading, no error. */
    constructor ()
      ensures videos == [] && loading && error == ""
    {
      videos, loading, error := [], true, "";
    }

    /** The screen the state selects: the spinner while loading, then the error, then
        the empty state or the grid. */
    function View(): (s: Screen)
      reads this
      ensures s == LoadingScreen <==> loading
      ensures s.ErrorScreen? <==> !loading && error != ""
      ensures s.Grid? ==> s.cards == videos && videos != []
    {
      if loading then LoadingScreen
      else if error != "" then ErrorScreen(error)
      else if videos == [] then EmptyList
      else Grid(videos)
    }

    /** `fetchVideos` before its request: loading, with the error cleared. */
    method FetchStarted()
      modifies this`loading, this`error
      ensures loading && error == "" && View() == LoadingScreen
    {
      loading := true;
      error := "";
    }

    /** `fetchVideos` after its request: `Ok(Some(list))` is a reply with a `videos`
        list, `Ok(None)` one without, `Err` a rejected request. Loading ends either way. */
    method FetchSettled(outcome: Result<Option<seq<ListedVideo>>, ()>)
      modifies this
      ensures !loading
      ensures outcome.Ok? ==> error == old(error) && videos == outcome.value.GetOr([])
      ensures outcome.Err? ==> error == LoadFailedMessage && videos == old(videos)
    {
      match outcome {
        case Ok(listed) => videos := listed.GetOr([]);
        case Err(_) => error := LoadFailedMessage;
      }
      loading := false;
    }
  }

  /** A whole `fetchVideos` run (also the Retry button): a reply lists its videos, or
      the empty state when it has none; a failure shows the fixed message. The spinner is
      gone afterwards on both paths. */
  method FetchVideos(page: HomeState, outcome: Result<Option<seq<ListedVideo>>, ()>)
    modifies page
    ensures page.View() != LoadingScreen
    ensures outcome.Ok? && outcome.value.Some? && outcome.value.value != [] ==> page.View() == Grid(outcome.value.value)
    ensures outcome.Ok? && (outcome.value.None? || outcome.value.value == []) ==> page.View() == EmptyList
    ensures outcome.Err? ==> page.View() == ErrorScreen(LoadFailedMessage)
  {
    page.FetchStarted();
    page.FetchSettled(outcome);
  }
}
