/** The playback hook (frontend/src/hooks/useVideoPlayer.js): a local snapshot of the
    player's transport state, seeded by sampling the engine when it is bound, updated by
    one handler per engine event, and a set of intent commands that drive the engine. */
module Playback {
  import opened Wrappers

  // ---------------------------------------------------------------------------
  // The engine

  /** One buffered interval, `buffered.start(i)` to `buffered.end(i)`, in seconds. */
  datatype TimeRange = TimeRange(start: real, end: real)

  /** The engine events the hook listens to. */
  datatype Event =
    | Play | Pause | TimeUpdate | DurationChange | VolumeChange | RateChange
    | Waiting | CanPlay | Progress | Ended | FullscreenChange

  /** The events the hook registers a handler for when an engine is bound, one
      handler each, in registration order. */
  const BoundEvents: seq<Event> :=
    [Play, Pause, TimeUpdate, DurationChange, VolumeChange, RateChange,
     Waiting, CanPlay, Progress, Ended, FullscreenChange]

  /** A call made on the engine by a command. */
  datatype Command =
    | PlayCommand | PauseCommand
    | SetCurrentTime(time: real) | SetVolume(level: real) | SetMuted(muted: bool)
    | SetPlaybackRate(rate: real)
    | RequestFullscreen | ExitFullscreen | RequestPictureInPicture | ExitPictureInPicture

  /** What the engine's getters return at one moment (`buffered` is `None` for a
      `null` range list). */
  datatype EngineView = EngineView(
    paused: bool, currentTime: real, duration: real, volume: real, muted: bool,
    playbackRate: real, fullscreen: bool, pictureInPicture: bool,
    buffered: Option<seq<TimeRange>>)

  /** The video.js player as an abstract mutable object. Its getters are the fields;
      the setters for time, volume, mute and rate take effect at once; `play`, `pause`
      and the fullscreen and picture-in-picture requests are only recorded in `sent`,
      since the engine confirms them later through events. `listeners` counts the
      registered event handlers. */
  class Engine {
    var paused: bool
    var currentTime: real
    var duration: real
    var volume: real
    var muted: bool
    var playbackRate: real
    var fullscreen: bool
    var pictureInPicture: bool
    var buffered: Option<seq<TimeRange>>
    var listeners: multiset<Event>
    var sent: seq<Command>

    function View(): EngineView
      reads this`paused, this`currentTime, this`duration, this`volume, this`muted,
            this`playbackRate, this`fullscreen, this`pictureInPicture, this`buffered
    {
      EngineView(paused, currentTime, duration, volume, muted, playbackRate,
                 fullscreen, pictureInPicture, buffered)
    }

    constructor (view: EngineView)
      ensures View() == view && listeners == multiset{} && sent == []
    {
      paused, currentTime, duration := view.paused, view.currentTime, view.duration;
      volume, muted, playbackRate := view.volume, view.muted, view.playbackRate;
      fullscreen, pictureInPicture, buffered := view.fullscreen, view.pictureInPicture, view.buffered;
      listeners, sent := multiset{}, [];
    }

    /** A command that changes no getter until the engine reports back. */
    method Send(c: Command)
      requires c.PlayCommand? || c.PauseCommand? || c.RequestFullscreen? || c.ExitFullscreen?
            || c.RequestPictureInPicture? || c.ExitPictureInPicture?
      modifies this`sent
      ensures sent == old(sent) + [c]
    {
      sent := sent + [c];
    }

    method SetCurrentTimeTo(t: real)
      modifies this`currentTime, this`sent
      ensures View() == old(View()).(currentTime := t) && sent == old(sent) + [SetCurrentTime(t)]
    {
      currentTime, sent := t, sent + [SetCurrentTime(t)];
    }

    method SetVolumeTo(v: real)
      modifies this`volume, this`sent
      ensures View() == old(View()).(volume := v) && sent == old(sent) + [SetVolume(v)]
    {
      volume, sent := v, sent + [SetVolume(v)];
    }

    method SetMutedTo(m: bool)
      modifies this`muted, this`sent
      ensures View() == old(View()).(muted := m) && sent == old(sent) + [SetMuted(m)]
    {
      muted, sent := m, sent + [SetMuted(m)];
    }

    method SetPlaybackRateTo(r: real)
      modifies this`playbackRate, this`sent
      ensures View() == old(View()).(playbackRate := r) && sent == old(sent) + [SetPlaybackRate(r)]
    {
      playbackRate, sent := r, sent + [SetPlaybackRate(r)];
    }

    /** `player.on(e, handler)` */
    method On(e: Event)
      modifies this`listeners
      ensures listeners == old(listeners) + multiset{e}
    {
      listeners := listeners + multiset{e};
    }

    /** `player.off(e, handler)` */
    method Off(e: Event)
      modifies this`listeners
      ensures listeners == old(listeners) - multiset{e}
    {
      listeners := listeners - multiset{e};
    }

    /** `player.on` for each event of `es`, in order. */
    method OnEach(es: seq<Event>)
      modifies this`listeners
      ensures listeners == old(listeners) + multiset(es)
    {
      for i := 0 to |es|
        invariant listeners == old(listeners) + multiset(es[..i])
      {
        assert es[..i + 1] == es[..i] + [es[i]];
        On(es[i]);
      }
      assert es[..|es|] == es;
    }

    /** `player.off` for each event of `es`, in order. */
    method OffEach(es: seq<Event>)
      modifies this`listeners
      ensures listeners == old(listeners) - multiset(es)
    {
      for i := 0 to |es|
        invariant listeners == old(listeners) - multiset(es[..i])
      {
        assert es[..i + 1] == es[..i] + [es[i]];
        Off(es[i]);
      }
      assert es[..|es|] == es;
    }
  }

  // ---------------------------------------------------------------------------
  // The snapshot and how events change it

  datatype Snapshot = Snapshot(
    isPlaying: bool, currentTime: real, duration: real, volume: real, playbackRate: real,
    quality: string, isMuted: bool, isFullscreen: bool,
    buffered: Option<seq<TimeRange>>, isLoading: bool)

  /** The `useState` initial values. */
  const Initial := Snapshot(false, 0.0, 0.0, 1.0, 1.0, "auto", false, false, None, false)

  /** Which callbacks the component supplied. */
  datatype Callbacks = Callbacks(onTimeUpdate: bool, onEnded: bool)

  /** A callback invocation. */
  datatype Notice = TimeUpdated(time: real) | EndedNotice

  /** Bind-time sampling of the engine's getters; `quality` and `isLoading` keep
      their values. */
  function Sample(s: Snapshot, v: EngineView): Snapshot {
    s.(isPlaying := !v.paused, currentTime := v.currentTime, duration := v.duration,
       volume := v.volume, playbackRate := v.playbackRate, isMuted := v.muted,
       isFullscreen := v.fullscreen, buffered := v.buffered)
  }

  /** The snapshot after the handler for `e` ran while the engine showed `v`. */
  function Reduce(s: Snapshot, e: Event, v: EngineView): Snapshot {
    match e
    case Play => s.(isPlaying := true, isLoading := false)
    case Pause => s.(isPlaying := false)
    case TimeUpdate => s.(currentTime := v.currentTime)
    case DurationChange => s.(duration := v.duration)
    case VolumeChange => s.(volume := v.volume, isMuted := v.muted)
    case RateChange => s.(playbackRate := v.playbackRate)
    case Waiting => s.(isLoading := true)
    case CanPlay => s.(isLoading := false)
    case Progress => s.(buffered := v.buffered)
    case Ended => s.(isPlaying := false)
    case FullscreenChange => s.(isFullscreen := v.fullscreen)
  }

  /** The callbacks the handler for `e` invokes. */
  function Notices(e: Event, v: EngineView, c: Callbacks): seq<Notice> {
    if e == TimeUpdate && c.onTimeUpdate then [TimeUpdated(v.currentTime)]
    else if e == Ended && c.onEnded then [EndedNotice]
    else []
  }

  /** An event together with the engine's state when it is handled. */
  datatype Delivery = Delivery(event: Event, engine: EngineView)

  /** Events handled one after another, in emission order. */
  function Run(s: Snapshot, trace: seq<Delivery>): Snapshot
    decreases |trace|
  {
    if trace == [] then s else Run(Reduce(s, trace[0].event, trace[0].engine), trace[1..])
  }

  function RunNotices(trace: seq<Delivery>, c: Callbacks): seq<Notice>
    decreases |trace|
  {
    if trace == [] then [] else Notices(trace[0].event, trace[0].engine, c) + RunNotices(trace[1..], c)
  }

  /** The loading signal of an event: `waiting` raises it, `canplay` and `play` clear it. */
  function LoadingSignal(e: Event): Option<bool> {
    if e == Waiting then Some(true) else if e == CanPlay || e == Play then Some(false) else None
  }

  /** The playing signal of an event: `play` sets it, `pause` and `ended` clear it. */
  function PlayingSignal(e: Event): Option<bool> {
    if e == Play then Some(true) else if e == Pause || e == Ended then Some(false) else None
  }

  /** The last signal in a trace, read from its end. */
  function LastSignal(trace: seq<Delivery>, signal: Event -> Option<bool>): Option<bool>
    decreases |trace|
  {
    if trace == [] then None
    else if signal(trace[|trace| - 1].event).Some? then signal(trace[|trace| - 1].event)
    else LastSignal(trace[..|trace| - 1], signal)
  }

  /** How many deliveries in a trace carry `e`. */
  function Occurrences(trace: seq<Delivery>, e: Event): nat
    decreases |trace|
  {
    if trace == [] then 0 else (if trace[0].event == e then 1 else 0) + Occurrences(trace[1..], e)
  }

  lemma {:induction false} RunSnoc(s: Snapshot, trace: seq<Delivery>, d: Delivery)
    decreases |trace|
    ensures Run(s, trace + [d]) == Reduce(Run(s, trace), d.event, d.engine)
  {
    if trace != [] {
      assert (trace + [d])[1..] == trace[1..] + [d];
      RunSnoc(Reduce(s, trace[0].event, trace[0].engine), trace[1..], d);
    }
  }

  /** The run of a non-empty trace is its last event applied to the run of the rest. */
  lemma RunLast(s: Snapshot, trace: seq<Delivery>)
    requires trace != []
    ensures Run(s, trace) == Reduce(Run(s, trace[..|trace| - 1]), trace[|trace| - 1].event, trace[|trace| - 1].engine)
  {
    var init, last := trace[..|trace| - 1], trace[|trace| - 1];
    assert trace == init + [last];
    RunSnoc(s, init, last);
  }

  lemma ReduceLoading(s: Snapshot, e: Event, v: EngineView)
    ensures Reduce(s, e, v).isLoading == LoadingSignal(e).GetOr(s.isLoading)
  {
  }

  lemma ReducePlaying(s: Snapshot, e: Event, v: EngineView)
    ensures Reduce(s, e, v).isPlaying == PlayingSignal(e).GetOr(s.isPlaying)
  {
  }

  /** `isLoading` follows the last `waiting`/`canplay`/`play` event, with no debouncing;
      every other event leaves it alone. */
  lemma {:induction false} LoadingFollowsLastSignal(s: Snapshot, trace: seq<Delivery>)
    decreases |trace|
    ensures Run(s, trace).isLoading == LastSignal(trace, LoadingSignal).GetOr(s.isLoading)
  {
    if trace != [] {
      var init, last := trace[..|trace| - 1], trace[|trace| - 1];
      RunLast(s, trace);
      LoadingFollowsLastSignal(s, init);
      ReduceLoading(Run(s, init), last.event, last.engine);
    }
  }

  /** `isPlaying` follows the last `play`/`pause`/`ended` event. */
  lemma {:induction false} PlayingFollowsLastSignal(s: Snapshot, trace: seq<Delivery>)
    decreases |trace|
    ensures Run(s, trace).isPlaying == LastSignal(trace, PlayingSignal).GetOr(s.isPlaying)
  {
    if trace != [] {
      var init, last := trace[..|trace| - 1], trace[|trace| - 1];
      RunLast(s, trace);
      PlayingFollowsLastSignal(s, init);
      ReducePlaying(Run(s, init), last.event, last.engine);
    }
  }

  /** `onEnded` is invoked exactly once per `ended` event when supplied, never otherwise. */
  lemma {:induction false} EndedNoticedOncePerEnded(trace: seq<Delivery>, c: Callbacks)
    decreases |trace|
    ensures multiset(RunNotices(trace, c))[EndedNotice] == (if c.onEnded then Occurrences(trace, Ended) else 0)
  {
    if trace != [] {
      EndedNoticedOncePerEnded(trace[1..], c);
      assert RunNotices(trace, c) == Notices(trace[0].event, trace[0].engine, c) + RunNotices(trace[1..], c);
    }
  }

  /** No event changes the quality preference. */
  lemma {:induction false} EventsKeepQuality(s: Snapshot, trace: seq<Delivery>)
    decreases |trace|
    ensures Run(s, trace).quality == s.quality
  {
    if trace != [] {
      EventsKeepQuality(Reduce(s, trace[0].event, trace[0].engine), trace[1..]);
    }
  }

  /** Binding to an engine that is already playing shows it as playing, at its current
      time, before any event arrives. */
  lemma BindMidPlayback(v: EngineView)
    requires !v.paused && v.currentTime == 12.4
    ensures Sample(Initial, v).isPlaying && Sample(Initial, v).currentTime == 12.4
    ensures Sample(Initial, v).quality == "auto" && !Sample(Initial, v).isLoading
  {
  }

  // ---------------------------------------------------------------------------
  // Commands

  /** An intent issued by the UI or the keyboard. */
  datatype Intent =
    | TogglePlay | SeekTo(time: real) | ChangeVolume(level: real) | ToggleMute
    | ChangeRate(rate: real) | ChangeQuality(quality: string)
    | ToggleFullscreen | TogglePictureInPicture

  /** The new snapshot, the engine's new getters and the calls made on it. */
  datatype Effect = Effect(state: Snapshot, engine: EngineView, sent: seq<Command>)

  function Min(a: real, b: real): real { if a <= b then a else b }
  function Max(a: real, b: real): real { if a >= b then a else b }

  /** `Math.max(0, Math.min(time, duration))` */
  function SeekTarget(time: real, duration: real): (t: real)
    ensures duration >= 0.0 ==> 0.0 <= t <= duration
    ensures 0.0 <= time <= duration ==> t == time
    ensures time > duration >= 0.0 ==> t == duration
    ensures time < 0.0 ==> t == 0.0
  {
    Max(0.0, Min(time, duration))
  }

  /** `Math.max(0, Math.min(1, level))` */
  function ClampVolume(level: real): (v: real)
    ensures 0.0 <= v <= 1.0
    ensures 0.0 <= level <= 1.0 ==> v == level
    ensures v > 0.0 <==> level > 0.0
  {
    Max(0.0, Min(1.0, level))
  }

  /** `handleVolumeChange`: the clamped level goes to the engine and the snapshot; a
      positive level also unmutes a muted engine. */
  function VolumeEffect(s: Snapshot, v: EngineView, level: real): (r: Effect)
    ensures 0.0 <= r.state.volume <= 1.0 && r.engine.volume == r.state.volume
    ensures r.engine.muted == (v.muted && r.state.volume == 0.0)
    ensures r.state.isMuted == (s.isMuted && (r.state.volume == 0.0 || !v.muted))
    ensures r.state.quality == s.quality
  {
    var c := ClampVolume(level);
    if c > 0.0 && v.muted then
      Effect(s.(volume := c, isMuted := false), v.(volume := c, muted := false), [SetVolume(c), SetMuted(false)])
    else
      Effect(s.(volume := c), v.(volume := c), [SetVolume(c)])
  }

  /** What a command does, given the snapshot `s` and the engine's getters `v`. */
  function Apply(s: Snapshot, v: EngineView, i: Intent): (r: Effect)
    // seeking clamps into [0, duration] and writes the engine and the snapshot alike
    ensures i.SeekTo? && s.duration >= 0.0 ==> 0.0 <= r.state.currentTime <= s.duration
    ensures i.SeekTo? ==> r.engine.currentTime == r.state.currentTime && r.sent == [SetCurrentTime(r.state.currentTime)]
    // a volume change clamps into [0, 1]; a positive one unmutes a muted engine
    ensures i.ChangeVolume? ==> 0.0 <= r.state.volume <= 1.0 && r.engine.volume == r.state.volume
    ensures i.ChangeVolume? ==> r.engine.muted == (v.muted && r.state.volume == 0.0)
    ensures i.ChangeVolume? ==> r.state.isMuted == (s.isMuted && (r.state.volume == 0.0 || !v.muted))
    // mute flips the engine's flag and copies it
    ensures i.ToggleMute? ==> r.engine.muted == !v.muted && r.state.isMuted == r.engine.muted
    // the rate is forwarded as given
    ensures i.ChangeRate? ==> r.engine.playbackRate == i.rate && r.state.playbackRate == i.rate
    // quality is a local preference only
    ensures i.ChangeQuality? ==> r.engine == v && r.sent == [] && r.state == s.(quality := i.quality)
    ensures !i.ChangeQuality? ==> r.state.quality == s.quality
    // the toggles read the engine's state and leave both views to later events
    ensures i.TogglePlay? ==> r.sent == [if v.paused then PlayCommand else PauseCommand]
    ensures i.ToggleFullscreen? ==> r.sent == [if v.fullscreen then ExitFullscreen else RequestFullscreen]
    ensures i.TogglePictureInPicture? ==>
              r.sent == [if v.pictureInPicture then ExitPictureInPicture else RequestPictureInPicture]
    ensures i.TogglePlay? || i.ToggleFullscreen? || i.TogglePictureInPicture? ==> r.state == s && r.engine == v
  {
    match i
    case TogglePlay => Effect(s, v, [if v.paused then PlayCommand else PauseCommand])
    case SeekTo(time) =>
      var t := SeekTarget(time, s.duration);
      Effect(s.(currentTime := t), v.(currentTime := t), [SetCurrentTime(t)])
    case ChangeVolume(level) => VolumeEffect(s, v, level)
    case ToggleMute => Effect(s.(isMuted := !v.muted), v.(muted := !v.muted), [SetMuted(!v.muted)])
    case ChangeRate(rate) => Effect(s.(playbackRate := rate), v.(playbackRate := rate), [SetPlaybackRate(rate)])
    case ChangeQuality(q) => Effect(s.(quality := q), v, [])
    case ToggleFullscreen => Effect(s, v, [if v.fullscreen then ExitFullscreen else RequestFullscreen])
    case TogglePictureInPicture =>
      Effect(s, v, [if v.pictureInPicture then ExitPictureInPicture else RequestPictureInPicture])
  }

  // ---------------------------------------------------------------------------
  // The hook

  /** The state of one `useVideoPlayer` instance: the ten `useState` fields, the bound
      engine (`null` before the player is ready), the callbacks and the log of callback
      invocations. */
  class VideoPlayerHook {
    var isPlaying: bool
    var currentTime: real
    var duration: real
    var volume: real
    var playbackRate: real
    var quality: string
    var isMuted: bool
    var isFullscreen: bool
    var buffered: Option<seq<TimeRange>>
    var isLoading: bool
    var player: Engine?
    const callbacks: Callbacks
    var notices: seq<Notice>

    function State(): Snapshot
      reads this
    {
      Snapshot(isPlaying, currentTime, duration, volume, playbackRate, quality,
               isMuted, isFullscreen, buffered, isLoading)
    }

    /** The event handler for `e` ran on the engine's present state. */
    ghost predicate Handled(s0: Snapshot, e: Event, n0: seq<Notice>)
      reads this, player
      requires player != null
    {
      State() == Reduce(s0, e, player.View()) && notices == n0 + Notices(e, player.View(), callbacks)
    }

    /** The command `i` ran from snapshot `s0` on an engine that showed `v0` and had
        been sent `sent0`. */
    ghost predicate Performed(s0: Snapshot, v0: EngineView, sent0: seq<Command>, i: Intent)
      reads this, player
      requires player != null
    {
      var r := Apply(s0, v0, i);
      State() == r.state && player.View() == r.engine && player.sent == sent0 + r.sent
    }

    constructor (callbacks: Callbacks)
      ensures State() == Initial && player == null && notices == [] && this.callbacks == callbacks
    {
      isPlaying, currentTime, duration, volume, playbackRate := false, 0.0, 0.0, 1.0, 1.0;
      quality, isMuted, isFullscreen, buffered, isLoading := "auto", false, false, None, false;
      player := null;
      this.callbacks := callbacks;
      notices := [];
    }

    /** The effect that runs when a player becomes available: sample every getter once,
        then register the eleven handlers. */
    method Bind(p: Engine)
      requires player == null
      modifies this, p`listeners
      ensures player == p && notices == old(notices)
      ensures State() == Sample(old(State()), old(p.View()))
      ensures p.listeners == old(p.listeners) + multiset(BoundEvents)
    {
      Attach(p);
      p.OnEach(BoundEvents);
    }

    /** Records the engine and copies its getters into the snapshot. */
    method Attach(p: Engine)
      modifies this`player, this`isPlaying, this`currentTime, this`duration, this`volume
      modifies this`playbackRate, this`isMuted, this`isFullscreen, this`buffered
      ensures player == p && notices == old(notices)
      ensures State() == Sample(old(State()), old(p.View()))
    {
      var s := Sample(State(), p.View());
      player := p;
      isPlaying, currentTime, duration, volume, playbackRate := s.isPlaying, s.currentTime, s.duration, s.volume, s.playbackRate;
      isMuted, isFullscreen, buffered := s.isMuted, s.isFullscreen, s.buffered;
    }

    /** The effect's cleanup, run when the player goes away: remove the eleven handlers.
        The snapshot keeps its last values. */
    method Unbind()
      requires player != null
      modifies this`player, player`listeners
      ensures player == null
      ensures old(player).listeners == old(player.listeners) - multiset(BoundEvents)
    {
      var p := player;
      p.OffEach(BoundEvents);
      player := null;
    }

    method OnPlay()
      requires player != null
      modifies this
      ensures player == old(player) && Handled(old(State()), Play, old(notices))
    {
      isPlaying := true;
      isLoading := false;
    }

    method OnPause()
      requires player != null
      modifies this
      ensures player == old(player) && Handled(old(State()), Pause, old(notices))
    {
      isPlaying := false;
    }

    method OnTimeUpdate()
      requires player != null
      modifies this
      ensures player == old(player) && Handled(old(State()), TimeUpdate, old(notices))
    {
      currentTime := player.currentTime;
      if callbacks.onTimeUpdate {
        notices := notices + [TimeUpdated(player.currentTime)];
      }
    }

    method OnDurationChange()
      requires player != null
      modifies this
      ensures player == old(player) && Handled(old(State()), DurationChange, old(notices))
    {
      duration := player.duration;
    }

    method OnVolumeChange()
      requires player != null
      modifies this
      ensures player == old(player) && Handled(old(State()), VolumeChange, old(notices))
    {
      volume := player.volume;
      isMuted := player.muted;
    }

    method OnRateChange()
      requires player != null
      modifies this
      ensures player == old(player) && Handled(old(State()), RateChange, old(notices))
    {
      playbackRate := player.playbackRate;
    }

    method OnWaiting()
      requires player != null
      modifies this
      ensures player == old(player) && Handled(old(State()), Waiting, old(notices))
    {
      isLoading := true;
    }

    method OnCanPlay()
      requires player != null
      modifies this
      ensures player == old(player) && Handled(old(State()), CanPlay, old(notices))
    {
      isLoading := false;
    }

    method OnProgress()
      requires player != null
      modifies this
      ensures player == old(player) && Handled(old(State()), Progress, old(notices))
    {
      buffered := player.buffered;
    }

    method OnEnded()
      requires player != null
      modifies this
      ensures player == old(player) && Handled(old(State()), Ended, old(notices))
    {
      isPlaying := false;
      if callbacks.onEnded {
        notices := notices + [EndedNotice];
      }
    }

    method OnFullscreenChange()
      requires player != null
      modifies this
      ensures player == old(player) && Handled(old(State()), FullscreenChange, old(notices))
    {
      isFullscreen := player.fullscreen;
    }

    /** The engine delivers `e` to its registered handler. */
    method Deliver(e: Event)
      requires player != null
      modifies this
      ensures player == old(player) && Handled(old(State()), e, old(notices))
    {
      match e
      case Play => OnPlay();
      case Pause => OnPause();
      case TimeUpdate => OnTimeUpdate();
      case DurationChange => OnDurationChange();
      case VolumeChange => OnVolumeChange();
      case RateChange => OnRateChange();
      case Waiting => OnWaiting();
      case CanPlay => OnCanPlay();
      case Progress => OnProgress();
      case Ended => OnEnded();
      case FullscreenChange => OnFullscreenChange();
    }

    /** `handlePlayPause` */
    method PlayPause()
      modifies this, player
      ensures player == old(player) && notices == old(notices)
      ensures old(player) == null ==> State() == old(State())
      ensures old(player) != null ==> Performed(old(State()), old(player.View()), old(player.sent), TogglePlay)
      ensures old(player) != null ==> player.listeners == old(player.listeners)
    {
      if player == null { return; }
      if player.paused {
        player.Send(PlayCommand);
      } else {
        player.Send(PauseCommand);
      }
    }

    /** `handleSeek`: clamps against the snapshot's `duration`. */
    method Seek(time: real)
      modifies this, player
      ensures player == old(player) && notices == old(notices)
      ensures old(player) == null ==> State() == old(State())
      ensures old(player) != null ==> Performed(old(State()), old(player.View()), old(player.sent), SeekTo(time))
      ensures old(player) != null ==> player.listeners == old(player.listeners)
    {
      if player == null { return; }
      var seekTime := SeekTarget(time, duration);
      player.SetCurrentTimeTo(seekTime);
      currentTime := seekTime;
    }

    /** `handleVolumeChange` */
    method SetVolume(level: real)
      modifies this, player
      ensures player == old(player) && notices == old(notices)
      ensures old(player) == null ==> State() == old(State())
      ensures old(player) != null ==> Performed(old(State()), old(player.View()), old(player.sent), ChangeVolume(level))
      ensures old(player) != null ==> player.listeners == old(player.listeners)
    {
      if player == null { return; }
      ghost var r := VolumeEffect(State(), player.View(), level);
      var clamped := ClampVolume(level);
      player.SetVolumeTo(clamped);
      volume := clamped;
      if clamped > 0.0 && player.muted {
        player.SetMutedTo(false);
        isMuted := false;
      }
      assert State() == r.state && player.View() == r.engine;
    }

    /** `handleMute` */
    method ToggleMute()
      modifies this, player
      ensures player == old(player) && notices == old(notices)
      ensures old(player) == null ==> State() == old(State())
      ensures old(player) != null ==> Performed(old(State()), old(player.View()), old(player.sent), Intent.ToggleMute)
      ensures old(player) != null ==> player.listeners == old(player.listeners)
    {
      if player == null { return; }
      player.SetMutedTo(!player.muted);
      isMuted := player.muted;
    }

    /** `handlePlaybackRateChange` */
    method SetPlaybackRate(rate: real)
      modifies this, player
      ensures player == old(player) && notices == old(notices)
      ensures old(player) == null ==> State() == old(State())
      ensures old(player) != null ==> Performed(old(State()), old(player.View()), old(player.sent), ChangeRate(rate))
      ensures old(player) != null ==> player.listeners == old(player.listeners)
    {
      if player == null { return; }
      player.SetPlaybackRateTo(rate);
      playbackRate := rate;
    }

    /** `handleQualityChange`: records the preference; the stream's adaptive bitrate
        selection is left to the engine. */
    method SetQuality(q: string)
      modifies this
      ensures player == old(player) && notices == old(notices)
      ensures old(player) == null ==> State() == old(State())
      ensures old(player) != null ==> Performed(old(State()), old(player.View()), old(player.sent), ChangeQuality(q))
    {
      if player == null { return; }
      quality := q;
    }

    /** `handleFullscreen` */
    method ToggleFullscreen()
      modifies this, player
      ensures player == old(player) && notices == old(notices)
      ensures old(player) == null ==> State() == old(State())
      ensures old(player) != null ==> Performed(old(State()), old(player.View()), old(player.sent), Intent.ToggleFullscreen)
      ensures old(player) != null ==> player.listeners == old(player.listeners)
    {
      if player == null { return; }
      if player.fullscreen {
        player.Send(ExitFullscreen);
      } else {
        player.Send(RequestFullscreen);
      }
    }

    /** `handlePictureInPicture` */
    method TogglePictureInPicture()
      modifies this, player
      ensures player == old(player) && notices == old(notices)
      ensures old(player) == null ==> State() == old(State())
      ensures old(player) != null ==>
                Performed(old(State()), old(player.View()), old(player.sent), Intent.TogglePictureInPicture)
      ensures old(player) != null ==> player.listeners == old(player.listeners)
    {
      if player == null { return; }
      if player.pictureInPicture {
        player.Send(ExitPictureInPicture);
      } else {
        player.Send(RequestPictureInPicture);
      }
    }

    /** Carries out an intent by calling the matching command. */
    method Perform(i: Intent)
      modifies this, player
      ensures player == old(player) && notices == old(notices)
      ensures old(player) == null ==> State() == old(State())
      ensures old(player) != null ==> Performed(old(State()), old(player.View()), old(player.sent), i)
      ensures old(player) != null ==> player.listeners == old(player.listeners)
    {
      match i
      case TogglePlay => PlayPause();
      case SeekTo(t) => Seek(t);
      case ChangeVolume(l) => SetVolume(l);
      case ToggleMute => ToggleMute();
      case ChangeRate(r) => SetPlaybackRate(r);
      case ChangeQuality(q) => SetQuality(q);
      case ToggleFullscreen => ToggleFullscreen();
      case TogglePictureInPicture => TogglePictureInPicture();
    }
  }

  /** Binding and then unbinding leaves the engine's handlers as they were. */
  method BindThenUnbind(hook: VideoPlayerHook, p: Engine)
    requires hook.player == null
    modifies hook, p`listeners
    ensures hook.player == null && p.listeners == old(p.listeners)
  {
    ghost var before := p.listeners;
    hook.Bind(p);
    hook.Unbind();
    assert p.listeners == (before + multiset(BoundEvents)) - multiset(BoundEvents);
  }
}
