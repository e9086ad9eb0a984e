/** The player component (frontend/src/components/VideoPlayer/VideoPlayer.jsx): keyboard
    shortcuts routed to the hook's commands, and the visibility of the control overlay
    and of the settings menu. */
module VideoPlayer {
  import opened Wrappers
  import opened Playback
  import VideoControls

  // ---------------------------------------------------------------------------
  // Keyboard shortcuts

  /** The keys that have a shortcut. */
  const ShortcutKeys: set<string> :=
    {" ", "k", "ArrowLeft", "ArrowRight", "ArrowUp", "ArrowDown", "m", "f", "p"}

  /** Focus in a text field: its keystrokes are left to the field. */
  predicate IsTextEntry(tagName: string) {
    tagName == "INPUT" || tagName == "TEXTAREA"
  }

  /** `handleKeyDown`'s switch: the command a key press issues, given the target's tag
      and the snapshot's `currentTime` and `volume` the handler closed over. */
  function KeyAction(key: string, tagName: string, currentTime: real, volume: real): Option<Intent> {
    if IsTextEntry(tagName) then None
    else if key == " " || key == "k" then Some(TogglePlay)
    else if key == "ArrowLeft" then Some(SeekTo(currentTime - 10.0))
    else if key == "ArrowRight" then Some(SeekTo(currentTime + 10.0))
    else if key == "ArrowUp" then Some(ChangeVolume(Min(volume + 0.1, 1.0)))
    else if key == "ArrowDown" then Some(ChangeVolume(Max(volume - 0.1, 0.0)))
    else if key == "m" then Some(Intent.ToggleMute)
    else if key == "f" then Some(Intent.ToggleFullscreen)
    else if key == "p" then Some(Intent.TogglePictureInPicture)
    else None
  }

  /** The table, key by key: a key press issues a command exactly when the target is not
      a text field and the key is one of the nine shortcut keys (so `"K"`, `"M"`, `"F"`,
      `"P"` do nothing), and the toggles go where the table says. */
  lemma KeyTable(key: string, tagName: string, currentTime: real, volume: real)
    ensures KeyAction(key, tagName, currentTime, volume).Some? <==> !IsTextEntry(tagName) && key in ShortcutKeys
    ensures KeyAction(key, tagName, currentTime, volume) == Some(TogglePlay) <==>
              !IsTextEntry(tagName) && (key == " " || key == "k")
    ensures KeyAction(key, tagName, currentTime, volume) == Some(Intent.ToggleMute) <==>
              !IsTextEntry(tagName) && key == "m"
    ensures KeyAction(key, tagName, currentTime, volume) == Some(Intent.ToggleFullscreen) <==>
              !IsTextEntry(tagName) && key == "f"
    ensures KeyAction(key, tagName, currentTime, volume) == Some(Intent.TogglePictureInPicture) <==>
              !IsTextEntry(tagName) && key == "p"
  {
  }

  /** The arrow keys request a seek ten seconds back or forward, which the seek command
      clamps into the known duration. */
  lemma ArrowSeekClamped(s: Snapshot, v: EngineView, key: string, tagName: string)
    requires key == "ArrowLeft" || key == "ArrowRight"
    requires !IsTextEntry(tagName) && s.duration >= 0.0
    ensures KeyAction(key, tagName, s.currentTime, s.volume).Some?
    ensures var r := Apply(s, v, KeyAction(key, tagName, s.currentTime, s.volume).value);
            var target := if key == "ArrowLeft" then s.currentTime - 10.0 else s.currentTime + 10.0;
            0.0 <= r.state.currentTime <= s.duration && r.engine.currentTime == r.state.currentTime
            && (0.0 <= target <= s.duration ==> r.state.currentTime == target)
  {
  }

  /** From a volume in [0, 1] the arrow keys request a volume in [0, 1], one tenth
      away unless that would leave the range. */
  lemma ArrowVolumeInRange(key: string, tagName: string, currentTime: real, volume: real)
    requires key == "ArrowUp" || key == "ArrowDown"
    requires !IsTextEntry(tagName) && 0.0 <= volume <= 1.0
    ensures KeyAction(key, tagName, currentTime, volume).Some?
    ensures var level := KeyAction(key, tagName, currentTime, volume).value.level;
            0.0 <= level <= 1.0
            && (key == "ArrowUp" ==> level == if volume <= 0.9 then volume + 0.1 else 1.0)
            && (key == "ArrowDown" ==> level == if volume >= 0.1 then volume - 0.1 else 0.0)
  {
  }

  /** The document-level `keydown` listener: a shortcut runs its command and has its
      default action prevented; any other key press changes nothing. */
  method HandleKeyDown(hook: VideoPlayerHook, key: string, tagName: string) returns (prevented: bool)
    modifies hook, hook.player
    ensures var action := KeyAction(key, tagName, old(hook.currentTime), old(hook.volume));
            prevented == action.Some?
            && hook.player == old(hook.player) && hook.notices == old(hook.notices)
            && (action.None? || old(hook.player) == null ==> hook.State() == old(hook.State()))
            && (action.None? && old(hook.player) != null ==>
                  hook.player.View() == old(hook.player.View()) && hook.player.sent == old(hook.player.sent))
            && (action.Some? && old(hook.player) != null ==>
                  hook.Performed(old(hook.State()), old(hook.player.View()), old(hook.player.sent), action.value))
  {
    var action := KeyAction(key, tagName, hook.currentTime, hook.volume);
    if action.None? {
      return false;
    }
    hook.Perform(action.value);
    prevented := true;
  }

  // ---------------------------------------------------------------------------
  // Rate menu

  /** The rates the player offers. */
  const PlaybackRates: seq<real> := [0.25, 0.5, 0.75, 1.0, 1.25, 1.5, 1.75, 2.0]

  /** Of the offered rates only the normal one, the fourth, hides the rate badge. */
  lemma RateBadgeOnMenu(i: nat)
    requires i < |PlaybackRates|
    ensures !VideoControls.ShowsRateBadge(PlaybackRates[i]) <==> i == 3
  {
  }

  // ---------------------------------------------------------------------------
  // Overlay visibility

  /** The component's `showControls` and `isSettingsOpen` state, the pending 3-second
      hide timer, and the `isPlaying` value the mouse handlers closed over when the
      effect last ran. */
  class ControlsVisibility {
    var showControls: bool
    var isSettingsOpen: bool
    var timerArmed: bool
    var playing: bool

    /** Controls start visible and the settings menu closed. */
    constructor (playing: bool)
      ensures showControls && !isSettingsOpen && !timerArmed && this.playing == playing
    {
      showControls, isSettingsOpen, timerArmed := true, false, false;
      this.playing := playing;
    }

    /** Paused, the overlay only ever becomes visible: while not playing, no handler
        hides it. */
    ghost predicate ShownWhilePaused()
      reads this
    {
      !playing ==> showControls
    }

    /** `handleMouseMove`: show the controls and restart the hide timer. */
    method MouseMove()
      modifies this
      ensures showControls && timerArmed
      ensures isSettingsOpen == old(isSettingsOpen) && playing == old(playing)
      ensures ShownWhilePaused()
    {
      showControls := true;
      timerArmed := true;
    }

    /** `handleMouseLeave`: hide the controls if playing, else leave them as they are. */
    method MouseLeave()
      modifies this
      ensures showControls == (old(showControls) && !playing)
      ensures isSettingsOpen == old(isSettingsOpen) && playing == old(playing) && timerArmed == old(timerArmed)
      ensures old(ShownWhilePaused()) ==> ShownWhilePaused()
    {
      if playing {
        showControls := false;
      }
    }

    /** The hide timer fires: it hides the controls only if playing. */
    method TimerFires()
      requires timerArmed
      modifies this
      ensures showControls == (old(showControls) && !playing) && !timerArmed
      ensures isSettingsOpen == old(isSettingsOpen) && playing == old(playing)
      ensures old(ShownWhilePaused()) ==> ShownWhilePaused()
    {
      timerArmed := false;
      if playing {
        showControls := false;
      }
    }

    /** `isPlaying` changed: the effect's cleanup clears the pending timer and new
        handlers close over the new value. Visibility is untouched. */
    method PlayingChanged(isPlaying: bool)
      requires isPlaying != playing
      modifies this
      ensures playing == isPlaying && !timerArmed
      ensures showControls == old(showControls) && isSettingsOpen == old(isSettingsOpen)
    {
      timerArmed := false;
      playing := isPlaying;
    }

    /** `toggleSettings` */
    method ToggleSettings()
      modifies this`isSettingsOpen
      ensures isSettingsOpen == !old(isSettingsOpen)
    {
      isSettingsOpen := !isSettingsOpen;
    }

    /** The settings menu's `onClose`. */
    method CloseSettings()
      modifies this`isSettingsOpen
      ensures !isSettingsOpen
    {
      isSettingsOpen := false;
    }
  }

  /** Toggling the settings menu twice restores it. */
  method ToggleTwice(c: ControlsVisibility)
    modifies c
    ensures c.isSettingsOpen == old(c.isSettingsOpen)
    ensures c.showControls == old(c.showControls)
  {
    c.ToggleSettings();
    c.ToggleSettings();
  }

  /** While paused, visible controls stay visible whatever the mouse and the timer do
      (`true` is a mouse move; `false` is the timer firing if armed, else a mouse leave). */
  method PausedStaysVisible(c: ControlsVisibility, moves: seq<bool>)
    requires !c.playing && c.showControls
    modifies c
    ensures c.showControls && !c.playing
  {
    for i := 0 to |moves|
      invariant !c.playing && c.ShownWhilePaused()
    {
      if moves[i] {
        c.MouseMove();
      } else if c.timerArmed {
        c.TimerFires();
      } else {
        c.MouseLeave();
      }
    }
  }
}
