/**
 * One video container's player (script.js, initVideoPortfolio): the closure
 * flags isPlaying, isMuted, isFullscreen, isVideoLoaded, isDragging and the
 * hide-controls timer handle, together with the parts of the page and of the
 * browser the handlers read and write. Each event listener is a method; the
 * outcome of a play() promise is an input (playOk), and callbacks the browser
 * runs later (requestAnimationFrame, setTimeout) are pending entries that a
 * separate "fires" method consumes.
 */
module VideoPlayer {
  import opened Wrappers
  import TimeLabel

  /** Which optional descendants the container has (a container without a video is skipped altogether). */
  datatype Bindings = Bindings(
    playButton: bool, videoControls: bool, timeline: bool, progress: bool,
    playPauseBtn: bool, muteBtn: bool, fullscreenBtn: bool, timeDisplay: bool)

  datatype PlayIcon = PlayGlyph | PauseGlyph
  datatype VolumeIcon = VolumeUpGlyph | VolumeMuteGlyph
  datatype ScreenIcon = EnterGlyph | ExitGlyph

  /** The last request made to the platform's fullscreen capability (any vendor variant). */
  datatype ScreenRequest = NoRequest | EnterRequested | ExitRequested

  /** A pending setTimeout that hides the controls: its handle and its delay in milliseconds. */
  datatype HideTimer = HideTimer(handle: nat, delay: nat)

  /** Delay armed by showControls while playing. */
  const ShowHideDelay: nat := 3000
  /** Delay armed when the pointer leaves a playing container. */
  const LeaveHideDelay: nat := 1000

  function PlayIconFor(playing: bool): PlayIcon {
    if playing then PauseGlyph else PlayGlyph
  }

  function VolumeIconFor(muted: bool): VolumeIcon {
    if muted then VolumeMuteGlyph else VolumeUpGlyph
  }

  function ScreenIconFor(fullscreen: bool): ScreenIcon {
    if fullscreen then ExitGlyph else EnterGlyph
  }

  /** clearTimeout(h): the pending timers without those registered under h (an undefined h clears nothing). */
  function Cleared(timers: seq<HideTimer>, h: Option<nat>): (r: seq<HideTimer>)
    ensures forall t :: t in r <==> t in timers && Some(t.handle) != h
  {
    if timers == [] then []
    else (if Some(timers[0].handle) == h then [] else [timers[0]]) + Cleared(timers[1..], h)
  }

  /** Under the player's invariant, clearTimeout on the closure's handle leaves no hide timer pending. */
  lemma ClearedPending(timers: seq<HideTimer>, h: Option<nat>)
    requires |timers| <= 1 && (timers != [] ==> h == Some(timers[0].handle))
    ensures Cleared(timers, h) == []
  {
  }

  /** The whole seconds of a playhead, as the label shows them; a negative playhead shows as 0. */
  function WholeSeconds(t: real): nat {
    if t < 0.0 then 0 else TimeLabel.WholeSecondsSplit(t); t.Floor
  }

  /** What toggleMute reads and writes: video.muted, the isMuted flag and the mute button's icon. */
  datatype MuteView = MuteView(videoMuted: bool, isMuted: bool, icon: VolumeIcon)

  function AfterToggleMute(v: MuteView): MuteView {
    MuteView(!v.videoMuted, !v.videoMuted, VolumeIconFor(!v.videoMuted))
  }

  /** After a toggle, the flag agrees with video.muted, which has flipped, and the icon shows it. */
  lemma ToggleMuteSynchronises(v: MuteView)
    ensures AfterToggleMute(v).videoMuted == !v.videoMuted
    ensures AfterToggleMute(v).isMuted == AfterToggleMute(v).videoMuted
    ensures AfterToggleMute(v).icon == VolumeIconFor(AfterToggleMute(v).isMuted)
  {
  }

  /**
   * Toggling twice restores the state exactly when the flag and the icon
   * already agreed with video.muted; a video whose markup starts it muted
   * disagrees with the initial isMuted = false until the first toggle.
   */
  lemma ToggleMuteTwice(v: MuteView)
    ensures AfterToggleMute(AfterToggleMute(v)) == v <==> v.isMuted == v.videoMuted && v.icon == VolumeIconFor(v.videoMuted)
  {
  }

  class Player {
    const bindings: Bindings

    // The closure state of initVideoPortfolio.
    var isPlaying: bool
    var isMuted: bool
    var isFullscreen: bool
    var isVideoLoaded: bool
    var isDragging: bool
    var hideControlsTimeout: Option<nat>

    // Callbacks pending in the browser.
    var hideTimers: seq<HideTimer>
    var nextHandle: nat
    var progressFrames: nat
    var throttleUpdate: bool
    var throttleTimers: nat
    var loadHandlers: bool
    var preloadObserved: bool

    // The media element.
    var videoPaused: bool
    var videoMuted: bool
    var currentTime: real
    var duration: Option<real>
    var loadRequests: nat

    // What the container shows.
    var loading: bool
    var controlsShown: bool
    var playButtonShown: bool
    var playPauseIcon: PlayIcon
    var volumeIcon: VolumeIcon
    var screenIcon: ScreenIcon
    var screenRequest: ScreenRequest
    var timeLabel: string

    /**
     * The invariant the handlers keep: at most one hide timer is pending and
     * it is the one the closure's handle names; every present icon shows the
     * flag it belongs to; loading only while a load is under way; one
     * throttle timer exactly while the throttle flag is set.
     */
    ghost predicate Valid()
      reads this
    {
      TimersValid() && IconsValid() && LoadingValid()
      && throttleTimers == (if throttleUpdate then 1 else 0)
      && (isDragging ==> bindings.timeline)
    }

    ghost predicate TimersValid()
      reads this`hideTimers, this`hideControlsTimeout, this`nextHandle
    {
      && |hideTimers| <= 1
      && (hideTimers != [] ==>
            && bindings.videoControls
            && hideControlsTimeout == Some(hideTimers[0].handle)
            && (hideTimers[0].delay == ShowHideDelay || hideTimers[0].delay == LeaveHideDelay))
      && (hideControlsTimeout.Some? ==> hideControlsTimeout.value < nextHandle)
    }

    ghost predicate IconsValid()
      reads this`isPlaying, this`isMuted, this`isFullscreen,
        this`playPauseIcon, this`playButtonShown, this`volumeIcon, this`screenIcon
    {
      && (bindings.playPauseBtn ==> playPauseIcon == PlayIconFor(isPlaying))
      && (bindings.playButton ==> playButtonShown == !isPlaying)
      && (bindings.muteBtn ==> volumeIcon == VolumeIconFor(isMuted))
      && (bindings.fullscreenBtn ==> screenIcon == ScreenIconFor(isFullscreen))
    }

    ghost predicate LoadingValid()
      reads this`loading, this`isVideoLoaded, this`loadHandlers
    {
      && (loading ==> !isVideoLoaded && loadHandlers)
      && (isVideoLoaded ==> loadHandlers)
    }

    function Mute(): MuteView
      reads this
    {
      MuteView(videoMuted, isMuted, volumeIcon)
    }

    /** The label updateProgress writes: the playhead and the duration in whole seconds, as m:ss. */
    function LabelNow(): string
      reads this`currentTime, this`duration
    {
      TimeLabel.FormatTimeLabel(WholeSeconds(currentTime),
        match duration case None => None case Some(d) => Some(WholeSeconds(d)))
    }

    /**
     * A player for a container with the given descendants; the video's
     * markup decides whether it starts muted, the stylesheet whether the
     * controls start visible. The icons start as the markup draws them:
     * play, volume up, enter fullscreen.
     */
    constructor (b: Bindings, mutedAttribute: bool, controlsVisible: bool)
      ensures Valid() && bindings == b
      ensures !isPlaying && !isMuted && !isFullscreen && !isVideoLoaded && !isDragging
      ensures hideControlsTimeout == None && hideTimers == [] && progressFrames == 0
      ensures !throttleUpdate && !loadHandlers && preloadObserved && !loading
      ensures videoPaused && videoMuted == mutedAttribute && duration == None && currentTime == 0.0
      ensures controlsShown == controlsVisible && timeLabel == ""
      ensures loadRequests == 0 && nextHandle == 0 && screenRequest == NoRequest
    {
      bindings := b;
      isPlaying, isMuted, isFullscreen, isVideoLoaded, isDragging := false, false, false, false, false;
      hideControlsTimeout, hideTimers, nextHandle := None, [], 0;
      progressFrames, throttleUpdate, throttleTimers := 0, false, 0;
      loadHandlers, preloadObserved := false, true;
      videoPaused, videoMuted, currentTime, duration, loadRequests := true, mutedAttribute, 0.0, None, 0;
      loading, controlsShown, playButtonShown := false, controlsVisible, true;
      playPauseIcon, volumeIcon, screenIcon, screenRequest := PlayGlyph, VolumeUpGlyph, EnterGlyph, NoRequest;
      timeLabel := "";
    }

    /** The controls' visibility, the pending hide timers and the closure's handle are as before. */
    twostate predicate ControlsUntouched()
      reads this
    {
      && controlsShown == old(controlsShown)
      && hideTimers == old(hideTimers)
      && hideControlsTimeout == old(hideControlsTimeout)
      && nextHandle == old(nextHandle)
    }

    /** What showControls does to the controls and the hide timers, relative to the state before. */
    twostate predicate ControlsShownAfter()
      reads this
    {
      if bindings.videoControls then
        && controlsShown
        && hideTimers == (if isPlaying then [HideTimer(old(nextHandle), ShowHideDelay)] else [])
        && hideControlsTimeout == (if isPlaying then Some(old(nextHandle)) else old(hideControlsTimeout))
        && nextHandle == old(nextHandle) + (if isPlaying then 1 else 0)
      else
        ControlsUntouched()
    }

    /**
     * What togglePlay does, relative to the state before: an unloaded video
     * starts loading; a loaded, paused one plays only when play() succeeds;
     * a playing one pauses and leaves the controls alone.
     */
    twostate predicate TogglePlayAfter(playOk: bool)
      reads this
    {
      && (!old(isVideoLoaded) ==>
            && loading && loadHandlers && loadRequests == old(loadRequests) + 1
            && isPlaying == old(isPlaying) && videoPaused == old(videoPaused)
            && ControlsUntouched())
      && (old(isVideoLoaded) && old(videoPaused) && playOk ==>
            isPlaying && !videoPaused && ControlsShownAfter())
      && (old(isVideoLoaded) && old(videoPaused) && !playOk ==> unchanged(this))
      && (old(isVideoLoaded) && !old(videoPaused) ==>
            && !isPlaying && videoPaused
            && ControlsUntouched())
      && (old(isVideoLoaded) ==> loading == old(loading) && loadRequests == old(loadRequests))
    }

    /** Cancels the pending hide timer, if any, and arms a new one with the given delay. */
    method RearmHideTimer(delay: nat)
      requires Valid() && bindings.videoControls && (delay == ShowHideDelay || delay == LeaveHideDelay)
      modifies this`hideTimers, this`hideControlsTimeout, this`nextHandle
      ensures Valid()
      ensures hideTimers == [HideTimer(old(nextHandle), delay)]
      ensures hideControlsTimeout == Some(old(nextHandle)) && nextHandle == old(nextHandle) + 1
    {
      ClearedPending(hideTimers, hideControlsTimeout);
      hideTimers := Cleared(hideTimers, hideControlsTimeout);
      hideControlsTimeout := Some(nextHandle);
      hideTimers := hideTimers + [HideTimer(nextHandle, delay)];
      nextHandle := nextHandle + 1;
    }

    /** showControls: controls visible, any pending hide timer cancelled, a 3000 ms one armed only while playing. */
    method ShowControls()
      requires Valid()
      modifies this`controlsShown, this`hideTimers, this`hideControlsTimeout, this`nextHandle
      ensures Valid() && ControlsShownAfter()
    {
      if bindings.videoControls {
        controlsShown := true;
        if isPlaying {
          RearmHideTimer(ShowHideDelay);
        } else {
          ClearedPending(hideTimers, hideControlsTimeout);
          hideTimers := Cleared(hideTimers, hideControlsTimeout);
        }
      }
    }

    /** The resolution of a play() call: playing, pause icon, play button hidden, controls shown. */
    method PlayResolved()
      requires Valid()
      modifies this`videoPaused, this`isPlaying, this`playPauseIcon, this`playButtonShown,
        this`controlsShown, this`hideTimers, this`hideControlsTimeout, this`nextHandle
      ensures Valid() && isPlaying && !videoPaused && ControlsShownAfter()
    {
      videoPaused := false;
      isPlaying := true;
      if bindings.playPauseBtn { playPauseIcon := PauseGlyph; }
      if bindings.playButton { playButtonShown := false; }
      ShowControls();
    }

    /**
     * togglePlay. Before the video has loaded it only marks the container
     * loading and requests a load (installing the canplaythrough and error
     * handlers); isPlaying is untouched. Once loaded, a paused video starts
     * only if play() succeeds, and a playing one pauses.
     */
    method TogglePlay(playOk: bool)
      requires Valid()
      modifies this`loading, this`loadRequests, this`loadHandlers, this`videoPaused, this`isPlaying,
        this`playPauseIcon, this`playButtonShown, this`controlsShown, this`hideTimers,
        this`hideControlsTimeout, this`nextHandle
      ensures Valid() && TogglePlayAfter(playOk)
    {
      if !isVideoLoaded {
        loading := true;
        loadRequests := loadRequests + 1;
        loadHandlers := true;
      } else if videoPaused {
        if playOk {
          PlayResolved();
        }
      } else {
        videoPaused := true;
        isPlaying := false;
        if bindings.playPauseBtn { playPauseIcon := PlayGlyph; }
        if bindings.playButton { playButtonShown := true; }
      }
    }

    /**
     * The video's canplaythrough handler, installed by the first togglePlay.
     * It clears loading, marks the video loaded and calls play(); the handler
     * stays installed, so every later canplaythrough calls play() again.
     */
    method CanPlayThrough(playOk: bool)
      requires Valid()
      modifies this`loading, this`isVideoLoaded, this`videoPaused, this`isPlaying, this`playPauseIcon,
        this`playButtonShown, this`controlsShown, this`hideTimers, this`hideControlsTimeout, this`nextHandle
      ensures Valid()
      ensures !old(loadHandlers) ==> unchanged(this)
      ensures old(loadHandlers) ==> !loading && isVideoLoaded
      ensures old(loadHandlers) && playOk ==> isPlaying && !videoPaused && ControlsShownAfter()
      ensures old(loadHandlers) && !playOk ==>
        && isPlaying == old(isPlaying) && videoPaused == old(videoPaused)
        && ControlsUntouched()
    {
      if loadHandlers {
        loading := false;
        isVideoLoaded := true;
        if playOk {
          PlayResolved();
        }
      }
    }

    /** The video's error handler, installed by the first togglePlay: loading cleared, the video stays unloaded. */
    method LoadError()
      requires Valid()
      modifies this`loading
      ensures Valid()
      ensures loading == (old(loading) && !loadHandlers)
    {
      if loadHandlers {
        loading := false;
      }
    }

    /** A click on the video: shows the controls while playing, toggles playback otherwise. */
    method VideoClick(playOk: bool)
      requires Valid()
      modifies this`loading, this`loadRequests, this`loadHandlers, this`videoPaused, this`isPlaying,
        this`playPauseIcon, this`playButtonShown, this`controlsShown, this`hideTimers,
        this`hideControlsTimeout, this`nextHandle
      ensures Valid()
      ensures old(isPlaying) ==> isPlaying && ControlsShownAfter() && unchanged(this`loading, this`loadRequests, this`loadHandlers, this`videoPaused)
      ensures !old(isPlaying) ==> TogglePlayAfter(playOk)
    {
      if isPlaying {
        ShowControls();
      } else {
        TogglePlay(playOk);
      }
    }

    /** The video's play event: playing, pause icon, play button hidden, one more progress frame requested. */
    method OnPlay()
      requires Valid()
      modifies this`isPlaying, this`videoPaused, this`playPauseIcon, this`playButtonShown, this`progressFrames
      ensures Valid() && isPlaying && !videoPaused && progressFrames == old(progressFrames) + 1
    {
      isPlaying := true;
      videoPaused := false;
      if bindings.playPauseBtn { playPauseIcon := PauseGlyph; }
      if bindings.playButton { playButtonShown := false; }
      progressFrames := progressFrames + 1;
    }

    /** The video's pause event: not playing, play icon, play button shown. */
    method OnPause()
      requires Valid()
      modifies this`isPlaying, this`videoPaused, this`playPauseIcon, this`playButtonShown
      ensures Valid() && !isPlaying && videoPaused
    {
      isPlaying := false;
      videoPaused := true;
      if bindings.playPauseBtn { playPauseIcon := PlayGlyph; }
      if bindings.playButton { playButtonShown := true; }
    }

    /** The video's ended event: as pause, and the playhead goes back to 0. */
    method OnEnded()
      requires Valid()
      modifies this`isPlaying, this`videoPaused, this`playPauseIcon, this`playButtonShown, this`currentTime
      ensures Valid() && !isPlaying && videoPaused && currentTime == 0.0
    {
      isPlaying := false;
      videoPaused := true;
      if bindings.playPauseBtn { playPauseIcon := PlayGlyph; }
      if bindings.playButton { playButtonShown := true; }
      currentTime := 0.0;
    }

    /** The media element learns its duration (loadedmetadata); not a handler of the script. */
    method MetadataLoaded(d: real)
      requires d >= 0.0
      modifies this`duration
      ensures duration == Some(d)
    {
      duration := Some(d);
    }

    /**
     * updateProgress: without a timeline or a progress bar nothing happens;
     * otherwise the time label is rewritten (when there is a time display)
     * and another frame is requested only while playing and not dragging.
     */
    method UpdateProgress()
      requires Valid()
      modifies this`progressFrames, this`timeLabel
      ensures Valid()
      ensures progressFrames == old(progressFrames)
        + (if bindings.timeline && bindings.progress && isPlaying && !isDragging then 1 else 0)
      ensures timeLabel == if bindings.timeline && bindings.progress && bindings.timeDisplay then LabelNow() else old(timeLabel)
    {
      if !bindings.timeline || !bindings.progress {
        return;
      }
      if bindings.timeDisplay {
        timeLabel := LabelNow();
      }
      if isPlaying && !isDragging {
        progressFrames := progressFrames + 1;
      }
    }

    /** A requested animation frame runs updateProgress; the loop dies out once paused or dragging. */
    method ProgressFrameFires()
      requires Valid() && progressFrames > 0
      modifies this`progressFrames, this`timeLabel
      ensures Valid()
      ensures progressFrames + 1 == old(progressFrames)
        + (if bindings.timeline && bindings.progress && isPlaying && !isDragging then 1 else 0)
      ensures !isPlaying || isDragging ==> progressFrames < old(progressFrames)
      ensures timeLabel == if bindings.timeline && bindings.progress && bindings.timeDisplay then LabelNow() else old(timeLabel)
    {
      progressFrames := progressFrames - 1;
      UpdateProgress();
    }

    /** The video's timeupdate event: arms one 50 ms progress timer unless one is already pending. */
    method OnTimeUpdate()
      requires Valid()
      modifies this`throttleUpdate, this`throttleTimers
      ensures Valid() && throttleUpdate && throttleTimers == 1
    {
      if !throttleUpdate {
        throttleUpdate := true;
        throttleTimers := throttleTimers + 1;
      }
    }

    /** The 50 ms progress timer: updateProgress, then the throttle flag is cleared. */
    method ThrottleTimerFires()
      requires Valid() && throttleTimers > 0
      modifies this`throttleUpdate, this`throttleTimers, this`progressFrames, this`timeLabel
      ensures Valid() && !throttleUpdate && throttleTimers == 0
      ensures progressFrames == old(progressFrames)
        + (if bindings.timeline && bindings.progress && isPlaying && !isDragging then 1 else 0)
      ensures timeLabel == if bindings.timeline && bindings.progress && bindings.timeDisplay then LabelNow() else old(timeLabel)
    {
      UpdateProgress();
      throttleUpdate := false;
      throttleTimers := throttleTimers - 1;
    }

    /**
     * seek: the playhead moves to fraction times the duration, where fraction
     * is the pointer's offset within the timeline divided by its width (not
     * clamped). Without a timeline nothing happens; with an unknown duration
     * the assignment of a non-finite time is refused by the media element,
     * so nothing happens either.
     */
    method Seek(fraction: real)
      requires Valid()
      modifies this`currentTime, this`progressFrames, this`timeLabel
      ensures Valid()
      ensures bindings.timeline && duration.Some? ==>
        && currentTime == fraction * duration.value
        && progressFrames == old(progressFrames)
             + (if bindings.progress && isPlaying && !isDragging then 1 else 0)
        && timeLabel == (if bindings.progress && bindings.timeDisplay then LabelNow() else old(timeLabel))
      ensures !bindings.timeline || duration.None? ==> unchanged(this)
    {
      if !bindings.timeline {
        return;
      }
      match duration {
        case None =>
        case Some(d) =>
          currentTime := fraction * d;
          UpdateProgress();
      }
    }

    /** mousedown on the timeline: dragging starts and the playhead seeks; no frame is requested while dragging. */
    method TimelineMouseDown(fraction: real)
      requires Valid()
      modifies this`isDragging, this`currentTime, this`progressFrames, this`timeLabel
      ensures Valid()
      ensures isDragging == (old(isDragging) || bindings.timeline)
      ensures progressFrames == old(progressFrames)
      ensures bindings.timeline && duration.Some? ==>
        && currentTime == fraction * duration.value
        && timeLabel == (if bindings.progress && bindings.timeDisplay then LabelNow() else old(timeLabel))
      ensures !bindings.timeline || duration.None? ==> currentTime == old(currentTime) && timeLabel == old(timeLabel)
    {
      if bindings.timeline {
        isDragging := true;
        Seek(fraction);
      }
    }

    /** mousemove anywhere in the document: seeks only while dragging. */
    method DocumentMouseMove(fraction: real)
      requires Valid()
      modifies this`currentTime, this`progressFrames, this`timeLabel
      ensures Valid()
      ensures isDragging && duration.Some? ==>
        && currentTime == fraction * duration.value
        && timeLabel == (if bindings.progress && bindings.timeDisplay then LabelNow() else old(timeLabel))
      ensures isDragging && duration.None? ==> currentTime == old(currentTime) && timeLabel == old(timeLabel)
      ensures !isDragging ==> unchanged(this)
      ensures progressFrames == old(progressFrames)
    {
      if bindings.timeline && isDragging {
        Seek(fraction);
      }
    }

    /** mouseup anywhere in the document ends a drag, whichever player it started in. */
    method DocumentMouseUp()
      requires Valid()
      modifies this`isDragging
      ensures Valid() && !isDragging
    {
      if bindings.timeline {
        isDragging := false;
      }
    }

    /** mouseleave: while playing, the pending hide timer is replaced by a 1000 ms one; otherwise nothing. */
    method MouseLeave()
      requires Valid()
      modifies this`hideTimers, this`hideControlsTimeout, this`nextHandle
      ensures Valid()
      ensures isPlaying && bindings.videoControls ==>
        && hideTimers == [HideTimer(old(nextHandle), LeaveHideDelay)]
        && hideControlsTimeout == Some(old(nextHandle))
      ensures !(isPlaying && bindings.videoControls) ==> unchanged(this)
    {
      if isPlaying && bindings.videoControls {
        RearmHideTimer(LeaveHideDelay);
      }
    }

    /** The pending hide timer fires: the controls are hidden and no hide timer is pending. */
    method HideTimerFires()
      requires Valid() && hideTimers != []
      modifies this`controlsShown, this`hideTimers
      ensures Valid() && !controlsShown && hideTimers == []
    {
      controlsShown := false;
      hideTimers := hideTimers[1..];
    }

    /** toggleMute: without a mute button nothing; otherwise video.muted flips and the flag and icon follow it. */
    method ToggleMute()
      requires Valid()
      modifies this`videoMuted, this`isMuted, this`volumeIcon
      ensures Valid()
      ensures bindings.muteBtn ==> Mute() == AfterToggleMute(old(Mute()))
      ensures !bindings.muteBtn ==> Mute() == old(Mute())
    {
      if bindings.muteBtn {
        videoMuted := !videoMuted;
        isMuted := videoMuted;
        volumeIcon := VolumeIconFor(isMuted);
      }
    }

    /**
     * toggleFullscreen: without a fullscreen button nothing; otherwise the
     * platform is asked to enter (or exit) fullscreen, the icon is set from
     * the state before the flip, and the flag flips whether or not any
     * fullscreen capability exists.
     */
    method ToggleFullscreen()
      requires Valid()
      modifies this`isFullscreen, this`screenIcon, this`screenRequest
      ensures Valid()
      ensures bindings.fullscreenBtn ==>
        && isFullscreen == !old(isFullscreen)
        && screenRequest == (if old(isFullscreen) then ExitRequested else EnterRequested)
        && screenIcon == (if old(isFullscreen) then EnterGlyph else ExitGlyph)
      ensures !bindings.fullscreenBtn ==>
        isFullscreen == old(isFullscreen) && screenIcon == old(screenIcon) && screenRequest == old(screenRequest)
    {
      if bindings.fullscreenBtn {
        screenRequest := if isFullscreen then ExitRequested else EnterRequested;
        screenIcon := ScreenIconFor(!isFullscreen);
        isFullscreen := !isFullscreen;
      }
    }

    /** The document's fullscreenchange event: the flag becomes whether any element is fullscreen. */
    method FullscreenChange(hasFullscreenElement: bool)
      requires Valid()
      modifies this`isFullscreen, this`screenIcon
      ensures Valid() && isFullscreen == hasFullscreenElement
      ensures bindings.fullscreenBtn ==> screenIcon == ScreenIconFor(hasFullscreenElement)
    {
      isFullscreen := hasFullscreenElement;
      if bindings.fullscreenBtn {
        screenIcon := ScreenIconFor(isFullscreen);
      }
    }

    /**
     * The container comes within 300 px of the viewport: if the video has a
     * source and has not loaded, a load is requested and the container is no
     * longer watched; otherwise it stays watched.
     */
    method NearViewport(hasSource: bool)
      requires Valid() && preloadObserved
      modifies this`loadRequests, this`preloadObserved
      ensures Valid()
      ensures hasSource && !isVideoLoaded ==> !preloadObserved && loadRequests == old(loadRequests) + 1
      ensures !(hasSource && !isVideoLoaded) ==> preloadObserved && loadRequests == old(loadRequests)
    {
      if hasSource && !isVideoLoaded {
        loadRequests := loadRequests + 1;
        preloadObserved := false;
      }
    }
  }

  /**
   * While a video plays undisturbed, each throttled timeupdate runs
   * updateProgress, which requests an animation frame of its own; the frame
   * loops already running never absorb it. After n rounds of a timeupdate,
   * its 50 ms timer and one frame firing, n more frame loops are pending
   * than before.
   */
  method ThrottledUpdatesAddFrames(p: Player, n: nat)
    requires p.Valid() && p.bindings.timeline && p.bindings.progress && p.isPlaying && !p.isDragging
    modifies p
    ensures p.Valid() && p.progressFrames == old(p.progressFrames) + n
  {
    for i := 0 to n
      invariant p.Valid() && p.isPlaying && !p.isDragging
      invariant p.progressFrames == old(p.progressFrames) + i
    {
      p.OnTimeUpdate();
      p.ThrottleTimerFires();
      p.ProgressFrameFires();
    }
  }
}
