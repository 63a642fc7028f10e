# Video portfolio player and scroll effects, modelled in Dafny

This project models the decision logic of a marketing site's page scripts:

- **The video player** (`script.js`, `initVideoPortfolio`). One `VideoPlayer.Player` object stands for one
  `.video-container`. Its fields are the closure flags `isPlaying`, `isMuted`, `isFullscreen`,
  `isVideoLoaded`, `isDragging` and the `hideControlsTimeout` handle. The handlers also touch parts of the page
  and of the browser, and these are fields too: the pending hide timers, the requested progress frames, the
  `throttleUpdate` flag and its timer, `video.paused`, `video.muted`, the playhead, the duration, the
  container's loading class, and the icons and visibility of the overlay.
  - Each event listener is a method.
  - A `play()` promise's outcome is a `playOk` parameter.
  - A timer or animation frame is a pending entry that a separate "fires" method consumes.
  - Icons are enums and absent descendants are flags in `Bindings`. A handler whose element is missing does
    nothing, as in the script.
  - The class invariant `Valid()` says these things. At most one hide timer is pending, and it is the one
    the closure's handle names, because every `setTimeout` is preceded by a `clearTimeout`. Every icon that
    is present shows its flag. The container is loading only while a load is under way. One throttle timer
    is pending exactly while `throttleUpdate` is set.
- **The time label** (`TimeLabel`). The `m:ss / m:ss` text is formatted over whole seconds. A parser reads it
  back. The round trip shows that minutes are `t / 60` and seconds `t % 60`, and that an unknown duration
  reads as `0:00`. A separate lemma about the seconds field shows that it gets a leading `0` exactly below
  ten and is two digits wide.
- **Scroll handling** (`site-performance.js`, `optimizeScrollEvents`). `ScrollEvents.ScrollHandler` holds the
  `ticking` flag and keeps the invariant that one frame is pending exactly while it is set.
  - The frame sets the navbar's scrolled style exactly when `scrollY > 50`.
  - It selects the current section with a loop (`SelectCurrent`). That loop is proved equal to
    `CurrentId`, the id of the last section in document order with `scrollY >= top - 200`.
  - It marks a link active exactly when its href is `'#' + current`.
- **One-shot observers**. `LazyImages.ImageObserver` observes exactly the images that still carry `data-src`.
  `FadeIn.AnimationObserver` requests each element's reveal at most once.
- **Mobile navigation** (`MobileNav`). On a page with both a navbar toggler and a collapsible menu, a link click
  clicks the toggler exactly when the menu is shown; without either, a link click does nothing to the menu.

The model follows the code in these places:

- Starting playback from `togglePlay` does not itself request progress frames. Only the video's `play`
  event does.
- The `oncanplaythrough` handler stays installed after the first load, so every later `canplaythrough`
  calls `play()` again. `CanPlayThrough` states this: with the handler installed and `playOk`, the player
  ends up playing whatever its state before.
- `fullscreenchange` sets `isFullscreen` from whether any element is fullscreen, not only this container.
- A seek while the duration is unknown changes nothing. The media element refuses a non-finite
  `currentTime`, so `updateProgress` is not reached.
- An image whose `data-src` is empty stays observed and unchanged.
- While a video plays and no drag is active, every throttled `timeupdate` runs `updateProgress`, which
  requests an animation frame of its own. The frame loops already running never absorb it, so the number
  of pending frame loops grows for as long as playback lasts. `ThrottledUpdatesAddFrames` states this:
  after n rounds of a `timeupdate`, its timer and one frame firing, n more frames are pending.
- `MetadataLoaded` is not a handler of the script. It stands for the platform event in which the media
  element learns its duration, which `updateProgress` then reads.

## Model

| member | source | states |
|---|---|---|
| VideoPlayer.WholeSeconds | script.js:235-238 | the `Math.floor` split of the playhead into whole seconds; WholeSecondsSplit states its meaning for t >= 0, and the UpdateProgress line under "Left out" admits the clamp of a negative playhead to 0 |
| VideoPlayer.Player.LabelNow | script.js:234-242 | the text updateProgress writes into the time display; its meaning is stated through UpdateProgress and TimeLabelRoundTrip |
| TimeLabel.SecondsField | script.js:241-242 | the `${s < 10 ? '0' : ''}${s}` field; what it means is stated by SecondsFieldShape |
| TimeLabel.Clock | script.js:235-242 | one `m:ss` clock; what it means is stated by ClockShape |
| TimeLabel.FormatTimeLabel | script.js:234-242 | the `m:ss / m:ss` label with an undefined duration as 0; what it means is stated by TimeLabelRoundTrip |
| TimeLabel.Numeral | script.js:240-242 | a whole number is rendered as a non-empty string of decimal digits whose first digit is '0' only for zero |
| TimeLabel.NumeralRoundTrip | script.js:240-242 | the rendered digits read back as the number |
| TimeLabel.SecondsFieldShape | script.js:241-242 | the seconds field starts with '0' exactly when the seconds are below ten, is two characters for seconds below 60, and reads back as the seconds |
| TimeLabel.ClockShape | script.js:235-236 | an `m:ss` clock reads back as minutes t / 60 and seconds t % 60 |
| TimeLabel.TimeLabelRoundTrip | script.js:235-242 | the label reads back as the playhead's and the duration's minutes and seconds; an undefined duration gives 0 and 0 |
| TimeLabel.WholeSecondsSplit | script.js:235-238 | for a non-negative real playhead, floor(t / 60) and floor(t % 60) equal the minutes and seconds of floor(t) |
| VideoPlayer.Cleared | script.js:217 | clearTimeout leaves exactly the pending timers not registered under the given handle |
| VideoPlayer.ClearedPending | script.js:217 | under the invariant, clearing the closure's handle leaves no hide timer pending |
| VideoPlayer.AfterToggleMute | script.js:264-269 | the mute view after one toggle; what it means is stated by ToggleMuteSynchronises and ToggleMuteTwice |
| VideoPlayer.ToggleMuteSynchronises | script.js:264-269 | after a toggle video.muted has flipped, isMuted equals it and the icon shows it |
| VideoPlayer.ToggleMuteTwice | script.js:261-270 | two toggles restore the state exactly when isMuted and the icon already agreed with video.muted |
| VideoPlayer.Player.constructor | script.js:163-169 | all flags start false, no handle and no timer are held, no load or fullscreen request has been made, the label is empty, and the video is observed for preloading |
| VideoPlayer.Player.RearmHideTimer | script.js:404-407 | the old hide timer is cancelled and exactly one new timer with the given delay is pending under a fresh handle |
| VideoPlayer.Player.ShowControls | script.js:214-225 | with controls: visible, any pending timer cancelled, one 3000 ms timer pending only while playing; without controls nothing changes |
| VideoPlayer.Player.PlayResolved | script.js:181-186 | a resolved play() sets isPlaying, clears video.paused and shows the controls |
| VideoPlayer.Player.TogglePlay | script.js:172-211 | stated as TogglePlayAfter: unloaded: loading set and a load requested, isPlaying unchanged; loaded and paused: playing with the controls shown only if play() succeeds, else nothing changes; loaded and playing: paused, isPlaying false, controls and timers untouched |
| VideoPlayer.Player.CanPlayThrough | script.js:177-188 | with the handler installed: loading cleared and the video loaded; playing (controls shown) exactly when play() succeeds; with no handler nothing changes |
| VideoPlayer.Player.LoadError | script.js:190-193 | with the handler installed, loading is cleared and the video stays unloaded |
| VideoPlayer.Player.VideoClick | script.js:307-313 | while playing the controls are shown and loading, load requests and the paused flag are untouched; otherwise everything togglePlay promises (TogglePlayAfter) holds |
| VideoPlayer.Player.OnPlay | script.js:315-320 | isPlaying set, pause icon, and one more progress frame requested |
| VideoPlayer.Player.OnPause | script.js:322-326 | isPlaying cleared with the play icon |
| VideoPlayer.Player.OnEnded | script.js:338-343 | isPlaying cleared with the play icon and the playhead reset to 0 |
| VideoPlayer.Player.UpdateProgress | script.js:228-248 | without timeline or progress nothing; otherwise the label is rewritten to the current m:ss / m:ss text (LabelNow) when there is a display, and a frame is requested only while playing and not dragging |
| VideoPlayer.Player.ProgressFrameFires | script.js:228-247 | one frame is consumed and updateProgress runs: the label is rewritten as updateProgress does, a new frame is requested only while playing and not dragging, so the pending frames strictly decrease once paused or dragging |
| VideoPlayer.ThrottledUpdatesAddFrames | script.js:328-336 | while playing and not dragging, each round of timeupdate, its 50 ms timer and one frame firing leaves one more frame loop pending, so the loops accumulate |
| VideoPlayer.Player.OnTimeUpdate | script.js:328-336 | at most one throttle timer is pending, whatever the number of timeupdate events |
| VideoPlayer.Player.ThrottleTimerFires | script.js:331-334 | the throttle timer runs updateProgress (label and frame as updateProgress does) and clears the throttle flag and its timer |
| VideoPlayer.Player.Seek | script.js:251-258 | with a timeline and known duration the playhead becomes fraction times duration (not clamped) and updateProgress runs on it (label and frame); otherwise nothing changes |
| VideoPlayer.Player.TimelineMouseDown | script.js:347-350 | with a timeline dragging starts and the playhead seeks (label rewritten from the new playhead), with no frame requested; otherwise playhead and label are unchanged |
| VideoPlayer.Player.DocumentMouseMove | script.js:352-356 | while dragging with a known duration the playhead seeks and the label is rewritten from it; with an unknown duration or when not dragging nothing changes |
| VideoPlayer.Player.DocumentMouseUp | script.js:358-360 | dragging always ends |
| VideoPlayer.Player.MouseLeave | script.js:402-409 | while playing the pending timer is replaced by one 1000 ms timer; otherwise nothing changes |
| VideoPlayer.Player.HideTimerFires | script.js:220-222 | the controls are hidden and no hide timer remains pending |
| VideoPlayer.Player.ToggleMute | script.js:261-270 | with a mute button the mute view moves by one toggle; without one nothing changes |
| VideoPlayer.Player.ToggleFullscreen | script.js:273-299 | with a button: isFullscreen negated, enter or exit requested, icon set from the state before the flip; without one nothing changes |
| VideoPlayer.Player.FullscreenChange | script.js:412-419 | isFullscreen becomes whether a fullscreen element exists and the icon follows |
| VideoPlayer.Player.NearViewport | script.js:364-377 | a load is requested and observation stops only for a video with a source that has not loaded |
| ScrollEvents.NavbarScrolled | site-performance.js:73 | the navbar threshold `scrollY > 50`; FrameFires and NavbarExample state its use |
| ScrollEvents.Reached | site-performance.js:90 | a section is reached once the offset is at least its top minus 200; LastReached and CurrentId state the choice it drives |
| ScrollEvents.LinkTargets | site-performance.js:97 | a link targets the current section when its href is exactly '#' + current; HighlightLinks states its use |
| ScrollEvents.NavbarExample | site-performance.js:73-77 | at offsets 0, 51 and 10 the navbar is unscrolled, scrolled and unscrolled |
| ScrollEvents.LastReached | site-performance.js:85-93 | the selected index is reached and no later section is; none is selected only when no section is reached |
| ScrollEvents.CurrentId | site-performance.js:85-93 | the id of the section that is reached with no later section reached, or '' when none is reached |
| ScrollEvents.LastReachedMonotone | site-performance.js:87-92 | scrolling further down never selects an earlier section |
| ScrollEvents.SecondSectionExample | site-performance.js:87-92 | sections at 0 and 800 with scroll 650 select the second |
| ScrollEvents.SelectCurrent | site-performance.js:85-93 | the overwriting loop yields the last reached section's id, or '' |
| ScrollEvents.HighlightLinks | site-performance.js:95-100 | afterwards a link is active exactly when its href is '#' + current |
| ScrollEvents.ScrollHandler.constructor | site-performance.js:65 | not ticking and no frame pending |
| ScrollEvents.ScrollHandler.OnScroll | site-performance.js:67-68 | a scroll while ticking requests nothing; otherwise exactly one frame and ticking set |
| ScrollEvents.ScrollHandler.FrameFires | site-performance.js:69-104 | navbar scrolled exactly when scrollY > 50 if present; links active exactly when they match the current section if there are sections and links, else unchanged; ticking cleared |
| LazyImages.ImageObserver.constructor | site-performance.js:29-32 | exactly the images with a data-src attribute are observed |
| LazyImages.ImageObserver.Intersects | site-performance.js:11-19 | a non-empty data-src becomes src, is removed and the image unobserved; an empty one changes nothing; no other image changes |
| LazyImages.ImageObserver.UnobservedIsSettled | site-performance.js:15-18 | an unobserved image has no data-src left, so its src is never reassigned |
| FadeIn.AnimationObserver.constructor | site-performance.js:58-60 | every animated element is observed and none is revealed |
| FadeIn.AnimationObserver.Intersects | site-performance.js:42-49 | the element's reveal is requested for the first time and it is unobserved |
| FadeIn.AnimationObserver.RevealFrameFires | site-performance.js:44-47 | the element is revealed and no further reveal of it is pending or can be requested |
| MobileNav.ClicksToggler | site-performance.js:116-123 | a link click clicks the toggler only when the menu is shown, and, given toggler and menu, exactly then |
| MobileNav.MenuShownAfterClick | site-performance.js:116-123 | after a link click the menu is shown exactly when it was shown and there is no toggler-and-menu pair |
| MobileNav.LinkClickClosesMenu | site-performance.js:116-123 | with toggler and menu a link click leaves the menu closed, clicking only when shown; without them nothing changes |

## Left out

- The preloader (`script.js` lines 13-44). It is timer and style plumbing with no guard, and `hidePreloader` can run more than once.
- `preloadCriticalResources` and console logging. They are network prefetch and logs.
- The second initialisation of the players, the duplicated fade-in, lazy-image and navbar code in `script.js`, and its portfolio-link click handler. One copy of each rule is modelled.
- The unthrottled navbar listener in `script.js` (lines 48-54) has no null check and throws when the page has no navbar. Only the threshold, shared with the guarded copy, is modelled.
- Vendor-prefixed fullscreen calls. They are one opaque request, `ScreenRequest`.
- `video.load()` is counted in `loadRequests`. Its effect on the media element (reset playhead and paused flag) is the platform's and is not modelled.
- Asynchrony of the `play()` promise and of load events. Each outcome is an input that takes effect at once. Media events (`play`, `pause`, `ended`) are separate inputs.
- Timing, margins and thresholds of `IntersectionObserver`, `requestAnimationFrame` and `setTimeout`. They are pending entries and explicit "fires" methods.
- Floating-point progress percent and the progress bar width. The seek fraction is a `real` and is not clamped.
- The initial icons and `controlsShown` come from the markup and stylesheet. The model starts from play, volume-up and enter-fullscreen icons, and takes the controls' visibility as a parameter.
- MobileNav.MenuShownAfterClick: that a toggler click flips the menu is the framework's behaviour, taken as given; the script itself only calls `click()` on the toggler.
- VideoPlayer.Player.UpdateProgress: the label is computed from whole seconds with a negative playhead shown as 0 (reachable only through an unclamped seek), where the script would print negative minutes and seconds.
