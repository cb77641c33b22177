# Player controls and Mixcloud adapter — a Dafny model

This project models two pieces of decision logic from the music player's
front end:

1. **The transport controls** (`PlayerControlsComponent`): play, pause,
   toggle play/pause, previous, next, seek ("play track from position"),
   toggle shuffle and toggle loop. Each control is a pure function from the
   play queue to the operations it issues on the queue or on one of its
   items (`PlayQueue.Effect`). The play queue itself is abstract
   (`PlayQueue.Queue`). It holds the items with their progress and playing
   flag, the current item, the playing item, the items that previous/next
   would select, and the shuffle and loop flags.
2. **The Mixcloud provider adapter** (`MixcloudPlayerComponent`). It is an
   immutable record (`MixcloudPlayer.Adapter`) holding the SDK-ready flag,
   the pending seek, whether a widget is stored, and how many created
   widgets still await their ready handshake. Every hook is a step function
   returning the next record plus the ordered sequence of what it emits:
   - status callbacks into the player base;
   - calls on the Mixcloud widget;
   - injection of the SDK script;
   - resolution of the adapter's promises;
   - the error a hook throws when it calls the widget before one is stored.
     Whatever the hook did before the throw stays done.

   The asynchronous completions are separate steps: the script's onload,
   the widget's ready handshake and the resolution of the widget's `play()`.

Modules:
- `Wrappers`: `Option` and `Result`.
- `PlayQueue`: the abstract queue, the effects, and how queue effects change the flags.
- `PlayerControls`: the eight controls and their properties.
- `MixcloudPlayer`: event translation, pending seek, SDK readiness, widget attachment and the no-op hooks.
- `MixcloudTraces`: properties of runs of several events or steps.

The queue's interface is assumed to behave as its names say:
- `hasPreviousItem()`/`hasNextItem()` hold exactly when `getPreviousItem()`/`getNextItem()` return an item;
- after `shuffle()` the queue reports itself shuffled, and after `deShuffle()` it does not;
- after `setLoopPlayQueue(b)` the queue reports itself looped exactly when `b` holds.

Positions and progress are JavaScript numbers, modelled as `real`.
JavaScript truthiness of the pending seek is `MixcloudPlayer.Truthy`: a missing value (`undefined`/`null`) and `0` are falsy.

Behaviour of the code worth knowing:
- The SDK-ready flag belongs to each adapter instance, not to the process.
  Nothing records an injection that is still loading, so every initialisation before the script loads injects the script again.
  `MixcloudTraces.SdkInjectedPerCallUntilLoaded` shows this.
- The SDK promise never rejects, because no `onerror` is installed. So there is no SDK bootstrap error.
- The pending seek is not limited to seeks made before playback starts.
  Every seek is recorded, and the slot is cleared only after a truthy replay.
  So a seek made while already playing is replayed on the next completed `play()` (`MixcloudTraces.SeekWhilePlayingReplayedOnNextPlay`).
  A pending seek of `0` is never replayed and never cleared (`MixcloudTraces.ZeroSeekNotReplayed`).
- A seek made before a widget is stored records its position and then throws.
  The position is replayed by the first completed play after attachment (`MixcloudTraces.SeekBeforeAttachReplayedAfterAttach`).
- `unBindListeners` removes nothing, because `.bind` makes a fresh function each time.
  Every `bindListeners` call therefore adds one more registration per event (`MixcloudTraces.BindListenersRemovesNothing`).
  With n registrations an event is handled n times (`MixcloudTraces.DeliverRepeatsPerBinding`).

## Model

| member | source | states |
|---|---|---|
| PlayerControls.Play | src/app/modules/player/components/player-controls/player-controls.ts:91-97 | with a current item, exactly one play of that item, from that item's own recorded progress; with none, nothing |
| PlayerControls.Pause | src/app/modules/player/components/player-controls/player-controls.ts:99-105 | exactly one pause of the item reported as playing when there is one, nothing otherwise |
| PlayerControls.PauseIgnoresCurrent | src/app/modules/player/components/player-controls/player-controls.ts:99-105 | which item is current has no influence on what pause does |
| PlayerControls.TogglePlayPause | src/app/modules/player/components/player-controls/player-controls.ts:107-116 | no-op without a current item; otherwise exactly the pause control when the current item is playing and the play control when it is not |
| PlayerControls.ToggleWithoutPlayingItemIsNoOp | src/app/modules/player/components/player-controls/player-controls.ts:107-116 | a playing current item with no item reported as playing makes the toggle do nothing |
| PlayerControls.Previous | src/app/modules/player/components/player-controls/player-controls.ts:118-127 | at most one operation: restart of a playing item whose progress exceeds 3 s; otherwise a play of the previous item exactly when there is one; otherwise nothing |
| PlayerControls.PreviousAtThresholdStepsBack | src/app/modules/player/components/player-controls/player-controls.ts:120 | the threshold is strict: at exactly 3 s nothing is restarted and "previous" acts as if nothing were playing |
| PlayerControls.PreviousRestartPlaysNothing | src/app/modules/player/components/player-controls/player-controls.ts:118-122 | when a restart happens it touches only the playing item, plays nothing, and ignores whether a previous item exists |
| PlayerControls.Next | src/app/modules/player/components/player-controls/player-controls.ts:129-134 | issues something iff there is a next item, and then only a play of that item |
| PlayerControls.PlayTrackFromPosition | src/app/modules/player/components/player-controls/player-controls.ts:140-145 | issues something iff there is a current item, and then only a seek of that item to exactly the given position |
| PlayerControls.ToggleShuffle | src/app/modules/player/components/player-controls/player-controls.ts:155-163 | one operation: de-shuffle iff the queue is shuffled, shuffle iff it is not |
| PlayerControls.ToggleLoop | src/app/modules/player/components/player-controls/player-controls.ts:165-173 | one operation setting the loop flag to the negation of the current flag |
| PlayerControls.ToggleShuffleTwiceRestores | src/app/modules/player/components/player-controls/player-controls.ts:155-163 | performing the toggle flips the shuffle flag; toggling twice restores it |
| PlayerControls.ToggleLoopTwiceRestores | src/app/modules/player/components/player-controls/player-controls.ts:165-173 | performing the toggle flips the loop flag; toggling twice restores it |
| PlayerControls.DispatchIssuesAtMostOne | src/app/modules/player/components/player-controls/player-controls.ts:91-173 | every control issues at most one operation, and any item operation addresses an item of the queue |
| MixcloudPlayer.HandleStatusChange | src/app/modules/player/components/mixcloud-player/mixcloud-player.ts:34-57 | each of the six listened events yields exactly one callback stemming from that event; progress and error forward their argument; only buffering and play request the duration, and do so before their callback; any other name yields nothing |
| MixcloudPlayer.NativeNameRoundTrip | src/app/modules/player/components/mixcloud-player/mixcloud-player.ts:34-57 | translating the native event of any widget callback gives back that same callback, so the mapping is one-to-one |
| MixcloudPlayer.Create | src/app/modules/player/components/mixcloud-player/mixcloud-player.ts:25-30 | the SDK counts as ready from the start iff the Mixcloud global exists; the seek slot is empty, no widget is stored and none awaits its handshake |
| MixcloudPlayer.InitialisePlayerSdk | src/app/modules/player/components/mixcloud-player/mixcloud-player.ts:78-97 | resolves at once iff the ready flag is set, and injects the script iff it is not; the flag is left unchanged |
| MixcloudPlayer.SdkScriptLoaded | src/app/modules/player/components/mixcloud-player/mixcloud-player.ts:91-94 | the loader's onload sets the ready flag and resolves, touching nothing else |
| MixcloudPlayer.InitialisePlayer | src/app/modules/player/components/mixcloud-player/mixcloud-player.ts:99-110 | attaching fails iff no element carries the instance id; otherwise one more widget awaits its handshake and nothing else changes, so a widget stored before stays usable |
| MixcloudPlayer.WidgetReady | src/app/modules/player/components/mixcloud-player/mixcloud-player.ts:105-108 | a pending handshake completes: a widget is stored, the attach resolves, the SDK flag and the seek slot are untouched |
| MixcloudPlayer.PreloadTrack | src/app/modules/player/components/mixcloud-player/mixcloud-player.ts:121-123 | loads the component's own track with preloading on, whatever track and start time are passed; throws without a widget |
| MixcloudPlayer.SeekPlayerTo | src/app/modules/player/components/mixcloud-player/mixcloud-player.ts:143-146 | the pending seek becomes the new position in every case, replacing any earlier one; then exactly one widget seek to that position, or, without a widget, a throw |
| MixcloudPlayer.StartPlayer | src/app/modules/player/components/mixcloud-player/mixcloud-player.ts:125-127 | onRequestPlay is emitted first, then widget play, or a throw without a widget; the state is unchanged |
| MixcloudPlayer.PlayResolved | src/app/modules/player/components/mixcloud-player/mixcloud-player.ts:127-132 | a truthy pending seek is replayed as exactly one seek to that value and the slot ends up empty; if that replay throws the slot keeps its value; a missing or zero one causes nothing |
| MixcloudPlayer.PausePlayer | src/app/modules/player/components/mixcloud-player/mixcloud-player.ts:135-137 | a single widget pause, or a throw without a widget; state unchanged |
| MixcloudPlayer.StopPlayer | src/app/modules/player/components/mixcloud-player/mixcloud-player.ts:139-141 | stopping is the same step as pausing |
| MixcloudPlayer.SetPlayerVolume | src/app/modules/player/components/mixcloud-player/mixcloud-player.ts:115-116 | issues nothing and changes nothing |
| MixcloudPlayer.SetPlayerSize | src/app/modules/player/components/mixcloud-player/mixcloud-player.ts:118-119 | issues nothing and changes nothing |
| MixcloudPlayer.DeInitialisePlayer | src/app/modules/player/components/mixcloud-player/mixcloud-player.ts:112-113 | issues nothing and changes nothing |
| MixcloudTraces.DurationRequestedPerFetchingEvent | src/app/modules/player/components/mixcloud-player/mixcloud-player.ts:36-43 | over any run of events handled once each, the number of duration requests equals the number of buffering and play events |
| MixcloudTraces.CallbacksFollowEvents | src/app/modules/player/components/mixcloud-player/mixcloud-player.ts:34-57 | over any run of events handled once each, one callback per listened event, in event order, each stemming from its own event |
| MixcloudTraces.BufferPlayProgressPauseScenario | src/app/modules/player/components/mixcloud-player/mixcloud-player.ts:36-51 | buffering, play, progress(12), pause signal waiting, playing, time 12, paused in that order |
| MixcloudTraces.SeekAllLastWriteWins | src/app/modules/player/components/mixcloud-player/mixcloud-player.ts:143-146 | after any run of seeks the pending slot holds the last position, with or without a widget, and a stored widget was sought to every position in order |
| MixcloudTraces.SeeksThenPlayReplayLast | src/app/modules/player/components/mixcloud-player/mixcloud-player.ts:125-146 | any run of seeks followed by play: only the last position is replayed when play completes, once, and only if non-zero; the slot is then empty, or still holds the 0 |
| MixcloudTraces.ReplayedAtMostOnce | src/app/modules/player/components/mixcloud-player/mixcloud-player.ts:127-132 | a second play completion without a new seek seeks nothing |
| MixcloudTraces.ZeroSeekNotReplayed | src/app/modules/player/components/mixcloud-player/mixcloud-player.ts:128-131 | a pending seek of 0 is neither replayed nor cleared |
| MixcloudTraces.SeekWhilePlayingReplayedOnNextPlay | src/app/modules/player/components/mixcloud-player/mixcloud-player.ts:125-146 | a non-zero seek made while playing, followed by pause and play, is sought to again when play completes |
| MixcloudTraces.SdkReadyAfterLoad | src/app/modules/player/components/mixcloud-player/mixcloud-player.ts:82-94 | once the loader has run, initialisation resolves at once without a new injection |
| MixcloudTraces.SdkInjectedPerCallUntilLoaded | src/app/modules/player/components/mixcloud-player/mixcloud-player.ts:78-97 | two initialisations before the script loads inject it twice |
| MixcloudTraces.CreateThenInitialise | src/app/modules/player/components/mixcloud-player/mixcloud-player.ts:27-29 | a fresh adapter resolves its SDK at once iff the Mixcloud global exists, and is ready after the loader's onload |
| PlayerControls.PreviousStepsBackLikeNext | src/app/modules/player/components/player-controls/player-controls.ts:123-126 | below the threshold, previous is exactly next aimed at the previous item |
| PlayerControls.PlayAndSeekAddressSameItem | src/app/modules/player/components/player-controls/player-controls.ts:140-145 | play and playTrackFromPosition are no-ops together and address the same item, play at its progress, the seek at the given position |
| PlayerControls.NextIgnoresPlayback | src/app/modules/player/components/player-controls/player-controls.ts:129-134 | what next does depends only on the queue's next item, not on the current or playing item |
| MixcloudPlayer.OnlyHandshakeStoresWidget | src/app/modules/player/components/mixcloud-player/mixcloud-player.ts:78-146 | among the hooks of `Hook` (every modelled hook except the handshake), none changes whether a widget is stored or lowers the handshakes in flight; `ngOnDestroy`, which deletes the widget, is not modelled |
| MixcloudPlayer.AttachLifecycle | src/app/modules/player/components/mixcloud-player/mixcloud-player.ts:99-110 | attaching to a mounted element and then completing the handshake stores a widget and resolves, with the SDK flag and seek slot untouched |
| MixcloudPlayer.ReattachKeepsWidget | src/app/modules/player/components/mixcloud-player/mixcloud-player.ts:99-110 | two attaches before either handshake: both handshakes are accepted and the widget stored before keeps serving calls |
| MixcloudTraces.OffKeepsOthers | src/app/modules/player/components/mixcloud-player/mixcloud-player.ts:70-75 | `off(h)` keeps exactly the registrations of handlers other than `h`, and none of `h` |
| MixcloudTraces.OffUnregisteredKeepsAll | src/app/modules/player/components/mixcloud-player/mixcloud-player.ts:70-75 | `off` with a handler that was never registered leaves the registrations unchanged |
| MixcloudTraces.UnbindEachRemovesNothing | src/app/modules/player/components/mixcloud-player/mixcloud-player.ts:69-76 | unBindListeners hands `off` newly bound handlers only, so it leaves every registration in place |
| MixcloudTraces.BindListenersRemovesNothing | src/app/modules/player/components/mixcloud-player/mixcloud-player.ts:59-67 | bindListeners keeps every earlier registration as a prefix and adds exactly one handler for each of the six listened events and none for any other |
| MixcloudTraces.BindingOnceHandlesOnce | src/app/modules/player/components/mixcloud-player/mixcloud-player.ts:59-67 | from no handler for an event, one bindListeners makes that event handled exactly once, as a single handleMcStatusChange call |
| MixcloudTraces.BindingTwiceDoubles | src/app/modules/player/components/mixcloud-player/mixcloud-player.ts:59-76 | from no handler for a listened event, two bindListeners calls make the event signal its callback twice |
| MixcloudTraces.DeliverRepeatsPerBinding | src/app/modules/player/components/mixcloud-player/mixcloud-player.ts:59-76 | with the handler registered n times, a listened event signals n callbacks and buffering or play request the duration n times |
| MixcloudTraces.SeekBeforeAttachReplayedAfterAttach | src/app/modules/player/components/mixcloud-player/mixcloud-player.ts:143-146 | a non-zero seek before any widget throws but stays pending, and after attach the first completed play seeks to it and clears the slot |

## Left out

- MediaSession metadata, `document.title`, full-screen handling and analytics `trackEvent` calls: browser glue with no decision logic.
- The internals of the play queue, its items and the player base: shuffle permutation, loop wrap-around, status fan-out, and what `play`, `pause`, `restart` and `seekTo` do inside an item. The queue's answers are fields of `PlayQueue.Queue`, and the controls' outcomes are effects. Those source files are not part of this model.
- Script-element creation, `Mixcloud.PlayerWidget` and Promise timing: each asynchronous completion is an explicit step function. The duration returned by `getDuration()` and its `setDuration` are reduced to the emitted `GetDuration` request.
- Listener registration is modelled as a list of handler identities on one widget. The widget's `off` is taken to remove exactly the registrations identical to its argument (`MixcloudTraces.Off`). The Mixcloud widget API is not part of this model. Which widget object the listeners sit on after a re-attach is not modelled.
- MixcloudTraces.CallbacksFollowEvents and MixcloudTraces.DurationRequestedPerFetchingEvent describe runs in which every event is handled once, that is, listeners bound once. With listeners bound k times, every event is handled k times (`MixcloudTraces.DeliverRepeatsPerBinding`).
- The widget's `getDuration()` in a buffering or play event is assumed to have a widget, since those events come from one.
- `Mixcloud.PlayerWidget` throwing when the SDK global is missing at attach time is not modelled.
- NaN positions are not modelled; they are falsy in JavaScript, like 0.
- `ngOnDestroy`, the seconds-formatting pipe, the volume emitter and the Angular decorators and lifecycle.
