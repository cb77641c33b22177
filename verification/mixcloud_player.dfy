/** The Mixcloud provider adapter.

    The adapter is an immutable record; every hook is a step function that
    returns the next record together with what it emits, in order: status
    callbacks into the player base, calls on the Mixcloud widget, the SDK
    script injection and the resolution of the adapter's promises. The
    asynchronous completions (script onload, widget ready, widget play
    resolved) are separate step functions. */
module MixcloudPlayer {
  import opened Wrappers

  /** The value a widget event hands to its listener: a position in seconds for
      `progress`, an error payload for `error`, nothing for the others. */
  datatype EventArg = Absent | Seconds(t: real) | Payload(detail: string)

  /** An event raised by the widget: its native name and its argument. */
  datatype NativeEvent = NativeEvent(name: string, arg: EventArg)

  /** The canonical status callbacks of the player base. */
  datatype Callback =
    | OnWaiting
    | OnPlaying
    | OnPaused
    | OnEnded
    | OnCurrentTimeUpdate(time: EventArg)
    | OnError(error: EventArg)
    | OnRequestPlay

  /** The calls the adapter makes on the Mixcloud widget. */
  datatype WidgetCall =
    | GetDuration                              // getDuration(), whose result feeds setDuration
    | WidgetPlay                               // play()
    | WidgetPause                              // pause()
    | WidgetSeek(to: real)                     // seek(to)
    | WidgetLoad(trackId: string, preload: bool) // load(id, true)

  /** One thing the adapter emits. */
  datatype Emit =
    | Notify(cb: Callback)   // a callback into the player base
    | Invoke(call: WidgetCall)
    | InjectSdkScript        // a script element for the widget API inserted into the page
    | SdkReady               // the SDK promise resolves with true
    | WidgetAttached         // the player promise resolves with the widget
    | Threw(error: HookError) // the hook threw at this point

  /** Why a widget hook fails: it touched `_mcPlayer` before any widget was stored. */
  datatype HookError = WidgetUndefined

  /** The adapter's own fields:
      - `apiReady`: the per-instance SDK-ready flag;
      - `seekedTo`: the pending-seek slot, `None` for `undefined`/`null`;
      - `hasWidget`: whether `_mcPlayer` holds a widget;
      - `handshakes`: widgets created by initialisePlayer whose ready handshake
        has not yet completed. */
  datatype Adapter = Adapter(apiReady: bool, seekedTo: Option<real>, hasWidget: bool, handshakes: nat)

  /** The result of one hook: the next adapter and what it emitted, in order.
      A `Threw` entry is always the last one: the hook stopped there. */
  datatype Step = Step(state: Adapter, out: seq<Emit>)

  /** Why attaching the widget fails. */
  datatype AttachError = NotAttachedToDom

  /** The six native event names the adapter listens to. */
  predicate IsListenedEvent(name: string) {
    name in {"buffering", "play", "pause", "ended", "progress", "error"}
  }

  /** The native events for which the widget duration is refreshed. */
  predicate FetchesDuration(name: string) {
    name == "buffering" || name == "play"
  }

  /** JavaScript truthiness of the pending-seek slot: `undefined`, `null` and 0 are falsy. */
  predicate Truthy(v: Option<real>) {
    v.Some? && v.value != 0.0
  }

  /** The callbacks in an emitted sequence, in order. */
  function Callbacks(out: seq<Emit>): seq<Callback>
  {
    if out == [] then []
    else (if out[0].Notify? then [out[0].cb] else []) + Callbacks(out[1..])
  }

  /** How many duration requests an emitted sequence holds. */
  function DurationRequests(out: seq<Emit>): nat
  {
    if out == [] then 0
    else (if out[0] == Invoke(GetDuration) then 1 else 0) + DurationRequests(out[1..])
  }

  /** The widget seeks in an emitted sequence, in order. */
  function Seeks(out: seq<Emit>): seq<real>
  {
    if out == [] then []
    else (if out[0].Invoke? && out[0].call.WidgetSeek? then [out[0].call.to] else []) + Seeks(out[1..])
  }

  /** The native event name that produces a callback; `None` for onRequestPlay,
      which no widget event produces. */
  function NativeName(cb: Callback): (name: Option<string>)
    ensures name.Some? ==> IsListenedEvent(name.value)
    ensures name.None? <==> cb.OnRequestPlay?
  {
    match cb
    case OnWaiting => Some("buffering")
    case OnPlaying => Some("play")
    case OnPaused => Some("pause")
    case OnEnded => Some("ended")
    case OnCurrentTimeUpdate(_) => Some("progress")
    case OnError(_) => Some("error")
    case OnRequestPlay => None
  }

  /** The argument a callback carries onward, `Absent` when it carries none. */
  function CallbackArg(cb: Callback): EventArg {
    match cb
    case OnCurrentTimeUpdate(t) => t
    case OnError(e) => e
    case _ => Absent
  }

  /** handleMcStatusChange(ev, arg): buffering and play first request the
      duration and then signal waiting/playing; pause, ended, progress and error
      signal the matching callback, the last two forwarding `arg`; any other
      name emits nothing. */
  function HandleStatusChange(ev: string, arg: EventArg): (out: seq<Emit>)
    ensures IsListenedEvent(ev) ==> |Callbacks(out)| == 1
    ensures !IsListenedEvent(ev) ==> out == []
    ensures DurationRequests(out) == (if FetchesDuration(ev) then 1 else 0)
    ensures FetchesDuration(ev) ==> out[0] == Invoke(GetDuration) && out[|out| - 1].Notify?
    ensures forall cb <- Callbacks(out) :: NativeName(cb) == Some(ev)
    ensures forall cb <- Callbacks(out) :: ev in {"progress", "error"} ==> CallbackArg(cb) == arg
    ensures |out| == (if FetchesDuration(ev) then 2 else if IsListenedEvent(ev) then 1 else 0)
  {
    if ev == "buffering" then [Invoke(GetDuration), Notify(OnWaiting)]
    else if ev == "play" then [Invoke(GetDuration), Notify(OnPlaying)]
    else if ev == "pause" then [Notify(OnPaused)]
    else if ev == "ended" then [Notify(OnEnded)]
    else if ev == "progress" then [Notify(OnCurrentTimeUpdate(arg))]
    else if ev == "error" then [Notify(OnError(arg))]
    else []
  }

  /** Translating a callback's native event back yields the same callback:
      the translation is one-to-one on the callbacks widget events produce. */
  lemma NativeNameRoundTrip(cb: Callback)
    requires !cb.OnRequestPlay?
    ensures Callbacks(HandleStatusChange(NativeName(cb).value, CallbackArg(cb))) == [cb]
  {
  }

  /** The constructor: the SDK counts as ready when the Mixcloud global already exists. */
  function Create(mixcloudGlobal: bool): (s: Adapter)
    ensures s.apiReady <==> mixcloudGlobal
    ensures s.seekedTo.None? && !s.hasWidget && s.handshakes == 0
  {
    Adapter(mixcloudGlobal, None, false, 0)
  }

  /** initialisePlayerSDK(): resolves at once when the flag is set; otherwise
      injects the widget API script and stays pending until its onload. */
  function InitialisePlayerSdk(s: Adapter): (r: Step)
    ensures r.state == s
    ensures SdkReady in r.out <==> s.apiReady
    ensures InjectSdkScript in r.out <==> !s.apiReady
    ensures |r.out| == 1
  {
    if s.apiReady then Step(s, [SdkReady]) else Step(s, [InjectSdkScript])
  }

  /** The injected script's onload: sets the flag and resolves the pending promise. */
  function SdkScriptLoaded(s: Adapter): (r: Step)
    ensures r.state.apiReady
    ensures r.state == s.(apiReady := true)
    ensures r.out == [SdkReady]
  {
    Step(s.(apiReady := true), [SdkReady])
  }

  /** initialisePlayer(): rejects when no element carries the instance id;
      otherwise creates a widget that awaits its ready handshake. A widget
      stored earlier stays in place and usable meanwhile. */
  function InitialisePlayer(s: Adapter, mounted: set<string>, id: string): (r: Result<Step, AttachError>)
    ensures r.Failure? <==> id !in mounted
    ensures r.Success? ==> r.value.out == []
    ensures r.Success? ==> r.value.state.handshakes == s.handshakes + 1
    ensures r.Success? ==> r.value.state.(handshakes := s.handshakes) == s
  {
    if id !in mounted then Failure(NotAttachedToDom)
    else Success(Step(s.(handshakes := s.handshakes + 1), []))
  }

  /** A created widget's ready handshake: that widget is stored and the player
      promise resolves. */
  function WidgetReady(s: Adapter): (r: Step)
    requires s.handshakes > 0
    ensures r.state.hasWidget && r.state.handshakes == s.handshakes - 1
    ensures r.state.apiReady == s.apiReady && r.state.seekedTo == s.seekedTo
    ensures r.out == [WidgetAttached]
  {
    Step(s.(hasWidget := true, handshakes := s.handshakes - 1), [WidgetAttached])
  }

  /** A call on `_mcPlayer`: issued when a widget is stored, a throw otherwise. */
  function CallWidget(s: Adapter, call: WidgetCall): (e: Emit)
    ensures s.hasWidget ==> e == Invoke(call)
    ensures !s.hasWidget ==> e.Threw?
  {
    if s.hasWidget then Invoke(call) else Threw(WidgetUndefined)
  }

  /** preloadTrack(track, startTime): loads the component's own track; the
      arguments are ignored. */
  function PreloadTrack(s: Adapter, ownTrackId: string, argTrackId: string, startTime: real): (r: Step)
    ensures r.state == s
    ensures s.hasWidget ==> r.out == [Invoke(WidgetLoad(ownTrackId, true))]
    ensures !s.hasWidget ==> r.out == [Threw(WidgetUndefined)]
  {
    Step(s, [CallWidget(s, WidgetLoad(ownTrackId, true))])
  }

  /** seekPlayerTo(to): records `to` as the pending seek, replacing any earlier
      one, and then seeks the widget to `to`. Without a widget the position is
      still recorded before the call throws. */
  function SeekPlayerTo(s: Adapter, to: real): (r: Step)
    ensures r.state == s.(seekedTo := Some(to))
    ensures s.hasWidget ==> r.out == [Invoke(WidgetSeek(to))]
    ensures !s.hasWidget ==> r.out == [Threw(WidgetUndefined)]
    ensures Seeks(r.out) == (if s.hasWidget then [to] else [])
  {
    Step(s.(seekedTo := Some(to)), [CallWidget(s, WidgetSeek(to))])
  }

  /** startPlayer(): announces the request to play, then asks the widget to
      play; without a widget the announcement is still made before the throw. */
  function StartPlayer(s: Adapter): (r: Step)
    ensures r.state == s
    ensures |r.out| == 2 && r.out[0] == Notify(OnRequestPlay)
    ensures s.hasWidget ==> r.out[1] == Invoke(WidgetPlay)
    ensures !s.hasWidget ==> r.out[1] == Threw(WidgetUndefined)
  {
    Step(s, [Notify(OnRequestPlay), CallWidget(s, WidgetPlay)])
  }

  /** The widget's play() resolved: a truthy pending seek is replayed once
      through seekPlayerTo and the slot is cleared; a falsy one (none, or 0)
      is neither replayed nor cleared. Should the replay throw, the slot is
      left as it was. */
  function PlayResolved(s: Adapter): (r: Step)
    ensures Truthy(s.seekedTo) && s.hasWidget ==>
              r.out == [Invoke(WidgetSeek(s.seekedTo.value))] && r.state == s.(seekedTo := None)
    ensures Truthy(s.seekedTo) && !s.hasWidget ==> r.out == [Threw(WidgetUndefined)] && r.state == s
    ensures !Truthy(s.seekedTo) ==> r.out == [] && r.state == s
    ensures Callbacks(r.out) == []
  {
    if Truthy(s.seekedTo) then
      var sought := SeekPlayerTo(s, s.seekedTo.value);
      if Threw(WidgetUndefined) in sought.out then sought
      else Step(sought.state.(seekedTo := None), sought.out)
    else
      Step(s, [])
  }

  /** pausePlayer(): pauses the widget. */
  function PausePlayer(s: Adapter): (r: Step)
    ensures r.state == s
    ensures s.hasWidget ==> r.out == [Invoke(WidgetPause)]
    ensures !s.hasWidget ==> r.out == [Threw(WidgetUndefined)]
  {
    Step(s, [CallWidget(s, WidgetPause)])
  }

  /** stopPlayer(): also only pauses the widget. */
  function StopPlayer(s: Adapter): (r: Step)
    ensures r == PausePlayer(s)
  {
    Step(s, [CallWidget(s, WidgetPause)])
  }

  /** setPlayerVolume(volume): unsupported by this widget, a silent no-op. */
  function SetPlayerVolume(s: Adapter, volume: real): (r: Step)
    ensures r.state == s && r.out == []
  {
    Step(s, [])
  }

  /** setPlayerSize(size): unsupported by this widget, a silent no-op. */
  function SetPlayerSize<Size>(s: Adapter, size: Size): (r: Step)
    ensures r.state == s && r.out == []
  {
    Step(s, [])
  }

  /** deInitialisePlayer(): does nothing. */
  function DeInitialisePlayer(s: Adapter): (r: Step)
    ensures r.state == s && r.out == []
  {
    Step(s, [])
  }

  /** The hooks the player base calls, and the asynchronous completions,
      other than the widget's ready handshake. */
  datatype Hook =
    | InitSdkHook
    | SdkLoadedHook
    | AttachHook(mounted: set<string>, id: string)
    | PreloadHook(ownTrackId: string, argTrackId: string, startTime: real)
    | SeekHook(to: real)
    | StartHook
    | PlayResolvedHook
    | PauseHook
    | StopHook
    | VolumeHook(volume: real)
    | DeInitHook

  /** The adapter after one hook; a rejected attach leaves it as it was. */
  function Perform(s: Adapter, h: Hook): Step {
    match h
    case InitSdkHook => InitialisePlayerSdk(s)
    case SdkLoadedHook => SdkScriptLoaded(s)
    case AttachHook(mounted, id) =>
      (match InitialisePlayer(s, mounted, id)
       case Success(r) => r
       case Failure(_) => Step(s, []))
    case PreloadHook(own, arg, t) => PreloadTrack(s, own, arg, t)
    case SeekHook(to) => SeekPlayerTo(s, to)
    case StartHook => StartPlayer(s)
    case PlayResolvedHook => PlayResolved(s)
    case PauseHook => PausePlayer(s)
    case StopHook => StopPlayer(s)
    case VolumeHook(v) => SetPlayerVolume(s, v)
    case DeInitHook => DeInitialisePlayer(s)
  }

  /** Only the ready handshake stores a widget: no hook of `Hook` changes
      whether one is stored, nor lowers the number of handshakes in flight.
      (`ngOnDestroy`, which deletes the widget, is not modelled.) */
  lemma OnlyHandshakeStoresWidget(s: Adapter, h: Hook)
    ensures Perform(s, h).state.hasWidget == s.hasWidget
    ensures Perform(s, h).state.handshakes >= s.handshakes
  {
  }

  /** Attaching to a mounted element and completing the handshake leaves a
      usable widget and resolves the attach, with the SDK flag and the pending
      seek untouched; a widget stored before stays usable in between. */
  lemma AttachLifecycle(s: Adapter, mounted: set<string>, id: string)
    requires id in mounted
    ensures InitialisePlayer(s, mounted, id).Success?
    ensures var attached := InitialisePlayer(s, mounted, id).value.state;
            && attached.hasWidget == s.hasWidget
            && WidgetReady(attached).state.hasWidget
            && WidgetReady(attached).out == [WidgetAttached]
            && WidgetReady(attached).state.apiReady == s.apiReady
            && WidgetReady(attached).state.seekedTo == s.seekedTo
            && WidgetReady(attached).state.handshakes == s.handshakes
  {
  }

  /** Attaching twice before either handshake completes: both handshakes are
      accepted, and a widget stored before keeps serving calls throughout. */
  lemma ReattachKeepsWidget(s: Adapter, mounted: set<string>, id: string)
    requires s.hasWidget && id in mounted
    ensures var once := InitialisePlayer(s, mounted, id).value.state;
            var twice := InitialisePlayer(once, mounted, id).value.state;
            && twice.handshakes == s.handshakes + 2
            && PausePlayer(twice).out == [Invoke(WidgetPause)]
            && var first := WidgetReady(twice).state;
               && first.handshakes > 0
               && WidgetReady(first).state.hasWidget
               && WidgetReady(first).state.handshakes == s.handshakes
  {
  }
}
