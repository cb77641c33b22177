/** Properties of the Mixcloud adapter over runs of several steps. */
module MixcloudTraces {
  import opened Wrappers
  import opened MixcloudPlayer

  /** What the adapter emits while handling a run of widget events, in order. */
  function HandleEvents(evs: seq<NativeEvent>): seq<Emit>
    decreases |evs|
  {
    if evs == [] then [] else HandleStatusChange(evs[0].name, evs[0].arg) + HandleEvents(evs[1..])
  }

  /** The names of the events in a run that the adapter listens to, in order. */
  function ListenedNames(evs: seq<NativeEvent>): seq<string>
    decreases |evs|
  {
    if evs == [] then []
    else (if IsListenedEvent(evs[0].name) then [evs[0].name] else []) + ListenedNames(evs[1..])
  }

  /** How many events of a run are buffering or play events. */
  function CountFetching(evs: seq<NativeEvent>): nat
    decreases |evs|
  {
    if evs == [] then 0
    else (if FetchesDuration(evs[0].name) then 1 else 0) + CountFetching(evs[1..])
  }

  /** The native event names a run of callbacks stems from. */
  function NamesOf(cbs: seq<Callback>): seq<string>
    decreases |cbs|
  {
    if cbs == [] then []
    else (match NativeName(cbs[0]) case Some(n) => [n] case None => []) + NamesOf(cbs[1..])
  }

  lemma {:induction false} CallbacksAppend(a: seq<Emit>, b: seq<Emit>)
    ensures Callbacks(a + b) == Callbacks(a) + Callbacks(b)
    decreases |a|
  {
    if a != [] {
      assert (a + b)[1..] == a[1..] + b;
      CallbacksAppend(a[1..], b);
    } else {
      assert a + b == b;
    }
  }

  lemma {:induction false} DurationRequestsAppend(a: seq<Emit>, b: seq<Emit>)
    ensures DurationRequests(a + b) == DurationRequests(a) + DurationRequests(b)
    decreases |a|
  {
    if a != [] {
      assert (a + b)[1..] == a[1..] + b;
      DurationRequestsAppend(a[1..], b);
    } else {
      assert a + b == b;
    }
  }

  lemma {:induction false} SeeksAppend(a: seq<Emit>, b: seq<Emit>)
    ensures Seeks(a + b) == Seeks(a) + Seeks(b)
    decreases |a|
  {
    if a != [] {
      assert (a + b)[1..] == a[1..] + b;
      SeeksAppend(a[1..], b);
    } else {
      assert a + b == b;
    }
  }

  lemma {:induction false} NamesOfAppend(a: seq<Callback>, b: seq<Callback>)
    ensures NamesOf(a + b) == NamesOf(a) + NamesOf(b)
    decreases |a|
  {
    if a != [] {
      assert (a + b)[1..] == a[1..] + b;
      NamesOfAppend(a[1..], b);
    } else {
      assert a + b == b;
    }
  }

  /** Over any run of events, the widget duration is requested once per
      buffering or play event and never otherwise. */
  lemma {:induction false} DurationRequestedPerFetchingEvent(evs: seq<NativeEvent>)
    ensures DurationRequests(HandleEvents(evs)) == CountFetching(evs)
    decreases |evs|
  {
    if evs != [] {
      DurationRequestsAppend(HandleStatusChange(evs[0].name, evs[0].arg), HandleEvents(evs[1..]));
      DurationRequestedPerFetchingEvent(evs[1..]);
    }
  }

  /** Over any run of events, one callback is signalled per listened event, in
      the order of the events, and each callback stems from its own event. */
  lemma {:induction false} CallbacksFollowEvents(evs: seq<NativeEvent>)
    ensures NamesOf(Callbacks(HandleEvents(evs))) == ListenedNames(evs)
    ensures |Callbacks(HandleEvents(evs))| == |ListenedNames(evs)|
    decreases |evs|
  {
    if evs != [] {
      var head := HandleStatusChange(evs[0].name, evs[0].arg);
      CallbacksAppend(head, HandleEvents(evs[1..]));
      NamesOfAppend(Callbacks(head), Callbacks(HandleEvents(evs[1..])));
      CallbacksFollowEvents(evs[1..]);
      if IsListenedEvent(evs[0].name) {
        var cb := Callbacks(head)[0];
        assert cb in Callbacks(head);
        assert NamesOf(Callbacks(head)) == [evs[0].name] by {
          assert Callbacks(head) == [cb];
          assert Callbacks(head)[1..] == [];
        }
      } else {
        assert Callbacks(head) == [];
      }
    }
  }

  /** A function registered with a widget event: the event it listens to and
      its identity. Every `.bind` yields a new function, so a new identity. */
  datatype Handler = Handler(event: string, identity: nat)

  /** The handlers registered with the widget's events, in registration order,
      and the identity the next `.bind` will yield. */
  datatype Listeners = Listeners(regs: seq<Handler>, nextIdentity: nat)

  /** No listeners registered yet. */
  const NoListeners: Listeners := Listeners([], 0)

  /** The events bindListeners registers with, in its order. */
  const BoundEvents: seq<string> := ["pause", "play", "buffering", "progress", "ended", "error"]

  /** Every registered handler was made by an earlier `.bind`. */
  ghost predicate Issued(ls: Listeners) {
    forall h <- ls.regs :: h.identity < ls.nextIdentity
  }

  /** `off(h)`: removes every registration of exactly `h`, keeping the others in order. */
  function Off(regs: seq<Handler>, h: Handler): (r: seq<Handler>)
    ensures h !in r
    ensures |r| <= |regs|
    decreases |regs|
  {
    if regs == [] then []
    else (if regs[0] == h then [] else [regs[0]]) + Off(regs[1..], h)
  }

  /** unBindListeners(): for each event, `off` with a freshly bound handler. */
  function UnbindEach(ls: Listeners, evs: seq<string>): Listeners
    decreases |evs|
  {
    if evs == [] then ls
    else
      var made := Handler(evs[0], ls.nextIdentity);
      UnbindEach(Listeners(Off(ls.regs, made), ls.nextIdentity + 1), evs[1..])
  }

  /** The `on` half of bindListeners(): for each event, `on` with a freshly bound handler. */
  function BindEach(ls: Listeners, evs: seq<string>): Listeners
    decreases |evs|
  {
    if evs == [] then ls
    else
      var made := Handler(evs[0], ls.nextIdentity);
      BindEach(Listeners(ls.regs + [made], ls.nextIdentity + 1), evs[1..])
  }

  function UnBindListeners(ls: Listeners): Listeners {
    UnbindEach(ls, BoundEvents)
  }

  /** bindListeners(): unBindListeners, then one `on` per event. */
  function BindListeners(ls: Listeners): Listeners {
    BindEach(UnBindListeners(ls), BoundEvents)
  }

  /** How many registered handlers listen to `ev`. */
  function HandlersFor(regs: seq<Handler>, ev: string): nat
    decreases |regs|
  {
    if regs == [] then 0
    else (if regs[0].event == ev then 1 else 0) + HandlersFor(regs[1..], ev)
  }

  /** How often `ev` occurs in a list of event names. */
  function Occurrences(evs: seq<string>, ev: string): nat
    decreases |evs|
  {
    if evs == [] then 0 else (if evs[0] == ev then 1 else 0) + Occurrences(evs[1..], ev)
  }

  /** `off` keeps exactly the registrations of other handlers. */
  lemma {:induction false} OffKeepsOthers(regs: seq<Handler>, h: Handler, x: Handler)
    ensures x in Off(regs, h) <==> x in regs && x != h
    decreases |regs|
  {
    if regs != [] {
      OffKeepsOthers(regs[1..], h, x);
      assert regs == [regs[0]] + regs[1..];
    }
  }

  /** `off` with a handler that was never registered removes nothing. */
  lemma {:induction false} OffUnregisteredKeepsAll(regs: seq<Handler>, h: Handler)
    requires h !in regs
    ensures Off(regs, h) == regs
    decreases |regs|
  {
    if regs != [] {
      assert h !in regs[1..] by {
        assert forall x <- regs[1..] :: x in regs;
      }
      OffUnregisteredKeepsAll(regs[1..], h);
      assert regs == [regs[0]] + regs[1..];
    }
  }

  /** Unbinding with fresh handlers removes nothing. */
  lemma {:induction false} UnbindEachRemovesNothing(ls: Listeners, evs: seq<string>)
    requires Issued(ls)
    ensures UnbindEach(ls, evs) == Listeners(ls.regs, ls.nextIdentity + |evs|)
    decreases |evs|
  {
    if evs != [] {
      var made := Handler(evs[0], ls.nextIdentity);
      assert made !in ls.regs;
      OffUnregisteredKeepsAll(ls.regs, made);
      UnbindEachRemovesNothing(Listeners(ls.regs, ls.nextIdentity + 1), evs[1..]);
    }
  }

  lemma {:induction false} HandlersForAppend(a: seq<Handler>, b: seq<Handler>, ev: string)
    ensures HandlersFor(a + b, ev) == HandlersFor(a, ev) + HandlersFor(b, ev)
    decreases |a|
  {
    if a != [] {
      assert (a + b)[1..] == a[1..] + b;
      HandlersForAppend(a[1..], b, ev);
    } else {
      assert a + b == b;
    }
  }

  /** Binding keeps every registration and adds one fresh handler per listed event. */
  lemma {:induction false} BindEachAdds(ls: Listeners, evs: seq<string>, ev: string)
    requires Issued(ls)
    ensures Issued(BindEach(ls, evs))
    ensures |BindEach(ls, evs).regs| == |ls.regs| + |evs|
    ensures BindEach(ls, evs).regs[..|ls.regs|] == ls.regs
    ensures HandlersFor(BindEach(ls, evs).regs, ev) == HandlersFor(ls.regs, ev) + Occurrences(evs, ev)
    decreases |evs|
  {
    if evs != [] {
      var made := Handler(evs[0], ls.nextIdentity);
      var next := Listeners(ls.regs + [made], ls.nextIdentity + 1);
      BindEachAdds(next, evs[1..], ev);
      HandlersForAppend(ls.regs, [made], ev);
      assert HandlersFor([made], ev) == (if evs[0] == ev then 1 else 0) by {
        assert [made][1..] == [];
      }
      assert BindEach(ls, evs).regs[..|ls.regs|] == next.regs[..|next.regs|][..|ls.regs|];
    }
  }

  /** bindListeners() registers with each listened event exactly once. */
  lemma {:induction false} BoundEventsListOnce(ev: string)
    ensures Occurrences(BoundEvents, ev) == (if IsListenedEvent(ev) then 1 else 0)
  {
    var evs := BoundEvents;
    assert Occurrences(evs[6..], ev) == 0;
    assert Occurrences(evs[5..], ev) == (if ev == "error" then 1 else 0) by {
      assert evs[5..][1..] == evs[6..];
    }
    assert Occurrences(evs[4..], ev) == (if ev in {"ended", "error"} then 1 else 0) by {
      assert evs[4..][1..] == evs[5..];
    }
    assert Occurrences(evs[3..], ev) == (if ev in {"progress", "ended", "error"} then 1 else 0) by {
      assert evs[3..][1..] == evs[4..];
    }
    assert Occurrences(evs[2..], ev) == (if ev in {"buffering", "progress", "ended", "error"} then 1 else 0) by {
      assert evs[2..][1..] == evs[3..];
    }
    assert Occurrences(evs[1..], ev) == (if ev in {"play", "buffering", "progress", "ended", "error"} then 1 else 0) by {
      assert evs[1..][1..] == evs[2..];
    }
    assert evs == evs[..];
  }

  /** The `on` half of bindListeners() keeps every registration and adds one
      handler for each listened event. */
  lemma BindBoundEvents(ls: Listeners, ev: string)
    requires Issued(ls)
    ensures Issued(BindEach(ls, BoundEvents))
    ensures |BindEach(ls, BoundEvents).regs| == |ls.regs| + |BoundEvents|
    ensures BindEach(ls, BoundEvents).regs[..|ls.regs|] == ls.regs
    ensures HandlersFor(BindEach(ls, BoundEvents).regs, ev)
         == HandlersFor(ls.regs, ev) + (if IsListenedEvent(ev) then 1 else 0)
  {
    BindEachAdds(ls, BoundEvents, ev);
    BoundEventsListOnce(ev);
  }

  /** bindListeners() removes no earlier registration and adds exactly one
      handler for each listened event: its unbinding hands `off` functions
      that were never registered. */
  lemma BindListenersRemovesNothing(ls: Listeners, ev: string)
    requires Issued(ls)
    ensures Issued(BindListeners(ls))
    ensures |BindListeners(ls).regs| == |ls.regs| + |BoundEvents|
    ensures BindListeners(ls).regs[..|ls.regs|] == ls.regs
    ensures HandlersFor(BindListeners(ls).regs, ev)
         == HandlersFor(ls.regs, ev) + (if IsListenedEvent(ev) then 1 else 0)
  {
    UnbindEachRemovesNothing(ls, BoundEvents);
    var unbound := Listeners(ls.regs, ls.nextIdentity + |BoundEvents|);
    assert Issued(unbound);
    BindBoundEvents(unbound, ev);
  }

  /** What one widget event causes when `bound` handlers are registered for it. */
  function Deliver(bound: nat, ev: string, arg: EventArg): seq<Emit>
    decreases bound
  {
    if bound == 0 then [] else HandleStatusChange(ev, arg) + Deliver(bound - 1, ev, arg)
  }

  /** Every registration handles the event again: a listened event signals one
      callback per registration, and buffering and play request the duration
      once per registration. */
  lemma {:induction false} DeliverRepeatsPerBinding(bound: nat, ev: string, arg: EventArg)
    ensures |Callbacks(Deliver(bound, ev, arg))| == (if IsListenedEvent(ev) then bound else 0)
    ensures DurationRequests(Deliver(bound, ev, arg)) == (if FetchesDuration(ev) then bound else 0)
    decreases bound
  {
    if bound > 0 {
      CallbacksAppend(HandleStatusChange(ev, arg), Deliver(bound - 1, ev, arg));
      DurationRequestsAppend(HandleStatusChange(ev, arg), Deliver(bound - 1, ev, arg));
      DeliverRepeatsPerBinding(bound - 1, ev, arg);
    }
  }

  /** Starting with no handler for an event (as a new adapter does), binding
      once handles it exactly once, as `HandleEvents` takes it. */
  lemma BindingOnceHandlesOnce(ls: Listeners, ev: string, arg: EventArg)
    requires Issued(ls) && HandlersFor(ls.regs, ev) == 0
    ensures Deliver(HandlersFor(BindListeners(ls).regs, ev), ev, arg)
         == (if IsListenedEvent(ev) then HandleStatusChange(ev, arg) else [])
  {
    BindListenersRemovesNothing(ls, ev);
    var n := HandlersFor(BindListeners(ls).regs, ev);
    assert n == (if IsListenedEvent(ev) then 1 else 0);
    if IsListenedEvent(ev) {
      assert Deliver(n, ev, arg) == HandleStatusChange(ev, arg) + Deliver(0, ev, arg);
      assert HandleStatusChange(ev, arg) + [] == HandleStatusChange(ev, arg);
    }
  }

  /** Starting with no handler for an event, binding twice signals every
      listened event's callback twice. */
  lemma BindingTwiceDoubles(ls: Listeners, ev: string, arg: EventArg)
    requires Issued(ls) && HandlersFor(ls.regs, ev) == 0 && IsListenedEvent(ev)
    ensures |Callbacks(Deliver(HandlersFor(BindListeners(BindListeners(ls)).regs, ev), ev, arg))| == 2
  {
    BindListenersRemovesNothing(ls, ev);
    BindListenersRemovesNothing(BindListeners(ls), ev);
    var n := HandlersFor(BindListeners(BindListeners(ls)).regs, ev);
    assert n == 2;
    DeliverRepeatsPerBinding(n, ev, arg);
  }

  /** A new adapter has no listeners, all of them issued. */
  lemma NoListenersIssued(ev: string)
    ensures Issued(NoListeners) && HandlersFor(NoListeners.regs, ev) == 0
  {
  }

  /** A buffering, play, progress(12), pause run signals waiting, playing, the
      time update to 12 and paused, in that order. */
  lemma BufferPlayProgressPauseScenario()
    ensures Callbacks(HandleEvents([
              NativeEvent("buffering", Absent), NativeEvent("play", Absent),
              NativeEvent("progress", Seconds(12.0)), NativeEvent("pause", Absent)]))
         == [OnWaiting, OnPlaying, OnCurrentTimeUpdate(Seconds(12.0)), OnPaused]
  {
  }

  /** The adapter after seekPlayerTo is called with each position of a run, in order. */
  function SeekAll(s: Adapter, ts: seq<real>): (r: Step)
    ensures r.state.hasWidget == s.hasWidget && r.state.apiReady == s.apiReady
    ensures r.state.handshakes == s.handshakes
    decreases |ts|
  {
    if ts == [] then Step(s, [])
    else
      var first := SeekPlayerTo(s, ts[0]);
      var rest := SeekAll(first.state, ts[1..]);
      Step(rest.state, first.out + rest.out)
  }

  /** Last write wins: after a run of seeks the pending slot holds the last
      position, and the widget, when there is one, has been sought to every
      position in order. */
  lemma {:induction false} SeekAllLastWriteWins(s: Adapter, ts: seq<real>)
    ensures Seeks(SeekAll(s, ts).out) == (if s.hasWidget then ts else [])
    ensures ts != [] ==> SeekAll(s, ts).state.seekedTo == Some(ts[|ts| - 1])
    ensures ts == [] ==> SeekAll(s, ts).state == s
    decreases |ts|
  {
    if ts != [] {
      var first := SeekPlayerTo(s, ts[0]);
      var rest := SeekAll(first.state, ts[1..]);
      assert SeekAll(s, ts) == Step(rest.state, first.out + rest.out);
      SeekAllLastWriteWins(first.state, ts[1..]);
      SeeksAppend(first.out, rest.out);
      assert Seeks(first.out) == (if s.hasWidget then [ts[0]] else []);
      assert ts == [ts[0]] + ts[1..];
      if ts[1..] != [] {
        assert ts[1..][|ts[1..]| - 1] == ts[|ts| - 1];
      }
    }
  }

  /** Seeking through a run of positions and then playing replays only the last
      position, once, and only when it is not 0; the slot is then empty, or
      still holds the 0. */
  lemma SeeksThenPlayReplayLast(s: Adapter, ts: seq<real>)
    requires s.hasWidget && ts != []
    ensures var resolved := PlayResolved(StartPlayer(SeekAll(s, ts).state).state);
            && Seeks(resolved.out) == (if ts[|ts| - 1] != 0.0 then [ts[|ts| - 1]] else [])
            && resolved.state.seekedTo == (if ts[|ts| - 1] != 0.0 then None else Some(0.0))
  {
    SeekAllLastWriteWins(s, ts);
  }

  /** A seek made before any widget is stored throws, but its position stays
      pending; once a widget is attached, the first completed play seeks to it. */
  lemma SeekBeforeAttachReplayedAfterAttach(s: Adapter, mounted: set<string>, id: string, t: real)
    requires !s.hasWidget && id in mounted && t != 0.0
    ensures SeekPlayerTo(s, t).out == [Threw(WidgetUndefined)]
    ensures var sought := SeekPlayerTo(s, t).state;
            var attached := WidgetReady(InitialisePlayer(sought, mounted, id).value.state).state;
            var resolved := PlayResolved(StartPlayer(attached).state);
            Seeks(resolved.out) == [t] && resolved.state.seekedTo.None?
  {
  }

  /** A pending seek is replayed at most once: a second completion of play
      without a new seek replays nothing. */
  lemma ReplayedAtMostOnce(s: Adapter)
    ensures Seeks(PlayResolved(PlayResolved(s).state).out) == []
  {
  }

  /** A pending seek of 0 is never replayed, however often play completes. */
  lemma ZeroSeekNotReplayed(s: Adapter)
    requires s.seekedTo == Some(0.0)
    ensures PlayResolved(s).out == [] && PlayResolved(s).state.seekedTo == Some(0.0)
  {
  }

  /** A seek issued while already playing also stays pending, so the next
      completed play seeks back to it. */
  lemma SeekWhilePlayingReplayedOnNextPlay(s: Adapter, t: real)
    requires s.hasWidget && t != 0.0
    ensures var sought := SeekPlayerTo(s, t);
            var paused := PausePlayer(sought.state);
            var started := StartPlayer(paused.state);
            Seeks(PlayResolved(started.state).out) == [t]
  {
  }

  /** Once the loader has run, initialising the SDK resolves at once without
      injecting the script again. */
  lemma SdkReadyAfterLoad(s: Adapter)
    ensures var loaded := SdkScriptLoaded(InitialisePlayerSdk(s).state);
            InitialisePlayerSdk(loaded.state).out == [SdkReady]
  {
  }

  /** The ready flag belongs to the instance and nothing records an injection in
      flight: two initialisations before the script loads inject it twice. */
  lemma SdkInjectedPerCallUntilLoaded(s: Adapter)
    requires !s.apiReady
    ensures var first := InitialisePlayerSdk(s);
            var second := InitialisePlayerSdk(first.state);
            first.out + second.out == [InjectSdkScript, InjectSdkScript]
  {
  }

  /** A fresh adapter with no Mixcloud global resolves its SDK only after the
      loader's onload; with the global present it resolves at once. */
  lemma CreateThenInitialise(mixcloudGlobal: bool)
    ensures SdkReady in InitialisePlayerSdk(Create(mixcloudGlobal)).out <==> mixcloudGlobal
    ensures SdkScriptLoaded(InitialisePlayerSdk(Create(mixcloudGlobal)).state).state.apiReady
  {
  }
}
