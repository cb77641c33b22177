/** The transport-control decisions of the player controls component.

    Each control reads the play queue and issues at most one operation on the
    queue or on one of its items. Every control is a function from the queue
    to the sequence of effects it issues; the empty sequence is a no-op.
    Analytics events, which accompany every non-empty outcome, are not
    modelled. */
module PlayerControls {
  import opened Wrappers
  import opened PlayQueue

  /** A played item that has run for more than this many seconds is restarted by "previous". */
  const RestartThreshold: real := 3.0

  /** The controls a user can press. */
  datatype Control =
    | PlayControl
    | PauseControl
    | TogglePlayPauseControl
    | PreviousControl
    | NextControl
    | SeekControl(from: real)
    | ToggleShuffleControl
    | ToggleLoopControl

  /** play(): plays the current item from its own recorded progress; nothing without a current item. */
  function Play(q: Queue): (effects: seq<Effect>)
    requires q.Valid()
    ensures |effects| == (if q.current.Some? then 1 else 0)
    ensures forall e <- effects ::
      && e.PlayItem?
      && e.item == q.current.value
      && e.from == Some(q.items[e.item].progress)
  {
    match q.current
    case None => []
    case Some(c) => [PlayItem(c, Some(q.items[c].progress))]
  }

  /** pause(): pauses the item the queue reports as playing, which need not be the current one. */
  function Pause(q: Queue): (effects: seq<Effect>)
    requires q.Valid()
    ensures |effects| == (if q.playing.Some? then 1 else 0)
    ensures forall e <- effects :: e == PauseItem(q.playing.value)
  {
    match q.playing
    case None => []
    case Some(p) => [PauseItem(p)]
  }

  /** togglePlayPause(): nothing without a current item; otherwise the pause path
      when the current item is playing and the play path when it is not. */
  function TogglePlayPause(q: Queue): (effects: seq<Effect>)
    requires q.Valid()
    ensures q.current.None? ==> effects == []
    ensures q.current.Some? && q.items[q.current.value].isPlaying ==> effects == Pause(q)
    ensures q.current.Some? && !q.items[q.current.value].isPlaying ==> effects == Play(q)
  {
    match q.current
    case None => []
    case Some(c) => if q.items[c].isPlaying then Pause(q) else Play(q)
  }

  /** True when "previous" restarts the playing item instead of stepping back. */
  predicate RestartsPlaying(q: Queue)
    requires q.Valid()
  {
    q.playing.Some? && q.items[q.playing.value].progress > RestartThreshold
  }

  /** previous(): restarts a playing item past the threshold; otherwise plays the
      previous item if there is one, and otherwise does nothing. */
  function Previous(q: Queue): (effects: seq<Effect>)
    requires q.Valid()
    ensures |effects| <= 1
    ensures RestartsPlaying(q) ==> effects == [RestartItem(q.playing.value)]
    ensures !RestartsPlaying(q) && q.HasPrevious() ==> effects == [PlayItem(q.previous.value, None)]
    ensures !RestartsPlaying(q) && !q.HasPrevious() ==> effects == []
  {
    if RestartsPlaying(q) then [RestartItem(q.playing.value)]
    else if q.HasPrevious() then [PlayItem(q.previous.value, None)]
    else []
  }

  /** next(): plays the next item exactly when there is one. */
  function Next(q: Queue): (effects: seq<Effect>)
    requires q.Valid()
    ensures effects != [] <==> q.HasNext()
    ensures forall e <- effects :: e == PlayItem(q.next.value, None)
  {
    if q.HasNext() then [PlayItem(q.next.value, None)] else []
  }

  /** playTrackFromPosition(from): seeks the current item to exactly `from`. */
  function PlayTrackFromPosition(q: Queue, from: real): (effects: seq<Effect>)
    requires q.Valid()
    ensures effects != [] <==> q.current.Some?
    ensures forall e <- effects :: e == SeekItem(q.current.value, from)
  {
    match q.current
    case None => []
    case Some(c) => [SeekItem(c, from)]
  }

  /** toggleShuffle(): de-shuffles a shuffled queue and shuffles any other. */
  function ToggleShuffle(q: Queue): (effects: seq<Effect>)
    ensures |effects| == 1
    ensures effects[0].DeShuffleQueue? <==> q.shuffled
    ensures effects[0].ShuffleQueue? <==> !q.shuffled
  {
    if q.shuffled then [DeShuffleQueue] else [ShuffleQueue]
  }

  /** toggleLoop(): sets the loop flag to the negation of the current one. */
  function ToggleLoop(q: Queue): (effects: seq<Effect>)
    ensures |effects| == 1
    ensures effects[0].SetLoop? && effects[0].on != q.looped
  {
    if q.looped then [SetLoop(false)] else [SetLoop(true)]
  }

  /** The effects a pressed control issues. */
  function Dispatch(q: Queue, c: Control): seq<Effect>
    requires q.Valid()
  {
    match c
    case PlayControl => Play(q)
    case PauseControl => Pause(q)
    case TogglePlayPauseControl => TogglePlayPause(q)
    case PreviousControl => Previous(q)
    case NextControl => Next(q)
    case SeekControl(from) => PlayTrackFromPosition(q, from)
    case ToggleShuffleControl => ToggleShuffle(q)
    case ToggleLoopControl => ToggleLoop(q)
  }

  /** Every control issues at most one operation, and an item operation always
      addresses an item of the queue. */
  lemma DispatchIssuesAtMostOne(q: Queue, c: Control)
    requires q.Valid()
    ensures |Dispatch(q, c)| <= 1
    ensures forall e <- Dispatch(q, c) :: Targets(q, e)
  {
  }

  /** Below the threshold "previous" is "next" aimed at the previous item: the
      same play without a position, issued under the same kind of guard. */
  lemma PreviousStepsBackLikeNext(q: Queue)
    requires q.Valid() && !RestartsPlaying(q)
    ensures Previous(q) == Next(q.(next := q.previous))
  {
  }

  /** play() and playTrackFromPosition(t) act on the same item and are no-ops
      together; play resumes at the item's progress where the seek goes to `t`. */
  lemma PlayAndSeekAddressSameItem(q: Queue, t: real)
    requires q.Valid()
    ensures Play(q) == [] <==> PlayTrackFromPosition(q, t) == []
    ensures Play(q) != [] ==>
              && Play(q)[0].item == PlayTrackFromPosition(q, t)[0].item
              && Play(q)[0].from == Some(q.items[Play(q)[0].item].progress)
              && PlayTrackFromPosition(q, t)[0].to == t
  {
  }

  /** next() depends only on the queue's next item, not on what is current or playing. */
  lemma NextIgnoresPlayback(q: Queue, c: Option<nat>, p: Option<nat>)
    requires q.Valid()
    requires q.(current := c, playing := p).Valid()
    ensures Next(q.(current := c, playing := p)) == Next(q)
  {
  }

  /** The threshold is strict: exactly three seconds of progress does not restart,
      and "previous" then behaves as it would for an item that has not started. */
  lemma PreviousAtThresholdStepsBack(q: Queue)
    requires q.Valid() && q.playing.Some?
    requires q.items[q.playing.value].progress == RestartThreshold
    ensures forall e <- Previous(q) :: !e.RestartItem?
    ensures Previous(q) == Previous(q.(playing := None))
  {
  }

  /** A restart touches only the playing item and plays nothing else, whatever
      the queue says about previous items. */
  lemma PreviousRestartPlaysNothing(q: Queue)
    requires q.Valid() && RestartsPlaying(q)
    ensures forall e <- Previous(q) :: !e.PlayItem? && e.item == q.playing.value
    ensures Previous(q) == Previous(q.(previous := None))
  {
  }

  /** pause() addresses the playing item even when another item is current. */
  lemma PauseIgnoresCurrent(q: Queue, c: nat)
    requires q.Valid() && c < |q.items|
    ensures Pause(q.(current := Some(c))) == Pause(q)
  {
  }

  /** togglePlayPause() can do nothing although there is a current item: the
      current item reports itself playing but the queue reports no playing item. */
  lemma ToggleWithoutPlayingItemIsNoOp(q: Queue)
    requires q.Valid() && q.current.Some? && q.items[q.current.value].isPlaying
    requires q.playing.None?
    ensures TogglePlayPause(q) == []
  {
  }

  /** Shuffle toggling flips the shuffle flag, and toggling twice restores it. */
  lemma ToggleShuffleTwiceRestores(q: Queue)
    ensures ApplyAll(q, ToggleShuffle(q)).shuffled == !q.shuffled
    ensures var q1 := ApplyAll(q, ToggleShuffle(q));
            ApplyAll(q1, ToggleShuffle(q1)).shuffled == q.shuffled
  {
  }

  /** Loop toggling flips the loop flag, and toggling twice restores it. */
  lemma ToggleLoopTwiceRestores(q: Queue)
    ensures ApplyAll(q, ToggleLoop(q)).looped == !q.looped
    ensures var q1 := ApplyAll(q, ToggleLoop(q));
            ApplyAll(q1, ToggleLoop(q1)).looped == q.looped
  {
  }
}
