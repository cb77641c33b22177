/** The play queue as the transport controls see it.

    The queue's own algorithms (shuffle permutation, loop wrap-around, status
    fan-out) are not part of this model. What the controls read from the queue
    is kept as plain fields: the items with their progress and playing flag,
    the current item, the playing item, the items that previous/next would
    select, and the shuffle and loop flags. What the controls issue is an
    `Effect`. */
module PlayQueue {
  import opened Wrappers

  /** A queue item: its recorded progress in seconds and whether it reports itself playing. */
  datatype Item = Item(progress: real, isPlaying: bool)

  /** The observable state of a play queue.
      - `current`: index returned by getCurrentItem, `None` for undefined;
      - `playing`: index returned by getPlayingItem;
      - `previous`/`next`: the items getPreviousItem/getNextItem return;
        hasPreviousItem/hasNextItem hold exactly when these are present;
      - `shuffled`/`looped`: isShuffled and isLooped. */
  datatype Queue = Queue(
    items: seq<Item>,
    current: Option<nat>,
    playing: Option<nat>,
    previous: Option<nat>,
    next: Option<nat>,
    shuffled: bool,
    looped: bool)
  {
    /** Every index the queue reports designates one of its items. */
    ghost predicate Valid() {
      && (current.Some? ==> current.value < |items|)
      && (playing.Some? ==> playing.value < |items|)
      && (previous.Some? ==> previous.value < |items|)
      && (next.Some? ==> next.value < |items|)
    }

    predicate HasPrevious() { previous.Some? }

    predicate HasNext() { next.Some? }
  }

  /** An operation the controls issue on the queue or on one of its items. */
  datatype Effect =
    | PlayItem(item: nat, from: Option<real>)  // item.play(from); `None` when called without an argument
    | PauseItem(item: nat)                     // item.pause()
    | RestartItem(item: nat)                   // item.restart()
    | SeekItem(item: nat, to: real)            // item.seekTo(to)
    | ShuffleQueue                             // queue.shuffle()
    | DeShuffleQueue                           // queue.deShuffle()
    | SetLoop(on: bool)                        // queue.setLoopPlayQueue(on)
  {
    /** True of effects addressed to a single item rather than to the queue. */
    predicate IsItemEffect() {
      PlayItem? || PauseItem? || RestartItem? || SeekItem?
    }
  }

  /** An effect addressed to an item names an item of the queue. */
  ghost predicate Targets(q: Queue, e: Effect) {
    e.IsItemEffect() ==> e.item < |q.items|
  }

  /** The shuffle and loop flags after the queue performs one effect.
      Item effects leave both flags alone; shuffle() makes the queue report
      itself shuffled, deShuffle() unshuffled, setLoopPlayQueue(b) looped iff b. */
  function ApplyFlags(q: Queue, e: Effect): (r: Queue)
    ensures r.items == q.items && r.current == q.current && r.playing == q.playing
    ensures e.ShuffleQueue? ==> r.shuffled
    ensures e.DeShuffleQueue? ==> !r.shuffled
    ensures e.SetLoop? ==> r.looped == e.on
    ensures !e.ShuffleQueue? && !e.DeShuffleQueue? ==> r.shuffled == q.shuffled
    ensures !e.SetLoop? ==> r.looped == q.looped
  {
    match e
    case ShuffleQueue => q.(shuffled := true)
    case DeShuffleQueue => q.(shuffled := false)
    case SetLoop(on) => q.(looped := on)
    case _ => q
  }

  /** The queue after performing a whole sequence of effects, in order. */
  function ApplyAll(q: Queue, es: seq<Effect>): Queue
    decreases |es|
  {
    if es == [] then q else ApplyAll(ApplyFlags(q, es[0]), es[1..])
  }
}
