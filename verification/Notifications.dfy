/** How chain events reach the hub loop (internal/api/hub.go): a one-slot channel of
    block hashes whose single notifier drains before it sends, and a coalescing token
    for the mempool with a dirty flag and a throttle tick behind it. */
module Notifications {
  import opened Options

  /** The atomic steps of the notifiers and of the loop. */
  datatype Event =
    | Drain(hash: string)
    | Send(hash: string)
    | TakeBlock
    | NotifyMempool
    | TakeMempool
    | MempoolTick

  /** The two channels and the loop's flag. */
  datatype Channels = Channels(blocks: Option<string>, token: bool, dirty: bool)

  function Acted(c: Channels, e: Event): Channels {
    match e
    case Drain(_) => c.(blocks := None)
    case Send(hash) => c.(blocks := Some(hash))
    case TakeBlock => c.(blocks := None, dirty := false)
    case NotifyMempool => c.(token := true)
    case TakeMempool => c.(token := false, dirty := true)
    case MempoolTick => c.(dirty := false)
  }

  class HubChannels {
    var blocks: Option<string>
    var token: bool
    var dirty: bool

    ghost function View(): Channels
      reads this
    {
      Channels(blocks, token, dirty)
    }

    constructor ()
      ensures View() == Channels(None, false, false)
    {
      blocks, token, dirty := None, false, false;
    }

    /** First half of NotifyBlock: a non-blocking receive. */
    method DrainBlocks(ghost hash: string)
      modifies this
      ensures View() == Acted(old(View()), Drain(hash))
    {
      if blocks.Some? {
        blocks := None;
      }
    }

    /** Second half: the send, which would block on a full channel. */
    method SendBlock(hash: string)
      requires blocks == None
      modifies this
      ensures View() == Acted(old(View()), Send(hash))
    {
      blocks := Some(hash);
    }

    method NotifyMempool()
      modifies this
      ensures View() == Acted(old(View()), Event.NotifyMempool)
    {
      if !token {
        token := true;
      }
    }

    /** The block case of the loop: a full push round, after which nothing is owed. */
    method TakeBlock() returns (hash: string)
      requires blocks.Some?
      modifies this
      ensures View() == Acted(old(View()), Event.TakeBlock) && hash == old(blocks).value
    {
      hash := blocks.value;
      blocks := None;
      dirty := false;
    }

    method TakeMempool()
      requires token
      modifies this
      ensures View() == Acted(old(View()), Event.TakeMempool)
    {
      token := false;
      dirty := true;
    }

    /** The throttle tick: at most one push, and only when something changed. */
    method MempoolTick() returns (push: bool)
      modifies this
      ensures View() == Acted(old(View()), Event.MempoolTick) && push == old(dirty)
    {
      if !dirty {
        return false;
      }
      dirty := false;
      push := true;
    }
  }

  // ----- Whole runs ---------------------------------------------------------

  /** The channels by announcement index, with the history of what happened.
      `sending` is the hash whose notifier stands between its drain and its send;
      `notes` are the times of all mempool notifications, `lastRound` that of the last
      push round, `ticks` and `throttled` count throttle ticks and the pushes they made. */
  datatype World = World(announced: seq<string>, sending: Option<nat>, blocks: Option<nat>, handled: seq<nat>,
                         token: bool, dirty: bool, clock: nat, notes: seq<nat>, lastRound: nat, ticks: nat,
                         throttled: nat)

  const BOOT := World([], None, None, [], false, false, 1, [], 0, 0, 0)

  /** What the program order and the channels allow; Send is listed without the
      condition that the channel has room. */
  predicate Offered(w: World, e: Event) {
    match e
    case Drain(_) => w.sending.None?
    case Send(hash) => w.sending.Some? && w.sending.value < |w.announced| && hash == w.announced[w.sending.value]
    case TakeBlock => w.blocks.Some?
    case TakeMempool => w.token
    case _ => true
  }

  predicate Blocked(w: World, e: Event) {
    e.Send? && w.blocks.Some?
  }

  function Step(w: World, e: Event): World
    requires Offered(w, e) && !Blocked(w, e)
  {
    var v := w.(clock := w.clock + 1);
    match e
    case Drain(hash) => v.(announced := w.announced + [hash], sending := Some(|w.announced|), blocks := None)
    case Send(_) => v.(sending := None, blocks := w.sending)
    case TakeBlock => v.(blocks := None, handled := w.handled + [w.blocks.value], dirty := false, lastRound := w.clock)
    case NotifyMempool => v.(token := true, notes := w.notes + [w.clock])
    case TakeMempool => v.(token := false, dirty := true)
    case MempoolTick =>
      if w.dirty then v.(dirty := false, lastRound := w.clock, ticks := w.ticks + 1, throttled := w.throttled + 1)
      else v.(ticks := w.ticks + 1)
  }

  /** The actual contents of the channels in such a state. */
  ghost function ChannelsOf(w: World): Channels
    requires w.blocks.Some? ==> w.blocks.value < |w.announced|
  {
    Channels(if w.blocks.Some? then Some(w.announced[w.blocks.value]) else None, w.token, w.dirty)
  }

  ghost predicate Run(w: World, es: seq<Event>)
    decreases |es|
  {
    es != [] ==> Offered(w, es[0]) && !Blocked(w, es[0]) && Run(Step(w, es[0]), es[1..])
  }

  ghost function After(w: World, es: seq<Event>): World
    requires Run(w, es)
    decreases |es|
  {
    if es == [] then w else After(Step(w, es[0]), es[1..])
  }

  ghost predicate Newest(w: World, i: nat) {
    i == |w.announced| - 1 && forall k :: 0 <= k < |w.handled| ==> w.handled[k] < i
  }

  ghost predicate BlocksInv(w: World) {
    && (forall j, k :: 0 <= j < k < |w.handled| ==> w.handled[j] < w.handled[k])
    && (forall k :: 0 <= k < |w.handled| ==> w.handled[k] < |w.announced|)
    && (w.sending.Some? ==> w.blocks.None? && Newest(w, w.sending.value))
    && (w.blocks.Some? ==> Newest(w, w.blocks.value))
    && (w.announced != [] && w.sending.None? && w.blocks.None? ==>
          w.handled != [] && w.handled[|w.handled| - 1] == |w.announced| - 1)
  }

  ghost predicate MempoolInv(w: World) {
    && w.lastRound < w.clock
    && (forall i :: 0 <= i < |w.notes| ==> w.notes[i] < w.clock && (w.notes[i] < w.lastRound || w.token || w.dirty))
    && w.throttled + (if w.token then 1 else 0) + (if w.dirty then 1 else 0) <= |w.notes|
    && w.throttled <= w.ticks
  }

  lemma BlocksStep(w: World, e: Event)
    requires BlocksInv(w) && Offered(w, e)
    ensures !Blocked(w, e) && BlocksInv(Step(w, e))
  {
  }

  /** The runs below are runs of the channels above. */
  lemma StepsActOnChannels(w: World, e: Event)
    requires BlocksInv(w) && Offered(w, e)
    ensures !Blocked(w, e) && BlocksInv(Step(w, e))
    ensures ChannelsOf(Step(w, e)) == Acted(ChannelsOf(w), e)
  {
    BlocksStep(w, e);
  }

  lemma MempoolStep(w: World, e: Event)
    requires MempoolInv(w) && Offered(w, e) && !Blocked(w, e)
    ensures MempoolInv(Step(w, e))
  {
  }

  lemma {:induction false} InvRun(w: World, es: seq<Event>)
    requires BlocksInv(w) && MempoolInv(w) && Run(w, es)
    ensures BlocksInv(After(w, es)) && MempoolInv(After(w, es))
    decreases |es|
  {
    if es != [] {
      BlocksStep(w, es[0]);
      MempoolStep(w, es[0]);
      InvRun(Step(w, es[0]), es[1..]);
    }
  }

  /** With a single notifier, NotifyBlock never blocks, wherever the loop stands. */
  lemma NotifyBlockNeverBlocks(es: seq<Event>, e: Event)
    requires Run(BOOT, es) && Offered(After(BOOT, es), e)
    ensures !Blocked(After(BOOT, es), e)
  {
    InvRun(BOOT, es);
    BlocksStep(After(BOOT, es), e);
  }

  /** The hub handles a subsequence of the announced hashes, in order and none twice;
      and between calls the newest hash is queued or already taken. */
  lemma NewestBlockIsNeverLost(es: seq<Event>)
    requires Run(BOOT, es)
    ensures var w := After(BOOT, es);
      && (forall j, k :: 0 <= j < k < |w.handled| ==> w.handled[j] < w.handled[k] < |w.announced|)
      && (w.announced != [] && w.sending.None? ==>
            || w.blocks == Some(|w.announced| - 1)
            || (w.handled != [] && w.handled[|w.handled| - 1] == |w.announced| - 1))
  {
    InvRun(BOOT, es);
  }

  /** Every mempool notification is still on its way or was followed by a push round. */
  lemma NoMempoolNotificationIsLost(es: seq<Event>, i: nat)
    requires Run(BOOT, es) && i < |After(BOOT, es).notes|
    ensures var w := After(BOOT, es); w.token || w.dirty || w.notes[i] < w.lastRound
  {
    InvRun(BOOT, es);
  }

  /** Throttled pushes outnumber neither the ticks nor the notifications. */
  lemma PushesAreThrottled(es: seq<Event>)
    requires Run(BOOT, es)
    ensures After(BOOT, es).throttled <= After(BOOT, es).ticks
    ensures After(BOOT, es).throttled <= |After(BOOT, es).notes|
  {
    InvRun(BOOT, es);
  }

  /** The events include a push round for whatever is owed at the start: a block, or a
      throttle tick after the token, if there is one, was taken. */
  ghost predicate Settles(token: bool, es: seq<Event>)
    decreases |es|
  {
    es != [] && (es[0].TakeBlock? || (!token && es[0].MempoolTick?)
                 || Settles(token && !es[0].TakeMempool?, es[1..]))
  }

  ghost predicate Owed(w: World, t: nat, token: bool) {
    t < w.clock && (t < w.lastRound || w.dirty || (token && w.token))
  }

  lemma {:induction false} RoundsStay(w: World, es: seq<Event>)
    requires Run(w, es) && w.lastRound < w.clock
    ensures w.lastRound <= After(w, es).lastRound
    decreases |es|
  {
    if es != [] {
      RoundsStay(Step(w, es[0]), es[1..]);
    }
  }

  lemma {:induction false} OwedIsPaid(w: World, es: seq<Event>, t: nat, token: bool)
    requires Run(w, es) && w.lastRound < w.clock && Owed(w, t, token) && Settles(token, es)
    ensures t < After(w, es).lastRound
    decreases |es|
  {
    var v := Step(w, es[0]);
    if t < v.lastRound {
      RoundsStay(v, es[1..]);
    } else {
      OwedIsPaid(v, es[1..], t, token && !es[0].TakeMempool?);
    }
  }

  /** Progress: from any reachable state, once the loop has taken the token and then sees
      a throttle tick, or takes a block at any point, a push round has followed every
      notification made so far, whatever else happens in between. */
  lemma EveryNotificationIsPushed(es: seq<Event>, more: seq<Event>, i: nat)
    requires Run(BOOT, es) && i < |After(BOOT, es).notes|
    requires Run(After(BOOT, es), more) && Settles(After(BOOT, es).token, more)
    ensures After(BOOT, es).notes[i] < After(After(BOOT, es), more).lastRound
  {
    InvRun(BOOT, es);
    var w := After(BOOT, es);
    OwedIsPaid(w, more, w.notes[i], w.token);
  }

  /** Within any stretch of a run the bound holds too: at most one push per tick. */
  lemma {:induction false} PushPerTick(w: World, es: seq<Event>)
    requires Run(w, es)
    ensures 0 <= After(w, es).throttled - w.throttled <= After(w, es).ticks - w.ticks
    decreases |es|
  {
    if es != [] {
      PushPerTick(Step(w, es[0]), es[1..]);
    }
  }
}
