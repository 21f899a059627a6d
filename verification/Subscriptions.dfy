/** What one subscriber sees of the fan-out, from subscribing to the end of its channel, and what closing the
    bridge does to all of them. */
module Subscriptions {
  import opened Hubs

  /** A subscription gets a new, open, empty channel of the size asked for, or of the default size, and counts from
      here on; nobody else's channel changes. A closed hub takes nobody in. */
  lemma SubscribeOpens<T>(h: Hub<T>, buffer: int, defaultBuffer: nat)
    requires Inv(h)
    ensures var h' := Next(h, Subscribe(buffer), defaultBuffer);
            if h.closed then h' == h
            else
              && h'.nextSubID !in h.channels && h'.subs == h.subs + {h'.nextSubID}
              && h'.channels.Keys == h.channels.Keys + {h'.nextSubID}
              && h'.channels[h'.nextSubID].buffer == [] && h'.channels[h'.nextSubID].received == []
              && !h'.channels[h'.nextSubID].closed && h'.channels[h'.nextSubID].since == |h.published|
              && (buffer > 0 ==> h'.channels[h'.nextSubID].capacity == buffer)
              && (buffer <= 0 ==> h'.channels[h'.nextSubID].capacity == defaultBuffer)
              && (forall id | id in h.channels :: h'.channels[id] == h.channels[id])
              && h'.published == h.published && h'.closed == h.closed
  {
    FreshID(h);
  }

  lemma {:induction false} AfterSnoc<T>(h: Hub<T>, steps: seq<Step<T>>, a: Step<T>, defaultBuffer: nat)
    ensures After(h, steps + [a], defaultBuffer) == Next(After(h, steps, defaultBuffer), a, defaultBuffer)
    decreases |steps|
  {
    if steps == [] {
      assert [] + [a] == [a] && [a][1..] == [];
    } else {
      assert (steps + [a])[1..] == steps[1..] + [a];
      AfterSnoc(Next(h, steps[0], defaultBuffer), steps[1..], a, defaultBuffer);
    }
  }

  lemma RunSnoc<T>(steps: seq<Step<T>>, a: Step<T>, defaultBuffer: nat)
    ensures Hubs.Run(steps + [a], defaultBuffer) == Next(Hubs.Run(steps, defaultBuffer), a, defaultBuffer)
  {
    assert (steps + [a])[..|steps|] == steps;
  }

  /** A run is what its steps do, one after the other, to a new hub. */
  lemma {:induction false} RunIsAfter<T>(steps: seq<Step<T>>, defaultBuffer: nat)
    ensures Hubs.Run(steps, defaultBuffer) == After(NewHub(), steps, defaultBuffer)
    decreases |steps|
  {
    if steps != [] {
      var front, a := steps[..|steps| - 1], steps[|steps| - 1];
      assert front + [a] == steps;
      RunIsAfter(front, defaultBuffer);
      RunSnoc(front, a, defaultBuffer);
      AfterSnoc(NewHub(), front, a, defaultBuffer);
    }
  }

  function Receives<T>(id: nat, n: nat): (steps: seq<Step<T>>)
    ensures |steps| == n
  {
    seq(n, _ => Receive(id))
  }

  function Drained<T>(ch: Channel<T>): Channel<T> {
    ch.(buffer := [], received := ch.received + ch.buffer)
  }

  /** One event out of the buffer leaves as much to be drained. */
  lemma ReceiveOne<T>(h: Hub<T>, defaultBuffer: nat, id: nat)
    requires id in h.channels && h.channels[id].buffer != []
    ensures var h', ch := Next(h, Receive(id), defaultBuffer), h.channels[id];
            && id in h'.channels && |h'.channels[id].buffer| == |ch.buffer| - 1
            && Drained(h'.channels[id]) == Drained(ch)
            && h' == h.(channels := h.channels[id := h'.channels[id]])
  {
    var ch := h.channels[id];
    assert ch.received + [ch.buffer[0]] + ch.buffer[1..] == ch.received + ch.buffer;
  }

  lemma {:induction false} ReceivesDrain<T>(h: Hub<T>, defaultBuffer: nat, id: nat, n: nat)
    requires id in h.channels && n == |h.channels[id].buffer|
    ensures After(h, Receives(id, n), defaultBuffer) == h.(channels := h.channels[id := Drained(h.channels[id])])
    decreases n
  {
    if n > 0 {
      var h1 := Next(h, Receive(id), defaultBuffer);
      ReceiveOne(h, defaultBuffer, id);
      assert Receives<T>(id, n)[1..] == Receives<T>(id, n - 1);
      ReceivesDrain(h1, defaultBuffer, id, n - 1);
    } else {
      assert Drained(h.channels[id]) == h.channels[id];
      assert h.channels[id := h.channels[id]] == h.channels;
    }
  }

  /** A subscriber that keeps receiving drains its channel, open or closed: it then has everything published since it
      subscribed, up to now while it is registered, in order; and it takes nothing out of another channel. */
  lemma ReceivingDrains<T>(h: Hub<T>, defaultBuffer: nat, id: nat)
    requires Inv(h) && id in h.channels
    ensures var ch := h.channels[id];
            var h' := After(h, Receives(id, |ch.buffer|), defaultBuffer);
            && id in h'.channels && h'.channels[id].buffer == []
            && h'.channels[id].received == h.published[ch.since..UpTo(ch)]
            && (id in h.subs ==> UpTo(ch) == |h.published|)
            && h' == h.(channels := h.channels[id := h'.channels[id]])
  {
    assert ChannelOk(h, id);
    ReceivesDrain(h, defaultBuffer, id, |h.channels[id].buffer|);
  }

  /** Ending a session's streams closes every channel in the table where it stands, and leaves no table. */
  lemma CloseAllEndsAll<T>(h: Hub<T>, defaultBuffer: nat)
    requires Inv(h)
    ensures var h' := Next(h, CloseAll, defaultBuffer);
            && h'.subs == {} && h'.channels.Keys == h.channels.Keys
            && (forall id | id in h.channels ::
                  && h'.channels[id] == h.channels[id].(closed := h'.channels[id].closed)
                  && (h'.channels[id].closed <==> id !in h.detached))
            && h'.published == h.published && h'.detached == h.detached && h'.closed == h.closed
  {
    forall id | id in h.channels ensures Next(h, CloseAll, defaultBuffer).channels[id].closed <==> id !in h.detached {
      assert ChannelOk(h, id);
    }
  }

  /** Every channel of the map, each once, in the order the iteration takes. */
  ghost predicate Visits(order: seq<nat>, ids: set<nat>) {
    && (forall i | 0 <= i < |order| :: order[i] in ids) && (forall id | id in ids :: id in order)
    && forall i, j | 0 <= i < j < |order| :: order[i] != order[j]
  }

  lemma VisitsRest(order: seq<nat>, ids: set<nat>)
    requires Visits(order, ids) && order != []
    ensures Visits(order[1..], ids - {order[0]})
  {
    forall id | id in ids - {order[0]} ensures id in order[1..] {
      var i :| 0 <= i < |order| && order[i] == id;
      assert order[1..][i - 1] == id;
    }
  }

  function Closings<T>(order: seq<nat>): (steps: seq<Step<T>>)
    ensures |steps| == |order|
  {
    seq(|order|, i requires 0 <= i < |order| => CloseDetached(order[i]))
  }

  /** These channels, closed where they stand. */
  function Ended<T>(channels: map<nat, Channel<T>>, ids: set<nat>): map<nat, Channel<T>> {
    map id | id in channels :: if id in ids then channels[id].(closed := true) else channels[id]
  }

  ghost predicate DetachedOpen<T>(h: Hub<T>) {
    forall id | id in h.detached :: id in h.channels && !h.channels[id].closed
  }

  lemma ClosingOne<T>(h: Hub<T>, id: nat, defaultBuffer: nat)
    requires DetachedOpen(h) && id in h.detached
    ensures var h' := Next(h, CloseDetached(id), defaultBuffer);
            && DetachedOpen(h') && h'.detached == h.detached - {id}
            && h' == h.(detached := h'.detached, channels := h'.channels)
            && Ended(h'.channels, h'.detached) == Ended(h.channels, h.detached)
  {
  }

  lemma {:induction false} ClosingsEndAll<T>(h: Hub<T>, order: seq<nat>, defaultBuffer: nat)
    requires DetachedOpen(h) && Visits(order, h.detached)
    ensures After(h, Closings(order), defaultBuffer) ==
            h.(detached := {}, channels := Ended(h.channels, h.detached))
    decreases |order|
  {
    if order == [] {
      assert forall id | id in h.detached :: id in order;
      assert h.detached == {} && Ended(h.channels, {}) == h.channels;
    } else {
      var h1 := Next(h, CloseDetached(order[0]), defaultBuffer);
      ClosingOne(h, order[0], defaultBuffer);
      VisitsRest(order, h.detached);
      assert Closings<T>(order)[1..] == Closings<T>(order[1..]);
      ClosingsEndAll(h1, order[1..], defaultBuffer);
    }
  }

  /** Closing the bridge, in whatever order the channels are then closed: every channel ends where it stands, the
      table is empty, and no later subscriber is taken in. */
  lemma CloseEndsEverySubscription<T>(h: Hub<T>, order: seq<nat>, buffer: int, defaultBuffer: nat)
    requires Inv(h) && !h.closed && h.detached == {} && Visits(order, h.subs)
    ensures var h' := After(h, [DetachAll] + Closings(order), defaultBuffer);
            && h'.closed && h'.subs == {} && h'.detached == {} && h'.published == h.published
            && h'.channels.Keys == h.channels.Keys
            && (forall id | id in h.channels :: h'.channels[id] == h.channels[id].(closed := true))
            && Next(h', Subscribe(buffer), defaultBuffer) == h'
  {
    var h1 := Next(h, DetachAll, defaultBuffer);
    assert h1.detached == h.subs;
    forall id | id in h.channels ensures h.channels[id].closed <==> id !in h.subs { assert ChannelOk(h, id); }
    assert ([DetachAll] + Closings<T>(order))[1..] == Closings<T>(order);
    ClosingsEndAll(h1, order, defaultBuffer);
  }

  /** A second closing finds nothing to do. */
  lemma SecondCloseFindsNothing<T>(h: Hub<T>, defaultBuffer: nat)
    requires h.closed
    ensures Next(h, DetachAll, defaultBuffer) == h
  {
  }

  /** What would panic in the original: sending to a closed channel or closing one again. */
  ghost predicate Misuses<T>(h: Hub<T>, a: Step<T>) {
    match a
    case Publish(_) => exists id :: id in h.subs && id in h.channels && h.channels[id].closed
    case CloseAll => exists id :: id in h.subs && id in h.channels && h.channels[id].closed
    case Remove(id) => id in h.subs && id in h.channels && h.channels[id].closed
    case CloseDetached(id) => id in h.detached && id in h.channels && h.channels[id].closed
    case _ => false
  }

  /** The count of panics goes up exactly when a step would panic. */
  lemma PanicsAreCounted<T>(h: Hub<T>, a: Step<T>, defaultBuffer: nat)
    requires h.subs + h.detached <= h.channels.Keys
    ensures Next(h, a, defaultBuffer).panics >= h.panics
    ensures Next(h, a, defaultBuffer).panics > h.panics <==> Misuses(h, a)
  {
    var closed := ClosedAmong(h.channels, h.subs);
    if id: nat :| id in h.subs && id in h.channels && h.channels[id].closed {
      assert id in closed;
    } else {
      assert closed == {};
    }
  }
}
