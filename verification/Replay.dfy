// One subscriber of one event stream, as a machine of small steps: pushes
// interleave with its replay of the history and its live deliveries
// (src/geonexus/cafe/events.py).
module Replay {
  import opened Wrappers

  datatype Event = Event(num: nat, kind: string, data: string)

  datatype Phase = Replaying | Live | Closed

  /** A subscriber: `past` is the list it replays, which grows as long as it is
      the stream's own history (`shared`); its queue receives pushes as long as
      it is registered. `replayed` and `delivered` are what it has sent. */
  datatype Sub = Sub(past: seq<Event>, shared: bool, pos: nat, phase: Phase, queue: seq<Event>, registered: bool,
                     replayed: seq<Event>, delivered: seq<Event>)

  /** A stream: the number of the last event, the history, and the subscriber. */
  datatype State = State(count: nat, history: Option<seq<Event>>, sub: Sub)

  datatype Action = Push(kind: string, data: string) | Next | Clear

  const CAPACITY := 100

  /** `put_nowait` with the overflow suppressed. */
  function Offer(queue: seq<Event>, e: Event): seq<Event> {
    if |queue| < CAPACITY then queue + [e] else queue
  }

  function History(st: State): seq<Event> {
    if st.history.Some? then st.history.value else []
  }

  /** Joining: the queue is registered and the history list picked up. Without
      history the list is a private empty one. */
  function Join(history: Option<seq<Event>>): Sub {
    Sub(if history.Some? then history.value else [], history.Some?, 0, Replaying, [], true, [], [])
  }

  function SubPush(sub: Sub, e: Event): Sub {
    sub.(past := if sub.shared then sub.past + [e] else sub.past,
         queue := if sub.registered then Offer(sub.queue, e) else sub.queue)
  }

  /** The generator is resumed: it replays one more event, or says that it is
      connected, or delivers one from the queue (an empty queue times out with
      a heartbeat). */
  function SubNext(sub: Sub): Sub {
    match sub.phase
    case Replaying =>
      if sub.pos < |sub.past| then
        sub.(pos := sub.pos + 1, replayed := sub.replayed + [sub.past[sub.pos]])
      else sub.(phase := Live)
    case Live =>
      if sub.queue == [] then sub
      else sub.(queue := sub.queue[1..], delivered := sub.delivered + [sub.queue[0]])
    case Closed => sub
  }

  function SubClear(sub: Sub): Sub {
    sub.(shared := false, registered := false)
  }

  function Step(st: State, a: Action): State {
    match a
    case Push(kind, data) =>
      var e := Event(st.count + 1, kind, data);
      State(st.count + 1, Some(History(st) + [e]), SubPush(st.sub, e))
    case Next => st.(sub := SubNext(st.sub))
    case Clear => State(0, None, SubClear(st.sub))
  }

  function Run(st: State, actions: seq<Action>): State
    decreases |actions|
  {
    if actions == [] then st else Run(Step(st, actions[0]), actions[1..])
  }

  /** Events numbered from `first` on without a gap. */
  ghost predicate Numbered(events: seq<Event>, first: nat) {
    forall i :: 0 <= i < |events| ==> events[i].num == first + i
  }

  /** The stream just before a subscriber joins: `h` events numbered from 1. */
  ghost predicate Stream(history: Option<seq<Event>>, h: nat) {
    && (history.None? <==> h == 0)
    && (history.Some? ==> |history.value| == h && Numbered(history.value, 1))
  }

  ghost predicate NoClear(actions: seq<Action>) {
    forall i :: 0 <= i < |actions| ==> !actions[i].Clear?
  }

  /** The events pushed in the run that found room in the queue, in order. */
  function Accepted(st: State, actions: seq<Action>): seq<Event>
    decreases |actions|
  {
    if actions == [] then []
    else
      (if actions[0].Push? && |st.sub.queue| < CAPACITY
       then [Event(st.count + 1, actions[0].kind, actions[0].data)] else [])
      + Accepted(Step(st, actions[0]), actions[1..])
  }

  /** Every push of the run found room in the queue. */
  predicate NoOverflow(st: State, actions: seq<Action>)
    decreases |actions|
  {
    actions != [] ==>
      && (actions[0].Push? ==> |st.sub.queue| < CAPACITY)
      && NoOverflow(Step(st, actions[0]), actions[1..])
  }

  function Pushes(actions: seq<Action>): nat {
    if actions == [] then 0 else (if actions[0].Push? then 1 else 0) + Pushes(actions[1..])
  }

  lemma QueueGrows(st: State, a: Action)
    ensures |Step(st, a).sub.queue| <= |st.sub.queue| + if a.Push? then 1 else 0
    ensures a.Push? && st.sub.registered ==>
      Step(st, a).sub.registered && |Step(st, a).sub.queue| == if |st.sub.queue| < 100 then |st.sub.queue| + 1 else |st.sub.queue|
    ensures Step(st, a).sub.registered ==> st.sub.registered
  {
  }

  /** A hundred waiting events fit: a run overflows only if what waits at its
      start and what is pushed in it are more. */
  lemma {:induction false} HundredFit(st: State, actions: seq<Action>)
    requires |st.sub.queue| + Pushes(actions) <= 100
    ensures NoOverflow(st, actions)
    decreases |actions|
  {
    hide Step;
    if actions != [] {
      QueueGrows(st, actions[0]);
      HundredFit(Step(st, actions[0]), actions[1..]);
    }
  }

  /** And no more do: while nothing is taken from the queue, a run overflows
      exactly if they are more. */
  lemma {:induction false} HundredFitExactly(st: State, actions: seq<Action>)
    requires st.sub.registered && |st.sub.queue| <= 100 && forall a :: a in actions ==> a.Push?
    ensures NoOverflow(st, actions) <==> |st.sub.queue| + |actions| <= 100
    decreases |actions|
  {
    hide Step;
    if actions != [] {
      assert actions[0] in actions;
      assert forall a :: a in actions[1..] ==> a in actions;
      QueueGrows(st, actions[0]);
      HundredFitExactly(Step(st, actions[0]), actions[1..]);
    }
  }

  /** The number of pushes before the subscriber ends its replay. */
  function PushesWhileReplaying(st: State, actions: seq<Action>): nat
    decreases |actions|
  {
    if actions == [] then 0
    else
      (if actions[0].Push? && st.sub.phase.Replaying? then 1 else 0)
      + PushesWhileReplaying(Step(st, actions[0]), actions[1..])
  }

  /** What every step of a run without clearing keeps, for a subscriber that
      joined with `h` events; `taken` are the events its queue has accepted. */
  ghost predicate Inv(st: State, h: nat, taken: seq<Event>, during: nat) {
    Behind(st, h, during) && Ahead(st, h, taken)
  }

  /** The history and how far the replay of it has come. */
  ghost predicate Behind(st: State, h: nat, during: nat) {
    var sub := st.sub;
    && st.count == |History(st)| && Numbered(History(st), 1) && h <= st.count
    && (sub.shared <==> h > 0)
    && sub.past == (if sub.shared then History(st) else [])
    && sub.pos <= |sub.past| && sub.replayed == sub.past[..sub.pos]
    && (sub.phase.Replaying? ==> h + during == st.count)
    && (sub.phase.Live? ==> sub.pos == if h == 0 then 0 else h + during)
  }

  /** The queue and what it has delivered. */
  ghost predicate Ahead(st: State, h: nat, taken: seq<Event>) {
    var sub := st.sub;
    && sub.registered && !sub.phase.Closed?
    && sub.delivered + sub.queue == taken
    && Increasing(taken, h, st.count)
    && (sub.phase.Replaying? ==> sub.delivered == [])
  }

  /** Strictly increasing numbers above `lo` and up to `hi`. */
  ghost predicate Increasing(events: seq<Event>, lo: nat, hi: nat) {
    && (forall i :: 0 <= i < |events| ==> lo < events[i].num <= hi)
    && (forall i, j :: 0 <= i < j < |events| ==> events[i].num < events[j].num)
  }

  lemma JoinInv(history: Option<seq<Event>>, h: nat)
    requires Stream(history, h)
    ensures Inv(State(h, history, Join(history)), h, [], 0)
  {
  }

  lemma PushBehind(st: State, h: nat, during: nat, kind: string, data: string)
    requires Behind(st, h, during)
    ensures Behind(Step(st, Push(kind, data)), h, if st.sub.phase.Replaying? then during + 1 else during)
  {
    hide Offer;
    var e := Event(st.count + 1, kind, data);
    assert (History(st) + [e])[..st.sub.pos] == History(st)[..st.sub.pos];
  }

  lemma PushAhead(st: State, h: nat, taken: seq<Event>, kind: string, data: string)
    requires Ahead(st, h, taken) && h <= st.count
    ensures
      var e := Event(st.count + 1, kind, data);
      Ahead(Step(st, Push(kind, data)), h, if |st.sub.queue| < CAPACITY then taken + [e] else taken)
  {
    hide CAPACITY, History;
    var e := Event(st.count + 1, kind, data);
    assert Increasing(taken, h, st.count + 1) && Increasing(taken + [e], h, st.count + 1);
    assert st.sub.delivered + (st.sub.queue + [e]) == (st.sub.delivered + st.sub.queue) + [e];
  }

  lemma PushInv(st: State, h: nat, taken: seq<Event>, during: nat, kind: string, data: string)
    requires Inv(st, h, taken, during)
    ensures
      var e := Event(st.count + 1, kind, data);
      Inv(Step(st, Push(kind, data)), h, if |st.sub.queue| < CAPACITY then taken + [e] else taken,
          if st.sub.phase.Replaying? then during + 1 else during)
  {
    PushBehind(st, h, during, kind, data);
    PushAhead(st, h, taken, kind, data);
    hide Step, Ahead, CAPACITY;
  }

  lemma NextInv(st: State, h: nat, taken: seq<Event>, during: nat)
    requires Inv(st, h, taken, during)
    ensures Inv(Step(st, Next), h, taken, during)
  {
    hide Numbered, Increasing;
    var sub := st.sub;
    if sub.phase.Live? && sub.queue != [] {
      assert sub.queue == [sub.queue[0]] + sub.queue[1..];
      assert (sub.delivered + [sub.queue[0]]) + sub.queue[1..] == sub.delivered + sub.queue;
    }
  }

  lemma {:induction false} RunInv(st: State, h: nat, taken: seq<Event>, during: nat, actions: seq<Action>)
    requires Inv(st, h, taken, during) && NoClear(actions)
    ensures Inv(Run(st, actions), h, taken + Accepted(st, actions), during + PushesWhileReplaying(st, actions))
    decreases |actions|
  {
    hide Inv, Step, CAPACITY;
    if actions == [] {
      assert taken + [] == taken;
    } else {
      var rest := actions[1..];
      assert forall i :: 0 <= i < |rest| ==> rest[i] == actions[i + 1];
      match actions[0] {
        case Push(kind, data) =>
          PushInv(st, h, taken, during, kind, data);
          var e := Event(st.count + 1, kind, data);
          var now := if |st.sub.queue| < CAPACITY then [e] else [];
          assert taken + now == if |st.sub.queue| < CAPACITY then taken + [e] else taken;
          RunInv(Step(st, actions[0]), h, taken + now, if st.sub.phase.Replaying? then during + 1 else during, rest);
          assert (taken + now) + Accepted(Step(st, actions[0]), rest) == taken + Accepted(st, actions);
        case Next =>
          NextInv(st, h, taken, during);
          RunInv(Step(st, actions[0]), h, taken, during, rest);
          assert taken + Accepted(Step(st, actions[0]), rest) == taken + Accepted(st, actions);
      }
    }
  }

  // ---------------------------------------------------------------------
  // What a subscriber gets
  // ---------------------------------------------------------------------

  lemma NoClearRest(actions: seq<Action>)
    requires NoClear(actions) && actions != []
    ensures NoClear(actions[1..]) && !actions[0].Clear?
  {
    assert forall i :: 0 <= i < |actions| - 1 ==> actions[1..][i] == actions[i + 1];
  }

  /** One action extends the history by what it pushes. */
  lemma HistoryNext(st: State, a: Action)
    requires !a.Clear?
    ensures History(Step(st, a))
         == History(st) + if a.Push? then [Event(st.count + 1, a.kind, a.data)] else []
  {
    hide SubNext, SubPush;
  }

  lemma {:induction false} HistoryGrows(st: State, actions: seq<Action>)
    requires NoClear(actions)
    ensures History(st) <= History(Run(st, actions))
    ensures NoOverflow(st, actions) ==> History(Run(st, actions)) == History(st) + Accepted(st, actions)
    decreases |actions|
  {
    hide Step, History, CAPACITY, NoClear;
    if actions != [] {
      NoClearRest(actions);
      HistoryNext(st, actions[0]);
      HistoryGrows(Step(st, actions[0]), actions[1..]);
    }
  }

  /** The state a subscriber that joined with `h` events reaches. */
  function After(history: Option<seq<Event>>, h: nat, actions: seq<Action>): State {
    Run(State(h, history, Join(history)), actions)
  }

  /** How many events the replay covers once it has ended. */
  function ReplayLength(history: Option<seq<Event>>, h: nat, actions: seq<Action>): nat {
    if h == 0 then 0 else h + PushesWhileReplaying(State(h, history, Join(history)), actions)
  }

  /** The replay runs through the stream from its first event without gap or
      repetition; once it has ended it has covered the `h` events from before
      the subscription and, unless there were none, every event pushed since.
      The queue holds and delivers what it accepted, in the order of the
      numbers, all above `h`. */
  lemma SubscriberGets(history: Option<seq<Event>>, h: nat, actions: seq<Action>)
    requires Stream(history, h) && NoClear(actions)
    ensures
      var st, m := After(history, h, actions), ReplayLength(history, h, actions);
      && Numbered(History(st), 1)
      && st.sub.replayed <= History(st)
      && (st.sub.phase.Live? ==> |st.sub.replayed| == m && h <= m <= st.count)
      && st.sub.delivered + st.sub.queue == Accepted(State(h, history, Join(history)), actions)
      && Increasing(st.sub.delivered + st.sub.queue, h, st.count)
  {
    hide Run, Accepted, PushesWhileReplaying, Increasing, Join;
    var start := State(h, history, Join(history));
    JoinInv(history, h);
    RunInv(start, h, [], 0, actions);
    assert [] + Accepted(start, actions) == Accepted(start, actions);
  }

  /** Without overflow the live part is every event after the `h`-th. */
  lemma LiveIsComplete(history: Option<seq<Event>>, h: nat, actions: seq<Action>)
    requires Stream(history, h) && NoClear(actions)
    requires NoOverflow(State(h, history, Join(history)), actions)
    ensures
      var st := After(history, h, actions);
      h <= st.count == |History(st)| && st.sub.delivered + st.sub.queue == History(st)[h..]
  {
    hide Run, Accepted, PushesWhileReplaying, Increasing, Join, NoOverflow;
    var start := State(h, history, Join(history));
    SubscriberGets(history, h, actions);
    HistoryGrows(start, actions);
    JoinInv(history, h);
    RunInv(start, h, [], 0, actions);
  }

  /** The subscriber has been sent the event, or has it in its queue. */
  predicate Holds(sub: Sub, num: nat) {
    exists e :: e in sub.delivered + sub.queue && e.num == num
  }

  predicate Replayed(sub: Sub, num: nat) {
    exists e :: e in sub.replayed && e.num == num
  }

  lemma HasNumber(events: seq<Event>, first: nat, num: nat)
    requires Numbered(events, first)
    ensures (exists e :: e in events && e.num == num) <==> first <= num < first + |events|
  {
    if first <= num < first + |events| {
      assert events[num - first].num == num && events[num - first] in events;
    }
  }

  /** Once live and without overflow: nothing is lost, and exactly the events
      pushed during the replay of a non-empty history come twice. */
  lemma SeenExactly(history: Option<seq<Event>>, h: nat, actions: seq<Action>, num: nat)
    requires Stream(history, h) && NoClear(actions)
    requires NoOverflow(State(h, history, Join(history)), actions)
    requires After(history, h, actions).sub.phase.Live?
    ensures
      var st, m := After(history, h, actions), ReplayLength(history, h, actions);
      && (Replayed(st.sub, num) <==> 1 <= num <= m)
      && (Holds(st.sub, num) <==> h < num <= st.count)
      && (Replayed(st.sub, num) || Holds(st.sub, num) <==> 1 <= num <= st.count)
      && (Replayed(st.sub, num) && Holds(st.sub, num) <==> h < num <= m)
  {
    hide Run, Accepted, PushesWhileReplaying, Increasing, Join, NoOverflow, ReplayLength;
    var st := After(history, h, actions);
    SubscriberGets(history, h, actions);
    LiveIsComplete(history, h, actions);
    HasNumber(st.sub.replayed, 1, num);
    HasNumber(History(st)[h..], h + 1, num);
  }

  /** The queue accepted the event in the run. */
  predicate Took(st: State, actions: seq<Action>, num: nat) {
    exists e :: e in Accepted(st, actions) && e.num == num
  }

  /** Once live, with or without overflow: the replay covers the first `m`
      events, and the live part what the queue accepted, all above `h`. */
  lemma GetsExactly(history: Option<seq<Event>>, h: nat, actions: seq<Action>, num: nat)
    requires Stream(history, h) && NoClear(actions)
    requires After(history, h, actions).sub.phase.Live?
    ensures
      var st, m := After(history, h, actions), ReplayLength(history, h, actions);
      && (Replayed(st.sub, num) <==> 1 <= num <= m) && m <= st.count && (h > 0 ==> h <= m)
      && (Holds(st.sub, num) <==> Took(State(h, history, Join(history)), actions, num))
      && (Holds(st.sub, num) ==> h < num <= st.count)
  {
    hide Run, Accepted, PushesWhileReplaying, Join, ReplayLength;
    var st := After(history, h, actions);
    SubscriberGets(history, h, actions);
    HasNumber(st.sub.replayed, 1, num);
    InRange(st.sub.delivered + st.sub.queue, h, st.count);
    hide Increasing;
  }

  lemma InRange(events: seq<Event>, lo: nat, hi: nat)
    requires Increasing(events, lo, hi)
    ensures forall e :: e in events ==> lo < e.num <= hi
  {
  }

  lemma {:induction false} LiveHasReplayed(st: State, actions: seq<Action>)
    requires !st.sub.phase.Replaying?
    ensures PushesWhileReplaying(st, actions) == 0
    decreases |actions|
  {
    if actions != [] {
      LiveHasReplayed(Step(st, actions[0]), actions[1..]);
    }
  }

  /** The first push during a replay finds the queue empty. */
  lemma {:induction false} FirstIsTaken(st: State, actions: seq<Action>)
    requires NoClear(actions) && st.sub.queue == [] && PushesWhileReplaying(st, actions) > 0
    ensures Took(st, actions, st.count + 1)
    decreases |actions|
  {
    NoClearRest(actions);
    if st.sub.phase.Replaying? {
      var next := Step(st, actions[0]);
      if actions[0].Push? {
        var e := Event(st.count + 1, actions[0].kind, actions[0].data);
        assert Accepted(st, actions)[0] == e;
      } else {
        FirstIsTaken(next, actions[1..]);
        var e :| e in Accepted(next, actions[1..]) && e.num == st.count + 1;
        assert e in Accepted(st, actions);
      }
    } else {
      LiveHasReplayed(st, actions);
    }
  }

  /** Within one subscription nothing comes twice exactly if the history was
      empty or nothing was pushed during the replay, whatever overflows. */
  lemma NoRepetitionExactly(history: Option<seq<Event>>, h: nat, actions: seq<Action>)
    requires Stream(history, h) && NoClear(actions)
    requires After(history, h, actions).sub.phase.Live?
    ensures
      (forall num: nat :: !(Replayed(After(history, h, actions).sub, num) && Holds(After(history, h, actions).sub, num)))
      <==> h == 0 || PushesWhileReplaying(State(h, history, Join(history)), actions) == 0
  {
    hide Run, Accepted, PushesWhileReplaying, Replayed, Holds, After, Took, NoClear;
    var start, sub := State(h, history, Join(history)), After(history, h, actions).sub;
    forall num: nat
      ensures Replayed(sub, num) && Holds(sub, num) <==> Took(start, actions, num) && num <= ReplayLength(history, h, actions)
    {
      GetsExactly(history, h, actions, num);
    }
    GetsExactly(history, h, actions, h + 1);
    if h > 0 && PushesWhileReplaying(start, actions) > 0 {
      FirstIsTaken(start, actions);
      assert Replayed(sub, h + 1) && Holds(sub, h + 1);
    } else {
      forall num: nat ensures !(Replayed(sub, num) && Holds(sub, num)) {
        GetsExactly(history, h, actions, num);
      }
    }
  }

  /** With overflow an event is never seen exactly if the queue refused it and
      it was pushed after the replay had ended. */
  lemma MissedExactly(history: Option<seq<Event>>, h: nat, actions: seq<Action>, num: nat)
    requires Stream(history, h) && NoClear(actions)
    requires After(history, h, actions).sub.phase.Live?
    requires 1 <= num <= After(history, h, actions).count
    ensures
      var st, m := After(history, h, actions), ReplayLength(history, h, actions);
      !Replayed(st.sub, num) && !Holds(st.sub, num) <==>
        num > m && !exists e :: e in Accepted(State(h, history, Join(history)), actions) && e.num == num
  {
    hide Run, Accepted, PushesWhileReplaying, Increasing, Join, ReplayLength;
    var st := After(history, h, actions);
    SubscriberGets(history, h, actions);
    HasNumber(st.sub.replayed, 1, num);
  }

  /** After a clear nothing that is pushed reaches the subscriber, which goes on
      replaying the old list. */
  lemma {:induction false} ClearedGetsNothing(st: State, actions: seq<Action>)
    requires !st.sub.registered && !st.sub.shared
    ensures var sub := Run(st, actions).sub;
      && !sub.registered && !sub.shared && sub.past == st.sub.past
      && sub.delivered + sub.queue == st.sub.delivered + st.sub.queue
    decreases |actions|
  {
    if actions != [] {
      var sub := st.sub;
      if actions[0].Next? && sub.phase.Live? && sub.queue != [] {
        assert (sub.delivered + [sub.queue[0]]) + sub.queue[1..] == sub.delivered + sub.queue;
      }
      ClearedGetsNothing(Step(st, actions[0]), actions[1..]);
    }
  }

  // ---------------------------------------------------------------------
  // What a stream holds
  // ---------------------------------------------------------------------

  /** The events of the pushes of a run without a clear, numbered after `count`. */
  function Pushed(count: nat, actions: seq<Action>): seq<Event>
    decreases |actions|
  {
    if actions == [] then []
    else if actions[0].Push? then
      [Event(count + 1, actions[0].kind, actions[0].data)] + Pushed(count + 1, actions[1..])
    else Pushed(count, actions[1..])
  }

  lemma {:induction false} HistoryIs(st: State, actions: seq<Action>)
    requires NoClear(actions)
    ensures History(Run(st, actions)) == History(st) + Pushed(st.count, actions)
    ensures Run(st, actions).count == st.count + |Pushed(st.count, actions)|
    ensures forall e :: e in Accepted(st, actions) ==> e in Pushed(st.count, actions)
    decreases |actions|
  {
    hide SubNext, SubPush, SubClear, History, CAPACITY, NoClear;
    if actions != [] {
      NoClearRest(actions);
      HistoryNext(st, actions[0]);
      HistoryIs(Step(st, actions[0]), actions[1..]);
    }
  }

  lemma {:induction false} RunConcat(st: State, a: seq<Action>, b: seq<Action>)
    ensures Run(st, a + b) == Run(Run(st, a), b)
    decreases |a|
  {
    hide Step;
    if a == [] {
      assert a + b == b;
    } else {
      assert (a + b)[1..] == a[1..] + b;
      RunConcat(Step(st, a[0]), a[1..], b);
    }
  }

  lemma {:induction false} StreamStays(st: State, actions: seq<Action>)
    requires Stream(st.history, st.count)
    ensures var st' := Run(st, actions);
      Stream(st'.history, st'.count) && (NoClear(actions) ==> st.count <= st'.count)
    decreases |actions|
  {
    hide SubNext, SubPush, SubClear, NoClear;
    if actions != [] {
      if NoClear(actions) {
        NoClearRest(actions);
      }
      StreamStays(Step(st, actions[0]), actions[1..]);
    }
  }

  // ---------------------------------------------------------------------
  // Reconnecting
  // ---------------------------------------------------------------------

  /** The subscriber has been sent the event. */
  predicate Sent(sub: Sub, num: nat) {
    exists e :: e in sub.replayed + sub.delivered && e.num == num
  }

  /** The connection ends: the queue goes, with what is in it. */
  function Leave(st: State): State {
    st.(sub := st.sub.(phase := Closed, registered := false))
  }

  /** The stream when a client comes back that joined it at `h` events, stayed
      for the actions `first` and was away for the actions `away`. */
  function Return(history: Option<seq<Event>>, h: nat, first: seq<Action>, away: seq<Action>): State {
    Run(Leave(After(history, h, first)), away)
  }

  /** The state of a client that comes back to the stream `back`. */
  function Second(back: State, second: seq<Action>): State {
    After(back.history, back.count, second)
  }

  lemma StreamAtReturn(history: Option<seq<Event>>, h: nat, first: seq<Action>, away: seq<Action>)
    requires Stream(history, h)
    ensures var back := Return(history, h, first, away); Stream(back.history, back.count)
    ensures NoClear(away) ==> After(history, h, first).count <= Return(history, h, first, away).count
  {
    hide Run, Join, Stream, NoClear;
    StreamStays(State(h, history, Join(history)), first);
    StreamStays(Leave(After(history, h, first)), away);
  }

  /** What a client was sent in its first session is among the events the stream
      holds when it comes back, unless the stream was cleared meanwhile. */
  lemma SentBefore(history: Option<seq<Event>>, h: nat, first: seq<Action>, away: seq<Action>, num: nat)
    requires Stream(history, h) && NoClear(first) && NoClear(away) && Sent(After(history, h, first).sub, num)
    ensures 1 <= num <= Return(history, h, first, away).count
  {
    hide Run, Accepted, PushesWhileReplaying, Join, ReplayLength, Stream, Return, Increasing;
    var st := After(history, h, first);
    SubscriberGets(history, h, first);
    StreamAtReturn(history, h, first, away);
    StreamAtReturn(history, h, first, []);
    assert Return(history, h, first, []).history == st.history && Return(history, h, first, []).count == st.count by {
      NothingAway(history, h, first);
    }
    SizeOfStream(st.history, st.count);
    InRange(st.sub.delivered + st.sub.queue, h, st.count);
    var e :| e in st.sub.replayed + st.sub.delivered && e.num == num;
    if e in st.sub.replayed {
      HasNumber(st.sub.replayed, 1, num);
    } else {
      assert e in st.sub.delivered + st.sub.queue;
    }
  }

  lemma NothingAway(history: Option<seq<Event>>, h: nat, first: seq<Action>)
    ensures Return(history, h, first, []) == Leave(After(history, h, first))
  {
    hide After;
  }

  lemma SizeOfStream(history: Option<seq<Event>>, h: nat)
    requires Stream(history, h)
    ensures |if history.Some? then history.value else []| == h
  {
  }

  /** The event of the stream comes again: the client was sent it in its first
      session and gets it in the second one, or gets it twice there. After a
      clear the first session was one of other events. */
  ghost predicate Again(one: Sub, two: Sub, away: seq<Action>, num: nat) {
    || (NoClear(away) && Sent(one, num) && (Replayed(two, num) || Holds(two, num)))
    || (Replayed(two, num) && Holds(two, num))
  }

  /** A client that reconnects gets again exactly what it was sent before,
      unless the stream was cleared while it was away, and those events pushed
      during the new replay of a non-empty history that its queue accepts. */
  lemma AgainExactly(history: Option<seq<Event>>, h0: nat, first: seq<Action>, away: seq<Action>, second: seq<Action>,
                     num: nat)
    requires Stream(history, h0) && NoClear(first) && NoClear(second)
    requires Second(Return(history, h0, first, away), second).sub.phase.Live?
    ensures
      var one, back := After(history, h0, first).sub, Return(history, h0, first, away);
      var two, m := Second(back, second).sub, ReplayLength(back.history, back.count, second);
      Again(one, two, away, num) <==>
        || (NoClear(away) && Sent(one, num))
        || (num <= m && Took(State(back.count, back.history, Join(back.history)), second, num))
  {
    hide After, Return, Sent, Replayed, Holds, Took, Stream, NoClear, Join;
    var back := Return(history, h0, first, away);
    StreamAtReturn(history, h0, first, away);
    GetsExactly(back.history, back.count, second, num);
    if NoClear(away) && Sent(After(history, h0, first).sub, num) {
      SentBefore(history, h0, first, away, num);
    }
  }

  /** `latest_seq` promises that a client that reconnects gets no event again.
      That holds exactly if it was sent none of the stream before, and the
      history was empty or nothing was pushed during the new replay. */
  lemma ReconnectRepeatsExactly(history: Option<seq<Event>>, h0: nat, first: seq<Action>, away: seq<Action>,
                                second: seq<Action>)
    requires Stream(history, h0) && NoClear(first) && NoClear(second)
    requires Second(Return(history, h0, first, away), second).sub.phase.Live?
    ensures
      var one, back := After(history, h0, first).sub, Return(history, h0, first, away);
      var two := Second(back, second).sub;
      (forall num: nat :: !Again(one, two, away, num)) <==>
        && (!NoClear(away) || (one.replayed == [] && one.delivered == []))
        && (back.count == 0
            || PushesWhileReplaying(State(back.count, back.history, Join(back.history)), second) == 0)
  {
    hide After, Return, Stream, PushesWhileReplaying, NoClear, Sent, Replayed, Holds, Took, Join;
    var one, back := After(history, h0, first).sub, Return(history, h0, first, away);
    var two := Second(back, second).sub;
    StreamAtReturn(history, h0, first, away);
    NoRepetitionExactly(back.history, back.count, second);
    SentNothing(one);
    forall num: nat
      ensures Again(one, two, away, num) <==> (NoClear(away) && Sent(one, num)) || (Replayed(two, num) && Holds(two, num))
    {
      AgainExactly(history, h0, first, away, second, num);
    }
    assert (forall num: nat :: !Again(one, two, away, num)) ==> forall num: nat :: !(Replayed(two, num) && Holds(two, num));
  }

  lemma SentNothing(sub: Sub)
    ensures (forall num: nat :: !Sent(sub, num)) <==> sub.replayed == [] && sub.delivered == []
  {
    var all := sub.replayed + sub.delivered;
    if all != [] {
      assert all[0] in all && Sent(sub, all[0].num);
    }
  }

  /** The other half of the promise: of the stream it comes back to, a client
      misses over both sessions exactly the events that were pushed after the
      new replay and refused by the full queue. Without overflow there is none. */
  lemma ReconnectMissesExactly(history: Option<seq<Event>>, h0: nat, first: seq<Action>, away: seq<Action>,
                               second: seq<Action>, num: nat)
    requires Stream(history, h0) && NoClear(first) && NoClear(second)
    requires var end := Second(Return(history, h0, first, away), second); end.sub.phase.Live? && 1 <= num <= end.count
    ensures
      var one, back := After(history, h0, first).sub, Return(history, h0, first, away);
      var start, m := State(back.count, back.history, Join(back.history)), ReplayLength(back.history, back.count, second);
      var two := Second(back, second).sub;
      && (!(NoClear(away) && Sent(one, num)) && !Replayed(two, num) && !Holds(two, num) <==>
            num > m && !Took(start, second, num))
      && (NoOverflow(start, second) ==> Replayed(two, num) || Holds(two, num))
  {
    hide After, Return, Sent, Replayed, Holds, Took, NoOverflow, Stream, NoClear, Join;
    var back := Return(history, h0, first, away);
    var start := State(back.count, back.history, Join(back.history));
    StreamAtReturn(history, h0, first, away);
    GetsExactly(back.history, back.count, second, num);
    if NoClear(away) && Sent(After(history, h0, first).sub, num) {
      SentBefore(history, h0, first, away, num);
    }
    if NoOverflow(start, second) {
      SeenExactly(back.history, back.count, second, num);
    }
  }

  /** A clear while the client is away: the stream it comes back to holds exactly
      the events pushed since the last clear, numbered from 1, and whatever its
      second session gets was pushed since. What was pushed before and not sent
      in the first session is lost, without any overflow. */
  lemma ClearForgets(history: Option<seq<Event>>, h0: nat, first: seq<Action>, before: seq<Action>, after: seq<Action>,
                     second: seq<Action>)
    requires Stream(history, h0) && NoClear(after) && NoClear(second)
    ensures
      var back := Return(history, h0, first, before + [Clear] + after);
      var end := Second(back, second);
      && History(back) == Pushed(0, after) && back.count == |Pushed(0, after)|
      && History(end) == Pushed(0, after) + Pushed(back.count, second)
      && (forall e :: e in end.sub.replayed || e in end.sub.delivered + end.sub.queue ==>
            e in Pushed(0, after) + Pushed(back.count, second))
  {
    hide Run, Accepted, Pushed, Stream, NoClear, Join, ReplayLength, PushesWhileReplaying, Increasing;
    var away, left := before + [Clear] + after, Leave(After(history, h0, first));
    var back := Return(history, h0, first, away);
    RunConcat(left, before + [Clear], after);
    RunConcat(left, before, [Clear]);
    var cleared := Run(Run(left, before), [Clear]);
    ClearedStream(Run(left, before));
    HistoryIs(cleared, after);
    StreamAtReturn(history, h0, first, away);
    SubscriberGets(back.history, back.count, second);
    HistoryIs(State(back.count, back.history, Join(back.history)), second);
  }

  lemma ClearedStream(st: State)
    ensures Run(st, [Clear]).count == 0 && Run(st, [Clear]).history.None?
  {
    assert [Clear][1..] == [];
    assert Run(Step(st, Clear), []) == Step(st, Clear);
  }

  /** One event is pushed and the stream cleared while the client is away: the
      client, once live again, never gets the event. */
  lemma ClearLosesOne(kind: string, data: string)
    ensures
      var back := Return(None, 0, [], [Push(kind, data), Clear]);
      var two := Second(back, [Next]).sub;
      && two.phase.Live? && back.count == 0
      && two.replayed == [] && two.delivered == [] && two.queue == []
      && NoOverflow(State(back.count, back.history, Join(back.history)), [Next])
  {
    var s0 := Leave(State(0, None, Join(None)));
    var s1 := Step(s0, Push(kind, data));
    RunTwo(s0, Push(kind, data), Clear, s1, Step(s1, Clear));
    assert After(None, 0, []) == State(0, None, Join(None));
    var t0 := State(0, None, Join(None));
    assert [Next][1..] == [];
    assert Run(Step(t0, Next), []) == Step(t0, Next);
    assert NoOverflow(Step(t0, Next), []);
  }

  /** A client connects, gets the one event that is pushed, and reconnects while
      nothing happens: it gets the event again. */
  lemma OneEventTwice(kind: string, data: string)
    ensures
      var first, second := [Next, Push(kind, data), Next], [Next, Next];
      var one, back := After(None, 0, first).sub, Return(None, 0, first, []);
      var two := Second(back, second).sub;
      && two.phase.Live? && back.count == 1
      && NoOverflow(State(back.count, back.history, Join(back.history)), second)
      && PushesWhileReplaying(State(back.count, back.history, Join(back.history)), second) == 0
      && Again(one, two, [], 1)
  {
    var e := Event(1, kind, data);
    var s0 := State(0, None, Join(None));
    var s1 := s0.(sub := s0.sub.(phase := Live));
    var s2 := State(1, Some([e]), s1.sub.(queue := [e]));
    var s3 := s2.(sub := s2.sub.(queue := [], delivered := [e]));
    assert [] + [e] == [e] && [e][1..] == [];
    RunThree(s0, Next, Push(kind, data), Next, s1, s2, s3);
    var back := Return(None, 0, [Next, Push(kind, data), Next], []);
    assert back.history == Some([e]) && back.count == 1;
    var t0 := State(1, Some([e]), Join(Some([e])));
    var t1 := t0.(sub := t0.sub.(pos := 1, replayed := [e]));
    var t2 := t1.(sub := t1.sub.(phase := Live));
    RunTwo(t0, Next, Next, t1, t2);
    assert e in s3.sub.replayed + s3.sub.delivered && e in t2.sub.replayed;
  }

  lemma RunTwo(st: State, a: Action, b: Action, st1: State, st2: State)
    requires Step(st, a) == st1 && Step(st1, b) == st2
    ensures Run(st, [a, b]) == st2
    ensures !a.Push? && !b.Push? ==> NoOverflow(st, [a, b]) && PushesWhileReplaying(st, [a, b]) == 0
  {
    hide Step;
    assert [a, b][1..] == [b] && [b][1..] == [];
    assert Run(st1, [b]) == Run(st2, []);
    assert NoOverflow(st2, []) && PushesWhileReplaying(st2, []) == 0;
    if !b.Push? {
      assert NoOverflow(st1, [b]) && PushesWhileReplaying(st1, [b]) == 0;
    }
  }

  lemma RunThree(st: State, a: Action, b: Action, c: Action, st1: State, st2: State, st3: State)
    requires Step(st, a) == st1 && Step(st1, b) == st2 && Step(st2, c) == st3
    ensures Run(st, [a, b, c]) == st3
  {
    hide Step;
    RunTwo(st1, b, c, st2, st3);
    assert [a, b, c][1..] == [b, c];
  }
}
