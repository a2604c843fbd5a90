// The event bus: live history lists and bounded subscriber queues, changed in
// place (src/geonexus/cafe/events.py).
module Events {
  import opened Wrappers
  import opened Replay

  /** A history list. Subscribers iterate it while pushes append to it. */
  class Log {
    var events: seq<Event>

    constructor ()
      ensures events == []
    {
      events := [];
    }
  }

  /** An `asyncio.Queue` of bounded size. */
  class Queue {
    var items: seq<Event>

    constructor ()
      ensures items == []
    {
      items := [];
    }
  }

  /** A subscriber's generator. */
  class Subscription {
    const id: string
    const queue: Queue
    const past: Log
    var pos: nat
    var phase: Phase
    var replayed: seq<Event>
    var delivered: seq<Event>

    constructor (id: string, queue: Queue, past: Log)
      ensures this.id == id && this.queue == queue && this.past == past
      ensures pos == 0 && phase == Replaying && replayed == [] && delivered == []
    {
      this.id, this.queue, this.past := id, queue, past;
      pos, phase, replayed, delivered := 0, Replaying, [], [];
    }
  }

  class EventBus {
    var streams: map<string, seq<Queue>>
    var history: map<string, Log>
    var counts: map<string, nat>
    ghost var subs: set<Subscription>

    /** Logs and queues are not shared between streams, and a subscription
        belongs to its own stream only. */
    ghost predicate Valid()
      reads `streams, `history, `subs
    {
      && LogsApart() && QueuesApart()
      && (forall s :: s in subs ==> Belongs(s))
      && (forall s, t :: s in subs && t in subs && s != t ==> s.queue != t.queue)
    }

    ghost predicate LogsApart()
      reads `history
    {
      forall a, b :: a in history && b in history && a != b ==> history[a] != history[b]
    }

    ghost predicate QueuesApart()
      reads `streams
    {
      ApartIn(streams)
    }

    ghost predicate Belongs(s: Subscription)
      reads `streams, `history
    {
      && (forall a :: a in streams && s.queue in streams[a] ==> a == s.id)
      && (forall a :: a in history && history[a] == s.past ==> a == s.id)
    }

    lemma ValidParts()
      requires Valid()
      ensures LogsApart() && QueuesApart() && (forall s :: s in subs ==> Belongs(s))
      ensures forall s, t :: s in subs && t in subs && s != t ==> s.queue != t.queue
    {
    }

    lemma IsValid()
      requires LogsApart() && QueuesApart() && (forall s :: s in subs ==> Belongs(s))
      requires forall s, t :: s in subs && t in subs && s != t ==> s.queue != t.queue
      ensures Valid()
    {
    }

    lemma ApartNow()
      requires QueuesApart()
      ensures ApartIn(streams)
    {
    }

    lemma QueuesDiffer(id: string)
      requires QueuesApart()
      ensures NoRepeats(Registered(id))
    {
    }

    /** A log that is a stream's own, or nobody's, belongs to no other stream. */
    lemma OnlyOwnLog(log: Log, id: string)
      requires LogsApart() && ((id in history && history[id] == log) || (forall a :: a in history ==> history[a] != log))
      ensures forall a :: a in history && history[a] == log ==> a == id
    {
    }

    /** Shrinking one stream's list keeps the lists apart. */
    lemma StillApart(before: map<string, seq<Queue>>, id: string)
      requires ApartIn(before) && (forall a :: a in streams && a != id ==> a in before && streams[a] == before[a])
      requires id in streams ==> NoRepeats(streams[id])
      requires id in streams ==> forall q :: q in streams[id] ==> id in before && q in before[id]
      ensures QueuesApart()
    {
      hide NoRepeats;
    }

    function LatestSeq(id: string): nat
      reads `counts
    {
      if id in counts then counts[id] else 0
    }

    function Registered(id: string): seq<Queue>
      reads `streams
    {
      if id in streams then streams[id] else []
    }

    /** The history of a stream. */
    function Stored(id: string): seq<Event>
      reads `history, if id in history then {history[id]} else {}
    {
      if id in history then history[id].events else []
    }

    /** What the machine of one subscriber sees of the bus. */
    ghost function StateOf(s: Subscription): State
      reads `streams, `history, `counts, s, s.queue, s.past, if s.id in history then {history[s.id]} else {}
    {
      State(LatestSeq(s.id), if s.id in history then Some(history[s.id].events) else None,
            Sub(s.past.events, s.id in history && history[s.id] == s.past, s.pos, s.phase, s.queue.items,
                s.queue in Registered(s.id), s.replayed, s.delivered))
    }

    constructor ()
      ensures Valid() && streams == map[] && history == map[] && counts == map[] && subs == {}
    {
      streams, history, counts, subs := map[], map[], map[], {};
    }

    /** The next number of a stream. */
    method Number(id: string) returns (n: nat)
      requires Valid()
      modifies `counts
      ensures Valid() && n == old(LatestSeq(id)) + 1 == LatestSeq(id)
      ensures forall s :: s in subs ==>
        StateOf(s) == if s.id == id then old(StateOf(s)).(count := n) else old(StateOf(s))
    {
      hide Valid;
      n := LatestSeq(id) + 1;
      counts := counts[id := n];
    }

    /** Appending to the history list of a stream, which is created if need be:
        every list that is shared with it grows. */
    method Append(id: string, e: Event)
      requires Valid()
      modifies `history, if id in history then {history[id]} else {}
      ensures Valid() && id in history && history[id].events == old(Stored(id)) + [e]
      ensures forall s :: s in subs ==>
        StateOf(s) == if s.id == id then Extended(old(StateOf(s)), e) else old(StateOf(s))
    {
      hide Registered;
      if id !in history {
        var log := new Log();
        history := history[id := log];
      }
      history[id].events := history[id].events + [e];
      forall s | s in subs
        ensures StateOf(s) == if s.id == id then Extended(old(StateOf(s)), e) else old(StateOf(s))
      {
        ghost var was, now := old(StateOf(s)), StateOf(s);
        assert now.sub.(past := was.sub.past) == was.sub;
        if s.id == id {
          assert now.count == was.count;
          ExtendedIs(was, now, e);
        } else {
          assert now.history == was.history;
        }
      }
    }

    /** The first half of a push: the number, and the history with every list
        that is shared with it. */
    method Record(id: string, kind: string, data: string) returns (e: Event)
      requires Valid()
      modifies `history, `counts, if id in history then {history[id]} else {}
      ensures Valid() && e == Event(old(LatestSeq(id)) + 1, kind, data) && LatestSeq(id) == e.num
      ensures id in history && history[id].events == old(Stored(id)) + [e]
      ensures forall s :: s in subs ==>
        StateOf(s) == if s.id == id then Recorded(old(StateOf(s)), e) else old(StateOf(s))
    {
      hide Valid, StateOf, Extended, Recorded, LatestSeq;
      var n := Number(id);
      e := Event(n, kind, data);
      Append(id, e);
      forall s | s in subs
        ensures StateOf(s) == if s.id == id then Recorded(old(StateOf(s)), e) else old(StateOf(s))
      {
        if s.id == id {
          RecordedIs(old(StateOf(s)), e);
        }
      }
    }

    /** Every subscriber of the stream takes the push step, the others are
        untouched. */
    method PushEvent(id: string, kind: string, data: string)
      requires Valid()
      modifies `history, `counts, if id in history then {history[id]} else {}, set q | q in Registered(id)
      ensures Valid() && LatestSeq(id) == old(LatestSeq(id)) + 1
      // The event goes to the history and to every queue of the stream with room for it.
      ensures id in history && history[id].events == old(Stored(id)) + [Event(LatestSeq(id), kind, data)]
      ensures forall q :: q in Registered(id) ==>
        q.items == if |old(q.items)| < 100 then old(q.items) + [Event(LatestSeq(id), kind, data)] else old(q.items)
      ensures forall s :: s in subs ==>
        StateOf(s) == if s.id == id then Step(old(StateOf(s)), Push(kind, data)) else old(StateOf(s))
    {
      hide Step, Offer, Valid, QueuesApart, LogsApart, SubPush, Recorded;
      ValidParts();
      QueuesDiffer(id);
      var e := Record(id, kind, data);
      label Between:
      OfferAll(Registered(id), e);
      ValidParts();
      forall s | s in subs
        ensures StateOf(s) == if s.id == id then Step(old(StateOf(s)), Push(kind, data)) else old(StateOf(s))
      {
        ghost var between, now := old@Between(StateOf(s)), StateOf(s);
        assert now.(sub := now.sub.(queue := between.sub.queue)) == between;
        if s.id == id {
          assert now.sub.queue == if between.sub.registered then Offer(between.sub.queue, e) else between.sub.queue;
          PushStep(old(StateOf(s)), now, e);
        } else {
          assert now.sub.queue == between.sub.queue;
        }
      }
    }

    /** The queue of a new subscriber is registered with its stream, which
        nobody else notices. */
    method Enrol(s: Subscription)
      requires Valid() && s !in subs && forall a :: a in streams ==> s.queue !in streams[a]
      requires forall t :: t in subs ==> t.queue != s.queue
      requires forall a :: a in history && history[a] == s.past ==> a == s.id
      modifies `streams, `subs
      ensures Valid() && subs == old(subs) + {s} && s.queue in Registered(s.id)
      ensures forall t :: t in old(subs) ==> StateOf(t) == old(StateOf(t))
    {
      hide Valid;
      ValidParts();
      NewQueueApart(s.id, s.queue);
      streams := streams[s.id := Registered(s.id) + [s.queue]];
      subs := subs + {s};
      IsValid();
      forall t | t in old(subs) ensures StateOf(t) == old(StateOf(t)) {
        assert t.queue in Registered(t.id) <==> t.queue in old(Registered(t.id));
      }
    }

    lemma NewQueueApart(id: string, queue: Queue)
      requires QueuesApart() && forall a :: a in streams ==> queue !in streams[a]
      ensures ApartIn(streams[id := Registered(id) + [queue]])
    {
    }

    /** A new subscriber joins its stream; nobody else notices. */
    method SubscribeEvents(id: string) returns (s: Subscription)
      requires Valid()
      modifies `streams, `subs
      ensures Valid() && fresh(s) && s.id == id && subs == old(subs) + {s}
      ensures StateOf(s) ==
        var h := if id in history then Some(history[id].events) else None;
        State(LatestSeq(id), h, Join(h))
      ensures forall t :: t in old(subs) ==> StateOf(t) == old(StateOf(t))
    {
      hide Valid, QueuesApart, LogsApart, NoRepeats, Belongs;
      ValidParts();
      var queue := new Queue();
      var past: Log;
      if id in history {
        past := history[id];
      } else {
        past := new Log();
      }
      OnlyOwnLog(past, id);
      s := new Subscription(id, queue, past);
      Enrol(s);
    }

    /** The generator is resumed once. */
    method Resume(s: Subscription)
      requires Valid() && s in subs
      modifies s, s.queue
      ensures Valid() && StateOf(s) == Step(old(StateOf(s)), Next)
      ensures forall t :: t in subs && t != s ==> StateOf(t) == old(StateOf(t))
    {
      hide Valid;
      ValidParts();
      match s.phase {
        case Replaying =>
          if s.pos < |s.past.events| {
            s.replayed := s.replayed + [s.past.events[s.pos]];
            s.pos := s.pos + 1;
          } else {
            s.phase := Live;
          }
        case Live =>
          if s.queue.items != [] {
            s.delivered := s.delivered + [s.queue.items[0]];
            s.queue.items := s.queue.items[1..];
          }
        case Closed =>
      }
    }

    /** History, queues and numbers of the stream are dropped. */
    method ClearEvents(id: string)
      requires Valid()
      modifies `streams, `history, `counts
      ensures Valid()
      ensures forall s :: s in subs ==>
        StateOf(s) == if s.id == id then Step(old(StateOf(s)), Clear) else old(StateOf(s))
    {
      history := history - {id};
      streams := streams - {id};
      counts := counts - {id};
    }

    /** `_event_streams[id].remove(queue)`: raises if the queue is not there;
        looking it up brings a cleared stream back, empty, and a stream left
        without queues is dropped. */
    method RemoveQueue(id: string, queue: Queue) returns (raised: bool)
      requires Valid()
      modifies `streams
      ensures Valid() && (raised <==> queue !in old(Registered(id)))
      ensures forall q :: q in Registered(id) <==> q in old(Registered(id)) && q != queue
      ensures forall a :: a != id ==> Registered(a) == old(Registered(a))
      ensures id in streams <==> raised || |old(Registered(id))| > 1
    {
      hide Valid, NoRepeats, LogsApart, QueuesApart;
      var queues := Registered(id);
      ValidParts();
      QueuesDiffer(id);
      ghost var before := streams;
      assert ApartIn(before) by { ApartNow(); }
      var k := 0;
      while k < |queues| && queues[k] != queue
        invariant 0 <= k <= |queues|
        invariant queue !in queues[..k]
      {
        k := k + 1;
      }
      raised := k == |queues|;
      var left := if raised then queues else queues[..k] + queues[k + 1..];
      WithoutOne(queues, queue, k, left);
      streams := if left == [] && !raised then streams - {id} else streams[id := left];
      StillApart(before, id);
      IsValid();
    }

    /** The generator is closed; that raises exactly after a clear. */
    method Close(s: Subscription) returns (raised: bool)
      requires Valid() && s in subs && s.phase != Closed
      modifies `streams, s`phase
      ensures Valid()
      ensures raised <==> !old(StateOf(s)).sub.registered
      ensures StateOf(s) == old(StateOf(s)).(sub := old(StateOf(s)).sub.(phase := Closed, registered := false))
      ensures forall t :: t in subs && t != s ==> StateOf(t) == old(StateOf(t))
      ensures s.id in streams <==> raised || |old(Registered(s.id))| > 1
    {
      hide Valid, Registered;
      ValidParts();
      s.phase := Closed;
      raised := RemoveQueue(s.id, s.queue);
    }
  }

  /** Taking the `k`-th queue out of a list without repetitions. */
  lemma WithoutOne(queues: seq<Queue>, queue: Queue, k: nat, left: seq<Queue>)
    requires NoRepeats(queues) && k <= |queues| && queue !in queues[..k]
    requires k < |queues| ==> queues[k] == queue
    requires left == if k == |queues| then queues else queues[..k] + queues[k + 1..]
    ensures NoRepeats(left) && forall q :: q in left <==> q in queues && q != queue
    ensures queue in queues <==> k < |queues|
  {
    if k < |queues| {
      assert queues == queues[..k] + [queue] + queues[k + 1..];
      assert forall j :: k < j < |queues| ==> queues[j] != queue;
    } else {
      assert queues[..k] == queues;
    }
  }

  /** The history grows, and with it the list of a subscriber that shares it. */
  function Extended(st: State, e: Event): State {
    State(st.count, Some(Replay.History(st) + [e]),
          st.sub.(past := if st.sub.shared then st.sub.past + [e] else st.sub.past))
  }

  lemma ExtendedIs(was: State, now: State, e: Event)
    requires now.sub.(past := was.sub.past) == was.sub && now.count == was.count
    requires now.history == Some(Replay.History(was) + [e])
    requires now.sub.past == if was.sub.shared then was.sub.past + [e] else was.sub.past
    ensures now == Extended(was, e)
  {
  }

  /** A push before it reaches the queues. */
  function Recorded(st: State, e: Event): State {
    State(e.num, Some(Replay.History(st) + [e]),
          st.sub.(past := if st.sub.shared then st.sub.past + [e] else st.sub.past))
  }

  lemma RecordedIs(was: State, e: Event)
    ensures Extended(was.(count := e.num), e) == Recorded(was, e)
  {
  }

  lemma PushStep(before: State, after: State, e: Event)
    requires e.num == before.count + 1
    requires var r := Recorded(before, e);
      after == r.(sub := r.sub.(queue := if r.sub.registered then Offer(r.sub.queue, e) else r.sub.queue))
    ensures after == Step(before, Push(e.kind, e.data))
  {
  }

  /** The loop of `push_event` over the queues. */
  method OfferAll(queues: seq<Queue>, e: Event)
    requires NoRepeats(queues)
    modifies set q | q in queues
    ensures forall q :: q in queues ==> q.items == Offer(old(q.items), e)
    ensures forall q :: q in queues ==> q.items == if |old(q.items)| < 100 then old(q.items) + [e] else old(q.items)
  {
    var k := 0;
    while k < |queues|
      invariant 0 <= k <= |queues|
      invariant forall j :: 0 <= j < k ==> queues[j].items == Offer(old(queues[j].items), e)
      invariant forall j :: k <= j < |queues| ==> queues[j].items == old(queues[j].items)
    {
      if |queues[k].items| < CAPACITY {
        queues[k].items := queues[k].items + [e];
      }
      k := k + 1;
    }
  }

  ghost predicate ApartIn(streams: map<string, seq<Queue>>) {
    && (forall a, b, q :: a in streams && b in streams && a != b && q in streams[a] ==> q !in streams[b])
    && (forall a :: a in streams ==> NoRepeats(streams[a]))
  }

  ghost predicate NoRepeats(qs: seq<Queue>) {
    forall i, j :: 0 <= i < j < |qs| ==> qs[i] != qs[j]
  }
}
