/** The detector's bounded fan-out: every subscriber owns a queue of at most 100 events; a broadcast
    appends to every queue and drops the subscribers whose queue is full. */
module Fanout {

  const QUEUE_LIMIT := 100

  /** Subscribers and their queues. A queue outlives its subscription, because the stream that owns it
      may still drain it. `history`, `joined` and `received` record what was broadcast, how many events
      had been broadcast when a queue was created, and what its owner has taken from it. */
  datatype Fan<E> = Fan(subscribers: set<nat>, queues: map<nat, seq<E>>, nextId: nat,
                        history: seq<E>, joined: map<nat, nat>, received: map<nat, seq<E>>)

  datatype Op<E> = Subscribe | Unsubscribe(id: nat) | Broadcast(event: E) | Get(id: nat)

  function Empty<E>(): Fan<E> { Fan({}, map[], 0, [], map[], map[]) }

  predicate HasRoom<E>(f: Fan<E>, id: nat) { id in f.queues && |f.queues[id]| < QUEUE_LIMIT }

  function DoSubscribe<E>(f: Fan<E>): Fan<E> {
    f.(subscribers := f.subscribers + {f.nextId}, nextId := f.nextId + 1, queues := f.queues[f.nextId := []],
       joined := f.joined[f.nextId := |f.history|], received := f.received[f.nextId := []])
  }

  /** The queues while a broadcast has still to visit the subscribers in `todo`. */
  function Offered<E>(f: Fan<E>, event: E, todo: set<nat>): map<nat, seq<E>> {
    map id | id in f.queues ::
      if id in f.subscribers && id !in todo && HasRoom(f, id) then f.queues[id] + [event] else f.queues[id]
  }

  function DoBroadcast<E>(f: Fan<E>, event: E): Fan<E> {
    f.(queues := Offered(f, event, {}),
       subscribers := (set id | id in f.subscribers && HasRoom(f, id)),
       history := f.history + [event])
  }

  /** Visiting one more subscriber. */
  lemma OfferOne<E>(f: Fan<E>, event: E, todo: set<nat>, q: nat)
    requires q in todo && todo <= f.subscribers && q in f.queues
    ensures Offered(f, event, todo)[q] == f.queues[q]
    ensures Offered(f, event, todo - {q}) ==
      if HasRoom(f, q) then Offered(f, event, todo)[q := f.queues[q] + [event]] else Offered(f, event, todo)
  {
  }

  /** `queue.get()`; on an empty queue the stream only sends a keep-alive comment. */
  function DoGet<E>(f: Fan<E>, id: nat): Fan<E> {
    if id !in f.queues || id !in f.received || f.queues[id] == [] then f
    else f.(queues := f.queues[id := f.queues[id][1..]],
            received := f.received[id := f.received[id] + [f.queues[id][0]]])
  }

  function Step<E>(f: Fan<E>, op: Op<E>): Fan<E> {
    match op
    case Subscribe => DoSubscribe(f)
    case Unsubscribe(id) => f.(subscribers := f.subscribers - {id})
    case Broadcast(event) => DoBroadcast(f, event)
    case Get(id) => DoGet(f, id)
  }

  function Run<E>(ops: seq<Op<E>>): Fan<E> {
    if ops == [] then Empty() else Step(Run(ops[..|ops| - 1]), ops[|ops| - 1])
  }

  /** What the owner of queue `id` has taken plus what is waiting for it. */
  function Seen<E>(f: Fan<E>, id: nat): seq<E>
    requires id in f.queues && id in f.received
  {
    f.received[id] + f.queues[id]
  }

  /** Queue `id` is bounded, what its owner has seen is a contiguous run of the history that begins at its
      subscription, and while it is subscribed it is the whole history since then. */
  ghost predicate NoGapsFor<E>(f: Fan<E>, id: nat) {
    && id in f.queues && id in f.joined && id in f.received
    && |f.queues[id]| <= 100
    && f.joined[id] + |Seen(f, id)| <= |f.history|
    && Seen(f, id) == f.history[f.joined[id]..f.joined[id] + |Seen(f, id)|]
    && (id in f.subscribers ==> Seen(f, id) == f.history[f.joined[id]..])
  }

  ghost predicate NoGaps<E>(f: Fan<E>) {
    && (forall id :: id in f.queues ==> id < f.nextId && NoGapsFor(f, id))
    && (forall id :: id in f.subscribers ==> id in f.queues)
    && f.received.Keys == f.queues.Keys
  }

  lemma BroadcastNoGapsFor<E>(f: Fan<E>, event: E, id: nat)
    requires NoGapsFor(f, id)
    ensures NoGapsFor(DoBroadcast(f, event), id)
  {
    var g := DoBroadcast(f, event);
    var j, n := f.joined[id], |Seen(f, id)|;
    assert g.history[j..j + n] == f.history[j..j + n];
    if id in f.subscribers && HasRoom(f, id) {
      assert Seen(g, id) == Seen(f, id) + [event];
      assert g.history[j..] == f.history[j..] + [event];
      assert g.history[j..j + n + 1] == g.history[j..];
    } else {
      assert Seen(g, id) == Seen(f, id);
    }
  }

  lemma BroadcastNoGaps<E>(f: Fan<E>, event: E)
    requires NoGaps(f)
    ensures NoGaps(DoBroadcast(f, event))
  {
    forall id | id in f.queues ensures NoGapsFor(DoBroadcast(f, event), id) {
      BroadcastNoGapsFor(f, event, id);
    }
  }

  lemma GetNoGaps<E>(f: Fan<E>, id: nat)
    requires NoGaps(f)
    ensures NoGaps(DoGet(f, id))
  {
    var g := DoGet(f, id);
    forall k | k in g.queues ensures NoGapsFor(g, k) {
      assert NoGapsFor(f, k);
      assert Seen(g, k) == Seen(f, k);
    }
  }

  lemma SubscribeNoGaps<E>(f: Fan<E>)
    requires NoGaps(f)
    ensures NoGaps(DoSubscribe(f))
  {
    var g := DoSubscribe(f);
    forall k | k in g.queues ensures NoGapsFor(g, k) {
      if k == f.nextId {
        assert Seen(g, k) == [];
      } else {
        assert NoGapsFor(f, k);
        assert Seen(g, k) == Seen(f, k);
      }
    }
  }

  lemma UnsubscribeNoGaps<E>(f: Fan<E>, id: nat)
    requires NoGaps(f)
    ensures NoGaps(f.(subscribers := f.subscribers - {id}))
  {
    var g := f.(subscribers := f.subscribers - {id});
    forall k | k in g.queues ensures NoGapsFor(g, k) {
      assert NoGapsFor(f, k);
      assert Seen(g, k) == Seen(f, k);
    }
  }

  lemma StepNoGaps<E>(f: Fan<E>, op: Op<E>)
    requires NoGaps(f)
    ensures NoGaps(Step(f, op))
  {
    match op
    case Broadcast(event) => BroadcastNoGaps(f, event);
    case Get(id) => GetNoGaps(f, id);
    case Subscribe => SubscribeNoGaps(f);
    case Unsubscribe(id) => UnsubscribeNoGaps(f, id);
  }

  /** Subscribers see no gaps, under any interleaving of subscriptions, broadcasts and reads. */
  lemma {:induction false} SubscribersSeeNoGaps<E>(ops: seq<Op<E>>)
    ensures NoGaps(Run(ops))
  {
    if ops != [] {
      SubscribersSeeNoGaps(ops[..|ops| - 1]);
      StepNoGaps(Run(ops[..|ops| - 1]), ops[|ops| - 1]);
    }
  }

  // ---------------------------------------------------------------- what streams deliver

  /** The events that the reads of queue `id` have returned. */
  function Delivered<E>(ops: seq<Op<E>>, id: nat): seq<E> {
    if ops == [] then []
    else
      var init := ops[..|ops| - 1];
      var f := Run(init);
      if ops[|ops| - 1] == Get(id) && id in f.queues && f.queues[id] != []
      then Delivered(init, id) + [f.queues[id][0]] else Delivered(init, id)
  }

  lemma FreshUntouched<E>(f: Fan<E>, op: Op<E>, id: nat)
    requires NoGaps(f) && id in Step(f, op).queues && id !in f.queues
    ensures op == Subscribe && id == f.nextId && Step(f, op).received[id] == []
  {
  }

  lemma {:induction false} NothingBefore<E>(ops: seq<Op<E>>, id: nat)
    requires id !in Run(ops).queues
    ensures Delivered(ops, id) == []
  {
    if ops != [] {
      SubscribersSeeNoGaps(ops[..|ops| - 1]);
      NothingBefore(ops[..|ops| - 1], id);
    }
  }

  lemma StepDelivers<E>(f: Fan<E>, op: Op<E>, id: nat)
    requires NoGaps(f) && id in f.queues && id in f.received
    ensures id in Step(f, op).received
    ensures Step(f, op).received[id]
         == if op == Get(id) && f.queues[id] != [] then f.received[id] + [f.queues[id][0]] else f.received[id]
  {
  }

  /** A read hands over the oldest event of its queue and takes it out of the queue: what was taken from a queue is
      what its reads have returned. */
  lemma {:induction false} ReceivedIsDelivered<E>(ops: seq<Op<E>>, id: nat)
    requires id in Run(ops).queues
    ensures id in Run(ops).received && Run(ops).received[id] == Delivered(ops, id)
  {
    var init, op := ops[..|ops| - 1], ops[|ops| - 1];
    SubscribersSeeNoGaps(init);
    if id in Run(init).queues {
      ReceivedIsDelivered(init, id);
      StepDelivers(Run(init), op, id);
    } else {
      FreshUntouched(Run(init), op, id);
      NothingBefore(init, id);
    }
  }

  /** The reads of a queue return the events broadcast since its subscription one after the other: none is skipped,
      none is returned twice. */
  lemma ReadsInOrder<E>(ops: seq<Op<E>>, id: nat)
    requires id in Run(ops).queues
    ensures
      var f, n := Run(ops), |Delivered(ops, id)|;
      && id in f.joined && f.joined[id] + n <= |f.history|
      && Delivered(ops, id) == f.history[f.joined[id]..f.joined[id] + n]
  {
    SubscribersSeeNoGaps(ops);
    ReceivedIsDelivered(ops, id);
    TakenFromHistory(Run(ops), id);
  }

  lemma TakenFromHistory<E>(f: Fan<E>, id: nat)
    requires NoGaps(f) && id in f.queues
    ensures id in f.joined && id in f.received && f.joined[id] + |f.received[id]| <= |f.history|
    ensures f.received[id] == f.history[f.joined[id]..f.joined[id] + |f.received[id]|]
  {
    assert NoGapsFor(f, id);
    TakenFirst(f.received[id], f.queues[id], f.history, f.joined[id]);
  }

  lemma TakenFirst<E>(taken: seq<E>, waiting: seq<E>, history: seq<E>, j: nat)
    requires j + |taken + waiting| <= |history| && taken + waiting == history[j..j + |taken + waiting|]
    ensures j + |taken| <= |history| && taken == history[j..j + |taken|]
  {
    var n := |taken|;
    assert taken == (taken + waiting)[..n];
    assert history[j..j + |taken + waiting|][..n] == history[j..j + n];
  }

  lemma DroppedStep<E>(f: Fan<E>, op: Op<E>, id: nat)
    requires NoGapsFor(f, id) && id in f.subscribers
    ensures id !in Step(f, op).subscribers <==> op == Unsubscribe(id) || (op.Broadcast? && |f.queues[id]| == 100)
  {
  }

  /** A subscription ends exactly by its own unsubscribe, or by a broadcast that finds 100 events queued. */
  lemma DroppedOnlyWhenFull<E>(ops: seq<Op<E>>, id: nat)
    requires ops != [] && id in Run(ops[..|ops| - 1]).subscribers
    ensures
      var before, op := Run(ops[..|ops| - 1]), ops[|ops| - 1];
      && id in before.queues
      && (id !in Run(ops).subscribers <==> op == Unsubscribe(id) || (op.Broadcast? && |before.queues[id]| == 100))
  {
    var before := Run(ops[..|ops| - 1]);
    SubscribersSeeNoGaps(ops[..|ops| - 1]);
    assert NoGapsFor(before, id);
    DroppedStep(before, ops[|ops| - 1], id);
  }

  lemma EndedStep<E>(f: Fan<E>, op: Op<E>, id: nat)
    requires NoGaps(f) && id in f.queues && id !in f.subscribers
    ensures id in Step(f, op).queues && id in Step(f, op).received && id !in Step(f, op).subscribers
    ensures Seen(Step(f, op), id) == Seen(f, id)
  {
  }

  /** After the end of its subscription a queue gets no further event, whatever follows: it can only be drained. */
  lemma {:induction false} EndedStaysEnded<E>(before: seq<Op<E>>, after: seq<Op<E>>, id: nat)
    requires id in Run(before).queues && id !in Run(before).subscribers
    ensures
      var f, g := Run(before), Run(before + after);
      && id in f.received && id in g.queues && id in g.received && id !in g.subscribers
      && Seen(g, id) == Seen(f, id)
  {
    SubscribersSeeNoGaps(before);
    if after == [] {
      assert before + after == before;
    } else {
      var n := |after| - 1;
      EndedStaysEnded(before, after[..n], id);
      assert (before + after)[..|before + after| - 1] == before + after[..n];
      SubscribersSeeNoGaps(before + after[..n]);
      EndedStep(Run(before + after[..n]), after[n], id);
    }
  }

  /** The mutable fan-out of the detector object. */
  class Hub<E> {
    var subscribers: set<nat>
    var queues: map<nat, seq<E>>
    var nextId: nat
    ghost var history: seq<E>
    ghost var joined: map<nat, nat>
    ghost var received: map<nat, seq<E>>

    ghost function Abs(): Fan<E>
      reads this
    {
      Fan(subscribers, queues, nextId, history, joined, received)
    }

    ghost predicate Valid()
      reads this
    {
      NoGaps(Abs())
    }

    constructor ()
      ensures Valid() && Abs() == Empty()
    {
      subscribers, queues, nextId := {}, map[], 0;
      history, joined, received := [], map[], map[];
    }

    method Subscribe() returns (id: nat)
      requires Valid()
      modifies this
      ensures Valid() && Abs() == DoSubscribe(old(Abs()))
      ensures id in subscribers && id !in old(queues)
    {
      ghost var f := Abs();
      SubscribeNoGaps(f);
      id := nextId;
      nextId := nextId + 1;
      queues := queues[id := []];
      subscribers := subscribers + {id};
      joined := joined[id := |history|];
      received := received[id := []];
      assert Abs() == DoSubscribe(f);
    }

    method Unsubscribe(id: nat)
      requires Valid()
      modifies this
      ensures Valid() && Abs() == Step(old(Abs()), Op.Unsubscribe(id))
    {
      UnsubscribeNoGaps(Abs(), id);
      subscribers := subscribers - {id};
    }

    method Broadcast(event: E)
      requires Valid()
      modifies this
      ensures Valid() && Abs() == DoBroadcast(old(Abs()), event)
    {
      BroadcastNoGaps(Abs(), event);
      ghost var f := Abs();
      var dead := Offer(event);
      subscribers := subscribers - dead;
      history := history + [event];
      assert subscribers == DoBroadcast(f, event).subscribers;
    }

    /** `put_nowait` on every subscriber's queue; the result are the subscribers whose queue is full. */
    method Offer(event: E) returns (dead: set<nat>)
      requires subscribers <= queues.Keys
      modifies this`queues
      ensures queues == Offered(old(Abs()), event, {})
      ensures forall id :: id in dead <==> id in subscribers && !HasRoom(old(Abs()), id)
    {
      ghost var f := Abs();
      dead := {};
      var todo := subscribers;
      assert queues == Offered(f, event, todo);
      while todo != {}
        invariant todo <= subscribers
        invariant queues == Offered(f, event, todo)
        invariant forall id :: id in dead <==> id in subscribers && id !in todo && !HasRoom(f, id)
        decreases todo
      {
        var q :| q in todo;
        OfferOne(f, event, todo, q);
        todo := todo - {q};
        if |queues[q]| < QUEUE_LIMIT {
          queues := queues[q := queues[q] + [event]];
        } else {
          dead := dead + {q};
        }
      }
    }

    method Get(id: nat) returns (event: seq<E>)
      requires Valid() && id in queues
      modifies this
      ensures Valid() && Abs() == DoGet(old(Abs()), id)
      ensures event == if old(queues[id]) == [] then [] else [old(queues[id])[0]]
    {
      GetNoGaps(Abs(), id);
      if queues[id] == [] { return []; }
      event := [queues[id][0]];
      received := received[id := received[id] + event];
      queues := queues[id := queues[id][1..]];
    }
  }
}
