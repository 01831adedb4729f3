/** Live event delivery: subscribers of an execution get exactly the events broadcast while they are subscribed. */
module EventBroadcast {
  import opened Graph
  import opened RunLoop

  type ExecutionId = nat
  type QueueId = nat

  /** `subscribers` lists each execution's queues; `queues` holds what every queue ever received. */
  datatype Hub = Hub(subscribers: map<ExecutionId, seq<QueueId>>, queues: seq<seq<Event>>)

  datatype Op = Subscribe(e: ExecutionId) | Unsubscribe(e: ExecutionId, q: QueueId) | Broadcast(e: ExecutionId, event: Event)

  function SubscribersOf(hub: Hub, e: ExecutionId): seq<QueueId> {
    if e in hub.subscribers then hub.subscribers[e] else []
  }

  /** `list.remove`: the first occurrence goes. */
  function Remove(s: seq<QueueId>, q: QueueId): seq<QueueId> {
    if s == [] then [] else if s[0] == q then s[1..] else [s[0]] + Remove(s[1..], q)
  }

  function Put(queues: seq<seq<Event>>, q: QueueId, event: Event): seq<seq<Event>> {
    if q < |queues| then queues[q := queues[q] + [event]] else queues
  }

  function PutAll(queues: seq<seq<Event>>, qs: seq<QueueId>, event: Event): seq<seq<Event>> {
    if qs == [] then queues else Put(PutAll(queues, qs[..|qs| - 1], event), qs[|qs| - 1], event)
  }

  function Step(hub: Hub, op: Op): Hub {
    match op
    case Subscribe(e) =>
      Hub(hub.subscribers[e := SubscribersOf(hub, e) + [|hub.queues|]], hub.queues + [[]])
    case Unsubscribe(e, q) =>
      if e !in hub.subscribers then hub
      else
        var left := Remove(hub.subscribers[e], q);
        hub.(subscribers := if left == [] then hub.subscribers - {e} else hub.subscribers[e := left])
    case Broadcast(e, event) => hub.(queues := PutAll(hub.queues, SubscribersOf(hub, e), event))
  }

  function Run(ops: seq<Op>): Hub {
    if ops == [] then Hub(map[], []) else Step(Run(ops[..|ops| - 1]), ops[|ops| - 1])
  }

  class Broadcaster {
    var subscribers: map<ExecutionId, seq<QueueId>>
    var queues: seq<seq<Event>>

    function State(): Hub
      reads this
    {
      Hub(subscribers, queues)
    }

    method SubscribeWs(e: ExecutionId) returns (q: QueueId)
      modifies this
      ensures q == |old(queues)| && State() == Step(old(State()), Subscribe(e))
    {
      if e !in subscribers {
        subscribers := subscribers[e := []];
      }
      q := |queues|;
      queues := queues + [[]];
      subscribers := subscribers[e := subscribers[e] + [q]];
    }

    method UnsubscribeWs(e: ExecutionId, q: QueueId)
      modifies this
      ensures State() == Step(old(State()), Unsubscribe(e, q))
    {
      if e in subscribers {
        subscribers := subscribers[e := Remove(subscribers[e], q)];
        if subscribers[e] == [] {
          subscribers := subscribers - {e};
        }
      }
    }

    method BroadcastWs(e: ExecutionId, event: Event)
      modifies this
      ensures State() == Step(old(State()), Broadcast(e, event))
    {
      var targets := if e in subscribers then subscribers[e] else [];
      for i := 0 to |targets|
        invariant subscribers == old(subscribers)
        invariant queues == PutAll(old(queues), targets[..i], event)
      {
        assert targets[..i + 1][..i] == targets[..i];
        queues := Put(queues, targets[i], event);
      }
      assert targets[..|targets|] == targets;
    }
  }

  // ---------------------------------------------------------------- the reference: reading the history

  function Subscriptions(ops: seq<Op>): nat {
    if ops == [] then 0 else Subscriptions(ops[..|ops| - 1]) + if ops[|ops| - 1].Subscribe? then 1 else 0
  }

  /** Queue q was opened for execution e and has not been taken off again. */
  predicate Listening(ops: seq<Op>, e: ExecutionId, q: QueueId) {
    ops != [] &&
    var init, op := ops[..|ops| - 1], ops[|ops| - 1];
    match op
    case Subscribe(e') => (e == e' && q == Subscriptions(init)) || Listening(init, e, q)
    case Unsubscribe(e', q') => !(e == e' && q == q') && Listening(init, e, q)
    case Broadcast(_, _) => Listening(init, e, q)
  }

  /** What queue q should hold: the events broadcast, in order, while it was listening. */
  function Expected(ops: seq<Op>, q: QueueId): seq<Event> {
    if ops == [] then []
    else
      var init, op := ops[..|ops| - 1], ops[|ops| - 1];
      if op.Broadcast? && Listening(init, op.e, q) then Expected(init, q) + [op.event] else Expected(init, q)
  }

  lemma {:induction false} PutAllReachesEach(queues: seq<seq<Event>>, qs: seq<QueueId>, event: Event)
    requires Distinct(qs)
    ensures |PutAll(queues, qs, event)| == |queues|
    ensures forall q :: 0 <= q < |queues| ==>
      PutAll(queues, qs, event)[q] == if q in qs then queues[q] + [event] else queues[q]
    decreases |qs|
  {
    if qs != [] {
      var init, last := qs[..|qs| - 1], qs[|qs| - 1];
      PutAllReachesEach(queues, init, event);
      assert forall q :: q in qs <==> q in init || q == last;
      assert last !in init;
    }
  }

  lemma {:induction false} RemoveMembers(s: seq<QueueId>, q: QueueId)
    requires Distinct(s)
    ensures Distinct(Remove(s, q)) && forall x :: x in Remove(s, q) <==> x in s && x != q
    decreases |s|
  {
    if s != [] {
      RemoveMembers(s[1..], q);
      assert s == [s[0]] + s[1..];
      assert s[0] !in s[1..];
      var r := Remove(s[1..], q);
      assert s[0] !in r;
    }
  }

  lemma ReadOneMore(ops: seq<Op>, op: Op)
    ensures Subscriptions(ops + [op]) == Subscriptions(ops) + if op.Subscribe? then 1 else 0
    ensures forall q ::
              Expected(ops + [op], q)
              == if op.Broadcast? && Listening(ops, op.e, q) then Expected(ops, q) + [op.event] else Expected(ops, q)
    ensures forall e, q ::
              Listening(ops + [op], e, q)
              <==> (match op
                    case Subscribe(e') => (e == e' && q == Subscriptions(ops)) || Listening(ops, e, q)
                    case Unsubscribe(e', q') => !(e == e' && q == q') && Listening(ops, e, q)
                    case Broadcast(_, _) => Listening(ops, e, q))
  {
    assert (ops + [op])[..|ops + [op]| - 1] == ops;
  }

  lemma SubscribersAfter(hub: Hub, op: Op, x: ExecutionId)
    ensures SubscribersOf(Step(hub, op), x) ==
      match op
      case Subscribe(e) => if x == e then SubscribersOf(hub, e) + [|hub.queues|] else SubscribersOf(hub, x)
      case Unsubscribe(e, q) => if x == e then Remove(SubscribersOf(hub, e), q) else SubscribersOf(hub, x)
      case Broadcast(_, _) => SubscribersOf(hub, x)
  {
  }

  ghost predicate ListsFaithful(hub: Hub, ops: seq<Op>) {
    forall e ::
      && Distinct(SubscribersOf(hub, e))
      && forall q: QueueId :: q in SubscribersOf(hub, e) <==> Listening(ops, e, q)
  }

  ghost predicate QueuesFaithful(hub: Hub, ops: seq<Op>) {
    && |hub.queues| == Subscriptions(ops)
    && forall q :: 0 <= q < |hub.queues| ==> hub.queues[q] == Expected(ops, q)
  }

  ghost predicate Faithful(hub: Hub, ops: seq<Op>) {
    ListsFaithful(hub, ops) && QueuesFaithful(hub, ops)
  }

  lemma SubscribeMembers(s: seq<QueueId>, q: QueueId)
    requires Distinct(s) && q !in s
    ensures Distinct(s + [q]) && forall x :: x in s + [q] <==> x in s || x == q
  {
  }

  lemma ListStepAt(hub: Hub, ops: seq<Op>, op: Op, x: ExecutionId)
    requires ListsFaithful(hub, ops) && |hub.queues| == Subscriptions(ops)
    ensures Distinct(SubscribersOf(Step(hub, op), x))
    ensures forall q: QueueId :: q in SubscribersOf(Step(hub, op), x) <==> Listening(ops + [op], x, q)
  {
    var list := SubscribersOf(hub, x);
    assert Distinct(list) && forall q: QueueId :: q in list <==> Listening(ops, x, q);
    hide ListsFaithful;
    ReadOneMore(ops, op);
    SubscribersAfter(hub, op, x);
    UnopenedIsEmpty(ops, |hub.queues|);
    hide Expected, Listening, Step, SubscribersOf, Remove, Distinct, Subscriptions;
    match op
    case Subscribe(e) =>
      SubscribeMembers(list, |hub.queues|);
    case Unsubscribe(e, q) =>
      RemoveMembers(list, q);
    case Broadcast(_, _) =>
  }

  lemma ListsStep(hub: Hub, ops: seq<Op>, op: Op)
    requires Faithful(hub, ops)
    ensures ListsFaithful(Step(hub, op), ops + [op])
  {
    hide Expected, Listening, Step, SubscribersOf, Distinct;
    forall x
      ensures Distinct(SubscribersOf(Step(hub, op), x))
      ensures forall q: QueueId :: q in SubscribersOf(Step(hub, op), x) <==> Listening(ops + [op], x, q)
    {
      hide ListsFaithful;
      ListStepAt(hub, ops, op, x);
    }
  }

  lemma QueuesStep(hub: Hub, ops: seq<Op>, op: Op)
    requires Faithful(hub, ops)
    ensures QueuesFaithful(Step(hub, op), ops + [op])
  {
    ReadOneMore(ops, op);
    UnopenedIsEmpty(ops, |hub.queues|);
    if op.Broadcast? {
      PutAllReachesEach(hub.queues, SubscribersOf(hub, op.e), op.event);
    }
    hide Expected, Listening, SubscribersOf, PutAll;
  }

  lemma StepFaithful(hub: Hub, ops: seq<Op>, op: Op)
    requires Faithful(hub, ops)
    ensures Faithful(Step(hub, op), ops + [op])
  {
    hide Step;
    ListsStep(hub, ops, op);
    QueuesStep(hub, ops, op);
  }

  lemma {:induction false} UnopenedIsEmpty(ops: seq<Op>, q: QueueId)
    requires q >= Subscriptions(ops)
    ensures Expected(ops, q) == [] && forall e :: !Listening(ops, e, q)
    decreases |ops|
  {
    if ops != [] {
      UnopenedIsEmpty(ops[..|ops| - 1], q);
    }
  }

  /** Over every sequence of subscriptions, cancellations and broadcasts, every queue holds exactly
      the events broadcast while it was listening, in order. */
  lemma {:induction false} QueuesHoldWhatWasBroadcast(ops: seq<Op>, q: QueueId)
    ensures Faithful(Run(ops), ops)
    ensures q < |Run(ops).queues| ==> Run(ops).queues[q] == Expected(ops, q)
    decreases |ops|
  {
    if ops != [] {
      QueuesHoldWhatWasBroadcast(ops[..|ops| - 1], q);
      StepFaithful(Run(ops[..|ops| - 1]), ops[..|ops| - 1], ops[|ops| - 1]);
      assert ops == ops[..|ops| - 1] + [ops[|ops| - 1]];
    }
  }
}
