/** From the run to the subscriber: what a queue holds that was open for a whole run. */
module LiveStream {
  import opened Common
  import opened Graph
  import opened RunLoop
  import RunTheorems
  import Hub = EventBroadcast

  /** The events broadcast for an execution. */
  function BroadcastFor(ops: seq<Hub.Op>, e: Hub.ExecutionId): seq<Event> {
    if ops == [] then []
    else
      var op := ops[|ops| - 1];
      BroadcastFor(ops[..|ops| - 1], e) + if op.Broadcast? && op.e == e then [op.event] else []
  }

  /** A queue opened for an execution and not taken off again listens to that execution alone, and holds
      what was broadcast for it since. */
  lemma {:induction false} OpenQueueHolds(before: seq<Hub.Op>, e: Hub.ExecutionId, during: seq<Hub.Op>)
    requires forall op :: op in during ==> op != Hub.Unsubscribe(e, Hub.Subscriptions(before))
    ensures
      var q, ops := Hub.Subscriptions(before), before + [Hub.Subscribe(e)] + during;
      && Hub.Subscriptions(ops) > q
      && (forall x :: Hub.Listening(ops, x, q) <==> x == e)
      && Hub.Expected(ops, q) == BroadcastFor(during, e)
    decreases |during|
  {
    hide Hub.Expected, Hub.Listening, Hub.Subscriptions;
    var q, joined := Hub.Subscriptions(before), before + [Hub.Subscribe(e)];
    if during == [] {
      Hub.UnopenedIsEmpty(before, q);
      Hub.ReadOneMore(before, Hub.Subscribe(e));
      assert joined + during == joined;
    } else {
      var init, op := during[..|during| - 1], during[|during| - 1];
      assert op in during && forall x :: x in init ==> x in during;
      OpenQueueHolds(before, e, init);
      Hub.ReadOneMore(joined + init, op);
      assert joined + during == joined + init + [op];
    }
  }

  /** Whoever is subscribed for a whole run, among any other subscriptions and runs, receives the well-formed
      stream: the paired events of the completed steps, then perhaps an open step, perhaps an error, and the
      one final event. */
  lemma SubscriberReceivesRun(before: seq<Hub.Op>, e: Hub.ExecutionId, during: seq<Hub.Op>,
                              job: Job, start: seq<Id>, processed: seq<Id>, left: seq<Id>, done: seq<LogRow>, run: Run, tail: Tail)
    requires forall op :: op in during ==> op != Hub.Unsubscribe(e, Hub.Subscriptions(before))
    requires Concluded(job, start, processed, left, done, run, tail, true) && BroadcastFor(during, e) == run.events
    ensures
      var q, hub := Hub.Subscriptions(before), Hub.Run(before + [Hub.Subscribe(e)] + during);
      && q < |hub.queues| && hub.queues[q] == run.events == StepEvents(done) + tail.Events(|done|)
      && tail.last.Some? && tail.last.value.ExecutionComplete? && tail.last.value.status == run.status
  {
    var q, ops := Hub.Subscriptions(before), before + [Hub.Subscribe(e)] + during;
    RunTheorems.StreamIsWellFormed(job, start, processed, left, done, run, tail);
    OpenQueueHolds(before, e, during);
    Hub.QueuesHoldWhatWasBroadcast(ops, q);
    hide Concluded, Hub.Expected, Hub.Listening, Hub.Subscriptions, Hub.Run, StepEvents, Hub.ListsFaithful;
  }
}
