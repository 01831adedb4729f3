/** Admission of executions under the tenant row lock: acquire, check the budget, count, insert, commit,
    interleaved with other requests, with completions, and with retries that bypass admission. */
module Admission {
  import opened Common

  type Request = nat

  /** A direct `create_execution`, or an `ingest_webhook` that only queues. */
  datatype Kind = Direct | Webhook

  const WEBHOOK_BACKLOG_MULTIPLIER := 10

  function PlanLimit(plan: string): nat {
    if plan == "pro" then 5 else if plan == "team" then 20 else 1
  }

  function Cap(kind: Kind, limit: nat): nat {
    match kind
    case Direct => limit
    case Webhook => limit * WEBHOOK_BACKLOG_MULTIPLIER
  }

  /** How far the request that holds the row lock has come. A count remembers how many rows had
      bypassed admission when it was taken. */
  datatype Phase = Locked | Checked | Counted(n: nat, bypassedThen: nat)

  datatype Holder = Holder(request: Request, kind: Kind, phase: Phase)

  /** `active` are the tenant's pending and running executions; `bypassed` counts the rows inserted
      so far by retry scheduling, which asks no one. */
  datatype Tenant = Tenant(limit: nat, budgetLeft: bool, active: nat, holder: Option<Holder>, bypassed: nat)

  datatype Step =
    | Acquire(request: Request, kind: Kind)
    | CheckBudget
    | Count
    | InsertOrReject
    | Abort
    | Complete
    | Bypass
    | SpendBudget(left: bool)

  /** One step of the holder or of the surroundings; a step that is not enabled changes nothing. */
  function Next(t: Tenant, step: Step): Tenant {
    match step
    case Acquire(request, kind) =>
      if t.holder.None? then t.(holder := Some(Holder(request, kind, Locked))) else t
    case CheckBudget =>
      if t.holder.Some? && t.holder.value.phase.Locked? then
        if t.budgetLeft then t.(holder := Some(t.holder.value.(phase := Checked))) else t.(holder := None)
      else t
    case Count =>
      if t.holder.Some? && t.holder.value.phase.Checked?
      then t.(holder := Some(t.holder.value.(phase := Counted(t.active, t.bypassed))))
      else t
    case InsertOrReject =>
      if t.holder.Some? && t.holder.value.phase.Counted? then
        if t.holder.value.phase.n >= Cap(t.holder.value.kind, t.limit) then t.(holder := None)
        else t.(active := t.active + 1, holder := None)
      else t
    case Abort => t.(holder := None)
    case Complete => if t.active > 0 then t.(active := t.active - 1) else t
    case Bypass => t.(active := t.active + 1, bypassed := t.bypassed + 1)
    case SpendBudget(left) => t.(budgetLeft := left)
  }

  /** The step commits an insert for a request of the given kind. */
  predicate Commits(t: Tenant, step: Step, kind: Kind) {
    && step.InsertOrReject? && t.holder.Some? && t.holder.value.phase.Counted?
    && t.holder.value.kind == kind && t.holder.value.phase.n < Cap(kind, t.limit)
  }

  function Interleaving(t: Tenant, steps: seq<Step>): Tenant {
    if steps == [] then t else Next(Interleaving(t, steps[..|steps| - 1]), steps[|steps| - 1])
  }

  /** While the lock is held nobody else is admitted, so a count can only become too high, save for bypasses. */
  ghost predicate Sound(t: Tenant) {
    && t.active <= t.limit * WEBHOOK_BACKLOG_MULTIPLIER + t.bypassed
    && (t.holder.Some? && t.holder.value.phase.Counted? ==>
          var phase := t.holder.value.phase;
          phase.bypassedThen <= t.bypassed && t.active <= phase.n + (t.bypassed - phase.bypassedThen))
  }

  lemma NextKeepsSound(t: Tenant, step: Step)
    requires Sound(t)
    ensures Sound(Next(t, step)) && Next(t, step).limit == t.limit
    ensures Commits(t, step, Direct) ==>
      Next(t, step).active <= t.limit + (t.bypassed - t.holder.value.phase.bypassedThen)
    ensures Commits(t, step, Webhook) ==>
      Next(t, step).active <= t.limit * WEBHOOK_BACKLOG_MULTIPLIER + (t.bypassed - t.holder.value.phase.bypassedThen)
  {
  }

  /** Over every interleaving the tenant's active executions stay within ten times its plan's limit plus
      the retries that bypassed admission, and a direct creation commits within the limit itself plus
      the bypasses since its count. Without bypasses these are the plan's own figures. */
  lemma {:induction false} InterleavingsKeepCaps(t: Tenant, steps: seq<Step>, step: Step)
    requires t.holder == None && t.bypassed == 0 && t.active <= t.limit * WEBHOOK_BACKLOG_MULTIPLIER
    ensures
      var now := Interleaving(t, steps);
      && now.limit == t.limit && Sound(now)
      && now.active <= t.limit * WEBHOOK_BACKLOG_MULTIPLIER + now.bypassed
      && (Commits(now, step, Direct) ==>
            Next(now, step).active <= t.limit + (now.bypassed - now.holder.value.phase.bypassedThen))
    decreases |steps|
  {
    if steps != [] {
      var init := steps[..|steps| - 1];
      InterleavingsKeepCaps(t, init, step);
      NextKeepsSound(Interleaving(t, init), steps[|steps| - 1]);
    }
    NextKeepsSound(Interleaving(t, steps), step);
  }

  /** No bypass step, no excess. */
  lemma {:induction false} BypassesAreSteps(t: Tenant, steps: seq<Step>)
    requires forall i :: 0 <= i < |steps| ==> steps[i] != Bypass
    ensures Interleaving(t, steps).bypassed == t.bypassed
    decreases |steps|
  {
    if steps != [] {
      BypassesAreSteps(t, steps[..|steps| - 1]);
    }
  }

  /** A request served on its own is admitted exactly when budget is left and fewer executions are active than the
      plan allows, or ten times as many for a webhook. */
  lemma ServedAlone(t: Tenant, q: Request, kind: Kind)
    requires t.holder == None
    ensures
      var after := Next(Next(Next(Next(t, Acquire(q, kind)), CheckBudget), Count), InsertOrReject);
      var cap := if kind == Direct then t.limit else 10 * t.limit;
      && after.active == t.active + (if t.budgetLeft && t.active < cap then 1 else 0)
      && after.limit == t.limit && after.bypassed == t.bypassed
      && (t.budgetLeft ==> after.holder == None)
  {
  }

  /** Without budget no request gets past its check: it gives up the lock with nothing inserted. */
  lemma NoBudgetNoAdmission(t: Tenant)
    requires !t.budgetLeft && t.holder.Some? && t.holder.value.phase.Locked?
    ensures Next(t, CheckBudget) == t.(holder := None)
  {
  }

  lemma PlanLimits()
    ensures PlanLimit("free") == 1 && PlanLimit("pro") == 5 && PlanLimit("team") == 20
    ensures forall plan :: plan != "pro" && plan != "team" ==> PlanLimit(plan) == 1
  {
  }

  // ---------------------------------------------------------------- when a direct creation stays within the limit

  /** A direct creation that was counted below the limit still has room. */
  predicate Room(t: Tenant) {
    Admitting(t) ==> t.active < t.limit
  }

  /** A direct creation has been counted below the limit and will be inserted. */
  predicate Admitting(t: Tenant) {
    && t.holder.Some? && t.holder.value.kind == Direct
    && t.holder.value.phase.Counted? && t.holder.value.phase.n < t.limit
  }

  /** No retry takes the room that such a creation was counted for. */
  predicate Spares(t: Tenant, step: Step) {
    step == Bypass ==> !Admitting(t) || t.active + 1 < t.limit
  }

  ghost predicate AllSpare(t: Tenant, steps: seq<Step>) {
    steps != [] ==>
      && AllSpare(t, steps[..|steps| - 1])
      && Spares(Interleaving(t, steps[..|steps| - 1]), steps[|steps| - 1])
  }

  /** Whatever the next step is, a direct creation it commits stays within the plan's limit. */
  ghost predicate DirectWithinLimit(t: Tenant) {
    forall step :: Commits(t, step, Direct) ==> Next(t, step).active <= t.limit
  }

  /** The next commit is within the limit exactly when there is room. */
  lemma RoomIffWithinLimit(t: Tenant)
    ensures Room(t) <==> DirectWithinLimit(t)
  {
    if !Room(t) {
      assert Commits(t, InsertOrReject, Direct);
    }
  }

  lemma SparingKeepsRoom(t: Tenant, step: Step)
    requires Room(t) && Spares(t, step)
    ensures Room(Next(t, step))
  {
  }

  lemma OtherwiseRoomIsGone(t: Tenant, step: Step)
    requires !Spares(t, step)
    ensures !Room(Next(t, step))
  {
  }

  lemma {:induction false} SparingHistories(t: Tenant, steps: seq<Step>)
    requires Room(t) && AllSpare(t, steps)
    ensures Room(Interleaving(t, steps))
    decreases |steps|
  {
    if steps != [] {
      SparingHistories(t, steps[..|steps| - 1]);
      SparingKeepsRoom(Interleaving(t, steps[..|steps| - 1]), steps[|steps| - 1]);
    }
  }

  /** Over every interleaving in which no retry takes such room, direct creations commit within the plan's limit. */
  lemma DirectCommitsWithinLimit(t: Tenant, steps: seq<Step>)
    requires t.holder == None && AllSpare(t, steps)
    ensures DirectWithinLimit(Interleaving(t, steps))
  {
    SparingHistories(t, steps);
    RoomIffWithinLimit(Interleaving(t, steps));
  }

  lemma {:induction false} WithoutBypassSpares(t: Tenant, steps: seq<Step>)
    requires forall i :: 0 <= i < |steps| ==> steps[i] != Bypass
    ensures AllSpare(t, steps)
    decreases |steps|
  {
    if steps != [] {
      WithoutBypassSpares(t, steps[..|steps| - 1]);
    }
  }

  /** From any state, direct creations commit within the limit over all steps without a bypass if and only if the
      state has room for the one that is being admitted. */
  lemma WithinLimitIffRoom(t: Tenant)
    ensures Room(t) <==>
      forall steps: seq<Step> :: (forall i :: 0 <= i < |steps| ==> steps[i] != Bypass) ==> DirectWithinLimit(Interleaving(t, steps))
  {
    if Room(t) {
      forall steps: seq<Step> | forall i :: 0 <= i < |steps| ==> steps[i] != Bypass
        ensures DirectWithinLimit(Interleaving(t, steps))
      {
        WithoutBypassSpares(t, steps);
        SparingHistories(t, steps);
        RoomIffWithinLimit(Interleaving(t, steps));
      }
    } else {
      RoomIffWithinLimit(t);
      assert Interleaving(t, []) == t;
    }
  }

  lemma NoSteps(t: Tenant) returns (steps: seq<Step>)
    ensures AllSpare(t, steps) && Interleaving(t, steps) == t
  {
    steps := [];
  }

  /** A step keeps direct creations within the limit for all later sparing steps if and only if it spares: a retry
      is harmless exactly when no direct creation is being admitted, or when there is room for both. */
  lemma WithinLimitIffSpares(t: Tenant, step: Step)
    requires Room(t)
    ensures Spares(t, step) <==>
      forall later :: AllSpare(Next(t, step), later) ==> DirectWithinLimit(Interleaving(Next(t, step), later))
  {
    var next := Next(t, step);
    if Spares(t, step) {
      SparingKeepsRoom(t, step);
      forall later | AllSpare(next, later)
        ensures DirectWithinLimit(Interleaving(next, later))
      {
        SparingHistories(next, later);
        RoomIffWithinLimit(Interleaving(next, later));
      }
    } else {
      OtherwiseRoomIsGone(t, step);
      RoomIffWithinLimit(next);
      var later := NoSteps(next);
    }
  }

  /** A retry scheduled between a direct creation's count and its commit carries the tenant past the plan's limit. */
  lemma BypassPassesLimit()
    ensures
      var t := Tenant(PlanLimit("free"), true, 0, None, 0);
      var steps := [Acquire(0, Direct), CheckBudget, Count, Bypass, InsertOrReject];
      Interleaving(t, steps).active == 2 && PlanLimit("free") == 1
  {
    var t := Tenant(PlanLimit("free"), true, 0, None, 0);
    var s1, s2, s3, s4 := [Acquire(0, Direct)], [Acquire(0, Direct), CheckBudget],
      [Acquire(0, Direct), CheckBudget, Count], [Acquire(0, Direct), CheckBudget, Count, Bypass];
    var s5 := s4 + [InsertOrReject];
    assert s5[..4] == s4 && s4[..3] == s3 && s3[..2] == s2 && s2[..1] == s1 && s1[..0] == [];
    assert Interleaving(t, s1) == Next(Interleaving(t, []), Acquire(0, Direct));
    assert Interleaving(t, s2) == Next(Interleaving(t, s1), CheckBudget);
    assert Interleaving(t, s3) == Next(Interleaving(t, s2), Count);
    assert Interleaving(t, s4) == Next(Interleaving(t, s3), Bypass);
    assert s5 == [Acquire(0, Direct), CheckBudget, Count, Bypass, InsertOrReject];
  }
}
