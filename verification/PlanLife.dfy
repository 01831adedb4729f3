/** One automation plan among overlapping requests: decisions and worker runs as separate reads, writes and commits. */
module PlanLife {
  datatype PlanStatus = PendingApproval | Approved | Rejected | Executing | Executed | Blocked | PlanFailed

  datatype Decision = Approval | Rejection

  type RequestId = nat
  type RunId = nat

  /** How far a worker run has come with the plan it selected. */
  datatype Stage = Selected | Marked | Carried | Settled(status: PlanStatus)

  /** `dirty`: the run has written a status it has not committed. `counted`: its execution has been committed. */
  datatype Claim = Claim(stage: Stage, dirty: bool, counted: bool)

  /** The committed row, with the runs and the decisions that have read it. The program stores the status;
      the three counts of what was committed are here to state what histories keep. */
  datatype Plan = Plan(status: PlanStatus, approvals: nat, rejections: nat, runs: nat,
                       claims: map<RunId, Claim>, decisions: map<RequestId, Decision>)

  const REQUESTED := Plan(PendingApproval, 0, 0, 0, map[], map[])

  /** Requests read and then write; a run selects, marks, carries out, settles, and commits at any time. It leaves
      when it is through, or when it is cut off and loses what it did not commit. */
  datatype Step =
    | Read(q: RequestId, d: Decision)
    | Write(q: RequestId)
    | Select(r: RunId)
    | Mark(r: RunId)
    | Carry(r: RunId)
    | Settle(r: RunId, status: PlanStatus)
    | Commit(r: RunId)
    | Leave(r: RunId)

  predicate IsFinal(status: PlanStatus) {
    status in {Executed, Blocked, PlanFailed}
  }

  function StatusOf(stage: Stage): PlanStatus {
    match stage
    case Selected => Approved
    case Marked => Executing
    case Carried => Executing
    case Settled(status) => status
  }

  function Next(p: Plan, a: Step): Plan {
    match a
    case Read(q, d) =>
      if p.status == PendingApproval && q !in p.decisions then p.(decisions := p.decisions[q := d]) else p
    case Write(q) =>
      if q !in p.decisions then p
      else if p.decisions[q] == Approval then
        p.(status := Approved, approvals := p.approvals + 1, decisions := p.decisions - {q})
      else
        p.(status := Rejected, rejections := p.rejections + 1, decisions := p.decisions - {q})
    case Select(r) =>
      if p.status == Approved && r !in p.claims then p.(claims := p.claims[r := Claim(Selected, false, false)]) else p
    case Mark(r) =>
      if r in p.claims && p.claims[r].stage == Selected
      then p.(claims := p.claims[r := p.claims[r].(stage := Marked, dirty := true)])
      else p
    case Carry(r) =>
      if r in p.claims && p.claims[r].stage == Marked
      then p.(claims := p.claims[r := p.claims[r].(stage := Carried)])
      else p
    case Settle(r, status) =>
      if r in p.claims && p.claims[r].stage == Carried && IsFinal(status)
      then p.(claims := p.claims[r := p.claims[r].(stage := Settled(status), dirty := true)])
      else p
    case Commit(r) =>
      if r !in p.claims then p
      else
        var c := p.claims[r];
        var counts := (c.stage == Carried || c.stage.Settled?) && !c.counted;
        p.(status := if c.dirty then StatusOf(c.stage) else p.status,
           runs := p.runs + if counts then 1 else 0,
           claims := p.claims[r := c.(dirty := false, counted := c.counted || counts)])
    case Leave(r) => p.(claims := p.claims - {r})
  }

  function History(p: Plan, steps: seq<Step>): Plan {
    if steps == [] then p else Next(History(p, steps[..|steps| - 1]), steps[|steps| - 1])
  }

  lemma HistoryPush(p: Plan, steps: seq<Step>, a: Step)
    ensures History(p, steps + [a]) == Next(History(p, steps), a)
    ensures AllExclusive(p, steps + [a]) <==> AllExclusive(p, steps) && Exclusive(History(p, steps), a)
  {
    assert (steps + [a])[..|steps|] == steps;
  }

  // ---------------------------------------------------------------- one run among the others

  /** A step of the run, commits aside. */
  predicate IsStepOf(a: Step, r: RunId) {
    match a
    case Select(o) => o == r
    case Mark(o) => o == r
    case Carry(o) => o == r
    case Settle(o, _) => o == r
    case Leave(o) => o == r
    case _ => false
  }

  /** The step is another run's, or a request's. */
  predicate ByOthers(a: Step, r: RunId) {
    !IsStepOf(a, r) && a != Commit(r)
  }

  /** What the run itself did in a history. */
  function Own(steps: seq<Step>, r: RunId): seq<Step> {
    if steps == [] then []
    else Own(steps[..|steps| - 1], r) + if IsStepOf(steps[|steps| - 1], r) then [steps[|steps| - 1]] else []
  }

  lemma OwnPush(steps: seq<Step>, a: Step, r: RunId)
    ensures Own(steps + [a], r) == Own(steps, r) + if IsStepOf(a, r) then [a] else []
  {
    assert (steps + [a])[..|steps|] == steps;
  }

  lemma {:induction false} OwnOthers(steps: seq<Step>, others: seq<Step>, r: RunId)
    requires forall a :: a in others ==> ByOthers(a, r)
    ensures Own(steps + others, r) == Own(steps, r)
    decreases |others|
  {
    if others == [] {
      assert steps + others == steps;
    } else {
      var init, a := others[..|others| - 1], others[|others| - 1];
      assert a in others;
      OwnOthers(steps, init, r);
      OwnPush(steps + init, a, r);
      assert steps + others == steps + init + [a];
    }
  }

  /** The stage that a run's own steps have brought it to. */
  ghost predicate Reached(own: seq<Step>, r: RunId, stage: Stage) {
    match stage
    case Selected => own == [Select(r)]
    case Marked => own == [Select(r), Mark(r)]
    case Carried => own == [Select(r), Mark(r), Carry(r)]
    case Settled(status) => own == [Select(r), Mark(r), Carry(r), Settle(r, status)] && IsFinal(status)
  }

  /** A run that selected the plan while it was approved holds it at the stage its own steps say, whatever the
      others do; once its execution is counted it is counted for good. */
  lemma {:induction false} RunHolds(p: Plan, steps: seq<Step>, r: RunId, stage: Stage)
    requires p.status == Approved && r !in p.claims
    requires steps != [] && steps[0] == Select(r) && Reached(Own(steps, r), r, stage)
    ensures
      var q := History(p, steps);
      && r in q.claims && q.claims[r].stage == stage
      && q.runs >= p.runs + (if q.claims[r].counted then 1 else 0)
      && ((forall a :: a in steps ==> !ByOthers(a, r)) ==>
            && q.runs == p.runs + (if q.claims[r].counted then 1 else 0)
            && (q.claims[r].dirty || q.status == StatusOf(stage)))
    decreases |steps|
  {
    var init, a := steps[..|steps| - 1], steps[|steps| - 1];
    if init == [] {
      assert Own(init, r) == [] && History(p, init) == p;
      assert Own(steps, r) == [Select(r)];
    } else {
      OwnStartsWithSelect(init, r);
      assert init[0] == Select(r);
      assert Own(steps, r) == Own(init, r) + if IsStepOf(a, r) then [a] else [];
      assert History(p, steps) == Next(History(p, init), a);
      var before := Before(Own(init, r), Own(steps, r), a, r, stage);
      RunHolds(p, init, r, before);
      assert a in steps && forall x :: x in init ==> x in steps;
      var alone := forall x :: x in steps ==> !ByOthers(x, r);
      HoldStep(History(p, init), a, r, before, stage, p.runs, alone);
      hide History, Own, Reached, Next, IsStepOf;
    }
  }

  lemma HoldStep(q: Plan, a: Step, r: RunId, before: Stage, stage: Stage, runs: nat, alone: bool)
    requires r in q.claims && q.claims[r].stage == before && q.runs >= runs + (if q.claims[r].counted then 1 else 0)
    requires alone ==>
      && !ByOthers(a, r) && q.runs == runs + (if q.claims[r].counted then 1 else 0)
      && (q.claims[r].dirty || q.status == StatusOf(before))
    requires !IsStepOf(a, r) ==> before == stage
    requires IsStepOf(a, r) ==> LeadsTo(before, a, stage, r)
    ensures
      var t := Next(q, a);
      && r in t.claims && t.claims[r].stage == stage && t.runs >= runs + (if t.claims[r].counted then 1 else 0)
      && (alone ==> t.runs == runs + (if t.claims[r].counted then 1 else 0)
                    && (t.claims[r].dirty || t.status == StatusOf(stage)))
  {
  }

  ghost predicate LeadsTo(before: Stage, a: Step, stage: Stage, r: RunId) {
    match stage
    case Selected => false
    case Marked => before == Selected && a == Mark(r)
    case Carried => before == Marked && a == Carry(r)
    case Settled(status) => before == Carried && a == Settle(r, status) && IsFinal(status)
  }

  lemma Before(init: seq<Step>, own: seq<Step>, a: Step, r: RunId, stage: Stage) returns (before: Stage)
    requires own == init + (if IsStepOf(a, r) then [a] else []) && init != [] && Reached(own, r, stage)
    ensures Reached(init, r, before)
    ensures !IsStepOf(a, r) ==> before == stage
    ensures IsStepOf(a, r) ==> LeadsTo(before, a, stage, r)
  {
    before := stage;
    if IsStepOf(a, r) {
      assert init == own[..|own| - 1] && a == own[|own| - 1];
      match stage
      case Marked => before := Selected;
      case Carried => before := Marked;
      case Settled(_) => before := Carried;
      case Selected =>
    }
  }

  lemma {:induction false} OwnStartsWithSelect(steps: seq<Step>, r: RunId)
    requires steps != [] && steps[0] == Select(r)
    ensures Own(steps, r) != [] && Own(steps, r)[0] == Select(r)
    decreases |steps|
  {
    if |steps| > 1 {
      OwnStartsWithSelect(steps[..|steps| - 1], r);
    } else {
      assert steps[..0] == [];
      assert Own([], r) == [];
    }
  }

  /** The run selected the plan, was through with it, committed, and left. */
  ghost predicate RunsThrough(steps: seq<Step>, r: RunId, status: PlanStatus) {
    var n := |steps|;
    && n > 2 && steps[n - 1] == Leave(r) && steps[n - 2] == Commit(r)
    && steps[0] == Select(r) && Reached(Own(steps[..n - 2], r), r, Settled(status))
  }

  /** Such a run has its execution counted, whatever others do; with nobody else about, the plan has run exactly
      once more and rests in the run's status. */
  lemma RunThroughCounts(p: Plan, steps: seq<Step>, r: RunId, status: PlanStatus)
    requires p.status == Approved && r !in p.claims && RunsThrough(steps, r, status)
    ensures History(p, steps).runs > p.runs
    ensures (forall a :: a in steps ==> !ByOthers(a, r)) ==>
      History(p, steps).runs == p.runs + 1 && History(p, steps).status == status
  {
    var n := |steps|;
    var held := steps[..n - 2];
    RunHolds(p, held, r, Settled(status));
    HistoryPush(p, held, Commit(r));
    HistoryPush(p, held + [Commit(r)], Leave(r));
    assert steps == held + [Commit(r)] + [Leave(r)];
    assert forall x :: x in held ==> x in steps;
    hide History, Own, AllExclusive;
  }

  // ---------------------------------------------------------------- what must not overlap

  /** No run selects the plan while another holds it; no decision is opened beside another, save rejections among themselves. */
  ghost predicate Exclusive(p: Plan, a: Step) {
    match a
    case Read(q, d) =>
      p.status == PendingApproval && q !in p.decisions && p.decisions != map[] ==>
        d == Rejection && forall o :: o in p.decisions ==> p.decisions[o] == Rejection
    case Select(r) =>
      p.status == Approved && r !in p.claims ==> p.claims == map[]
    case _ => true
  }

  ghost predicate AllExclusive(p: Plan, steps: seq<Step>) {
    steps != [] ==>
      && AllExclusive(p, steps[..|steps| - 1])
      && Exclusive(History(p, steps[..|steps| - 1]), steps[|steps| - 1])
  }

  /** The plan ran at most once, only after an approval, and not if it was rejected. */
  ghost predicate RanProperly(p: Plan) {
    p.runs <= 1 && (p.runs == 1 ==> p.approvals >= 1 && p.rejections == 0)
  }

  ghost predicate OneClaim(p: Plan) {
    forall r, o :: r in p.claims && o in p.claims ==> r == o
  }

  ghost predicate ClaimOk(p: Plan, c: Claim) {
    match p.status
    case Approved => !c.counted && (c.stage == Selected <==> !c.dirty)
    case Executing =>
      && c.stage != Selected && (c.counted <==> p.runs == 1)
      && (c.stage == Marked ==> !c.counted) && (c.stage.Settled? ==> c.dirty)
    case _ => c.stage == Settled(p.status) && c.counted && !c.dirty
  }

  /** What exclusive steps keep. */
  ghost predicate LifeOk(p: Plan) {
    && OneClaim(p)
    && (forall r :: r in p.claims ==> ClaimOk(p, p.claims[r]))
    && (forall r :: r in p.claims && p.claims[r].stage.Settled? ==> IsFinal(p.claims[r].stage.status))
    && match p.status
       case PendingApproval =>
         && p.approvals == 0 && p.rejections == 0 && p.runs == 0 && p.claims == map[]
         && forall q, o :: q in p.decisions && o in p.decisions && q != o ==> p.decisions[q] == Rejection
       case Rejected =>
         && p.approvals == 0 && p.runs == 0 && p.claims == map[]
         && forall q :: q in p.decisions ==> p.decisions[q] == Rejection
       case Approved => p.approvals == 1 && p.rejections == 0 && p.runs == 0 && p.decisions == map[]
       case Executing => p.approvals == 1 && p.rejections == 0 && p.runs <= 1 && p.decisions == map[]
       case _ => p.approvals == 1 && p.rejections == 0 && p.runs == 1 && p.decisions == map[]
  }

  lemma ExclusiveKeeps(p: Plan, a: Step)
    requires LifeOk(p) && Exclusive(p, a)
    ensures LifeOk(Next(p, a)) && RanProperly(Next(p, a))
    ensures p.status == Rejected || IsFinal(p.status) ==> Next(p, a).status == p.status && Next(p, a).runs == p.runs
  {
  }

  lemma {:induction false} ExclusiveHistories(p: Plan, steps: seq<Step>)
    requires LifeOk(p) && AllExclusive(p, steps)
    ensures LifeOk(History(p, steps)) && RanProperly(History(p, steps))
    ensures p.status == Rejected || IsFinal(p.status) ==>
      History(p, steps).status == p.status && History(p, steps).runs == p.runs
    decreases |steps|
  {
    if steps != [] {
      ExclusiveHistories(p, steps[..|steps| - 1]);
      hide LifeOk, Exclusive, RanProperly, Next;
      ExclusiveKeeps(History(p, steps[..|steps| - 1]), steps[|steps| - 1]);
    } else {
      ExclusiveKeeps(p, Leave(0));
    }
  }

  /** Over every history in which runs do not overlap on the plan and no decision overlaps an approval of it,
      the plan runs at most once, only after an approval, and never when it was rejected. */
  lemma PlanRunsOnceAfterApproval(steps: seq<Step>)
    requires AllExclusive(REQUESTED, steps)
    ensures RanProperly(History(REQUESTED, steps))
  {
    ExclusiveHistories(REQUESTED, steps);
  }

  /** In such a history a plan once rejected, executed, blocked or failed stays as it is. */
  lemma DecidedStays(steps: seq<Step>, later: seq<Step>)
    requires AllExclusive(REQUESTED, steps) && AllExclusive(History(REQUESTED, steps), later)
    requires
      var p := History(REQUESTED, steps);
      p.status == Rejected || IsFinal(p.status)
    ensures
      var p, q := History(REQUESTED, steps), History(History(REQUESTED, steps), later);
      q.status == p.status && q.runs == p.runs
  {
    ExclusiveHistories(REQUESTED, steps);
    hide LifeOk;
    ExclusiveHistories(History(REQUESTED, steps), later);
  }

  // ---------------------------------------------------------------- and what happens when they do

  /** One run carries the plan out and commits. */
  lemma CarriesOut(p: Plan, steps: seq<Step>, r: RunId) returns (more: seq<Step>)
    requires AllExclusive(p, steps)
    requires
      var s := History(p, steps);
      r in s.claims && !s.claims[r].counted
    ensures AllExclusive(p, more)
    ensures
      var s, t := History(p, steps), History(p, more);
      && t.runs == s.runs + 1 && t.approvals == s.approvals && t.rejections == s.rejections
      && t.decisions == s.decisions && t.claims.Keys == s.claims.Keys
      && forall o :: o in s.claims && o != r ==> t.claims[o] == s.claims[o]
  {
    HistoryPush(p, steps, Mark(r));
    HistoryPush(p, steps + [Mark(r)], Carry(r));
    HistoryPush(p, steps + [Mark(r)] + [Carry(r)], Commit(r));
    more := steps + [Mark(r)] + [Carry(r)] + [Commit(r)];
    hide History, AllExclusive;
  }

  /** Two runs that hold the plan both carry it out. */
  lemma OverlappingRunsRunTwice(p: Plan, r: RunId, o: RunId) returns (later: seq<Step>)
    requires r in p.claims && o in p.claims && r != o && !p.claims[r].counted && !p.claims[o].counted
    ensures AllExclusive(p, later) && History(p, later).runs == p.runs + 2 && History(p, later).approvals == p.approvals
  {
    later := CarriesOut(p, [], r);
    later := CarriesOut(p, later, o);
  }

  /** An approval lets the plan run; a decision that was read before is then still written. */
  lemma StaleDecisionWritten(p: Plan, q: RequestId, o: RequestId) returns (later: seq<Step>)
    requires q in p.decisions && o in p.decisions && q != o && p.decisions[q] == Approval && p.claims == map[]
    ensures AllExclusive(p, later) && History(p, later).claims == map[] && History(p, later).runs == p.runs + 1
    ensures
      var t := History(p, later);
      if p.decisions[o] == Approval then t.status == Approved else t.rejections == p.rejections + 1
  {
    HistoryPush(p, [], Write(q));
    HistoryPush(p, [Write(q)], Select(0));
    assert [] + [Write(q)] == [Write(q)];
    var ran := CarriesOut(p, [Write(q), Select(0)], 0);
    HistoryPush(p, ran, Leave(0));
    HistoryPush(p, ran + [Leave(0)], Write(o));
    later := ran + [Leave(0)] + [Write(o)];
    hide History, AllExclusive;
  }

  /** A second approval that was read before the plan ran re-arms it, and the plan runs again. */
  lemma StaleApprovalRunsTwice(p: Plan, q: RequestId, o: RequestId) returns (later: seq<Step>)
    requires q in p.decisions && o in p.decisions && q != o && p.claims == map[]
    requires p.decisions[q] == p.decisions[o] == Approval
    ensures AllExclusive(p, later) && History(p, later).runs == p.runs + 2
  {
    later := StaleDecisionWritten(p, q, o);
    HistoryPush(p, later, Select(0));
    later := CarriesOut(p, later + [Select(0)], 0);
  }

  /** A step is safe if and only if it is exclusive: otherwise later steps, exclusive themselves, run the plan
      twice or run it although it is rejected. */
  lemma SafeIffExclusive(p: Plan, a: Step)
    requires LifeOk(p)
    ensures Exclusive(p, a) <==>
      forall later :: AllExclusive(Next(p, a), later) ==> RanProperly(History(Next(p, a), later))
  {
    var t := Next(p, a);
    if Exclusive(p, a) {
      ExclusiveKeeps(p, a);
      forall later | AllExclusive(t, later)
        ensures RanProperly(History(t, later))
      {
        ExclusiveHistories(t, later);
      }
    } else if a.Select? {
      var o :| o in p.claims;
      hide AllExclusive, History;
      var later := OverlappingRunsRunTwice(t, o, a.r);
    } else {
      var q, o := Straddling(p, a);
      hide AllExclusive, History;
      if t.decisions[o] == Approval {
        var later := StaleApprovalRunsTwice(t, q, o);
      } else {
        var later := StaleDecisionWritten(t, q, o);
      }
    }
  }

  lemma Straddling(p: Plan, a: Step) returns (q: RequestId, o: RequestId)
    requires LifeOk(p) && a.Read? && !Exclusive(p, a)
    ensures
      var t := Next(p, a);
      q in t.decisions && o in t.decisions && q != o && t.decisions[q] == Approval && t.claims == map[]
  {
    if a.d == Approval {
      q := a.q;
      o :| o in p.decisions;
    } else {
      o := a.q;
      q :| q in p.decisions && p.decisions[q] != Rejection;
    }
  }

  lemma {:induction false} HistoryConcat(p: Plan, a: seq<Step>, b: seq<Step>)
    ensures History(p, a + b) == History(History(p, a), b)
    decreases |b|
  {
    hide Next;
    if b == [] {
      assert a + b == a;
    } else {
      HistoryConcat(p, a, b[..|b| - 1]);
      assert (a + b)[..|a + b| - 1] == a + b[..|b| - 1];
    }
  }

  /** From its request on: one approval, two runs that both select the plan, and it is carried out twice. */
  lemma ApprovedOnceRunTwice() returns (steps: seq<Step>)
    ensures [Read(0, Approval), Write(0), Select(0), Select(1)] <= steps
    ensures History(REQUESTED, steps).runs == 2 && History(REQUESTED, steps).approvals == 1
  {
    var opening := [Read(0, Approval), Write(0), Select(0), Select(1)];
    SelectedTwice();
    hide History;
    var later := OverlappingRunsRunTwice(History(REQUESTED, opening), 0, 1);
    HistoryConcat(REQUESTED, opening, later);
    steps := opening + later;
  }

  lemma SelectedTwice()
    ensures
      var selected := Claim(Selected, false, false);
      History(REQUESTED, [Read(0, Approval), Write(0), Select(0), Select(1)])
      == Plan(Approved, 1, 0, 0, map[0 := selected, 1 := selected], map[])
  {
    HistoryPush(REQUESTED, [], Read(0, Approval));
    HistoryPush(REQUESTED, [Read(0, Approval)], Write(0));
    HistoryPush(REQUESTED, [Read(0, Approval), Write(0)], Select(0));
    HistoryPush(REQUESTED, [Read(0, Approval), Write(0), Select(0)], Select(1));
    var a, b, c, d := Read(0, Approval), Write(0), Select(0), Select(1);
    assert [] + [a] == [a] && [a] + [b] == [a, b] && [a, b] + [c] == [a, b, c] && [a, b, c] + [d] == [a, b, c, d];
    assert History(REQUESTED, []) == REQUESTED;
    hide History, AllExclusive, Exclusive;
    var asked := Next(REQUESTED, Read(0, Approval));
    assert asked == REQUESTED.(decisions := map[0 := Approval]);
    var approved := Next(asked, Write(0));
    assert approved == Plan(Approved, 1, 0, 0, map[], map[]);
    var once := Next(approved, c);
    assert once == Plan(Approved, 1, 0, 0, map[0 := Claim(Selected, false, false)], map[]);
  }
}
