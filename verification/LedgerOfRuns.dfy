/** The runs of several executions and the one ledger they are booked in: each run's agent rows and total are
    the ledger's rows and total for its execution. */
module LedgerOfRuns {
  import opened Common
  import opened Graph
  import opened RunLoop
  import opened TokenLedger

  /** The turn gets as far as the conditional debit. */
  predicate Debits(job: Job, node: Id, tick: Tick) {
    && !tick.cancelled && !RunsAsConnector(job.nodes, node)
    && var config := ConfigOf(job.nodes, job.configs, node);
    && config.Some? && tick.usedAtCheck + config.value.maxTokens <= tick.budgetAtCheck && tick.agent.AgentResult?
  }

  /** The rows of the completed steps among the given turns. */
  function Rows(job: Job, turns: seq<Id>): seq<LogRow> {
    if turns == [] then []
    else
      var rest := Rows(job, turns[..|turns| - 1]);
      match Turn(job, turns[|turns| - 1], job.env(|turns|))
      case Did(tokens, kind, _, _) => rest + [LogRow(|rest| + 1, turns[|turns| - 1], tokens, kind)]
      case _ => rest
  }

  function AgentRows(logs: seq<LogRow>): seq<LogRow> {
    if logs == [] then []
    else AgentRows(logs[..|logs| - 1]) + if logs[|logs| - 1].kind == AgentStep then [logs[|logs| - 1]] else []
  }

  /** The execution's attempts in the tenant's history are the debits of its turns, in order, and each turn
      was decided on the usage that the ledger showed at that moment. */
  ghost predicate Records(books: Books, history: seq<Attempt>, e: ExecutionId, job: Job, turns: seq<Id>)
    decreases |turns|
  {
    if turns == [] then forall a :: a in history ==> a.execution != e
    else
      var init, node, tick := turns[..|turns| - 1], turns[|turns| - 1], job.env(|turns|);
      if !Debits(job, node, tick) then Records(books, history, e, job, init)
      else
        exists k: nat :: LastDebit(books, history, e, job, init, node, tick, k) && Records(books, history[..k], e, job, init)
  }

  ghost predicate LastDebit(books: Books, history: seq<Attempt>, e: ExecutionId, job: Job, init: seq<Id>, node: Id,
                            tick: Tick, k: nat) {
    && k < |history| && tick.agent.AgentResult?
    && history[k] == Attempt(e, LogRow(|Rows(job, init)| + 1, node, tick.agent.inputTokens + tick.agent.outputTokens, AgentStep))
    && (forall j :: k < j < |history| ==> history[j].execution != e)
    && tick.usedAtDebit == BookAll(books, history[..k]).used && tick.budgetAtDebit == books.budget
  }

  lemma {:induction false} ExplainedRows(job: Job, turns: seq<Id>, logs: seq<LogRow>)
    requires Explained(job, turns, logs)
    ensures logs == Rows(job, turns)
    decreases |turns|
  {
    if turns != [] {
      var init := turns[..|turns| - 1];
      match Turn(job, turns[|turns| - 1], job.env(|turns|))
      case Did(_, _, _, _) =>
        ExplainedRows(job, init, logs[..|logs| - 1]);
        assert logs == logs[..|logs| - 1] + [logs[|logs| - 1]];
      case PassOver => ExplainedRows(job, init, logs);
      case _ =>
    }
  }

  lemma AgentRowsPush(logs: seq<LogRow>, row: LogRow)
    ensures AgentRows(logs + [row]) == AgentRows(logs) + if row.kind == AgentStep then [row] else []
    ensures Tokens(logs + [row]) == Tokens(logs) + row.tokens
  {
    assert (logs + [row])[..|logs|] == logs;
  }

  /** Other executions' attempts leave this one's rows and total alone. */
  lemma {:induction false} OthersBooked(books: Books, history: seq<Attempt>, k: nat, e: ExecutionId)
    requires k <= |history| && forall j :: k <= j < |history| ==> history[j].execution != e
    ensures RowsOf(BookAll(books, history).logs, e) == RowsOf(BookAll(books, history[..k]).logs, e)
    ensures Total(BookAll(books, history).totals, e) == Total(BookAll(books, history[..k]).totals, e)
    decreases |history|
  {
    if k == |history| {
      assert history[..k] == history;
    } else {
      var init, a := history[..|history| - 1], history[|history| - 1];
      OthersBooked(books, init, k, e);
      assert init[..k] == history[..k];
      RowsOfPush(BookAll(books, init).logs, a, e);
    }
  }

  /** A debit is booked exactly when the run's turn says the step is done. */
  lemma DebitDecides(job: Job, node: Id, tick: Tick)
    requires Debits(job, node, tick)
    ensures
      var v, tokens := Turn(job, node, tick), tick.agent.inputTokens + tick.agent.outputTokens;
      if tick.usedAtDebit + tokens <= tick.budgetAtDebit
      then v == Did(tokens, AgentStep, tick.agent.action, tick.agent.reasoning)
      else v == Stops(Cancelled, None)
  {
  }

  lemma NoDebitNoTokens(job: Job, node: Id, tick: Tick)
    requires !Debits(job, node, tick)
    ensures var v := Turn(job, node, tick); v.Did? ==> v.kind == ConnectorStep && v.tokens == 0
  {
  }

  lemma {:induction false} LedgerFollows(books: Books, history: seq<Attempt>, e: ExecutionId, job: Job, turns: seq<Id>)
    requires RowsOf(books.logs, e) == [] && Total(books.totals, e) == 0 && Records(books, history, e, job, turns)
    ensures RowsOf(BookAll(books, history).logs, e) == AgentRows(Rows(job, turns))
    ensures Total(BookAll(books, history).totals, e) == Tokens(Rows(job, turns))
    decreases |turns|
  {
    hide BookAll, RowsOf, AgentRows, Tokens, Debits, Turn, Rows;
    if turns == [] {
      OthersBooked(books, history, 0, e);
      assert history[..0] == [];
      NothingTaken(books, job);
    } else {
      var init, node, tick := turns[..|turns| - 1], turns[|turns| - 1], job.env(|turns|);
      assert turns == init + [node];
      if Debits(job, node, tick) {
        var k: nat :| LastDebit(books, history, e, job, init, node, tick, k) && Records(books, history[..k], e, job, init);
        LedgerFollows(books, history[..k], e, job, init);
        DebitBooked(books, history, e, job, init, node, tick, k);
      } else {
        LedgerFollows(books, history, e, job, init);
        NoDebitNoRow(job, init, node);
      }
    }
  }

  lemma NothingTaken(books: Books, job: Job)
    ensures BookAll(books, []) == books && Rows(job, []) == [] && AgentRows([]) == [] && Tokens([]) == 0
  {
  }

  /** A turn that does not debit leaves the agent rows and the total as they were. */
  lemma NoDebitNoRow(job: Job, init: seq<Id>, node: Id)
    requires !Debits(job, node, job.env(|init| + 1))
    ensures AgentRows(Rows(job, init + [node])) == AgentRows(Rows(job, init))
    ensures Tokens(Rows(job, init + [node])) == Tokens(Rows(job, init))
  {
    NoDebitNoTokens(job, node, job.env(|init| + 1));
    RowsPush(job, init, node);
    hide *;
    var rest := Rows(job, init);
    AgentRowsPush(rest, LogRow(|rest| + 1, node, 0, ConnectorStep));
    assert rest + [] == rest;
  }

  lemma DebitBooked(books: Books, history: seq<Attempt>, e: ExecutionId, job: Job, init: seq<Id>, node: Id, tick: Tick, k: nat)
    requires Debits(job, node, tick) && tick == job.env(|init| + 1) && LastDebit(books, history, e, job, init, node, tick, k)
    requires RowsOf(BookAll(books, history[..k]).logs, e) == AgentRows(Rows(job, init))
    requires Total(BookAll(books, history[..k]).totals, e) == Tokens(Rows(job, init))
    ensures RowsOf(BookAll(books, history).logs, e) == AgentRows(Rows(job, init + [node]))
    ensures Total(BookAll(books, history).totals, e) == Tokens(Rows(job, init + [node]))
  {
    hide *;
    LaterOthers(books, history, e, job, init, node, tick, k);
    DebitIs(books, history, e, job, init, node, tick, k);
    var rest, now, a := Rows(job, init), BookAll(books, history[..k]), history[k];
    DebitDecides(job, node, tick);
    RowsPush(job, init, node);
    BudgetFixed(books, history[..k]);
    BookedNext(books, history, k);
    OthersBooked(books, history, k + 1, e);
    BookedOne(now, a);
    AgentRowsPush(rest, a.row);
    assert rest + [] == rest && AgentRows(rest) + [] == AgentRows(rest);
  }

  lemma LaterOthers(books: Books, history: seq<Attempt>, e: ExecutionId, job: Job, init: seq<Id>, node: Id, tick: Tick, k: nat)
    requires LastDebit(books, history, e, job, init, node, tick, k)
    ensures k < |history| && forall j :: k + 1 <= j < |history| ==> history[j].execution != e
  {
  }

  lemma DebitIs(books: Books, history: seq<Attempt>, e: ExecutionId, job: Job, init: seq<Id>, node: Id, tick: Tick, k: nat)
    requires LastDebit(books, history, e, job, init, node, tick, k)
    ensures tick.agent.AgentResult? && k < |history|
    ensures
      var tokens := tick.agent.inputTokens + tick.agent.outputTokens;
      && history[k] == Attempt(e, LogRow(|Rows(job, init)| + 1, node, tokens, AgentStep))
      && (Fits(BookAll(books, history[..k]), history[k])
          <==> tick.usedAtDebit + tokens <= BookAll(books, history[..k]).budget)
      && tick.budgetAtDebit == books.budget
  {
    hide BookAll, Rows;
  }

  lemma RowsPush(job: Job, init: seq<Id>, node: Id)
    ensures
      var v := Turn(job, node, job.env(|init| + 1));
      Rows(job, init + [node])
      == Rows(job, init) + if v.Did? then [LogRow(|Rows(job, init)| + 1, node, v.tokens, v.kind)] else []
  {
    hide Turn;
    assert (init + [node])[..|init|] == init;
  }

  lemma BookedNext(books: Books, history: seq<Attempt>, k: nat)
    requires k < |history|
    ensures BookAll(books, history[..k + 1]) == Book(BookAll(books, history[..k]), history[k])
  {
    hide Book;
    assert history[..k + 1][..k] == history[..k];
  }

  lemma BookedOne(now: Books, a: Attempt)
    ensures RowsOf(Book(now, a).logs, a.execution) == RowsOf(now.logs, a.execution) + if Fits(now, a) then [a.row] else []
    ensures Total(Book(now, a).totals, a.execution)
         == Total(now.totals, a.execution) + if Fits(now, a) then a.row.tokens else 0
  {
    RowsOfPush(now.logs, a, a.execution);
    hide RowsOf;
  }

  /** One execution: the job, the ids its loop popped, and the run it made. */
  datatype Execution = Execution(job: Job, start: seq<Id>, processed: seq<Id>, left: seq<Id>, done: seq<LogRow>, run: Run, tail: Tail)

  /** The turns that a concluded run took, the one that ended it included. */
  function TurnsOf(x: Execution): seq<Id> {
    if x.left == [] || (x.job.cyclic && |x.processed| == MAX_ITERATIONS) then x.processed else x.processed + [x.left[0]]
  }

  ghost predicate Ended(x: Execution) {
    Concluded(x.job, x.start, x.processed, x.left, x.done, x.run, x.tail, true)
  }

  /** The turn that ended the run completed no step. */
  lemma LastTurnStops(x: Execution)
    requires Ended(x)
    ensures Explained(x.job, x.processed, x.done) && x.run.totalTokens == Tokens(x.done)
    ensures TurnsOf(x) != x.processed ==> !Turn(x.job, x.left[0], x.job.env(|x.processed| + 1)).Did?
    ensures x.run.logs == x.done || (|x.run.logs| == |x.done| + 1 && x.run.logs[..|x.done|] == x.done
                                     && x.run.logs[|x.done|].kind != AgentStep)
  {
    hide Turn, Explained, Trail, Exhausted, StepEvents, Tokens;
    StopsWithoutAgentRow(x.job, x.left, x.processed);
  }

  lemma StopsWithoutAgentRow(job: Job, left: seq<Id>, processed: seq<Id>)
    ensures left != [] ==>
      var v := Turn(job, left[0], job.env(|processed| + 1));
      v.Stops? && v.failureRow.Some? ==> v.failureRow.value.ConnectorFailure?
  {
  }

  /** What it did instead leaves no row of a completed step. */
  lemma TurnsRows(x: Execution)
    requires Rows(x.job, x.processed) == x.done
    requires TurnsOf(x) != x.processed ==> !Turn(x.job, x.left[0], x.job.env(|x.processed| + 1)).Did?
    ensures Rows(x.job, TurnsOf(x)) == x.done
  {
    hide Turn, Rows;
    if x.left != [] {
      RowsPush(x.job, x.processed, x.left[0]);
      assert x.done + [] == x.done;
    }
  }

  lemma EndedRows(x: Execution)
    requires Ended(x)
    ensures Rows(x.job, TurnsOf(x)) == x.done
    ensures AgentRows(x.run.logs) == AgentRows(x.done) && x.run.totalTokens == Tokens(x.done)
  {
    hide *;
    LastTurnStops(x);
    ExplainedRows(x.job, x.processed, x.done);
    TurnsRows(x);
    if x.run.logs != x.done {
      AgentRowsPush(x.done, x.run.logs[|x.done|]);
      assert x.run.logs == x.done + [x.run.logs[|x.done|]];
    }
  }

  /** Any number of executions of a tenant, in any interleaving, each deciding its steps on what the ledger shows:
      usage stays within budget, and the ledger holds for every execution the agent rows and the total of its run. */
  lemma LedgerHoldsRuns(books: Books, history: seq<Attempt>, executions: map<ExecutionId, Execution>)
    requires books.logs == [] && books.totals == map[] && books.used <= books.budget
    requires forall e :: e in executions ==>
      Ended(executions[e]) && Records(books, history, e, executions[e].job, TurnsOf(executions[e]))
    ensures
      var after := BookAll(books, history);
      && after.used <= after.budget == books.budget && Balanced(after, books.used)
      && forall e :: e in executions ==>
           && RowsOf(after.logs, e) == AgentRows(executions[e].run.logs)
           && Total(after.totals, e) == executions[e].run.totalTokens
  {
    InterleavingsKeepBudget(books, history);
    hide Ended, Records, BookAll, Balanced;
    forall e | e in executions
      ensures RowsOf(BookAll(books, history).logs, e) == AgentRows(executions[e].run.logs)
      ensures Total(BookAll(books, history).totals, e) == executions[e].run.totalTokens
    {
      LedgerFollows(books, history, e, executions[e].job, TurnsOf(executions[e]));
      EndedRows(executions[e]);
    }
  }
}
