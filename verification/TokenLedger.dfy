/** The tenant's token budget under interleaved executions: the debit, the log row and the
    execution's total of one step are committed together or not at all. */
module TokenLedger {
  import opened Common
  import opened Graph
  import opened RunLoop

  type ExecutionId = nat

  /** What one commit of an agent step touches: the tenant row, the log table, the execution totals. */
  datatype Books = Books(used: nat, budget: nat, logs: seq<(ExecutionId, LogRow)>, totals: map<ExecutionId, nat>)

  /** An execution asks to book one finished agent step. */
  datatype Attempt = Attempt(execution: ExecutionId, row: LogRow)

  function Total(totals: map<ExecutionId, nat>, e: ExecutionId): nat {
    if e in totals then totals[e] else 0
  }

  predicate Fits(books: Books, a: Attempt) {
    books.used + a.row.tokens <= books.budget
  }

  function Book(books: Books, a: Attempt): Books {
    if Fits(books, a) then
      books.(used := books.used + a.row.tokens,
             logs := books.logs + [(a.execution, a.row)],
             totals := books.totals[a.execution := Total(books.totals, a.execution) + a.row.tokens])
    else books
  }

  /** Any interleaving of the executions' attempts. */
  function BookAll(books: Books, history: seq<Attempt>): Books {
    if history == [] then books
    else Book(BookAll(books, history[..|history| - 1]), history[|history| - 1])
  }

  class Database {
    var used: nat
    const budget: nat
    var logs: seq<(ExecutionId, LogRow)>
    var totals: map<ExecutionId, nat>

    function Contents(): Books
      reads this
    {
      Books(used, budget, logs, totals)
    }

    constructor (books: Books)
      ensures Contents() == books
    {
      used, budget, logs, totals := books.used, books.budget, books.logs, books.totals;
    }

    /** The conditional update of the tenant row; it reports how many rows it changed. */
    method DebitTenant(tokens: nat) returns (rowcount: nat)
      modifies this`used
      ensures rowcount == if old(used) + tokens <= budget then 1 else 0
      ensures used == if rowcount == 1 then old(used) + tokens else old(used)
    {
      if used + tokens <= budget {
        used := used + tokens;
        rowcount := 1;
      } else {
        rowcount := 0;
      }
    }

    method CommitStep(a: Attempt) returns (accepted: bool)
      modifies this
      ensures accepted == Fits(old(Contents()), a)
      ensures Contents() == Book(old(Contents()), a)
    {
      var rowcount := DebitTenant(a.row.tokens);
      if rowcount == 0 {
        return false;
      }
      logs := logs + [(a.execution, a.row)];
      totals := totals[a.execution := (if a.execution in totals then totals[a.execution] else 0) + a.row.tokens];
      accepted := true;
    }
  }

  /** The log rows of one execution, in commit order. */
  function RowsOf(logs: seq<(ExecutionId, LogRow)>, e: ExecutionId): seq<LogRow> {
    if logs == [] then []
    else
      RowsOf(logs[..|logs| - 1], e) + if logs[|logs| - 1].0 == e then [logs[|logs| - 1].1] else []
  }

  function Plus(a: nat, b: nat): nat {
    a + b
  }

  ghost function Sum(totals: map<ExecutionId, nat>): nat {
    SumOf(totals, Plus, 0)
  }

  lemma SumUpdated(totals: map<ExecutionId, nat>, e: ExecutionId, tokens: nat)
    ensures Sum(totals[e := Total(totals, e) + tokens]) == Sum(totals) + tokens
  {
    PlusAdds();
    hide Adds, SumOf;
    SumAdd(totals, Plus, 0, e, tokens);
  }

  lemma PlusAdds()
    ensures Adds(Plus, 0)
  {
  }

  /** The three accounts agree: the tenant's growth is the sum of the execution totals, and each
      total is the sum of that execution's log rows. */
  ghost predicate Balanced(books: Books, usedBefore: nat) {
    && books.used == usedBefore + Sum(books.totals)
    && forall e :: Total(books.totals, e) == Tokens(RowsOf(books.logs, e))
  }

  lemma TokensPush(rows: seq<LogRow>, row: LogRow)
    ensures Tokens(rows + [row]) == Tokens(rows) + row.tokens
  {
    assert (rows + [row])[..|rows|] == rows;
  }

  lemma RowsOfPush(logs: seq<(ExecutionId, LogRow)>, a: Attempt, e: ExecutionId)
    ensures RowsOf(logs + [(a.execution, a.row)], e)
         == if a.execution == e then RowsOf(logs, e) + [a.row] else RowsOf(logs, e)
  {
    assert (logs + [(a.execution, a.row)])[..|logs|] == logs;
  }

  lemma BookKeepsBalance(books: Books, usedBefore: nat, a: Attempt)
    requires Balanced(books, usedBefore)
    ensures Balanced(Book(books, a), usedBefore)
  {
    if Fits(books, a) {
      var after := Book(books, a);
      SumUpdated(books.totals, a.execution, a.row.tokens);
      forall e
        ensures Total(after.totals, e) == Tokens(RowsOf(after.logs, e))
      {
        TokensPush(RowsOf(books.logs, e), a.row);
        RowsOfPush(books.logs, a, e);
      }
    }
  }

  /** Over every interleaving the budget is never passed once it is kept, nothing else of the tenant
      changes, usage never shrinks, and the three accounts stay balanced. */
  lemma {:induction false} InterleavingsKeepBudget(books: Books, history: seq<Attempt>)
    requires books.logs == [] && books.totals == map[]
    ensures
      var after := BookAll(books, history);
      && after.budget == books.budget
      && Balanced(after, books.used)
      && (books.used <= books.budget ==> after.used <= after.budget)
    decreases |history|
  {
    if history != [] {
      InterleavingsKeepBudget(books, history[..|history| - 1]);
      BookKeepsBalance(BookAll(books, history[..|history| - 1]), books.used, history[|history| - 1]);
    }
  }

  /** The same over any stretch of a history: from a state within budget, every later state is within budget. */
  lemma {:induction false} WithinBudgetForever(books: Books, history: seq<Attempt>, i: nat, j: nat)
    requires i <= j <= |history|
    requires BookAll(books, history[..i]).used <= books.budget
    ensures BookAll(books, history[..j]).budget == books.budget
    ensures BookAll(books, history[..i]).used <= BookAll(books, history[..j]).used <= books.budget
    decreases j
  {
    BudgetFixed(books, history[..j]);
    if i < j {
      WithinBudgetForever(books, history, i, j - 1);
      assert history[..j][..j - 1] == history[..j - 1];
    }
  }

  lemma {:induction false} BudgetFixed(books: Books, history: seq<Attempt>)
    ensures BookAll(books, history).budget == books.budget
    decreases |history|
  {
    if history != [] {
      BudgetFixed(books, history[..|history| - 1]);
    }
  }

  /** The pre-check alone does not protect the budget: two executions that both pass it against the
      same reading cannot both be booked. The conditional debit refuses the second. */
  lemma StalePreCheckIsNotEnough()
    ensures
      var books := Books(0, 10, [], map[]);
      var a, b := Attempt(1, LogRow(1, Missing, 6, AgentStep)), Attempt(2, LogRow(1, Missing, 6, AgentStep));
      && Fits(books, a) && Fits(books, b)
      && books.used + a.row.tokens + b.row.tokens > books.budget
      && BookAll(books, [a, b]) == Book(books, a)
  {
    var books := Books(0, 10, [], map[]);
    var a, b := Attempt(1, LogRow(1, Missing, 6, AgentStep)), Attempt(2, LogRow(1, Missing, 6, AgentStep));
    assert [a, b][..1] == [a] && [a][..0] == [];
    assert BookAll(books, [a]) == Book(BookAll(books, []), a);
  }
}
