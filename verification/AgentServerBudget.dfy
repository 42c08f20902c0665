/**
 What every interleaving keeps about the output budget of the agent's server:
 the shared total, the truncation flag and the termination reason.
 */
module AgentServerBudget {
  import opened Protocol
  import opened ServerMachine
  import opened OutputFlow
  import opened AgentServer

  /** The part of the state the budget is about. */
  datatype Purse = Purse(
    limit: Option<nat>,
    total: nat,
    truncated: bool,
    late: bool,
    reason: Termination,
    workers: PerStream<Worker>)

  function PurseOf(st: Agent): Purse {
    Purse(st.limit, st.total, st.truncated, st.late, st.termination, st.workers)
  }

  /** Bytes whose claim on the budget has gone through, over all workers. */
  function ClaimedTotal(ws: PerStream<Worker>): nat {
    ws.stdout.claimed + ws.stderr.claimed + ws.pty.claimed
  }

  function ReadTotal(ws: PerStream<Worker>): nat {
    |ws.stdout.read| + |ws.stderr.read| + |ws.pty.read|
  }

  /** A worker between chunks or done, that was neither stopped nor died. */
  predicate AtRest(w: Worker) {
    (w.pc.Idle? || w.pc.Reading? || w.pc.Finished?) && !w.panicked && !w.forced
  }

  /** A worker cut short that has not raised the flag, or died where it might have been about to. */
  predicate Unflagged(w: Worker) {
    (w.pc.Claimed? && w.pc.keep < |w.pc.chunk|) || w.panicked
  }

  predicate AnyUnflagged(ws: PerStream<Worker>) {
    Unflagged(ws.stdout) || Unflagged(ws.stderr) || Unflagged(ws.pty)
  }

  ghost predicate WorkerOk(w: Worker, limit: Option<nat>, taken: nat, truncated: bool) {
    && w.claimed <= |w.read|
    && (limit.None? ==> w.claimed == 0)
    && match w.pc
       case Holding(c) => 0 < |c| && (limit.Some? ==> w.claimed + |c| == |w.read|)
       case Claiming(c, _) => 0 < |c| && limit.Some? && w.claimed + |c| == |w.read|
       case Claimed(c, keep) => limit.Some? && w.claimed == |w.read| && (keep < |c| ==> taken > limit.value)
       case Flagged(_, _) => limit.Some? && w.claimed == |w.read| && truncated
       case Finished => limit.Some? ==> w.claimed == |w.read| || w.panicked || w.forced
       case _ => limit.Some? ==> w.claimed == |w.read|
  }

  ghost predicate TotalsOk(p: Purse) {
    var taken := ClaimedTotal(p.workers);
    && (p.limit.None? ==> (p.truncated ==> p.late))
    && (p.limit.Some? ==>
          && p.total == Minimum(p.limit.value, taken)
          && (taken > p.limit.value ==> p.truncated || AnyUnflagged(p.workers))
          && (p.truncated ==> p.late || taken > p.limit.value))
    && (p.reason.ByOutputLimit? ==> p.truncated)
    && (p.late ==> p.truncated)
  }

  ghost predicate BudgetOk(p: Purse) {
    && (forall s :: WorkerOk(Get(p.workers, s), p.limit, ClaimedTotal(p.workers), p.truncated))
    && TotalsOk(p)
  }

  lemma SetTotals(ws: PerStream<Worker>, s: Stream, w: Worker)
    ensures ClaimedTotal(Set(ws, s, w)) == ClaimedTotal(ws) - Get(ws, s).claimed + w.claimed
    ensures Unflagged(w) ==> AnyUnflagged(Set(ws, s, w))
    ensures AnyUnflagged(ws) && !Unflagged(Get(ws, s)) ==> AnyUnflagged(Set(ws, s, w))
  {
  }

  /** One worker moves; nothing another worker relies on is taken back. */
  lemma PurseMoves(p: Purse, q: Purse, s: Stream, w: Worker)
    requires BudgetOk(p)
    requires q.workers == Set(p.workers, s, w) && q.limit == p.limit
    requires ClaimedTotal(p.workers) <= ClaimedTotal(q.workers) && (p.truncated ==> q.truncated)
    requires WorkerOk(w, q.limit, ClaimedTotal(q.workers), q.truncated) && TotalsOk(q)
    ensures BudgetOk(q)
  {
    forall t ensures WorkerOk(Get(q.workers, t), q.limit, ClaimedTotal(q.workers), q.truncated) {
      assert WorkerOk(Get(p.workers, t), p.limit, ClaimedTotal(p.workers), p.truncated);
    }
  }

  /** A worker moves without claiming, and without having been about to raise the flag. */
  lemma PurseIdle(p: Purse, s: Stream, w: Worker)
    requires BudgetOk(p)
    requires w.claimed == Get(p.workers, s).claimed && WorkerOk(w, p.limit, ClaimedTotal(p.workers), p.truncated)
    requires !Unflagged(Get(p.workers, s)) || Unflagged(w)
    ensures BudgetOk(p.(workers := Set(p.workers, s, w)))
  {
    SetTotals(p.workers, s, w);
    PurseMoves(p, p.(workers := Set(p.workers, s, w)), s, w);
  }

  /** A successful claim takes `Allowance` of the limit, whatever the other workers took before. */
  lemma PurseClaims(p: Purse, s: Stream)
    requires BudgetOk(p) && p.limit.Some? && Get(p.workers, s).pc.Claiming? && !Get(p.workers, s).panicked
    ensures var w := Get(p.workers, s);
            var keep := Allowance(p.limit.value, p.total, |w.pc.chunk|);
            BudgetOk(p.(workers := Set(p.workers, s, ClaimedWorker(w, keep)), total := p.total + keep))
  {
    var w := Get(p.workers, s);
    assert WorkerOk(w, p.limit, ClaimedTotal(p.workers), p.truncated);
    var keep := Allowance(p.limit.value, p.total, |w.pc.chunk|);
    var w' := ClaimedWorker(w, keep);
    var q := p.(workers := Set(p.workers, s, w'), total := p.total + keep);
    SetTotals(p.workers, s, w');
    assert keep < |w.pc.chunk| ==> ClaimedTotal(q.workers) > p.limit.value;
    PurseMoves(p, q, s, w');
  }

  lemma PurseFlags(p: Purse, s: Stream)
    requires BudgetOk(p) && Get(p.workers, s).pc.Claimed? && Get(p.workers, s).pc.keep < |Get(p.workers, s).pc.chunk|
    ensures var w := Get(p.workers, s);
            BudgetOk(p.(workers := Set(p.workers, s, w.(pc := Flagged(w.pc.chunk, w.pc.keep))), truncated := true))
  {
    var w := Get(p.workers, s);
    assert WorkerOk(w, p.limit, ClaimedTotal(p.workers), p.truncated);
    var w' := w.(pc := Flagged(w.pc.chunk, w.pc.keep));
    SetTotals(p.workers, s, w');
    PurseMoves(p, p.(workers := Set(p.workers, s, w'), truncated := true), s, w');
  }
}
