/**
 Idempotency over whole runs: rows are never rewritten, a repeated key changes nothing and answers from the
 stored row, and of all requests that share a key at most one moves money.
 */
module LedgerReplay {
  import opened Money
  import opened Wrappers
  import opened Ledger
  import opened LedgerInvariants
  import opened LedgerConcurrency

  // ---- rows are permanent --------------------------------------------------------------------

  lemma StepKeepsRows(l: Ledger, op: Op)
    ensures l.transfers <= Step(l, op).transfers
  {
  }

  lemma {:induction false} RunKeepsRows(l: Ledger, ops: seq<Op>)
    ensures l.transfers <= Run(l, ops).transfers
    decreases |ops|
  {
    if ops != [] {
      StepKeepsRows(l, ops[0]);
      RunKeepsRows(Step(l, ops[0]), ops[1..]);
    }
  }

  lemma SameKeySameRow(rows: seq<Transfer>, i: nat, j: nat)
    requires UniqueKeys(rows) && i < |rows| && j < |rows| && rows[i].key == rows[j].key
    ensures i == j
  {
  }

  /** Find answers the one row with the key. */
  lemma FindUnique(rows: seq<Transfer>, id: nat)
    requires UniqueKeys(rows) && id < |rows|
    ensures Find(rows, rows[id].key) == Some(id)
  {
    SameKeySameRow(rows, Find(rows, rows[id].key).value, id);
  }

  /**
   After a cross-currency transfer and any later run, the same caller's retry changes nothing and reports the
   stored row; with a rate of 8 decimals the retry's response equals the first one.
   */
  lemma RetryAfterAnyRun(l: Ledger, rq: CrossRequest, call: Call, fx: FxView, now: int, later: seq<Op>, rq': CrossRequest, fx': FxView, now': int)
    requires Inv(l) && Allowed(l, Cross(rq, call, fx, now)) && Initiate(l, rq, call, fx, now).1.Executed?
    requires AllowedRun(Initiate(l, rq, call, fx, now).0, later)
    ensures var l1, id := Initiate(l, rq, call, fx, now).0, |l.transfers|;
            var l2 := Run(l1, later);
            && Initiate(l2, rq', call, fx', now') == (l2, Replayed(id))
            && id < |l1.transfers| <= |l2.transfers| && l2.transfers[id] == l1.transfers[id]
            && FxCheck(rq, fx).Ok?
            && (rq.sourceCurrency, rq.destinationCurrency) in FxCheck(rq, fx).value.0.rates
            && var rate := FxCheck(rq, fx).value.0.rates[(rq.sourceCurrency, rq.destinationCurrency)];
               (rate % STORED_RATE_STEP == 0 ==>
                 ToResponse(id, l2.transfers[id], None) == ToResponse(id, l1.transfers[id], Some(CalculateAmounts(rq.amount, rate).gross)))
  {
    var l1, id := Initiate(l, rq, call, fx, now).0, |l.transfers|;
    var l2 := Run(l1, later);
    var rate := ExecutedRow(l, rq, call, fx, now);
    assert Inv(l2) by { CrossKeepsInv(l, rq, call, fx, now); RunKeepsInv(l1, later); }
    RunKeepsRows(l1, later);
    assert l2.transfers[id] == l1.transfers[id];
    FindUnique(l2.transfers, id);
    if rate % STORED_RATE_STEP == 0 {
      ReplayGrossFaithfulIff(rate);
      assert ReplayedGross(rq.amount, rate) == CalculateAmounts(rq.amount, rate).gross;
    }
  }

  /** The row an executed transfer adds: its key, its caller, its amount and its rate as stored. */
  lemma ExecutedRow(l: Ledger, rq: CrossRequest, call: Call, fx: FxView, now: int) returns (rate: int)
    requires Initiate(l, rq, call, fx, now).1.Executed?
    ensures FxCheck(rq, fx).Ok? && (rq.sourceCurrency, rq.destinationCurrency) in FxCheck(rq, fx).value.0.rates
    ensures rate == FxCheck(rq, fx).value.0.rates[(rq.sourceCurrency, rq.destinationCurrency)]
    ensures var rows := Initiate(l, rq, call, fx, now).0.transfers;
            && |rows| == |l.transfers| + 1
            && var t := rows[|l.transfers|];
               t.key == call.key && t.caller == call.caller && t.sourceAmount == rq.amount && t.storedRate == StoredRate(rate)
  {
    rate := FxCheck(rq, fx).value.0.rates[(rq.sourceCurrency, rq.destinationCurrency)];
  }

  // ---- replies under interleaving ------------------------------------------------------------

  function CallOf(job: Job): Call {
    match job
    case CrossJob(_, call) => call
    case PlainJob(_, call, _) => call
    case _ => Call("", "", None)
  }

  predicate MovedMoney(p: Proc) {
    p.phase.Finished? && p.phase.reply.Transferred? && p.phase.reply.outcome.Executed?
  }

  /** A reply names a row with this request's key and caller. */
  ghost predicate ReplyNamesItsRow(s: System, p: Proc) {
    p.phase.Finished? && p.phase.reply.Transferred? && !p.phase.reply.outcome.Refused? ==>
      var id := p.phase.reply.outcome.id;
      && (p.job.CrossJob? || p.job.PlainJob?)
      && id < |s.db.transfers|
      && s.db.transfers[id].key == CallOf(p.job).key && s.db.transfers[id].caller == CallOf(p.job).caller
  }

  ghost predicate Replies(s: System) {
    && (forall p :: p in s.procs ==> ReplyNamesItsRow(s, s.procs[p]))
    && (forall p, q :: p in s.procs && q in s.procs && p != q && MovedMoney(s.procs[p]) && MovedMoney(s.procs[q]) ==>
          s.procs[p].phase.reply.outcome.id != s.procs[q].phase.reply.outcome.id)
  }

  function PidOf(e: Event): Option<nat> {
    match e
    case Tick(_) => None
    case Spawn(pid, _) => Some(pid)
    case Lookup(pid) => Some(pid)
    case LockSource(pid, _) => Some(pid)
    case LockDestination(pid) => Some(pid)
    case Count(pid) => Some(pid)
    case Commit(pid) => Some(pid)
    case DeadlockVictim(pid) => Some(pid)
    case Crash(pid) => Some(pid)
  }

  /** What one request's step may touch: its own entry, and the end of the table. */
  ghost predicate Local(s: System, s': System, pid: nat) {
    && s.db.transfers <= s'.db.transfers
    && pid in s'.procs && s'.procs == s.procs[pid := s'.procs[pid]]
  }

  lemma CommitIsLocal(s: System, pid: nat)
    requires pid in s.procs && Ready(s.procs[pid])
    ensures Local(s, FireCommit(s, pid), pid)
  {
  }

  lemma LockingIsLocal(s: System, pid: nat, fx: FxView)
    requires pid in s.procs
    ensures s.procs[pid].phase.Begun? ==> Local(s, FireLockSource(s, pid, fx), pid)
    ensures Local(s, LockRow(s, pid, DestinationOf(s.procs[pid].job), BothLocked), pid)
  {
  }

  /** A step concerns one request and only appends to the table. */
  lemma StepIsLocal(s: System, e: Event)
    ensures e.Tick? || (Fire(s, e) == s) || Local(s, Fire(s, e), PidOf(e).value)
  {
    match e {
      case Commit(pid) => if pid in s.procs && Ready(s.procs[pid]) { CommitIsLocal(s, pid); }
      case LockSource(pid, fx) => if pid in s.procs && s.procs[pid].phase.Begun? { LockingIsLocal(s, pid, fx); }
      case LockDestination(pid) => if pid in s.procs && s.procs[pid].phase.SourceLocked? { LockingIsLocal(s, pid, FxView(None, map[], {})); }
      case _ =>
    }
  }

  /** What a step may do to the acting request's reply. */
  ghost predicate ReplyStep(s: System, s': System, pid: nat) {
    pid in s'.procs ==>
      && ReplyNamesItsRow(s', s'.procs[pid])
      && (MovedMoney(s'.procs[pid]) ==>
            (pid in s.procs && s'.procs[pid] == s.procs[pid]) || s'.procs[pid].phase.reply.outcome.id == |s.db.transfers|)
  }

  lemma CommitReply(s: System, pid: nat)
    requires pid in s.procs && Ready(s.procs[pid])
    ensures ReplyStep(s, FireCommit(s, pid), pid)
  {
  }

  lemma LookupReply(s: System, pid: nat)
    requires pid in s.procs && s.procs[pid].phase.Waiting?
    ensures ReplyStep(s, FireLookup(s, pid), pid)
  {
  }

  /** The acting request's own reply names its row, and an execution names the row just added. */
  lemma OwnReply(s: System, e: Event)
    requires Replies(s) && PidOf(e).Some?
    ensures ReplyStep(s, Fire(s, e), PidOf(e).value)
  {
    var pid := PidOf(e).value;
    if pid in s.procs {
      assert ReplyNamesItsRow(s, s.procs[pid]);
      if e.Commit? && Ready(s.procs[pid]) {
        CommitReply(s, pid);
      } else if e.Lookup? && s.procs[pid].phase.Waiting? {
        LookupReply(s, pid);
      }
    }
  }

  lemma StepKeepsReplies(s: System, e: Event)
    requires Replies(s)
    ensures Replies(Fire(s, e))
  {
    var s' := Fire(s, e);
    StepIsLocal(s, e);
    forall p | p in s'.procs ensures ReplyNamesItsRow(s', s'.procs[p]) {
      if Some(p) == PidOf(e) {
        OwnReply(s, e);
      } else {
        assert ReplyNamesItsRow(s, s.procs[p]);
      }
    }
    forall p, q | p in s'.procs && q in s'.procs && p != q && MovedMoney(s'.procs[p]) && MovedMoney(s'.procs[q])
      ensures s'.procs[p].phase.reply.outcome.id != s'.procs[q].phase.reply.outcome.id
    {
      if Some(p) == PidOf(e) {
        OwnReply(s, e);
        assert ReplyNamesItsRow(s, s.procs[q]);
      } else if Some(q) == PidOf(e) {
        OwnReply(s, e);
        assert ReplyNamesItsRow(s, s.procs[p]);
      }
    }
  }

  lemma {:induction false} InterleavingKeepsReplies(s: System, events: seq<Event>)
    requires Replies(s)
    ensures Replies(FireAll(s, events))
    decreases |events|
  {
    if events != [] {
      StepKeepsReplies(s, events[0]);
      InterleavingKeepsReplies(Fire(s, events[0]), events[1..]);
    }
  }

  /** Of all requests of both services that share a key, at most one has moved money. */
  lemma AtMostOneExecution(s: System, events: seq<Event>, p: nat, q: nat)
    requires SystemInv(s) && Inv(s.db) && Replies(s)
    requires forall i :: 0 <= i < |events| ==> SaneEvent(events[i])
    ensures var s' := FireAll(s, events);
            (p in s'.procs && q in s'.procs && MovedMoney(s'.procs[p]) && MovedMoney(s'.procs[q])
             && CallOf(s'.procs[p].job).key == CallOf(s'.procs[q].job).key) ==> p == q
  {
    var s' := FireAll(s, events);
    InterleavingKeepsInv(s, events);
    InterleavingKeepsReplies(s, events);
    if p in s'.procs && q in s'.procs && MovedMoney(s'.procs[p]) && MovedMoney(s'.procs[q]) && p != q {
      assert ReplyNamesItsRow(s', s'.procs[p]) && ReplyNamesItsRow(s', s'.procs[q]);
      var i, j := s'.procs[p].phase.reply.outcome.id, s'.procs[q].phase.reply.outcome.id;
      if CallOf(s'.procs[p].job).key == CallOf(s'.procs[q].job).key { SameKeySameRow(s'.db.transfers, i, j); }
    }
  }

  /** From an empty database, whatever requests come and however they interleave, deadlock, retry and fail. */
  lemma FromScratch(clock: int, events: seq<Event>)
    requires forall i :: 0 <= i < |events| ==> SaneEvent(events[i])
    ensures var start := System(EMPTY, map[], map[], clock);
            var s := FireAll(start, events);
            && SystemInv(s) && Inv(s.db) && Replies(s)
            && s.db == Run(EMPTY, CommittedOps(start, events))
  {
    var start := System(EMPTY, map[], map[], clock);
    EmptyInv();
    InterleavingIsSerial(start, events);
    InterleavingKeepsInv(start, events);
    InterleavingKeepsReplies(start, events);
  }
}
