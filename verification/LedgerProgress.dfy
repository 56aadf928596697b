/**
 What requests get done. A request whose rows nobody holds, run from start to finish, is its atomic operation on
 the tables as they are, answer included; a deadlock victim of the plain service starts over a bounded number of times.
 */
module LedgerProgress {
  import opened Wrappers
  import opened Ledger
  import opened LedgerInvariants
  import opened LedgerConcurrency

  /** Nobody holds the row. */
  predicate Unheld(s: System, number: string) {
    number !in s.locks
  }

  lemma FireTwo(s: System, a: Event, b: Event)
    ensures FireAll(s, [a, b]) == Fire(Fire(s, a), b)
  {
    hide Fire;
    assert [a, b][1..] == [b] && [b][1..] == [];
    assert FireAll(Fire(s, a), [b]) == FireAll(Fire(Fire(s, a), b), []);
  }

  lemma FireThree(s: System, a: Event, b: Event, c: Event)
    ensures FireAll(s, [a, b, c]) == Fire(Fire(Fire(s, a), b), c)
  {
    hide Fire;
    assert [a, b, c][1..] == [b, c];
    FireTwo(Fire(s, a), b, c);
  }

  lemma FireSix(s: System, a: Event, b: Event, c: Event, d: Event, e: Event, f: Event)
    ensures FireAll(s, [a, b, c, d, e, f]) == Fire(Fire(Fire(Fire(Fire(Fire(s, a), b), c), d), e), f)
  {
    hide Fire;
    assert [a, b, c, d, e, f][1..] == [b, c, d, e, f] && [b, c, d, e, f][1..] == [c, d, e, f] && [c, d, e, f][1..] == [d, e, f];
    assert FireAll(Fire(s, a), [b, c, d, e, f]) == FireAll(Fire(Fire(s, a), b), [c, d, e, f]);
    FireThree(Fire(Fire(Fire(s, a), b), c), d, e, f);
  }

  /** The events of a transfer that meets no other request. */
  function TransferEvents(pid: nat, job: Job, fx: FxView): seq<Event> {
    [Spawn(pid, job), Lookup(pid), LockSource(pid, fx), LockDestination(pid), Count(pid), Commit(pid)]
  }

  /** Nothing more happens to a finished request. */
  lemma FinishedStays(s: System, pid: nat, fx: FxView)
    requires pid in s.procs && s.procs[pid].phase.Finished?
    ensures Fire(s, LockSource(pid, fx)) == Fire(s, LockDestination(pid)) == Fire(s, Count(pid)) == Fire(s, Commit(pid)) == s
  {
  }

  /** Where a transfer stands when both rows are locked and its volume is counted, unless a row was missing. */
  ghost predicate Collected(s: System, s': System, pid: nat, job: Job, fx: Option<FxView>)
  {
    var source, destination := SourceOf(job), DestinationOf(job);
    && pid in s'.procs && s'.db == s.db && s'.clock == s.clock
    && match ActiveRow(RowOf(s.db.accounts, source), source)
       case Err(e) => s'.procs[pid].phase == Finished(Transferred(Refused(e)))
       case Ok(_) =>
         match ActiveRow(RowOf(s.db.accounts, destination), destination)
         case Err(e) => s'.procs[pid].phase == Finished(Transferred(Refused(e)))
         case Ok(_) =>
           && s'.procs[pid].job == job && s'.procs[pid].fx == fx && s'.procs[pid].phase == Counted(VolumeUsd(s.db.transfers, source, s.clock - DAY), s.clock)
           && source in s'.procs[pid].rows && destination in s'.procs[pid].rows
  }

  /** Locking the two rows and counting, from the start of a transaction on. */
  lemma CollectsRows(s: System, pid: nat, job: Job, fx: FxView)
    requires pid in s.procs && s.procs[pid].job == job && s.procs[pid].phase == Begun && s.procs[pid].rows == map[] && s.procs[pid].fx == None
    requires Unheld(s, SourceOf(job)) && Unheld(s, DestinationOf(job))
    requires job.PlainJob? || (job.CrossJob? && FxCheck(job.rq, fx).Ok?)
    ensures Collected(s, Fire(Fire(Fire(s, LockSource(pid, fx)), LockDestination(pid)), Count(pid)), pid, job, if job.CrossJob? then Some(fx) else None)
  {
    hide FxCheck, VolumeUsd, FireLookup, FireCommit, FireDeadlock;
  }

  /** The request as it begins its transaction: the key is new. */
  lemma Begins(s: System, pid: nat, job: Job, call: Call)
    requires pid !in s.procs && Find(s.db.transfers, call.key).None?
    requires (job.CrossJob? && job.call == call) || (job.PlainJob? && job.call == call && job.plain.amount > 0)
    ensures Fire(Fire(s, Spawn(pid, job)), Lookup(pid)) == s.(procs := s.procs[pid := Proc(job, Begun, 0, None, map[])])
  {
    hide Find;
    var s1 := Fire(s, Spawn(pid, job));
    assert s1.procs[pid := Proc(job, Begun, 0, None, map[])] == s.procs[pid := Proc(job, Begun, 0, None, map[])];
  }

  /** A cross-currency request nobody disturbs does exactly what the atomic transfer does, and answers so. */
  lemma CrossAlone(s: System, pid: nat, rq: CrossRequest, call: Call, fx: FxView)
    requires SystemInv(s) && pid !in s.procs && rq.amount > 0 && PositiveFx(fx)
    requires Unheld(s, rq.source) && Unheld(s, rq.destination)
    ensures var s' := FireAll(s, TransferEvents(pid, CrossJob(rq, call), fx));
            && pid in s'.procs && s'.procs[pid].phase.Finished?
            && (s'.db, s'.procs[pid].phase.reply) == (Initiate(s.db, rq, call, fx, s.clock).0, Transferred(Initiate(s.db, rq, call, fx, s.clock).1))
  {
    var job := CrossJob(rq, call);
    FireSix(s, Spawn(pid, job), Lookup(pid), LockSource(pid, fx), LockDestination(pid), Count(pid), Commit(pid));
    hide FireAll, CrossDecision, FireCommit, FireDeadlock, Ready, SystemInv;
    var s2 := Fire(Fire(s, Spawn(pid, job)), Lookup(pid));
    if Find(s.db.transfers, call.key).Some? {
      FinishedStays(s2, pid, fx);
    } else {
      Begins(s, pid, job, call);
      CrossFromBegun(s, s2, pid, rq, call, fx);
    }
  }

  lemma CrossFromBegun(s: System, s2: System, pid: nat, rq: CrossRequest, call: Call, fx: FxView)
    requires SystemInv(s) && pid !in s.procs && rq.amount > 0 && PositiveFx(fx) && Find(s.db.transfers, call.key).None?
    requires Unheld(s, rq.source) && Unheld(s, rq.destination)
    requires s2 == s.(procs := s.procs[pid := Proc(CrossJob(rq, call), Begun, 0, None, map[])])
    requires s2 == Fire(Fire(s, Spawn(pid, CrossJob(rq, call))), Lookup(pid))
    ensures var s' := Fire(Fire(Fire(Fire(s2, LockSource(pid, fx)), LockDestination(pid)), Count(pid)), Commit(pid));
            && pid in s'.procs && s'.procs[pid].phase.Finished?
            && (s'.db, s'.procs[pid].phase.reply) == (Initiate(s.db, rq, call, fx, s.clock).0, Transferred(Initiate(s.db, rq, call, fx, s.clock).1))
  {
    var job := CrossJob(rq, call);
    var s3 := Fire(s2, LockSource(pid, fx));
    if FxCheck(rq, fx).Err? {
      FinishedStays(s3, pid, fx);
    } else {
      var s5 := Fire(Fire(s3, LockDestination(pid)), Count(pid));
      assert SystemInv(s5) by {
        hide SystemInv, Fire;
        QuietStep(s, Spawn(pid, job));
        QuietStep(Fire(s, Spawn(pid, job)), Lookup(pid));
        QuietStep(s2, LockSource(pid, fx));
        QuietStep(s3, LockDestination(pid));
        QuietStep(Fire(s3, LockDestination(pid)), Count(pid));
      }
      CollectsRows(s2, pid, job, fx);
      CrossFromCounted(s2, s5, pid, rq, call, fx);
    }
  }

  lemma CrossFromCounted(s: System, s5: System, pid: nat, rq: CrossRequest, call: Call, fx: FxView)
    requires SystemInv(s5) && Find(s.db.transfers, call.key).None? && FxCheck(rq, fx).Ok?
    requires Collected(s, s5, pid, CrossJob(rq, call), Some(fx))
    ensures var s' := Fire(s5, Commit(pid));
            && pid in s'.procs && s'.procs[pid].phase.Finished?
            && (s'.db, s'.procs[pid].phase.reply) == (Initiate(s.db, rq, call, fx, s.clock).0, Transferred(Initiate(s.db, rq, call, fx, s.clock).1))
  {
    hide SystemInv, FxCheck, FireCommit, TermsOf, VolumeUsd, PostCross;
    if s5.procs[pid].phase.Finished? {
      FinishedStays(s5, pid, fx);
    } else {
      CrossCommitRefines(s5, pid);
    }
  }

  /** So does a plain one. */
  lemma PlainAlone(s: System, pid: nat, rq: PlainRequest, call: Call, cfg: RateConfig, fx: FxView)
    requires SystemInv(s) && pid !in s.procs && PositiveRates(cfg.rates) && PositiveFx(fx)
    requires Unheld(s, rq.source) && Unheld(s, rq.destination)
    ensures var s' := FireAll(s, TransferEvents(pid, PlainJob(rq, call, cfg), fx));
            && pid in s'.procs && s'.procs[pid].phase.Finished?
            && (s'.db, s'.procs[pid].phase.reply)
               == (ExecuteTransfer(s.db, rq, call, cfg, s.clock).0, Transferred(ExecuteTransfer(s.db, rq, call, cfg, s.clock).1))
  {
    var job := PlainJob(rq, call, cfg);
    FireSix(s, Spawn(pid, job), Lookup(pid), LockSource(pid, fx), LockDestination(pid), Count(pid), Commit(pid));
    hide FireAll, PlainDecision, FireCommit, FireDeadlock, Ready, SystemInv;
    var s2 := Fire(Fire(s, Spawn(pid, job)), Lookup(pid));
    if rq.amount <= 0 || Find(s.db.transfers, call.key).Some? {
      FinishedStays(s2, pid, fx);
    } else {
      Begins(s, pid, job, call);
      PlainFromBegun(s, s2, pid, rq, call, cfg, fx);
    }
  }

  lemma PlainFromBegun(s: System, s2: System, pid: nat, rq: PlainRequest, call: Call, cfg: RateConfig, fx: FxView)
    requires SystemInv(s) && pid !in s.procs && rq.amount > 0 && PositiveRates(cfg.rates) && PositiveFx(fx) && Find(s.db.transfers, call.key).None?
    requires Unheld(s, rq.source) && Unheld(s, rq.destination)
    requires s2 == s.(procs := s.procs[pid := Proc(PlainJob(rq, call, cfg), Begun, 0, None, map[])])
    requires s2 == Fire(Fire(s, Spawn(pid, PlainJob(rq, call, cfg))), Lookup(pid))
    ensures var s' := Fire(Fire(Fire(Fire(s2, LockSource(pid, fx)), LockDestination(pid)), Count(pid)), Commit(pid));
            && pid in s'.procs && s'.procs[pid].phase.Finished?
            && (s'.db, s'.procs[pid].phase.reply)
               == (ExecuteTransfer(s.db, rq, call, cfg, s.clock).0, Transferred(ExecuteTransfer(s.db, rq, call, cfg, s.clock).1))
  {
    var job := PlainJob(rq, call, cfg);
    var s3 := Fire(s2, LockSource(pid, fx));
    var s5 := Fire(Fire(s3, LockDestination(pid)), Count(pid));
    assert SystemInv(s5) by {
      hide SystemInv, Fire;
      QuietStep(s, Spawn(pid, job));
      QuietStep(Fire(s, Spawn(pid, job)), Lookup(pid));
      QuietStep(s2, LockSource(pid, fx));
      QuietStep(s3, LockDestination(pid));
      QuietStep(Fire(s3, LockDestination(pid)), Count(pid));
    }
    CollectsRows(s2, pid, job, fx);
    PlainFromCounted(s2, s5, pid, rq, call, cfg);
  }

  lemma PlainFromCounted(s: System, s5: System, pid: nat, rq: PlainRequest, call: Call, cfg: RateConfig)
    requires SystemInv(s5) && Find(s.db.transfers, call.key).None? && rq.amount > 0
    requires Collected(s, s5, pid, PlainJob(rq, call, cfg), None)
    ensures var s' := Fire(s5, Commit(pid));
            && pid in s'.procs && s'.procs[pid].phase.Finished?
            && (s'.db, s'.procs[pid].phase.reply)
               == (ExecuteTransfer(s.db, rq, call, cfg, s.clock).0, Transferred(ExecuteTransfer(s.db, rq, call, cfg, s.clock).1))
  {
    hide SystemInv, FireCommit, PlainTermsOf, VolumeUsd, PostPlain;
    if !s5.procs[pid].phase.Finished? {
      PlainCommitRefines(s5, pid);
    }
  }

  /** A deadlock ends a cross-currency request; a plain one starts over without its locks until its retries are used up. */
  lemma VictimStartsOver(s: System, pid: nat)
    requires pid in s.procs && InTransaction(s.procs[pid])
    ensures var p, s' := s.procs[pid], Fire(s, DeadlockVictim(pid));
            && s'.db == s.db && pid in s'.procs && s'.procs[pid].job == p.job
            && (forall n :: n in s'.locks <==> n in s.locks && s.locks[n] != pid)
            && (if p.job.PlainJob? && p.attempt < MAX_RETRIES then s'.procs[pid].phase == Waiting && s'.procs[pid].attempt == p.attempt + 1
                else s'.procs[pid].phase == Finished(Transferred(Refused(Deadlock))))
  {
  }

  /** A row another request holds is waited for. */
  lemma HeldRowIsAwaited(s: System, pid: nat)
    requires pid in s.procs && s.procs[pid].phase.SourceLocked?
    ensures var number := DestinationOf(s.procs[pid].job);
            number in s.locks && s.locks[number] != pid ==> Fire(s, LockDestination(pid)) == s
  {
  }
}
