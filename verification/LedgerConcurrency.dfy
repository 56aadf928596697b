/**
 Requests running side by side. Each one looks its key up outside any transaction, then locks its source
 row, then its destination row, reads the rolling volume, and commits what it computed from the copies it
 read; it may be picked as a deadlock victim or lose its connection at any point. Every interleaving is a
 run of the atomic ledger.
 */
module LedgerConcurrency {
  import opened Money
  import opened Wrappers
  import opened Ledger
  import opened LedgerInvariants

  datatype Job =
    | CrossJob(rq: CrossRequest, call: Call)
    | PlainJob(plain: PlainRequest, call: Call, cfg: RateConfig)
    | CloseJob(number: string, hash: string, actor: string, requestId: Option<string>)
    | CreateJob(owner: string, currency: string, opening: int, drawn: seq<string>, actor: string, requestId: Option<string>, cfg: RateConfig)

  datatype Reply = Transferred(outcome: Outcome) | AccountClosed | AccountOpened(number: string)

  datatype Phase =
    | Waiting
    | Begun
    | SourceLocked
    | BothLocked
    | Counted(volume: int, now: int)
    | Finished(reply: Reply)

  /** `rows` are the copies this request's transaction has read under its locks. */
  datatype Proc = Proc(job: Job, phase: Phase, attempt: nat, fx: Option<FxView>, rows: map<string, Account>)

  datatype System = System(db: Ledger, locks: map<string, nat>, procs: map<nat, Proc>, clock: int)

  datatype Event =
    | Spawn(pid: nat, job: Job)
    | Lookup(pid: nat)
    | LockSource(pid: nat, fx: FxView)
    | LockDestination(pid: nat)
    | Count(pid: nat)
    | Commit(pid: nat)
    | DeadlockVictim(pid: nat)
    | Crash(pid: nat)
    | Tick(elapsed: nat)

  function SourceOf(job: Job): string {
    match job
    case CrossJob(rq, _) => rq.source
    case PlainJob(rq, _, _) => rq.source
    case CloseJob(number, _, _, _) => number
    case CreateJob(_, _, _, _, _, _, _) => ""
  }

  function DestinationOf(job: Job): string {
    match job
    case CrossJob(rq, _) => rq.destination
    case PlainJob(rq, _, _) => rq.destination
    case CloseJob(number, _, _, _) => number
    case CreateJob(_, _, _, _, _, _, _) => ""
  }

  // ---- steps ---------------------------------------------------------------------------------

  function Release(locks: map<string, nat>, pid: nat): map<string, nat> {
    map n | n in locks && locks[n] != pid :: locks[n]
  }

  function SetPhase(s: System, pid: nat, phase: Phase): System
    requires pid in s.procs
  {
    s.(procs := s.procs[pid := s.procs[pid].(phase := phase)])
  }

  /** The transaction is over: its locks go and its copies are forgotten. */
  function End(s: System, pid: nat, phase: Phase, attempt: nat): System
    requires pid in s.procs
  {
    s.(locks := Release(s.locks, pid),
       procs := s.procs[pid := s.procs[pid].(phase := phase, attempt := attempt, fx := None, rows := map[])])
  }

  function Refuse(s: System, pid: nat, e: Error): System
    requires pid in s.procs
  {
    End(s, pid, Finished(Transferred(Refused(e))), s.procs[pid].attempt)
  }

  /** The state after a successful commit of `db` by a request. */
  function Posted(s: System, pid: nat, db: Ledger): System
    requires pid in s.procs
  {
    End(s, pid, Finished(Transferred(Executed(|s.db.transfers|))), s.procs[pid].attempt).(db := db)
  }

  /** Lock a row and read it; a row held by another request keeps this one waiting. */
  function LockRow(s: System, pid: nat, number: string, next: Phase): System
    requires pid in s.procs
  {
    if number in s.locks && s.locks[number] != pid then s
    else
      match ActiveRow(RowOf(s.db.accounts, number), number)
      case Err(e) => Refuse(s, pid, e)
      case Ok(row) =>
        s.(locks := s.locks[number := pid],
           procs := s.procs[pid := s.procs[pid].(phase := next, rows := s.procs[pid].rows[number := row])])
  }

  function LookupKey(s: System, pid: nat, call: Call): System
    requires pid in s.procs
  {
    match Find(s.db.transfers, call.key)
    case Some(id) => SetPhase(s, pid, Finished(Transferred(ReplayOf(s.db.transfers, id, call.caller))))
    case None => SetPhase(s, pid, Begun)
  }

  function FireLookup(s: System, pid: nat): System
    requires pid in s.procs && s.procs[pid].phase.Waiting?
  {
    match s.procs[pid].job
    case CrossJob(_, call) => LookupKey(s, pid, call)
    case PlainJob(rq, call, _) =>
      if rq.amount <= 0 then SetPhase(s, pid, Finished(Transferred(Refused(InvalidAmount)))) else LookupKey(s, pid, call)
    case CloseJob(_, _, _, _) => SetPhase(s, pid, Begun)
    case CreateJob(_, _, _, drawn, _, _, _) =>
      // The number is drawn now; the insert comes later and meets the unique constraint.
      if drawn == [] then s
      else
        var job := s.procs[pid].job.(drawn := [PickNumber(s.db.accounts, drawn)]);
        s.(procs := s.procs[pid := s.procs[pid].(job := job, phase := Begun)])
  }

  function FireLockSource(s: System, pid: nat, fx: FxView): System
    requires pid in s.procs && s.procs[pid].phase.Begun?
  {
    var p := s.procs[pid];
    match p.job
    case CrossJob(rq, _) =>
      (match FxCheck(rq, fx)
       case Err(e) => Refuse(s, pid, e)
       case Ok(_) => LockRow(s.(procs := s.procs[pid := p.(fx := Some(fx))]), pid, rq.source, SourceLocked))
    case PlainJob(rq, _, _) => LockRow(s, pid, rq.source, SourceLocked)
    case CloseJob(number, _, _, _) => LockRow(s, pid, number, BothLocked)
    case CreateJob(_, _, _, _, _, _, _) => s
  }

  /** The terms computed from the copies, never from the current table. */
  function CopiedTerms(p: Proc, rq: CrossRequest, caller: string, volume: int): Result<CrossTerms, Error>
    requires p.fx.Some? && FxCheck(rq, p.fx.value).Ok? && rq.source in p.rows
  {
    var (current, preview) := FxCheck(rq, p.fx.value).value;
    TermsOf(rq, caller, current, preview, p.rows[rq.source], volume)
  }

  predicate Ready(p: Proc) {
    match p.job
    case CrossJob(rq, _) =>
      && p.phase.Counted? && rq.source in p.rows && rq.destination in p.rows
      && p.fx.Some? && FxCheck(rq, p.fx.value).Ok?
    case PlainJob(rq, _, _) => p.phase.Counted? && rq.source in p.rows && rq.destination in p.rows
    case CloseJob(number, _, _, _) => p.phase.BothLocked? && number in p.rows
    case CreateJob(_, _, _, drawn, _, _, _) => p.phase.Begun? && |drawn| == 1
  }

  /** Commit: the insert meets the unique constraint, then the computed rows are written back. */
  function FireCommit(s: System, pid: nat): System
    requires pid in s.procs && Ready(s.procs[pid])
  {
    var p := s.procs[pid];
    match p.job
    case CrossJob(rq, call) =>
      (match CopiedTerms(p, rq, call.caller, p.phase.volume)
       case Err(e) => Refuse(s, pid, e)
       case Ok(terms) =>
         if Find(s.db.transfers, call.key).Some? then Refuse(s, pid, DuplicateKey)
         else
           Posted(s, pid, PostCross(s.db, p.rows, rq, call, terms, p.phase.now)))
    case PlainJob(rq, call, cfg) =>
      (match PlainTermsOf(rq, cfg, p.rows[rq.source], p.rows[rq.destination])
       case Err(e) => Refuse(s, pid, e)
       case Ok(terms) =>
         if Find(s.db.transfers, call.key).Some? then Refuse(s, pid, DuplicateKey)
         else
           Posted(s, pid, PostPlain(s.db, p.rows, rq, call, terms, p.phase.now)))
    case CloseJob(number, hash, actor, requestId) =>
      if p.rows[number].balance != 0 then Refuse(s, pid, AccountHasBalance)
      else
        End(s, pid, Finished(AccountClosed), p.attempt)
        .(db := PostClose(s.db, p.rows[number], number, hash, actor, requestId))
    case CreateJob(owner, currency, opening, drawn, actor, requestId, cfg) =>
      (match CreateAccount(s.db, owner, currency, opening, drawn, actor, requestId, cfg)
       case (_, Err(e)) => Refuse(s, pid, e)
       case (db, Ok(number)) => End(s, pid, Finished(AccountOpened(number)), p.attempt).(db := db))
  }

  /** Only the plain service starts over, and only so often. */
  function FireDeadlock(s: System, pid: nat): System
    requires pid in s.procs
  {
    var p := s.procs[pid];
    if p.job.PlainJob? && p.attempt < MAX_RETRIES then End(s, pid, Waiting, p.attempt + 1) else Refuse(s, pid, Deadlock)
  }

  predicate InTransaction(p: Proc) {
    p.phase.Begun? || p.phase.SourceLocked? || p.phase.BothLocked? || p.phase.Counted?
  }

  function Fire(s: System, e: Event): System {
    match e
    case Spawn(pid, job) =>
      if pid in s.procs then s else s.(procs := s.procs[pid := Proc(job, Waiting, 0, None, map[])])
    case Tick(elapsed) => s.(clock := s.clock + elapsed)
    case Lookup(pid) => if pid in s.procs && s.procs[pid].phase.Waiting? then FireLookup(s, pid) else s
    case LockSource(pid, fx) => if pid in s.procs && s.procs[pid].phase.Begun? then FireLockSource(s, pid, fx) else s
    case LockDestination(pid) =>
      if pid in s.procs && s.procs[pid].phase.SourceLocked? then LockRow(s, pid, DestinationOf(s.procs[pid].job), BothLocked) else s
    case Count(pid) =>
      if pid in s.procs && s.procs[pid].phase.BothLocked? && !s.procs[pid].job.CloseJob?
      then SetPhase(s, pid, Counted(VolumeUsd(s.db.transfers, SourceOf(s.procs[pid].job), s.clock - DAY), s.clock))
      else s
    case Commit(pid) => if pid in s.procs && Ready(s.procs[pid]) then FireCommit(s, pid) else s
    case DeadlockVictim(pid) => if pid in s.procs && InTransaction(s.procs[pid]) then FireDeadlock(s, pid) else s
    case Crash(pid) => if pid in s.procs && InTransaction(s.procs[pid]) then Refuse(s, pid, Aborted) else s
  }

  function FireAll(s: System, events: seq<Event>): System
    decreases |events|
  {
    if events == [] then s else FireAll(Fire(s, events[0]), events[1..])
  }

  /** The atomic operation an event performs, if it performs one. */
  function CommittedOp(s: System, e: Event): Option<Op> {
    if e.Commit? && e.pid in s.procs && Ready(s.procs[e.pid]) && Fire(s, e).procs[e.pid].phase.Finished? then
      var p := s.procs[e.pid];
      var reply := Fire(s, e).procs[e.pid].phase.reply;
      if reply.Transferred? && !reply.outcome.Executed? then None
      else
        match p.job
        case CrossJob(rq, call) => Some(Cross(rq, call, p.fx.value, p.phase.now))
        case PlainJob(rq, call, cfg) => Some(Plain(rq, call, cfg, p.phase.now))
        case CloseJob(number, hash, actor, requestId) => Some(Close(number, hash, actor, requestId))
        case CreateJob(owner, currency, opening, drawn, actor, requestId, cfg) =>
          Some(Create(owner, currency, opening, drawn, actor, requestId, cfg))
    else None
  }

  // ---- the invariant of the interleaving -----------------------------------------------------

  /** The copy a request holds is the current committed row, because it holds the row's lock. */
  ghost predicate CopyIsCurrent(s: System, pid: nat, number: string)
    requires pid in s.procs && number in s.procs[pid].rows
  {
    && number in s.locks && s.locks[number] == pid
    && number in s.db.accounts && s.db.accounts[number] == s.procs[pid].rows[number]
    && s.db.accounts[number].active
  }

  ghost predicate PhaseOk(s: System, p: Proc) {
    && (p.fx.Some? ==> PositiveFx(p.fx.value))
    && match p.phase
       case Waiting => p.rows.Keys == {}
       case Begun => p.rows.Keys == {}
       case Finished(_) => p.rows.Keys == {}
       case SourceLocked => p.rows.Keys == {SourceOf(p.job)} && FxRead(p)
       case BothLocked => p.rows.Keys == {SourceOf(p.job), DestinationOf(p.job)} && FxRead(p)
       case Counted(volume, now) =>
         && p.rows.Keys == {SourceOf(p.job), DestinationOf(p.job)} && FxRead(p)
         && now <= s.clock
         && volume == VolumeUsd(s.db.transfers, SourceOf(p.job), now - DAY)
         && Timely(s.db.transfers, SourceOf(p.job), now)
  }

  ghost predicate FxRead(p: Proc) {
    !p.job.CreateJob? && (p.job.CrossJob? ==> p.fx.Some? && FxCheck(p.job.rq, p.fx.value).Ok?)
  }

  ghost predicate SaneJob(job: Job) {
    match job
    case CrossJob(rq, _) => rq.amount > 0
    case PlainJob(rq, _, cfg) => PositiveRates(cfg.rates)
    case CloseJob(_, _, _, _) => true
    case CreateJob(_, _, _, drawn, _, _, _) => drawn != []
  }

  ghost predicate ProcOk(s: System, pid: nat)
    requires pid in s.procs
  {
    && SaneJob(s.procs[pid].job)
    && PhaseOk(s, s.procs[pid])
    && (forall n :: n in s.procs[pid].rows ==> CopyIsCurrent(s, pid, n))
    && (s.procs[pid].job.PlainJob? && !s.procs[pid].phase.Waiting? && !s.procs[pid].phase.Finished? ==> s.procs[pid].job.plain.amount > 0)
  }

  ghost predicate SystemInv(s: System) {
    && (forall pid :: pid in s.procs ==> ProcOk(s, pid))
    && (forall n :: n in s.locks ==> s.locks[n] in s.procs && n in s.procs[s.locks[n]].rows)
    && (forall i :: 0 <= i < |s.db.transfers| ==> s.db.transfers[i].createdAt <= s.clock)
  }

  /** Requests are positive and the rate tables they meet hold positive rates. */
  ghost predicate SaneEvent(e: Event) {
    match e
    case Spawn(_, job) => SaneJob(job)
    case LockSource(_, fx) => PositiveFx(fx)
    case _ => true
  }

  lemma NoTwoHolders(s: System, p: nat, q: nat, number: string)
    requires SystemInv(s) && p in s.procs && q in s.procs
    requires number in s.procs[p].rows && number in s.procs[q].rows
    ensures p == q
  {
    assert ProcOk(s, p) && ProcOk(s, q);
    assert CopyIsCurrent(s, p, number) && CopyIsCurrent(s, q, number);
  }

  // ---- preservation --------------------------------------------------------------------------

  /** Steps that leave the tables alone and touch one request. */
  lemma LocalStepKeepsInv(s: System, s': System, pid: nat)
    requires SystemInv(s) && s'.db == s.db && s'.clock == s.clock
    requires pid in s'.procs && s'.procs == s.procs[pid := s'.procs[pid]]
    requires ProcOk(s', pid)
    requires forall n :: n in s.locks && s.locks[n] != pid ==> n in s'.locks && s'.locks[n] == s.locks[n]
    requires forall n :: n in s'.locks ==> if s'.locks[n] == pid then n in s'.procs[pid].rows else n in s.locks && s.locks[n] == s'.locks[n]
    ensures SystemInv(s')
  {
    hide ProcOk;
    forall q | q in s'.procs ensures ProcOk(s', q) {
      if q != pid { UntouchedProcOk(s, s', pid, q); }
    }
  }

  lemma UntouchedProcOk(s: System, s': System, pid: nat, q: nat)
    requires q in s.procs && ProcOk(s, q) && q != pid && s'.db == s.db && s'.clock == s.clock
    requires q in s'.procs && s'.procs[q] == s.procs[q]
    requires forall n :: n in s.locks && s.locks[n] != pid ==> n in s'.locks && s'.locks[n] == s.locks[n]
    ensures ProcOk(s', q)
  {
    hide PositiveFx, FxRead, SaneJob, VolumeUsd, Timely;
    forall n | n in s'.procs[q].rows ensures CopyIsCurrent(s', q, n) {
      assert CopyIsCurrent(s, q, n);
    }
  }

  lemma EndKeepsInv(s: System, pid: nat, phase: Phase, attempt: nat)
    requires SystemInv(s) && pid in s.procs && (phase.Waiting? || phase.Finished?)
    ensures SystemInv(End(s, pid, phase, attempt))
  {
    assert ProcOk(s, pid);
    LocalStepKeepsInv(s, End(s, pid, phase, attempt), pid);
  }

  lemma LockRowKeepsInv(s: System, pid: nat, number: string, next: Phase)
    requires SystemInv(s) && pid in s.procs && FxRead(s.procs[pid])
    requires s.procs[pid].job.PlainJob? ==> s.procs[pid].job.plain.amount > 0
    requires next.SourceLocked? || next.BothLocked?
    requires s.procs[pid].rows.Keys + {number}
          == if next.SourceLocked? then {SourceOf(s.procs[pid].job)} else {SourceOf(s.procs[pid].job), DestinationOf(s.procs[pid].job)}
    ensures SystemInv(LockRow(s, pid, number, next)) && LockRow(s, pid, number, next).db == s.db
  {
    if number in s.locks && s.locks[number] != pid {
    } else {
      match ActiveRow(RowOf(s.db.accounts, number), number) {
        case Err(e) => EndKeepsInv(s, pid, Finished(Transferred(Refused(e))), s.procs[pid].attempt);
        case Ok(row) => RowReadKeepsInv(s, pid, number, next, row);
      }
    }
  }

  lemma RowReadKeepsInv(s: System, pid: nat, number: string, next: Phase, row: Account)
    requires SystemInv(s) && pid in s.procs && FxRead(s.procs[pid])
    requires s.procs[pid].job.PlainJob? ==> s.procs[pid].job.plain.amount > 0
    requires next.SourceLocked? || next.BothLocked?
    requires s.procs[pid].rows.Keys + {number}
          == if next.SourceLocked? then {SourceOf(s.procs[pid].job)} else {SourceOf(s.procs[pid].job), DestinationOf(s.procs[pid].job)}
    requires number in s.locks ==> s.locks[number] == pid
    requires number in s.db.accounts && s.db.accounts[number] == row && row.active
    ensures var p := s.procs[pid].(phase := next, rows := s.procs[pid].rows[number := row]);
            SystemInv(s.(locks := s.locks[number := pid], procs := s.procs[pid := p]))
  {
    var p := s.procs[pid].(phase := next, rows := s.procs[pid].rows[number := row]);
    var s' := s.(locks := s.locks[number := pid], procs := s.procs[pid := p]);
    hide ProcOk, SaneJob, FxRead, PositiveFx;
    RowReadProcOk(s, pid, number, next, row);
    LocalStepKeepsInv(s, s', pid);
  }

  lemma RowReadProcOk(s: System, pid: nat, number: string, next: Phase, row: Account)
    requires pid in s.procs && ProcOk(s, pid) && FxRead(s.procs[pid])
    requires s.procs[pid].job.PlainJob? ==> s.procs[pid].job.plain.amount > 0
    requires next.SourceLocked? || next.BothLocked?
    requires s.procs[pid].rows.Keys + {number}
          == if next.SourceLocked? then {SourceOf(s.procs[pid].job)} else {SourceOf(s.procs[pid].job), DestinationOf(s.procs[pid].job)}
    requires number in s.db.accounts && s.db.accounts[number] == row && row.active
    ensures var p := s.procs[pid].(phase := next, rows := s.procs[pid].rows[number := row]);
            ProcOk(s.(locks := s.locks[number := pid], procs := s.procs[pid := p]), pid)
  {
    hide PositiveFx, FxCheck, SaneJob, VolumeUsd, Timely;
    var p := s.procs[pid].(phase := next, rows := s.procs[pid].rows[number := row]);
    var s' := s.(locks := s.locks[number := pid], procs := s.procs[pid := p]);
    assert p.rows.Keys == s.procs[pid].rows.Keys + {number};
    forall n | n in p.rows ensures CopyIsCurrent(s', pid, n) {
      if n != number { assert CopyIsCurrent(s, pid, n); }
    }
  }

  /** What a commit by one request may change. */
  ghost predicate CommittedBy(s: System, s': System, pid: nat, t: Option<Transfer>)
    requires pid in s.procs
  {
    && pid in s'.procs && s'.procs == s.procs[pid := s'.procs[pid]]
    && s'.clock == s.clock && s'.locks == Release(s.locks, pid)
    && (forall n :: n in s.db.accounts && n !in s.procs[pid].rows ==> n in s'.db.accounts && s'.db.accounts[n] == s.db.accounts[n])
    && s'.db.transfers == s.db.transfers + (if t.Some? then [t.value] else [])
    && (t.Some? ==> t.value.source in s.procs[pid].rows && t.value.createdAt <= s.clock)
  }

  lemma RowsDisjoint(s: System, p: nat, q: nat, n: string)
    requires SystemInv(s) && p in s.procs && q in s.procs && p != q && n in s.procs[q].rows
    ensures n !in s.procs[p].rows && CopyIsCurrent(s, q, n)
  {
    assert ProcOk(s, q);
    if n in s.procs[p].rows { NoTwoHolders(s, p, q, n); }
  }

  lemma OtherCopiesCurrent(s: System, s': System, pid: nat, q: nat, t: Option<Transfer>)
    requires SystemInv(s) && pid in s.procs && q in s.procs && q != pid
    requires CommittedBy(s, s', pid, t)
    ensures forall n :: n in s'.procs[q].rows ==> CopyIsCurrent(s', q, n)
  {
    hide SystemInv;
    forall n | n in s.procs[q].rows ensures CopyIsCurrent(s', q, n) {
      RowsDisjoint(s, pid, q, n);
    }
  }

  lemma OtherCountCurrent(s: System, s': System, pid: nat, q: nat, t: Option<Transfer>)
    requires SystemInv(s) && pid in s.procs && q in s.procs && q != pid
    requires CommittedBy(s, s', pid, t)
    ensures PhaseOk(s', s'.procs[q])
  {
    assert ProcOk(s, q);
    var p := s.procs[q];
    if p.phase.Counted? {
      RowsDisjoint(s, pid, q, SourceOf(p.job));
      if t.Some? {
        VolumeOfAnother(s.db.transfers, t.value, SourceOf(p.job), p.phase.now - DAY);
      } else {
        assert s'.db.transfers == s.db.transfers;
      }
    }
  }

  lemma VolumeOfAnother(rows: seq<Transfer>, t: Transfer, source: string, since: int)
    requires t.source != source
    ensures VolumeUsd(rows + [t], source, since) == VolumeUsd(rows, source, since)
  {
    assert (rows + [t])[..|rows|] == rows;
  }

  /** The locks that stay are those of other requests, and no row is stamped late. */
  lemma CommitTables(s: System, s': System, pid: nat, t: Option<Transfer>)
    requires SystemInv(s) && pid in s.procs && CommittedBy(s, s', pid, t) && s'.procs[pid].rows == map[]
    ensures forall q :: q in s'.procs ==> q in s.procs
    ensures forall n :: n in s'.locks ==> s'.locks[n] in s'.procs && n in s'.procs[s'.locks[n]].rows
    ensures forall i :: 0 <= i < |s'.db.transfers| ==> s'.db.transfers[i].createdAt <= s'.clock
  {
    hide ProcOk;
  }

  lemma CommitKeepsInv(s: System, s': System, pid: nat, t: Option<Transfer>)
    requires SystemInv(s) && pid in s.procs && CommittedBy(s, s', pid, t)
    requires s'.procs[pid] == s.procs[pid].(phase := s'.procs[pid].phase, fx := None, rows := map[]) && s'.procs[pid].phase.Finished?
    ensures SystemInv(s')
  {
    hide ProcOk, CommittedBy;
    CommitTables(s, s', pid, t);
    forall q | q in s'.procs ensures ProcOk(s', q) {
      if q != pid {
        OtherProcOk(s, s', pid, q, t);
      } else {
        FinishedProcOk(s, s', pid);
      }
    }
  }

  lemma OtherProcOk(s: System, s': System, pid: nat, q: nat, t: Option<Transfer>)
    requires SystemInv(s) && pid in s.procs && q in s.procs && q != pid
    requires CommittedBy(s, s', pid, t)
    ensures ProcOk(s', q)
  {
    hide PhaseOk, CopyIsCurrent, SaneJob;
    assert ProcOk(s, q);
    OtherCopiesCurrent(s, s', pid, q, t);
    OtherCountCurrent(s, s', pid, q, t);
  }

  lemma FinishedProcOk(s: System, s': System, pid: nat)
    requires SystemInv(s) && pid in s.procs && pid in s'.procs
    requires s'.procs[pid] == s.procs[pid].(phase := s'.procs[pid].phase, fx := None, rows := map[]) && s'.procs[pid].phase.Finished?
    ensures ProcOk(s', pid)
  {
    assert ProcOk(s, pid);
  }

  // ---- refinement ----------------------------------------------------------------------------

  /** Writing back the copies equals moving money on the current rows. */
  lemma CopiesWriteBackExactly(accounts: map<string, Account>, rows: map<string, Account>, source: string, destination: string, debit: int, credit: int)
    requires source in rows && destination in rows
    requires forall n :: n in rows ==> n in accounts && accounts[n] == rows[n]
    ensures accounts + Move(rows, source, destination, debit, credit) == accounts + Move(accounts, source, destination, debit, credit)
  {
  }

  /** Under its locks a request has read the rows as they now are. */
  lemma HeldRowsAreCurrent(s: System, pid: nat)
    requires SystemInv(s) && pid in s.procs
    ensures SaneJob(s.procs[pid].job) && PhaseOk(s, s.procs[pid])
    ensures forall n :: n in s.procs[pid].rows ==>
              n in s.db.accounts && s.db.accounts[n] == s.procs[pid].rows[n] && s.db.accounts[n].active
  {
    assert ProcOk(s, pid);
    forall n | n in s.procs[pid].rows ensures CopyIsCurrent(s, pid, n) { }
  }

  /** What is decided on the copies under the locks is what the atomic operation decides on the current tables. */
  lemma CrossDecidedAsAtomic(s: System, pid: nat)
    requires SystemInv(s) && pid in s.procs && Ready(s.procs[pid]) && s.procs[pid].job.CrossJob?
    ensures var p := s.procs[pid];
            CopiedTerms(p, p.job.rq, p.job.call.caller, p.phase.volume)
            == CrossDecision(s.db, p.job.rq, p.job.call.caller, p.fx.value, p.phase.now)
  {
    hide SystemInv, TermsOf, FxCheck, VolumeUsd, PositiveFx, Timely;
    HeldRowsAreCurrent(s, pid);
  }

  lemma CrossPostIsAtomic(s: System, pid: nat, terms: CrossTerms)
    requires SystemInv(s) && pid in s.procs && Ready(s.procs[pid]) && s.procs[pid].job.CrossJob?
    requires CopiedTerms(s.procs[pid], s.procs[pid].job.rq, s.procs[pid].job.call.caller, s.procs[pid].phase.volume) == Ok(terms)
    requires Find(s.db.transfers, s.procs[pid].job.call.key).None?
    ensures var p := s.procs[pid];
            && Allowed(s.db, Cross(p.job.rq, p.job.call, p.fx.value, p.phase.now))
            && (PostCross(s.db, p.rows, p.job.rq, p.job.call, terms, p.phase.now), Executed(|s.db.transfers|))
               == Initiate(s.db, p.job.rq, p.job.call, p.fx.value, p.phase.now)
  {
    hide SystemInv, CopiedTerms, CrossDecision, FxCheck, VolumeUsd;
    var p := s.procs[pid];
    var rq := p.job.rq;
    HeldRowsAreCurrent(s, pid);
    CrossDecidedAsAtomic(s, pid);
    CopiesWriteBackExactly(s.db.accounts, p.rows, rq.source, rq.destination, terms.amounts.cost, terms.amounts.net);
  }

  /** A posted transfer changes what a commit may change. */
  lemma CrossPostCommits(s: System, pid: nat, terms: CrossTerms)
    requires pid in s.procs && Ready(s.procs[pid]) && s.procs[pid].job.CrossJob? && s.procs[pid].phase.now <= s.clock
    ensures var p := s.procs[pid];
            CommittedBy(s, Posted(s, pid, PostCross(s.db, p.rows, p.job.rq, p.job.call, terms, p.phase.now)), pid,
                        Some(CrossRow(p.job.rq, p.job.call, terms, p.phase.now)))
  {
  }

  lemma CrossPostRefines(s: System, pid: nat, terms: CrossTerms)
    requires SystemInv(s) && pid in s.procs && Ready(s.procs[pid]) && s.procs[pid].job.CrossJob?
    requires CopiedTerms(s.procs[pid], s.procs[pid].job.rq, s.procs[pid].job.call.caller, s.procs[pid].phase.volume) == Ok(terms)
    requires Find(s.db.transfers, s.procs[pid].job.call.key).None?
    ensures var p := s.procs[pid];
            var db := PostCross(s.db, p.rows, p.job.rq, p.job.call, terms, p.phase.now);
            && SystemInv(Posted(s, pid, db))
            && Allowed(s.db, Cross(p.job.rq, p.job.call, p.fx.value, p.phase.now))
            && (db, Executed(|s.db.transfers|)) == Initiate(s.db, p.job.rq, p.job.call, p.fx.value, p.phase.now)
  {
    hide SystemInv, Allowed, Initiate, PostCross, CommittedBy;
    var p := s.procs[pid];
    CrossPostIsAtomic(s, pid, terms);
    HeldRowsAreCurrent(s, pid);
    CrossPostCommits(s, pid, terms);
    CommitKeepsInv(s, Posted(s, pid, PostCross(s.db, p.rows, p.job.rq, p.job.call, terms, p.phase.now)), pid,
                   Some(CrossRow(p.job.rq, p.job.call, terms, p.phase.now)));
  }

  /**
   A cross-currency commit is the atomic transfer on the current tables, at the time the volume was counted: it
   executes or refuses as that does, but for a key that has come into the table since the lookup.
   */
  lemma CrossCommitRefines(s: System, pid: nat)
    requires SystemInv(s) && pid in s.procs && Ready(s.procs[pid]) && s.procs[pid].job.CrossJob?
    ensures var s', p := FireCommit(s, pid), s.procs[pid];
            var found := Find(s.db.transfers, p.job.call.key);
            && pid in s'.procs && s'.procs[pid].phase.Finished? && s'.procs[pid].phase.reply.Transferred?
            && SystemInv(s') && Allowed(s.db, Cross(p.job.rq, p.job.call, p.fx.value, p.phase.now))
            && (found.None? ==>
                  (s'.db, s'.procs[pid].phase.reply.outcome) == Initiate(s.db, p.job.rq, p.job.call, p.fx.value, p.phase.now))
            && (found.Some? ==>
                  && s'.db == s.db
                  && s'.procs[pid].phase.reply.outcome
                     == Refused(match CrossDecision(s.db, p.job.rq, p.job.call.caller, p.fx.value, p.phase.now) case Err(e) => e case Ok(_) => DuplicateKey))
  {
    hide SystemInv, CopiedTerms, CrossDecision, FxCheck, VolumeUsd, PostCross;
    var p := s.procs[pid];
    HeldRowsAreCurrent(s, pid);
    CrossDecidedAsAtomic(s, pid);
    match CopiedTerms(p, p.job.rq, p.job.call.caller, p.phase.volume) {
      case Err(e) => EndKeepsInv(s, pid, Finished(Transferred(Refused(e))), p.attempt);
      case Ok(terms) =>
        if Find(s.db.transfers, p.job.call.key).Some? {
          EndKeepsInv(s, pid, Finished(Transferred(Refused(DuplicateKey))), p.attempt);
        } else {
          CrossPostRefines(s, pid, terms);
        }
    }
  }

  lemma PlainDecidedAsAtomic(s: System, pid: nat)
    requires SystemInv(s) && pid in s.procs && Ready(s.procs[pid]) && s.procs[pid].job.PlainJob?
    ensures var p := s.procs[pid];
            PlainTermsOf(p.job.plain, p.job.cfg, p.rows[p.job.plain.source], p.rows[p.job.plain.destination])
            == PlainDecision(s.db, p.job.plain, p.job.cfg)
  {
    hide SystemInv, PlainTermsOf;
    HeldRowsAreCurrent(s, pid);
  }

  lemma PlainPostIsAtomic(s: System, pid: nat, terms: PlainTerms)
    requires SystemInv(s) && pid in s.procs && Ready(s.procs[pid]) && s.procs[pid].job.PlainJob?
    requires s.procs[pid].job.plain.amount > 0
    requires var p := s.procs[pid];
             PlainTermsOf(p.job.plain, p.job.cfg, p.rows[p.job.plain.source], p.rows[p.job.plain.destination]) == Ok(terms)
    requires Find(s.db.transfers, s.procs[pid].job.call.key).None?
    ensures var p := s.procs[pid];
            && Allowed(s.db, Plain(p.job.plain, p.job.call, p.job.cfg, p.phase.now))
            && (PostPlain(s.db, p.rows, p.job.plain, p.job.call, terms, p.phase.now), Executed(|s.db.transfers|))
               == ExecuteTransfer(s.db, p.job.plain, p.job.call, p.job.cfg, p.phase.now)
  {
    var p := s.procs[pid];
    var rq, call := p.job.plain, p.job.call;
    hide SystemInv;
    HeldRowsAreCurrent(s, pid);
    ExecuteSucceeds(s.db, rq, call, p.job.cfg, p.phase.now, terms);
    CopiesWriteBackExactly(s.db.accounts, p.rows, rq.source, rq.destination, rq.amount, terms.credit);
  }

  lemma PlainPostCommits(s: System, pid: nat, terms: PlainTerms)
    requires pid in s.procs && Ready(s.procs[pid]) && s.procs[pid].job.PlainJob? && s.procs[pid].phase.now <= s.clock
    ensures var p := s.procs[pid];
            CommittedBy(s, Posted(s, pid, PostPlain(s.db, p.rows, p.job.plain, p.job.call, terms, p.phase.now)), pid,
                        Some(PlainRow(p.job.plain, p.job.call, terms, p.rows[p.job.plain.source], p.rows[p.job.plain.destination], p.phase.now)))
  {
  }

  lemma PlainPostRefines(s: System, pid: nat, terms: PlainTerms)
    requires SystemInv(s) && pid in s.procs && Ready(s.procs[pid]) && s.procs[pid].job.PlainJob?
    requires s.procs[pid].job.plain.amount > 0
    requires var p := s.procs[pid];
             PlainTermsOf(p.job.plain, p.job.cfg, p.rows[p.job.plain.source], p.rows[p.job.plain.destination]) == Ok(terms)
    requires Find(s.db.transfers, s.procs[pid].job.call.key).None?
    ensures var p := s.procs[pid];
            var db := PostPlain(s.db, p.rows, p.job.plain, p.job.call, terms, p.phase.now);
            && SystemInv(Posted(s, pid, db))
            && Allowed(s.db, Plain(p.job.plain, p.job.call, p.job.cfg, p.phase.now))
            && (db, Executed(|s.db.transfers|)) == ExecuteTransfer(s.db, p.job.plain, p.job.call, p.job.cfg, p.phase.now)
  {
    hide SystemInv, Allowed, ExecuteTransfer, PostPlain, CommittedBy;
    var p := s.procs[pid];
    PlainPostIsAtomic(s, pid, terms);
    HeldRowsAreCurrent(s, pid);
    PlainPostCommits(s, pid, terms);
    CommitKeepsInv(s, Posted(s, pid, PostPlain(s.db, p.rows, p.job.plain, p.job.call, terms, p.phase.now)), pid,
                   Some(PlainRow(p.job.plain, p.job.call, terms, p.rows[p.job.plain.source], p.rows[p.job.plain.destination], p.phase.now)));
  }

  lemma PlainCommitRefines(s: System, pid: nat)
    requires SystemInv(s) && pid in s.procs && Ready(s.procs[pid]) && s.procs[pid].job.PlainJob?
    ensures var s', p := FireCommit(s, pid), s.procs[pid];
            var found := Find(s.db.transfers, p.job.call.key);
            && pid in s'.procs && s'.procs[pid].phase.Finished? && s'.procs[pid].phase.reply.Transferred?
            && SystemInv(s') && Allowed(s.db, Plain(p.job.plain, p.job.call, p.job.cfg, p.phase.now))
            && (found.None? ==>
                  (s'.db, s'.procs[pid].phase.reply.outcome) == ExecuteTransfer(s.db, p.job.plain, p.job.call, p.job.cfg, p.phase.now))
            && (found.Some? ==>
                  && s'.db == s.db
                  && s'.procs[pid].phase.reply.outcome
                     == Refused(match PlainDecision(s.db, p.job.plain, p.job.cfg) case Err(e) => e case Ok(_) => DuplicateKey))
  {
    hide PlainTermsOf, PlainDecision, PostPlain;
    var p := s.procs[pid];
    assert p.job.plain.amount > 0 by { assert ProcOk(s, pid); }
    hide SystemInv;
    HeldRowsAreCurrent(s, pid);
    PlainDecidedAsAtomic(s, pid);
    match PlainTermsOf(p.job.plain, p.job.cfg, p.rows[p.job.plain.source], p.rows[p.job.plain.destination]) {
      case Err(e) => EndKeepsInv(s, pid, Finished(Transferred(Refused(e))), p.attempt);
      case Ok(terms) =>
        if Find(s.db.transfers, p.job.call.key).Some? {
          EndKeepsInv(s, pid, Finished(Transferred(Refused(DuplicateKey))), p.attempt);
        } else {
          PlainPostRefines(s, pid, terms);
        }
    }
  }

  lemma CloseCommits(s: System, pid: nat)
    requires pid in s.procs && Ready(s.procs[pid]) && s.procs[pid].job.CloseJob?
    requires s.procs[pid].rows[s.procs[pid].job.number].balance == 0
    ensures CommittedBy(s, FireCommit(s, pid), pid, None)
  {
  }

  lemma CloseCommitRefines(s: System, pid: nat)
    requires SystemInv(s) && pid in s.procs && Ready(s.procs[pid]) && s.procs[pid].job.CloseJob?
    ensures var s', p := FireCommit(s, pid), s.procs[pid];
            var (db, e) := DeleteAccount(s.db, p.job.number, p.job.hash, p.job.actor, p.job.requestId);
            && SystemInv(s') && s'.db == db
            && s'.procs[pid].phase == Finished(match e case None => AccountClosed case Some(error) => Transferred(Refused(error)))
  {
    hide SystemInv, CommittedBy, PhaseOk, SaneJob;
    var p := s.procs[pid];
    HeldRowsAreCurrent(s, pid);
    if p.rows[p.job.number].balance != 0 {
      EndKeepsInv(s, pid, Finished(Transferred(Refused(AccountHasBalance))), p.attempt);
    } else {
      CloseCommits(s, pid);
      CommitKeepsInv(s, FireCommit(s, pid), pid, None);
    }
  }

  lemma CreateCommitRefines(s: System, pid: nat)
    requires SystemInv(s) && pid in s.procs && Ready(s.procs[pid]) && s.procs[pid].job.CreateJob?
    ensures var s', j := FireCommit(s, pid), s.procs[pid].job;
            var (db, r) := CreateAccount(s.db, j.owner, j.currency, j.opening, j.drawn, j.actor, j.requestId, j.cfg);
            && SystemInv(s') && s'.db == db
            && s'.procs[pid].phase == Finished(match r case Ok(number) => AccountOpened(number) case Err(e) => Transferred(Refused(e)))
  {
    var j := s.procs[pid].job;
    assert ProcOk(s, pid);
    match CreateAccount(s.db, j.owner, j.currency, j.opening, j.drawn, j.actor, j.requestId, j.cfg).1 {
      case Err(e) => EndKeepsInv(s, pid, Finished(Transferred(Refused(e))), s.procs[pid].attempt);
      case Ok(_) => CommitKeepsInv(s, FireCommit(s, pid), pid, None);
    }
  }

  lemma TickKeepsInv(s: System, elapsed: nat)
    requires SystemInv(s)
    ensures SystemInv(s.(clock := s.clock + elapsed))
  {
    var s' := s.(clock := s.clock + elapsed);
    forall q | q in s'.procs ensures ProcOk(s', q) {
      assert ProcOk(s, q);
      forall n | n in s'.procs[q].rows ensures CopyIsCurrent(s', q, n) { assert CopyIsCurrent(s, q, n); }
    }
  }

  lemma SpawnKeepsInv(s: System, pid: nat, job: Job)
    requires SystemInv(s) && SaneJob(job) && pid !in s.procs
    ensures SystemInv(s.(procs := s.procs[pid := Proc(job, Waiting, 0, None, map[])]))
  {
    LocalStepKeepsInv(s, s.(procs := s.procs[pid := Proc(job, Waiting, 0, None, map[])]), pid);
  }

  /** A request without locks may change its own entry freely, as long as it stays without locks. */
  lemma UnlockedStepKeepsInv(s: System, s': System, pid: nat)
    requires SystemInv(s) && pid in s.procs && s.procs[pid].rows == map[]
    requires pid in s'.procs && s' == s.(procs := s.procs[pid := s'.procs[pid]])
    requires s'.procs[pid].rows == map[] && ProcOk(s', pid)
    ensures SystemInv(s')
  {
    LocalStepKeepsInv(s, s', pid);
  }

  lemma LookupKeepsInv(s: System, pid: nat)
    requires SystemInv(s) && pid in s.procs && s.procs[pid].phase.Waiting?
    ensures SystemInv(FireLookup(s, pid)) && FireLookup(s, pid).db == s.db
  {
    assert ProcOk(s, pid);
    hide SystemInv;
    match s.procs[pid].job {
      case CrossJob(_, call) => LookupKeyKeepsInv(s, pid, call);
      case PlainJob(rq, call, _) => if rq.amount > 0 { LookupKeyKeepsInv(s, pid, call); } else { UnlockedStepKeepsInv(s, FireLookup(s, pid), pid); }
      case _ => UnlockedStepKeepsInv(s, FireLookup(s, pid), pid);
    }
  }

  lemma LookupKeyKeepsInv(s: System, pid: nat, call: Call)
    requires SystemInv(s) && pid in s.procs && s.procs[pid].phase.Waiting?
    requires s.procs[pid].job.PlainJob? ==> s.procs[pid].job.plain.amount > 0
    ensures SystemInv(LookupKey(s, pid, call)) && LookupKey(s, pid, call).db == s.db
  {
    assert ProcOk(s, pid);
    hide SystemInv;
    UnlockedStepKeepsInv(s, LookupKey(s, pid, call), pid);
  }

  lemma CountKeepsInv(s: System, pid: nat)
    requires SystemInv(s) && pid in s.procs && s.procs[pid].phase.BothLocked?
    ensures SystemInv(SetPhase(s, pid, Counted(VolumeUsd(s.db.transfers, SourceOf(s.procs[pid].job), s.clock - DAY), s.clock)))
  {
    var s' := SetPhase(s, pid, Counted(VolumeUsd(s.db.transfers, SourceOf(s.procs[pid].job), s.clock - DAY), s.clock));
    assert ProcOk(s, pid);
    forall n | n in s'.procs[pid].rows ensures CopyIsCurrent(s', pid, n) { assert CopyIsCurrent(s, pid, n); }
    LocalStepKeepsInv(s, s', pid);
  }

  lemma DeadlockKeepsInv(s: System, pid: nat)
    requires SystemInv(s) && pid in s.procs
    ensures SystemInv(FireDeadlock(s, pid)) && FireDeadlock(s, pid).db == s.db
  {
    hide SystemInv;
    var p := s.procs[pid];
    if p.job.PlainJob? && p.attempt < MAX_RETRIES {
      EndKeepsInv(s, pid, Waiting, p.attempt + 1);
    } else {
      EndKeepsInv(s, pid, Finished(Transferred(Refused(Deadlock))), p.attempt);
    }
  }

  lemma CrashKeepsInv(s: System, pid: nat)
    requires SystemInv(s) && pid in s.procs
    ensures SystemInv(Refuse(s, pid, Aborted))
  {
    EndKeepsInv(s, pid, Finished(Transferred(Refused(Aborted))), s.procs[pid].attempt);
  }

  lemma LockDestinationKeepsInv(s: System, pid: nat)
    requires SystemInv(s) && pid in s.procs && s.procs[pid].phase.SourceLocked?
    ensures var s' := LockRow(s, pid, DestinationOf(s.procs[pid].job), BothLocked); SystemInv(s') && s'.db == s.db
  {
    assert ProcOk(s, pid);
    LockRowKeepsInv(s, pid, DestinationOf(s.procs[pid].job), BothLocked);
  }

  /** Steps other than commits keep the invariant and leave the tables alone. */
  lemma QuietStep(s: System, e: Event)
    requires SystemInv(s) && SaneEvent(e) && !e.Commit?
    ensures SystemInv(Fire(s, e)) && Fire(s, e).db == s.db
  {
    hide SystemInv;
    match e {
      case Spawn(pid, job) => if pid !in s.procs { SpawnKeepsInv(s, pid, job); }
      case Tick(elapsed) => TickKeepsInv(s, elapsed);
      case Lookup(pid) => if pid in s.procs && s.procs[pid].phase.Waiting? { LookupKeepsInv(s, pid); }
      case LockSource(pid, fx) => if pid in s.procs && s.procs[pid].phase.Begun? { LockSourceKeepsInv(s, pid, fx); }
      case LockDestination(pid) => if pid in s.procs && s.procs[pid].phase.SourceLocked? { LockDestinationKeepsInv(s, pid); }
      case Count(pid) => if pid in s.procs && s.procs[pid].phase.BothLocked? { CountKeepsInv(s, pid); }
      case DeadlockVictim(pid) => if pid in s.procs { DeadlockKeepsInv(s, pid); }
      case Crash(pid) => if pid in s.procs { CrashKeepsInv(s, pid); }
    }
  }

  lemma LockSourceKeepsInv(s: System, pid: nat, fx: FxView)
    requires SystemInv(s) && pid in s.procs && s.procs[pid].phase.Begun? && PositiveFx(fx)
    ensures SystemInv(FireLockSource(s, pid, fx)) && FireLockSource(s, pid, fx).db == s.db
  {
    assert ProcOk(s, pid);
    var p := s.procs[pid];
    match p.job {
      case CrossJob(rq, _) =>
        match FxCheck(rq, fx) {
          case Err(e) => EndKeepsInv(s, pid, Finished(Transferred(Refused(e))), p.attempt);
          case Ok(_) =>
            var mid := s.(procs := s.procs[pid := p.(fx := Some(fx))]);
            LocalStepKeepsInv(s, mid, pid);
            LockRowKeepsInv(mid, pid, rq.source, SourceLocked);
        }
      case PlainJob(rq, _, _) => LockRowKeepsInv(s, pid, rq.source, SourceLocked);
      case CloseJob(number, _, _, _) => LockRowKeepsInv(s, pid, number, BothLocked);
      case CreateJob(_, _, _, _, _, _, _) =>
    }
  }

  /** Every step either leaves the tables alone or is one atomic operation on the current tables. */
  lemma StepRefines(s: System, e: Event)
    requires SystemInv(s) && SaneEvent(e)
    ensures SystemInv(Fire(s, e))
    ensures match CommittedOp(s, e)
            case None => Fire(s, e).db == s.db
            case Some(op) => Allowed(s.db, op) && Fire(s, e).db == Step(s.db, op)
  {
    hide SystemInv, FireCommit, CrossDecision, PlainDecision, PostCross, PostPlain, PositiveFx, PositiveRates, Timely;
    if e.Commit? && e.pid in s.procs && Ready(s.procs[e.pid]) {
      match s.procs[e.pid].job {
        case CrossJob(_, _) => CrossCommitRefines(s, e.pid);
        case PlainJob(_, _, _) => PlainCommitRefines(s, e.pid);
        case CloseJob(_, _, _, _) => CloseCommitRefines(s, e.pid);
        case CreateJob(_, _, _, _, _, _, _) => CreateCommitRefines(s, e.pid);
      }
    } else if !e.Commit? {
      QuietStep(s, e);
    }
  }

  /** The atomic operations a run of events performs, in commit order. */
  function CommittedOps(s: System, events: seq<Event>): seq<Op>
    decreases |events|
  {
    if events == [] then []
    else
      (match CommittedOp(s, events[0]) case None => [] case Some(op) => [op])
      + CommittedOps(Fire(s, events[0]), events[1..])
  }

  /** Any interleaving is a serial run of the operations it commits. */
  lemma {:induction false} InterleavingIsSerial(s: System, events: seq<Event>)
    requires SystemInv(s) && forall i :: 0 <= i < |events| ==> SaneEvent(events[i])
    ensures SystemInv(FireAll(s, events))
    ensures AllowedRun(s.db, CommittedOps(s, events))
    ensures FireAll(s, events).db == Run(s.db, CommittedOps(s, events))
    decreases |events|
  {
    if events != [] {
      StepRefines(s, events[0]);
      InterleavingIsSerial(Fire(s, events[0]), events[1..]);
      var rest := CommittedOps(Fire(s, events[0]), events[1..]);
      match CommittedOp(s, events[0]) {
        case None => assert CommittedOps(s, events) == rest;
        case Some(op) =>
          assert CommittedOps(s, events) == [op] + rest;
          assert ([op] + rest)[1..] == rest;
      }
    }
  }

  /** So every guarantee of serial runs holds however requests interleave, deadlock, retry and fail. */
  lemma InterleavingKeepsInv(s: System, events: seq<Event>)
    requires SystemInv(s) && Inv(s.db) && forall i :: 0 <= i < |events| ==> SaneEvent(events[i])
    ensures Inv(FireAll(s, events).db)
  {
    InterleavingIsSerial(s, events);
    RunKeepsInv(s.db, CommittedOps(s, events));
  }
}
