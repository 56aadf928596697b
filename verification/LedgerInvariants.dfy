/**
 What every run of account and transfer operations keeps: the transfers table explains every balance,
 no balance is negative, each key is used once, every 24-hour window respects the daily limit, and each
 cross-currency transfer leaves exactly its own trail.
 */
module LedgerInvariants {
  import opened Money
  import opened Wrappers
  import opened Ledger

  // ---- the invariant -------------------------------------------------------------------------

  ghost predicate UniqueKeys(rows: seq<Transfer>) {
    forall i, j :: 0 <= i < j < |rows| ==> rows[i].key != rows[j].key
  }

  /** What a transfer takes from its source: the amount and, across currencies, the sending fee. */
  function DebitOf(t: Transfer): int {
    t.sourceAmount + if t.cross.Some? then t.cross.value.sendingFee else 0
  }

  function Outgoing(rows: seq<Transfer>, number: string): int {
    if rows == [] then 0
    else
      var t := rows[|rows| - 1];
      Outgoing(rows[..|rows| - 1], number) + if t.source == number then DebitOf(t) else 0
  }

  function Incoming(rows: seq<Transfer>, number: string): int {
    if rows == [] then 0
    else
      var t := rows[|rows| - 1];
      Incoming(rows[..|rows| - 1], number) + if t.destination == number then t.destinationAmount else 0
  }

  /** The opening balance, as the account's creation entries record it. */
  function Opening(audit: seq<AuditEntry>, number: string): int {
    if audit == [] then 0
    else
      var e := audit[|audit| - 1];
      Opening(audit[..|audit| - 1], number)
      + if e.operation.AccountCreated? && e.accounts == [number] && e.amount.Some? then e.amount.value else 0
  }

  /** What the account created with these entries should hold after these transfers. */
  function BookValue(l: Ledger, number: string): int {
    Opening(l.audit, number) - Outgoing(l.transfers, number) + Incoming(l.transfers, number)
  }

  ghost predicate Books(l: Ledger) {
    forall n :: BookValue(l, n) == if n in l.accounts then l.accounts[n].balance else 0
  }

  ghost predicate Solvent(accounts: map<string, Account>) {
    forall n :: n in accounts ==> accounts[n].balance >= 0 && (!accounts[n].active ==> accounts[n].balance == 0)
  }

  ghost predicate SoundRows(rows: seq<Transfer>) {
    forall i :: 0 <= i < |rows| ==> rows[i].status.Completed? && UsdOf(rows[i]) >= 0
  }

  /** USD sent from an account by cross-currency transfers in the 24 hours that start at `start`. */
  function WindowUsd(rows: seq<Transfer>, source: string, start: int): int {
    if rows == [] then 0
    else
      var t := rows[|rows| - 1];
      WindowUsd(rows[..|rows| - 1], source, start)
      + if t.source == source && start <= t.createdAt <= start + DAY then UsdOf(t) else 0
  }

  ghost predicate WithinDailyLimit(rows: seq<Transfer>) {
    forall n, start :: WindowUsd(rows, n, start) <= DAY_LIMIT_USD
  }

  /** The audit entries that name a transfer, in log order. */
  function EntriesAbout(audit: seq<AuditEntry>, id: nat): seq<AuditEntry> {
    if audit == [] then []
    else
      var e := audit[|audit| - 1];
      EntriesAbout(audit[..|audit| - 1], id) + if e.transfer == Some(id) then [e] else []
  }

  function NotificationsAbout(notes: seq<Notification>, id: nat): seq<Notification> {
    if notes == [] then []
    else
      var n := notes[|notes| - 1];
      NotificationsAbout(notes[..|notes| - 1], id) + if n.transfer == id then [n] else []
  }

  /** Exactly the initiated and completed entries, the deliveries and the screening of this transfer. */
  ghost predicate TrailMatches(l: Ledger, id: nat)
    requires id < |l.transfers|
  {
    var t := l.transfers[id];
    && NotificationsAbout(l.notifications, id) == (if t.cross.Some? then NotificationsFor(id, t) else [])
    && (if t.cross.Some? then exists requestId :: EntriesAbout(l.audit, id) == TrailOf(id, t, requestId)
        else EntriesAbout(l.audit, id) == [])
  }

  ghost predicate Trails(l: Ledger) {
    && (forall id :: 0 <= id < |l.transfers| ==> TrailMatches(l, id))
    && (forall id: nat :: id >= |l.transfers| ==> EntriesAbout(l.audit, id) == [] && NotificationsAbout(l.notifications, id) == [])
  }

  ghost predicate Inv(l: Ledger) {
    && UniqueKeys(l.transfers)
    && Books(l)
    && Solvent(l.accounts)
    && SoundRows(l.transfers)
    && WithinDailyLimit(l.transfers)
    && Trails(l)
  }

  // ---- what callers and the rate tables must respect -----------------------------------------

  ghost predicate PositiveRates(rates: map<(string, string), int>) {
    forall p :: p in rates ==> rates[p] > 0
  }

  ghost predicate PositiveFx(fx: FxView) {
    && (fx.latest.Some? ==> PositiveRates(fx.latest.value.rates))
    && (forall s :: s in fx.snapshots ==> PositiveRates(fx.snapshots[s].rates))
  }

  /** No earlier row of the source is stamped later. */
  ghost predicate Timely(rows: seq<Transfer>, source: string, now: int) {
    forall i :: 0 <= i < |rows| && rows[i].source == source ==> rows[i].createdAt <= now
  }

  /** What the services do not check themselves: a positive cross amount, positive rates, a clock that does not run back. */
  ghost predicate Allowed(l: Ledger, op: Op) {
    match op
    case Create(_, _, _, _, _, _, _) => true
    case Close(_, _, _, _) => true
    case Cross(rq, _, fx, now) => rq.amount > 0 && PositiveFx(fx) && Timely(l.transfers, rq.source, now)
    case Plain(rq, _, cfg, now) => PositiveRates(cfg.rates)
  }

  ghost predicate AllowedRun(l: Ledger, ops: seq<Op>)
    decreases |ops|
  {
    ops == [] || (Allowed(l, ops[0]) && AllowedRun(Step(l, ops[0]), ops[1..]))
  }

  // ---- sums and filters over an extended table -----------------------------------------------

  lemma SumsOfOneMore(rows: seq<Transfer>, t: Transfer, number: string)
    ensures Outgoing(rows + [t], number) == Outgoing(rows, number) + if t.source == number then DebitOf(t) else 0
    ensures Incoming(rows + [t], number) == Incoming(rows, number) + if t.destination == number then t.destinationAmount else 0
  {
    assert (rows + [t])[..|rows|] == rows;
  }

  lemma WindowOfOneMore(rows: seq<Transfer>, t: Transfer, source: string, start: int)
    ensures WindowUsd(rows + [t], source, start)
         == WindowUsd(rows, source, start) + if t.source == source && start <= t.createdAt <= start + DAY then UsdOf(t) else 0
  {
    assert (rows + [t])[..|rows|] == rows;
  }

  lemma {:induction false} OpeningOfMore(audit: seq<AuditEntry>, more: seq<AuditEntry>, number: string)
    ensures Opening(audit + more, number) == Opening(audit, number) + Opening(more, number)
  {
    if more == [] {
      assert audit + more == audit;
    } else {
      var last := |more| - 1;
      assert (audit + more)[..|audit + more| - 1] == audit + more[..last];
      OpeningOfMore(audit, more[..last], number);
    }
  }

  lemma {:induction false} EntriesOfMore(audit: seq<AuditEntry>, more: seq<AuditEntry>, id: nat)
    ensures EntriesAbout(audit + more, id) == EntriesAbout(audit, id) + EntriesAbout(more, id)
  {
    if more == [] {
      assert audit + more == audit;
    } else {
      var last := |more| - 1;
      assert (audit + more)[..|audit + more| - 1] == audit + more[..last];
      EntriesOfMore(audit, more[..last], id);
    }
  }

  lemma {:induction false} NotificationsOfMore(notes: seq<Notification>, more: seq<Notification>, id: nat)
    ensures NotificationsAbout(notes + more, id) == NotificationsAbout(notes, id) + NotificationsAbout(more, id)
  {
    if more == [] {
      assert notes + more == notes;
    } else {
      var last := |more| - 1;
      assert (notes + more)[..|notes + more| - 1] == notes + more[..last];
      NotificationsOfMore(notes, more[..last], id);
    }
  }

  /** A list of entries that all name one transfer is its own filter for it and empty for any other. */
  lemma {:induction false} EntriesAllAbout(entries: seq<AuditEntry>, about: Option<nat>, id: nat)
    requires forall i :: 0 <= i < |entries| ==> entries[i].transfer == about
    ensures EntriesAbout(entries, id) == if about == Some(id) then entries else []
  {
    if entries != [] {
      var last := |entries| - 1;
      EntriesAllAbout(entries[..last], about, id);
      assert entries == entries[..last] + [entries[last]];
    }
  }

  lemma {:induction false} NotificationsAllAbout(notes: seq<Notification>, about: nat, id: nat)
    requires forall i :: 0 <= i < |notes| ==> notes[i].transfer == about
    ensures NotificationsAbout(notes, id) == if about == id then notes else []
  {
    if notes != [] {
      var last := |notes| - 1;
      NotificationsAllAbout(notes[..last], about, id);
      assert notes == notes[..last] + [notes[last]];
    }
  }

  lemma {:induction false} NoOpenings(entries: seq<AuditEntry>, number: string)
    requires forall e :: e in entries ==> !e.operation.AccountCreated?
    ensures Opening(entries, number) == 0
  {
    if entries != [] {
      assert entries[|entries| - 1] in entries;
      NoOpenings(entries[..|entries| - 1], number);
    }
  }

  // ---- the daily limit -----------------------------------------------------------------------

  /** A window that reaches back less than a day before `now` holds no more than the rolling query counts. */
  lemma {:induction false} WindowInsideVolume(rows: seq<Transfer>, source: string, start: int, since: int)
    requires SoundRows(rows) && since <= start
    ensures WindowUsd(rows, source, start) <= VolumeUsd(rows, source, since)
  {
    if rows != [] {
      WindowInsideVolume(rows[..|rows| - 1], source, start, since);
    }
  }

  lemma LimitKept(rows: seq<Transfer>, t: Transfer)
    requires SoundRows(rows) && WithinDailyLimit(rows)
    requires t.cross.Some? ==> VolumeUsd(rows, t.source, t.createdAt - DAY) + UsdOf(t) <= DAY_LIMIT_USD
    ensures WithinDailyLimit(rows + [t])
  {
    forall n, start ensures WindowUsd(rows + [t], n, start) <= DAY_LIMIT_USD {
      WindowOfOneMore(rows, t, n, start);
      if t.cross.Some? && t.source == n && start <= t.createdAt <= start + DAY {
        WindowInsideVolume(rows, n, start, t.createdAt - DAY);
      }
    }
  }

  // ---- one posted transfer -------------------------------------------------------------------

  /** A row that moves debit and credit between two accounts keeps the books balanced. */
  lemma BooksKept(l: Ledger, l': Ledger, t: Transfer, more: seq<AuditEntry>)
    requires Books(l) && t.source in l.accounts && t.destination in l.accounts
    requires l'.accounts == Move(l.accounts, t.source, t.destination, DebitOf(t), t.destinationAmount)
    requires l'.transfers == l.transfers + [t] && l'.audit == l.audit + more
    requires forall e :: e in more ==> !e.operation.AccountCreated?
    ensures Books(l')
  {
    forall n ensures BookValue(l', n) == if n in l'.accounts then l'.accounts[n].balance else 0 {
      SumsOfOneMore(l.transfers, t, n);
      OpeningOfMore(l.audit, more, n);
      NoOpenings(more, n);
      assert BookValue(l, n) == if n in l.accounts then l.accounts[n].balance else 0;
    }
  }

  lemma SolventKept(accounts: map<string, Account>, source: string, destination: string, debit: int, credit: int)
    requires Solvent(accounts) && source in accounts && destination in accounts
    requires accounts[source].active && accounts[destination].active
    requires debit <= accounts[source].balance && credit >= 0
    ensures Solvent(Move(accounts, source, destination, debit, credit))
  {
  }

  lemma TrailIsAbout(id: nat, t: Transfer, requestId: Option<string>)
    ensures forall e :: e in TrailOf(id, t, requestId) ==> e.transfer == Some(id) && !e.operation.AccountCreated?
    ensures forall n :: n in NotificationsFor(id, t) ==> n.transfer == id
  {
  }

  /** What a posted transfer adds to the audit log and the notifications. */
  ghost predicate OwnTrail(id: nat, t: Transfer, more: seq<AuditEntry>, notes: seq<Notification>, requestId: Option<string>) {
    && more == (if t.cross.Some? then TrailOf(id, t, requestId) else [PlainEntry(t, requestId)])
    && notes == (if t.cross.Some? then NotificationsFor(id, t) else [])
  }

  lemma TrailAfterPosting(l: Ledger, l': Ledger, t: Transfer, more: seq<AuditEntry>, notes: seq<Notification>, requestId: Option<string>, id: nat)
    requires OwnTrail(|l.transfers|, t, more, notes, requestId)
    requires l'.audit == l.audit + more && l'.notifications == l.notifications + notes
    ensures EntriesAbout(l'.audit, id) == EntriesAbout(l.audit, id) + if t.cross.Some? && id == |l.transfers| then more else []
    ensures NotificationsAbout(l'.notifications, id) == NotificationsAbout(l.notifications, id) + if id == |l.transfers| then notes else []
  {
    var own := |l.transfers|;
    TrailIsAbout(own, t, requestId);
    EntriesOfMore(l.audit, more, id);
    EntriesAllAbout(more, if t.cross.Some? then Some(own) else None, id);
    NotificationsOfMore(l.notifications, notes, id);
    NotificationsAllAbout(notes, own, id);
  }

  lemma TrailsKept(l: Ledger, l': Ledger, t: Transfer, more: seq<AuditEntry>, notes: seq<Notification>, requestId: Option<string>)
    requires Trails(l) && OwnTrail(|l.transfers|, t, more, notes, requestId)
    requires l'.transfers == l.transfers + [t] && l'.audit == l.audit + more && l'.notifications == l.notifications + notes
    ensures Trails(l')
  {
    forall id | 0 <= id < |l'.transfers| ensures TrailMatches(l', id) {
      TrailAfterPosting(l, l', t, more, notes, requestId, id);
      if id < |l.transfers| { assert TrailMatches(l, id); }
    }
    forall id: nat | id >= |l'.transfers|
      ensures EntriesAbout(l'.audit, id) == [] && NotificationsAbout(l'.notifications, id) == []
    {
      TrailAfterPosting(l, l', t, more, notes, requestId, id);
    }
  }

  lemma FreshKeyKeepsUnique(rows: seq<Transfer>, t: Transfer)
    requires UniqueKeys(rows) && Find(rows, t.key).None?
    ensures UniqueKeys(rows + [t])
  {
  }

  // ---- each operation ------------------------------------------------------------------------

  lemma UsdNotNegative(rq: CrossRequest, rates: map<(string, string), int>)
    requires rq.amount > 0 && PositiveRates(rates) && AmountInUsd(rq.amount, rq.sourceCurrency, rates).Ok?
    ensures AmountInUsd(rq.amount, rq.sourceCurrency, rates).value >= 0
  {
    if rq.sourceCurrency != "USD" {
      MulMono(0, rq.amount, rates[(rq.sourceCurrency, "USD")]);
    }
  }

  /** What the checks made under the locks give a decided transfer. */
  lemma TermsAreSound(rq: CrossRequest, caller: string, current: Snapshot, preview: Snapshot, source: Account, volume: int)
    requires rq.amount > 0 && PositiveRates(current.rates)
    requires TermsOf(rq, caller, current, preview, source, volume).Ok?
    ensures var terms := TermsOf(rq, caller, current, preview, source, volume).value;
            && terms.amountUsd >= 0 && volume + terms.amountUsd <= DAY_LIMIT_USD
            && terms.amounts.net >= 0 && terms.amounts.cost <= source.balance
            && terms.amounts.cost == rq.amount + terms.amounts.sendingFee
  {
    UsdNotNegative(rq, current.rates);
    AmountsInRange(rq.amount, current.rates[(rq.sourceCurrency, rq.destinationCurrency)]);
  }

  lemma PostCrossKeepsInv(l: Ledger, rq: CrossRequest, call: Call, terms: CrossTerms, now: int)
    requires Inv(l) && Find(l.transfers, call.key).None?
    requires ActiveRow(RowOf(l.accounts, rq.source), rq.source).Ok? && ActiveRow(RowOf(l.accounts, rq.destination), rq.destination).Ok?
    requires terms.amountUsd >= 0 && VolumeUsd(l.transfers, rq.source, now - DAY) + terms.amountUsd <= DAY_LIMIT_USD
    requires terms.amounts.net >= 0 && terms.amounts.cost <= l.accounts[rq.source].balance
    requires terms.amounts.cost == rq.amount + terms.amounts.sendingFee
    ensures Inv(PostCross(l, l.accounts, rq, call, terms, now))
  {
    hide Books, Solvent, WithinDailyLimit, Trails, UniqueKeys, VolumeUsd, TrailOf, NotificationsFor, Move, Find;
    var l' := PostCross(l, l.accounts, rq, call, terms, now);
    var t, id := CrossRow(rq, call, terms, now), |l.transfers|;
    var more, notes := TrailOf(id, t, call.requestId), NotificationsFor(id, t);
    WholeMove(l.accounts, rq.source, rq.destination, terms.amounts.cost, terms.amounts.net);
    assert UniqueKeys(l'.transfers) by { FreshKeyKeepsUnique(l.transfers, t); }
    assert WithinDailyLimit(l'.transfers) by { LimitKept(l.transfers, t); }
    assert Books(l') by { TrailIsAbout(id, t, call.requestId); BooksKept(l, l', t, more); }
    assert Solvent(l'.accounts) by { SolventKept(l.accounts, rq.source, rq.destination, terms.amounts.cost, terms.amounts.net); }
    assert Trails(l') by { TrailsKept(l, l', t, more, notes, call.requestId); }
  }

  lemma CrossKeepsInv(l: Ledger, rq: CrossRequest, call: Call, fx: FxView, now: int)
    requires Inv(l) && Allowed(l, Cross(rq, call, fx, now))
    ensures Inv(Initiate(l, rq, call, fx, now).0)
  {
    hide Inv;
    if Initiate(l, rq, call, fx, now).1.Executed? {
      var (current, preview) := FxCheck(rq, fx).value;
      var volume := VolumeUsd(l.transfers, rq.source, now - DAY);
      TermsAreSound(rq, call.caller, current, preview, l.accounts[rq.source], volume);
      var terms := TermsOf(rq, call.caller, current, preview, l.accounts[rq.source], volume).value;
      PostCrossKeepsInv(l, rq, call, terms, now);
    }
  }

  lemma PostPlainKeepsInv(l: Ledger, rq: PlainRequest, call: Call, terms: PlainTerms, now: int)
    requires Inv(l) && Find(l.transfers, call.key).None?
    requires ActiveRow(RowOf(l.accounts, rq.source), rq.source).Ok? && ActiveRow(RowOf(l.accounts, rq.destination), rq.destination).Ok?
    requires rq.amount <= l.accounts[rq.source].balance && terms.credit >= 0
    ensures Inv(PostPlain(l, l.accounts, rq, call, terms, now))
  {
    hide Books, Solvent, WithinDailyLimit, Trails, UniqueKeys, VolumeUsd, Move, Find;
    var l' := PostPlain(l, l.accounts, rq, call, terms, now);
    var t := PlainRow(rq, call, terms, l.accounts[rq.source], l.accounts[rq.destination], now);
    WholeMove(l.accounts, rq.source, rq.destination, rq.amount, terms.credit);
    assert UniqueKeys(l'.transfers) by { FreshKeyKeepsUnique(l.transfers, t); }
    assert WithinDailyLimit(l'.transfers) by { LimitKept(l.transfers, t); }
    assert Books(l') by { BooksKept(l, l', t, [PlainEntry(t, call.requestId)]); }
    assert Solvent(l'.accounts) by { SolventKept(l.accounts, rq.source, rq.destination, rq.amount, terms.credit); }
    assert Trails(l') by {
      assert l'.notifications == l.notifications + [];
      TrailsKept(l, l', t, [PlainEntry(t, call.requestId)], [], call.requestId);
    }
  }

  lemma PlainKeepsInv(l: Ledger, rq: PlainRequest, call: Call, cfg: RateConfig, now: int)
    requires Inv(l) && Allowed(l, Plain(rq, call, cfg, now))
    ensures Inv(ExecuteTransfer(l, rq, call, cfg, now).0)
  {
    hide Inv;
    if ExecuteTransfer(l, rq, call, cfg, now).1.Executed? {
      var terms := PlainDecision(l, rq, cfg).value;
      MulMono(0, rq.amount, terms.rate);
      PostPlainKeepsInv(l, rq, call, terms, now);
    }
  }

  /** Entries about accounts leave every transfer's trail alone. */
  lemma AccountEntryKeepsTrails(l: Ledger, l': Ledger, e: AuditEntry)
    requires Trails(l) && e.transfer.None?
    requires l'.transfers == l.transfers && l'.notifications == l.notifications && l'.audit == l.audit + [e]
    ensures Trails(l')
  {
    forall id: nat ensures EntriesAbout(l'.audit, id) == EntriesAbout(l.audit, id) {
      EntriesOfMore(l.audit, [e], id);
      EntriesAllAbout([e], None, id);
    }
    forall id | 0 <= id < |l'.transfers| ensures TrailMatches(l', id) {
      assert TrailMatches(l, id);
    }
  }

  lemma CreateKeepsInv(l: Ledger, owner: string, currency: string, opening: int, drawn: seq<string>,
                       actor: string, requestId: Option<string>, cfg: RateConfig)
    requires Inv(l) && drawn != []
    ensures Inv(CreateAccount(l, owner, currency, opening, drawn, actor, requestId, cfg).0)
  {
    var (l', r) := CreateAccount(l, owner, currency, opening, drawn, actor, requestId, cfg);
    if r.Ok? {
      var e := AuditEntry(AccountCreated, actor, [r.value], Some(opening), Some(currency), true, None, requestId);
      forall n ensures BookValue(l', n) == if n in l'.accounts then l'.accounts[n].balance else 0 {
        OpeningOfMore(l.audit, [e], n);
        assert Opening([e], n) == (if n == r.value then opening else 0) by {
          assert [e][..0] == [];
          assert [r.value] == [n] ==> r.value == n by { assert [r.value][0] == r.value && [n][0] == n; }
        }
        assert BookValue(l, n) == if n in l.accounts then l.accounts[n].balance else 0;
      }
      AccountEntryKeepsTrails(l, l', e);
    }
  }

  lemma CloseKeepsInv(l: Ledger, number: string, hash: string, actor: string, requestId: Option<string>)
    requires Inv(l)
    ensures Inv(DeleteAccount(l, number, hash, actor, requestId).0)
  {
    var (l', r) := DeleteAccount(l, number, hash, actor, requestId);
    if r.None? {
      var e := AuditEntry(AccountDeleted, actor, [number], None, Some(l.accounts[number].currency), true, None, requestId);
      forall n ensures BookValue(l', n) == if n in l'.accounts then l'.accounts[n].balance else 0 {
        OpeningOfMore(l.audit, [e], n);
        NoOpenings([e], n);
        assert BookValue(l, n) == if n in l.accounts then l.accounts[n].balance else 0;
      }
      AccountEntryKeepsTrails(l, l', e);
    }
  }

  // ---- every run -----------------------------------------------------------------------------

  lemma StepKeepsInv(l: Ledger, op: Op)
    requires Inv(l) && Allowed(l, op)
    ensures Inv(Step(l, op))
  {
    match op {
      case Create(owner, currency, opening, drawn, actor, requestId, cfg) =>
        if drawn != [] { CreateKeepsInv(l, owner, currency, opening, drawn, actor, requestId, cfg); }
      case Close(number, hash, actor, requestId) => CloseKeepsInv(l, number, hash, actor, requestId);
      case Cross(rq, call, fx, now) => CrossKeepsInv(l, rq, call, fx, now);
      case Plain(rq, call, cfg, now) => PlainKeepsInv(l, rq, call, cfg, now);
    }
  }

  lemma {:induction false} RunKeepsInv(l: Ledger, ops: seq<Op>)
    requires Inv(l) && AllowedRun(l, ops)
    ensures Inv(Run(l, ops))
    decreases |ops|
  {
    if ops != [] {
      StepKeepsInv(l, ops[0]);
      RunKeepsInv(Step(l, ops[0]), ops[1..]);
    }
  }

  lemma EmptyInv()
    ensures Inv(EMPTY)
  {
  }
}
