/**
 The services as they run inside one database session: row objects whose fields are assigned step by step,
 tables that grow, and names that may denote the same row. Every method is tied to the atomic ledger.
 */
module TransferSession {
  import opened Money
  import opened Wrappers
  import opened Ledger

  class AccountRow {
    const number: string
    const currency: string
    var owner: string
    var balance: int
    var active: bool
    var ownerHash: Option<string>

    constructor (number: string, owner: string, currency: string, balance: int)
      ensures this.number == number && View() == Account(owner, currency, balance, true, None)
    {
      this.number, this.currency, this.owner, this.balance := number, currency, owner, balance;
      active, ownerHash := true, None;
    }

    function View(): Account
      reads this
    {
      Account(owner, currency, balance, active, ownerHash)
    }
  }

  /** `columns` never change after the insert; the status, the failure reason and the credited amount may. */
  class TransferRow {
    const id: nat
    const columns: Transfer
    var status: Status
    var failureReason: Option<string>
    var destinationAmount: int

    constructor (id: nat, columns: Transfer)
      ensures this.id == id && this.columns == columns && View() == columns
    {
      this.id, this.columns := id, columns;
      status, failureReason, destinationAmount := columns.status, columns.failureReason, columns.destinationAmount;
    }

    method SetStatus(status: Status, reason: Option<string>)
      modifies this`status, this`failureReason
      ensures View() == old(View()).(status := status, failureReason := if reason.Some? then reason else old(failureReason))
    {
      this.status := status;
      if reason.Some? {
        failureReason := reason;
      }
    }

    function View(): Transfer
      reads this
    {
      columns.(status := status, failureReason := failureReason, destinationAmount := destinationAmount)
    }
  }

  datatype StatusError = UnknownTransfer | InvalidTransition(from: Status, to: Status)

  function AllowedTransitions(from: Status): set<Status> {
    match from
    case Pending => {Processing, Failed}
    case Processing => {Completed, Failed}
    case Completed => {}
    case Failed => {}
    case Rejected => {}
  }

  /** A status update on the ledger: the row, and an audit entry when the transfer ends. Repeating the current status is allowed. */
  function UpdateStatus(l: Ledger, id: nat, status: Status, reason: Option<string>, requestId: Option<string>): Result<Ledger, StatusError> {
    if id >= |l.transfers| then Err(UnknownTransfer)
    else
      var t := l.transfers[id];
      if status != t.status && status !in AllowedTransitions(t.status) then Err(InvalidTransition(t.status, status))
      else
        var t' := t.(status := status, failureReason := if reason.Some? then reason else t.failureReason);
        Ok(l.(transfers := l.transfers[id := t'], audit := l.audit + StatusEntries(id, t', requestId)))
  }

  function StatusEntries(id: nat, t: Transfer, requestId: Option<string>): seq<AuditEntry> {
    match t.status
    case Completed => [TransferEntry(CrossCompleted, id, t, true, requestId)]
    case Failed => [TransferEntry(CrossFailed, id, t, false, requestId)]
    case _ => []
  }

  class Session {
    var accounts: map<string, AccountRow>
    var transfers: seq<TransferRow>
    var audit: seq<AuditEntry>
    var notifications: seq<Notification>

    constructor ()
      ensures Valid() && View() == EMPTY
    {
      accounts, transfers, audit, notifications := map[], [], [], [];
    }

    ghost predicate Valid()
      reads this, accounts.Values, transfers
    {
      && (forall n :: n in accounts ==> accounts[n].number == n)
      && (forall i :: 0 <= i < |transfers| ==> transfers[i].id == i)
    }

    ghost function AccountsView(): map<string, Account>
      reads this`accounts, accounts.Values
    {
      map n | n in accounts :: accounts[n].View()
    }

    ghost function TransfersView(): (ts: seq<Transfer>)
      reads this`transfers, transfers
      ensures |ts| == |transfers| && forall i :: 0 <= i < |ts| ==> ts[i] == transfers[i].View()
    {
      var rows := transfers;
      seq(|rows|, i requires 0 <= i < |rows| reads rows => rows[i].View())
    }

    /** The session's contents as one ledger value. */
    ghost function View(): Ledger
      reads this, accounts.Values, transfers
    {
      Ledger(AccountsView(), TransfersView(), audit, notifications)
    }

    // ---- transfer repository -----------------------------------------------------------------

    method GetIdempotencyRecord(key: string) returns (r: Option<TransferRow>)
      requires Valid()
      ensures r.Some? ==> r.value.id < |transfers| && transfers[r.value.id] == r.value
      ensures Find(TransfersView(), key) == if r.Some? then Some(r.value.id) else None
    {
      var i := |transfers|;
      ghost var ts := TransfersView();
      assert ts[..i] == ts;
      while i > 0
        invariant 0 <= i <= |transfers|
        invariant Find(ts, key) == Find(ts[..i], key)
      {
        i := i - 1;
        assert ts[..i + 1][..i] == ts[..i];
        if transfers[i].columns.key == key {
          return Some(transfers[i]);
        }
      }
      return None;
    }

    method GetDailyTransferVolumeUsd(number: string, since: int) returns (total: int)
      requires Valid()
      ensures total == VolumeUsd(TransfersView(), number, since)
    {
      total := 0;
      ghost var ts := TransfersView();
      for i := 0 to |transfers|
        invariant total == VolumeUsd(ts[..i], number, since)
      {
        var t := transfers[i];
        assert ts[..i + 1][..i] == ts[..i];
        if t.columns.source == number && (t.status == Completed || t.status == Processing) && since <= t.columns.createdAt {
          total := total + UsdOf(t.columns);
        }
      }
      assert ts[..|transfers|] == ts;
    }

    method WriteAuditLog(e: AuditEntry)
      modifies this`audit
      ensures audit == old(audit) + [e]
    {
      audit := audit + [e];
    }

    /** Insert a row; the unique constraint on its key holds because the session looked it up. */
    method InsertTransfer(columns: Transfer) returns (row: TransferRow)
      requires Valid() && Find(TransfersView(), columns.key).None?
      modifies this`transfers
      ensures Valid() && fresh(row) && row.id == |old(transfers)| && row.columns == columns
      ensures transfers == old(transfers) + [row]
      ensures View() == old(View()).(transfers := old(TransfersView()) + [columns])
    {
      row := new TransferRow(|transfers|, columns);
      transfers := transfers + [row];
      assert TransfersView() == old(TransfersView()) + [columns];
    }

    method CreateCrossCurrencyTransfer(columns: Transfer, requestId: Option<string>) returns (row: TransferRow)
      requires Valid() && Find(TransfersView(), columns.key).None?
      modifies this`transfers, this`audit
      ensures Valid() && fresh(row) && row.id == |old(transfers)| && row.columns == columns
      ensures transfers == old(transfers) + [row]
      ensures View() == old(View()).(transfers := old(TransfersView()) + [columns],
                                     audit := old(audit) + [TransferEntry(CrossInitiated, row.id, columns, true, requestId)])
    {
      row := InsertTransfer(columns);
      WriteAuditLog(TransferEntry(CrossInitiated, row.id, columns, true, requestId));
    }

    method UpdateTransferStatus(id: nat, status: Status, reason: Option<string>, requestId: Option<string>) returns (e: Option<StatusError>)
      requires Valid()
      modifies this`audit, if id < |transfers| then {transfers[id]} else {}
      ensures Valid()
      ensures match UpdateStatus(old(View()), id, status, reason, requestId)
              case Err(error) => e == Some(error) && View() == old(View())
              case Ok(l) => e == None && View() == l
    {
      if id >= |transfers| {
        return Some(UnknownTransfer);
      }
      var row := transfers[id];
      if status != row.status && status !in AllowedTransitions(row.status) {
        return Some(InvalidTransition(row.status, status));
      }
      SetRowStatus(id, status, reason);
      WriteStatusAudit(id, row.View(), requestId);
      return None;
    }

    /** Only the end of a transfer is logged. */
    method WriteStatusAudit(id: nat, t: Transfer, requestId: Option<string>)
      modifies this`audit
      ensures audit == old(audit) + StatusEntries(id, t, requestId)
    {
      if t.status == Completed {
        WriteAuditLog(TransferEntry(CrossCompleted, id, t, true, requestId));
      } else if t.status == Failed {
        WriteAuditLog(TransferEntry(CrossFailed, id, t, false, requestId));
      }
    }

    method SetRowStatus(id: nat, status: Status, reason: Option<string>)
      requires Valid() && id < |transfers|
      modifies transfers[id]
      ensures Valid() && View().accounts == old(View().accounts)
      ensures var t := old(TransfersView())[id];
              TransfersView() == old(TransfersView())[id := t.(status := status, failureReason := if reason.Some? then reason else t.failureReason)]
    {
      transfers[id].SetStatus(status, reason);
      assert forall i :: 0 <= i < |transfers| && i != id ==> transfers[i].View() == old(transfers[i].View());
    }

    // ---- notification service ----------------------------------------------------------------

    method CreateTransferNotifications(id: nat, t: Transfer, requestId: Option<string>)
      modifies this`notifications, this`audit
      ensures notifications == old(notifications) + [NotificationFor(id, t, true), NotificationFor(id, t, false)]
      ensures audit == old(audit) + [DeliveryEntry(id, t, true, requestId), DeliveryEntry(id, t, false, requestId)]
    {
      var pending := [NotificationFor(id, t, true), NotificationFor(id, t, false)];
      ghost var entries := [DeliveryEntry(id, t, true, requestId), DeliveryEntry(id, t, false, requestId)];
      for i := 0 to |pending|
        invariant notifications == old(notifications) + pending[..i]
        invariant audit == old(audit) + entries[..i]
      {
        notifications := notifications + [pending[i]];
        WriteAuditLog(AuditEntry(NotificationDelivered, t.caller, [pending[i].recipient], Some(pending[i].netAmount),
                                 Some(pending[i].netCurrency), true, Some(id), requestId));
        assert pending[..i + 1] == pending[..i] + [pending[i]];
        assert entries[..i + 1] == entries[..i] + [entries[i]];
      }
    }

    // ---- moving money ------------------------------------------------------------------------

    method LoadAccount(number: string) returns (r: Result<AccountRow, Error>)
      requires Valid()
      ensures match ActiveRow(RowOf(AccountsView(), number), number)
              case Err(e) => r == Err(e)
              case Ok(row) => r.Ok? && number in accounts && r.value == accounts[number] && row == r.value.View()
    {
      if number !in accounts || !accounts[number].active {
        return Err(AccountNotFound(number));
      }
      return Ok(accounts[number]);
    }

    /** Debit one row and credit another, which may be the same row. */
    method MoveMoney(source: AccountRow, destination: AccountRow, debit: int, credit: int)
      requires Valid() && source.number in accounts && accounts[source.number] == source
      requires destination.number in accounts && accounts[destination.number] == destination
      modifies source`balance, destination`balance
      ensures Valid()
      ensures AccountsView() == Move(old(AccountsView()), source.number, destination.number, debit, credit)
    {
      source.balance := source.balance - debit;
      destination.balance := destination.balance + credit;
      assert AccountsView() == Move(old(AccountsView()), source.number, destination.number, debit, credit);
    }

    method AmlKycCheck(id: nat, t: Transfer, requestId: Option<string>)
      modifies this`audit
      ensures audit == old(audit) + ScreeningFor(id, t, requestId)
    {
      if UsdOf(t) < AML_THRESHOLD_USD {
        return;
      }
      WriteAuditLog(AuditEntry(AmlScreening, t.caller, [t.source, t.destination], Some(UsdOf(t)), Some("USD"), true, Some(id), requestId));
    }
  }
}
