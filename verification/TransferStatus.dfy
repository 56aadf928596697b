/**
 A transfer's status over any sequence of status updates: it follows the allowed transitions, never leaves a
 terminal state, and each accepted update to a terminal state writes one audit entry.
 */
module TransferStatus {
  import opened Wrappers
  import opened Ledger
  import opened TransferSession

  datatype Update = Update(status: Status, reason: Option<string>, requestId: Option<string>)

  /** One update; a refused one raises and leaves everything as it was. */
  function Apply(l: Ledger, id: nat, u: Update): Ledger {
    match UpdateStatus(l, id, u.status, u.reason, u.requestId)
    case Ok(l') => l'
    case Err(_) => l
  }

  function ApplyAll(l: Ledger, id: nat, updates: seq<Update>): Ledger
    decreases |updates|
  {
    if updates == [] then l else ApplyAll(Apply(l, id, updates[0]), id, updates[1..])
  }

  /** The statuses the row takes, its first one included, without repetitions in a row. */
  function Taken(l: Ledger, id: nat, updates: seq<Update>): seq<Status>
    requires id < |l.transfers|
    decreases |updates|
  {
    var now := l.transfers[id].status;
    if updates == [] then [now]
    else
      var l' := Apply(l, id, updates[0]);
      (if l'.transfers[id].status == now then [] else [now]) + Taken(l', id, updates[1..])
  }

  ghost predicate FollowsTransitions(statuses: seq<Status>) {
    forall i :: 0 <= i < |statuses| - 1 ==> statuses[i + 1] in AllowedTransitions(statuses[i])
  }

  predicate Terminal(s: Status) {
    s == Completed || s == Failed || s == Rejected
  }

  lemma {:induction false} TakenFollowsTransitions(l: Ledger, id: nat, updates: seq<Update>)
    requires id < |l.transfers|
    ensures FollowsTransitions(Taken(l, id, updates))
    ensures |ApplyAll(l, id, updates).transfers| == |l.transfers|
    ensures var taken := Taken(l, id, updates);
            taken != [] && taken[0] == l.transfers[id].status && taken[|taken| - 1] == ApplyAll(l, id, updates).transfers[id].status
    decreases |updates|
  {
    if updates != [] {
      var l' := Apply(l, id, updates[0]);
      TakenFollowsTransitions(l', id, updates[1..]);
    }
  }

  /** Every path from pending, finished or not: at most two changes. */
  lemma StatusPaths(l: Ledger, id: nat, updates: seq<Update>)
    requires id < |l.transfers| && l.transfers[id].status == Pending
    ensures Taken(l, id, updates) in {
              [Pending], [Pending, Processing], [Pending, Failed],
              [Pending, Processing, Completed], [Pending, Processing, Failed]}
  {
    var taken := Taken(l, id, updates);
    TakenFollowsTransitions(l, id, updates);
    if |taken| == 1 {
      assert taken == [Pending];
    } else {
      assert taken[1] in AllowedTransitions(taken[0]);
      if |taken| == 2 {
        assert taken == [Pending, taken[1]];
      } else {
        assert taken[2] in AllowedTransitions(taken[1]);
        assert |taken| > 3 ==> taken[3] in AllowedTransitions(taken[2]);
        assert taken == [Pending, Processing, taken[2]];
      }
    }
  }

  /** and each of the five does occur. */
  lemma EveryPathOccurs(l: Ledger, id: nat)
    requires id < |l.transfers| && l.transfers[id].status == Pending
    ensures Taken(l, id, []) == [Pending]
    ensures Taken(l, id, [Update(Processing, None, None)]) == [Pending, Processing]
    ensures Taken(l, id, [Update(Failed, None, None)]) == [Pending, Failed]
    ensures Taken(l, id, [Update(Processing, None, None), Update(Completed, None, None)]) == [Pending, Processing, Completed]
    ensures Taken(l, id, [Update(Processing, None, None), Update(Failed, None, None)]) == [Pending, Processing, Failed]
  {
    OneChange(l, id, Processing);
    OneChange(l, id, Failed);
    var l' := Apply(l, id, Update(Processing, None, None));
    OneChange(l', id, Completed);
    OneChange(l', id, Failed);
    hide Apply;
    assert [Update(Processing, None, None), Update(Completed, None, None)][1..] == [Update(Completed, None, None)];
    assert [Update(Processing, None, None), Update(Failed, None, None)][1..] == [Update(Failed, None, None)];
  }

  lemma OneChange(l: Ledger, id: nat, to: Status)
    requires id < |l.transfers| && to in AllowedTransitions(l.transfers[id].status)
    ensures var l' := Apply(l, id, Update(to, None, None));
            |l'.transfers| == |l.transfers| && l'.transfers[id].status == to
    ensures Taken(l, id, [Update(to, None, None)]) == [l.transfers[id].status, to]
  {
    assert [Update(to, None, None)][1..] == [];
  }

  /** The reason on a row is the last one an accepted update has given. */
  lemma ReasonStands(l: Ledger, id: nat, u: Update)
    requires id < |l.transfers|
    ensures var before, after := l.transfers[id], Apply(l, id, u);
            && |after.transfers| == |l.transfers|
            && after.transfers[id].failureReason
               == if u.reason.Some? && (u.status == before.status || u.status in AllowedTransitions(before.status)) then u.reason else before.failureReason
  {
  }

  /** Only the addressed row changes, and of it only the status and the failure reason. */
  lemma {:induction false} UpdatesTouchOneRow(l: Ledger, id: nat, updates: seq<Update>)
    ensures var l' := ApplyAll(l, id, updates);
            && l'.accounts == l.accounts && l'.notifications == l.notifications && |l'.transfers| == |l.transfers|
            && (forall i :: 0 <= i < |l.transfers| && i != id ==> l'.transfers[i] == l.transfers[i])
            && (id < |l.transfers| ==>
                  l'.transfers[id] == l.transfers[id].(status := l'.transfers[id].status, failureReason := l'.transfers[id].failureReason))
    decreases |updates|
  {
    if updates != [] {
      UpdatesTouchOneRow(Apply(l, id, updates[0]), id, updates[1..]);
    }
  }

  lemma {:induction false} TerminalIsFinal(l: Ledger, id: nat, updates: seq<Update>)
    requires id < |l.transfers| && Terminal(l.transfers[id].status)
    ensures |ApplyAll(l, id, updates).transfers| == |l.transfers|
    ensures ApplyAll(l, id, updates).transfers[id].status == l.transfers[id].status
    decreases |updates|
  {
    if updates != [] {
      TerminalIsFinal(Apply(l, id, updates[0]), id, updates[1..]);
    }
  }

  /** Accepted updates to completed or failed, repetitions of the current status included. */
  function Endings(l: Ledger, id: nat, updates: seq<Update>): nat
    decreases |updates|
  {
    if updates == [] then 0
    else
      (if UpdateStatus(l, id, updates[0].status, updates[0].reason, updates[0].requestId).Ok?
          && (updates[0].status == Completed || updates[0].status == Failed) then 1 else 0)
      + Endings(Apply(l, id, updates[0]), id, updates[1..])
  }

  /** Every accepted ending is logged under the status it sets. */
  lemma {:induction false} EndingsAreLogged(l: Ledger, id: nat, updates: seq<Update>)
    requires id < |l.transfers| && l.transfers[id].status != Rejected
    ensures var l' := ApplyAll(l, id, updates);
            && |l'.transfers| == |l.transfers|
            && l.audit <= l'.audit && |l'.audit| == |l.audit| + Endings(l, id, updates)
            && (forall i :: |l.audit| <= i < |l'.audit| ==>
                  && l'.audit[i].transfer == Some(id)
                  && l'.audit[i].operation == (if l'.transfers[id].status == Completed then CrossCompleted else CrossFailed)
                  && l'.audit[i].success == (l'.transfers[id].status == Completed))
    ensures !Terminal(l.transfers[id].status) ==>
              (Endings(l, id, updates) > 0 <==> Terminal(ApplyAll(l, id, updates).transfers[id].status))
    decreases |updates|
  {
    if updates != [] {
      var l' := Apply(l, id, updates[0]);
      EndingsAreLogged(l', id, updates[1..]);
      if Terminal(l'.transfers[id].status) { TerminalIsFinal(l', id, updates[1..]); }
    }
  }

  /** Completing twice is accepted and logged twice. */
  lemma CompletedTwice(l: Ledger, id: nat)
    requires id < |l.transfers| && l.transfers[id].status == Processing
    ensures Endings(l, id, [Update(Completed, None, None), Update(Completed, None, None)]) == 2
  {
    var u := Update(Completed, None, None);
    assert [u, u][1..] == [u] && [u][1..] == [];
    assert Endings(Apply(l, id, u), id, [u]) == 1;
  }

  // ---- how many closing entries --------------------------------------------------------------

  predicate Ended(s: Status) {
    s == Completed || s == Failed
  }

  /** The status after a list of requested statuses. */
  function StatusAfter(from: Status, updates: seq<Update>): Status
    decreases updates
  {
    if updates == [] then from
    else StatusAfter(if updates[0].status in AllowedTransitions(from) then updates[0].status else from, updates[1..])
  }

  /** An ended transfer is asked for the status it has. */
  predicate Repeats(status: Status, u: Update) {
    Ended(status) && u.status == status
  }

  /** On a transfer that has ended, exactly a repetition of its status is logged again. */
  lemma RepetitionIsLogged(l: Ledger, id: nat, u: Update)
    requires id < |l.transfers| && Ended(l.transfers[id].status)
    ensures var l' := Apply(l, id, u);
            && |l'.audit| == |l.audit| + (if Repeats(l.transfers[id].status, u) then 1 else 0)
            && |l'.transfers| == |l.transfers| && l'.transfers[id].status == l.transfers[id].status
  {
  }

  /** Some update of the list repeats the status the ones before it have left. */
  ghost predicate RepeatsIn(from: Status, updates: seq<Update>) {
    exists k :: 0 <= k < |updates| && Repeats(StatusAfter(from, updates[..k]), updates[k])
  }

  lemma FirstUpdate(from: Status, u: Update, rest: seq<Update>)
    ensures var next := if u.status in AllowedTransitions(from) then u.status else from;
            StatusAfter(from, [u]) == next && StatusAfter(from, [u] + rest) == StatusAfter(next, rest)
  {
    assert [u][1..] == [] && ([u] + rest)[1..] == rest;
  }

  lemma RepeatsInRest(from: Status, updates: seq<Update>)
    requires updates != []
    ensures var next := StatusAfter(from, updates[..1]);
            RepeatsIn(from, updates) <==> Repeats(from, updates[0]) || RepeatsIn(next, updates[1..])
    ensures StatusAfter(from, updates[..1]) == if updates[0].status in AllowedTransitions(from) then updates[0].status else from
  {
    hide Repeats;
    var first, rest := updates[..1], updates[1..];
    var next := StatusAfter(from, first);
    assert first == [updates[0]];
    FirstUpdate(from, updates[0], []);
    assert first + [] == first;
    forall k | 0 <= k < |rest| ensures StatusAfter(next, rest[..k]) == StatusAfter(from, updates[..k + 1]) && rest[k] == updates[k + 1] {
      assert updates[..k + 1] == first + rest[..k];
      FirstUpdate(from, updates[0], rest[..k]);
    }
    if Repeats(from, updates[0]) {
      assert updates[..0] == [];
      assert Repeats(StatusAfter(from, updates[..0]), updates[0]);
    }
    if k :| 0 <= k < |rest| && Repeats(StatusAfter(next, rest[..k]), rest[k]) {
      assert Repeats(StatusAfter(from, updates[..k + 1]), updates[k + 1]);
    }
    if k :| 0 <= k < |updates| && Repeats(StatusAfter(from, updates[..k]), updates[k]) {
      if k == 0 { assert updates[..0] == []; } else { assert Repeats(StatusAfter(next, rest[..k - 1]), rest[k - 1]); }
    }
  }

  lemma {:induction false} EndingsAfterEnd(l: Ledger, id: nat, updates: seq<Update>)
    requires id < |l.transfers| && Ended(l.transfers[id].status)
    ensures Endings(l, id, updates) == 0 <==> !RepeatsIn(l.transfers[id].status, updates)
    decreases |updates|
  {
    if updates != [] {
      RepeatsInRest(l.transfers[id].status, updates);
      hide RepeatsIn, StatusAfter;
      EndingsAfterEnd(Apply(l, id, updates[0]), id, updates[1..]);
    }
  }

  lemma {:induction false} EndingsBeforeEnd(l: Ledger, id: nat, updates: seq<Update>)
    requires id < |l.transfers| && !Terminal(l.transfers[id].status)
    ensures Endings(l, id, updates) <= 1 <==> !RepeatsIn(l.transfers[id].status, updates)
    decreases |updates|
  {
    if updates != [] {
      RepeatsInRest(l.transfers[id].status, updates);
      hide RepeatsIn, StatusAfter;
      var l' := Apply(l, id, updates[0]);
      if Terminal(l'.transfers[id].status) {
        EndingsAfterEnd(l', id, updates[1..]);
      } else {
        EndingsBeforeEnd(l', id, updates[1..]);
      }
    }
  }

  /** A pending transfer gets at most one closing entry exactly when no update repeats the status it ended with. */
  lemma OneClosingEntryIff(l: Ledger, id: nat, updates: seq<Update>)
    requires id < |l.transfers| && l.transfers[id].status == Pending
    ensures |ApplyAll(l, id, updates).audit| - |l.audit| <= 1 <==> !RepeatsIn(Pending, updates)
  {
    hide RepeatsIn, StatusAfter;
    EndingsAreLogged(l, id, updates);
    EndingsBeforeEnd(l, id, updates);
  }
}
