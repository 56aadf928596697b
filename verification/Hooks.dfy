/**
 The hooks extensions declare, as the project configuration keeps them per event. Registering replaces an
 extension's entries by those of its manifest; everybody else's stay as they are.
 */
module Hooks {
  import opened Wrappers

  const DEFAULT_HOOK_PRIORITY: int := 10

  /** A priority as it is found on disk; text counts when it reads as a whole number, a number with a fraction is cut off. */
  datatype RawPriority = Missing | Number(n: int) | Fraction(x: real) | Flag(on: bool) | Text(number: Option<int>)

  function NormalizePriority(value: RawPriority): (p: int)
    ensures p >= 1
    ensures match value
            case Number(n) => p == if n >= 1 then n else DEFAULT_HOOK_PRIORITY
            case Fraction(x) => if x >= 1.0 then p as real <= x < p as real + 1.0 else p == DEFAULT_HOOK_PRIORITY
            case Text(Some(n)) => p == if n >= 1 then n else DEFAULT_HOOK_PRIORITY
            case _ => p == DEFAULT_HOOK_PRIORITY
  {
    match value
    case Flag(_) => DEFAULT_HOOK_PRIORITY
    case Number(n) => if n >= 1 then n else DEFAULT_HOOK_PRIORITY
    case Fraction(x) => if x >= 1.0 then x.Floor else DEFAULT_HOOK_PRIORITY
    case Text(Some(n)) => if n >= 1 then n else DEFAULT_HOOK_PRIORITY
    case _ => DEFAULT_HOOK_PRIORITY
  }

  datatype Hook = Hook(extension: string, command: string, enabled: bool, optional: bool, priority: RawPriority,
                       prompt: string, description: string, condition: Option<string>)

  /** An item of an event's list on disk. A value that is not a list counts as a list of junk. */
  datatype Item = Entry(hook: Hook) | Junk

  /** An entry of a manifest's hook declaration. */
  datatype Declared =
    | Mapping(command: string, optional: Option<bool>, priority: RawPriority,
              prompt: Option<string>, description: Option<string>, condition: Option<string>)
    | NotAMapping

  /** One entry or a list of them. */
  datatype Declaration = Single(entry: Declared) | Several(entries: seq<Declared>)

  type Manifest = map<string, Declaration>

  type Events = map<string, seq<Hook>>

  function CoerceHookEntries(d: Declaration): seq<Declared> {
    match d case Single(entry) => [entry] case Several(entries) => entries
  }

  predicate Usable(d: Declared) {
    d.Mapping? && d.command != ""
  }

  function HookFor(id: string, d: Declared): Hook
    requires Usable(d)
  {
    Hook(id, d.command, true, if d.optional.Some? then d.optional.value else true, Number(NormalizePriority(d.priority)),
         if d.prompt.Some? then d.prompt.value else "Execute " + d.command + "?",
         if d.description.Some? then d.description.value else "", d.condition)
  }

  // ---- one event's list ----------------------------------------------------------------------

  /** The hooks of one extension, or of all others, in their order. */
  function Pick(hooks: seq<Hook>, id: string, own: bool): (r: seq<Hook>)
    ensures forall h :: h in r <==> h in hooks && (h.extension == id) == own
  {
    if hooks == [] then []
    else
      assert hooks == [hooks[0]] + hooks[1..];
      (if (hooks[0].extension == id) == own then [hooks[0]] else []) + Pick(hooks[1..], id, own)
  }

  function Among(hooks: seq<Hook>, ids: set<string>): seq<Hook> {
    if hooks == [] then [] else (if hooks[0].extension in ids then [hooks[0]] else []) + Among(hooks[1..], ids)
  }

  lemma {:induction false} PickOfMore(a: seq<Hook>, b: seq<Hook>, id: string, own: bool)
    ensures Pick(a + b, id, own) == Pick(a, id, own) + Pick(b, id, own)
  {
    if a == [] {
      assert a + b == b;
    } else {
      assert (a + b)[1..] == a[1..] + b;
      PickOfMore(a[1..], b, id, own);
    }
  }

  lemma {:induction false} AmongOfMore(a: seq<Hook>, b: seq<Hook>, ids: set<string>)
    ensures Among(a + b, ids) == Among(a, ids) + Among(b, ids)
  {
    if a == [] {
      assert a + b == b;
    } else {
      assert (a + b)[1..] == a[1..] + b;
      AmongOfMore(a[1..], b, ids);
    }
  }

  lemma {:induction false} PickAll(hooks: seq<Hook>, id: string, own: bool)
    requires forall h :: h in hooks ==> (h.extension == id) == own
    ensures Pick(hooks, id, own) == hooks && Pick(hooks, id, !own) == []
  {
    if hooks != [] {
      assert hooks[0] in hooks;
      PickAll(hooks[1..], id, own);
    }
  }

  /** Dropping one extension's hooks does not show among others. */
  lemma {:induction false} AmongOthers(hooks: seq<Hook>, id: string, ids: set<string>)
    requires id !in ids
    ensures Among(Pick(hooks, id, false), ids) == Among(hooks, ids)
  {
    if hooks != [] {
      AmongOthers(hooks[1..], id, ids);
      AmongOfMore(if hooks[0].extension != id then [hooks[0]] else [], Pick(hooks[1..], id, false), ids);
    }
  }

  lemma {:induction false} AmongNone(hooks: seq<Hook>, ids: set<string>)
    requires forall h :: h in hooks ==> h.extension !in ids
    ensures Among(hooks, ids) == []
  {
    if hooks != [] {
      assert hooks[0] in hooks;
      AmongNone(hooks[1..], ids);
    }
  }

  // ---- what a manifest declares for an event -------------------------------------------------

  predicate Repeated(command: string, later: seq<Declared>) {
    exists i :: 0 <= i < |later| && Usable(later[i]) && later[i].command == command
  }

  /** The last entry of each command, in the order of those last entries. */
  function Lasts(id: string, entries: seq<Declared>): (r: seq<Hook>)
    ensures forall h :: h in r ==> h.extension == id
  {
    if entries == [] then []
    else
      (if Usable(entries[0]) && !Repeated(entries[0].command, entries[1..]) then [HookFor(id, entries[0])] else []) + Lasts(id, entries[1..])
  }

  /** Each command once, none of them empty, */
  lemma {:induction false} LastsOncePerCommand(id: string, entries: seq<Declared>)
    ensures forall h :: h in Lasts(id, entries) ==> h.command != ""
    ensures forall i, j :: 0 <= i < j < |Lasts(id, entries)| ==> Lasts(id, entries)[i].command != Lasts(id, entries)[j].command
    ensures forall h :: h in Lasts(id, entries) ==> exists k :: 0 <= k < |entries| && Usable(entries[k]) && entries[k].command == h.command
  {
    if entries != [] {
      LastsOncePerCommand(id, entries[1..]);
      var rest := Lasts(id, entries[1..]);
      forall h | h in rest ensures exists k :: 0 <= k < |entries| && Usable(entries[k]) && entries[k].command == h.command {
        var k :| 0 <= k < |entries[1..]| && Usable(entries[1..][k]) && entries[1..][k].command == h.command;
        assert entries[k + 1] == entries[1..][k];
      }
      if Usable(entries[0]) && !Repeated(entries[0].command, entries[1..]) {
        assert Lasts(id, entries) == [HookFor(id, entries[0])] + rest;
        forall j | 0 <= j < |rest| ensures rest[j].command != entries[0].command { assert rest[j] in rest; }
      } else {
        assert Lasts(id, entries) == rest;
      }
    }
  }

  /** and with the values of its last entry. */
  lemma {:induction false} LastsWin(id: string, entries: seq<Declared>, k: nat)
    requires k < |entries| && Usable(entries[k]) && !Repeated(entries[k].command, entries[k + 1..])
    ensures HookFor(id, entries[k]) in Lasts(id, entries)
    ensures var h, d := HookFor(id, entries[k]), entries[k];
            && h.extension == id && h.command == d.command && h.enabled && h.condition == d.condition
            && h.priority == Number(NormalizePriority(d.priority))
            && (d.optional != Some(false) <==> h.optional)
            && (d.prompt.Some? ==> h.prompt == d.prompt.value) && (d.description.Some? ==> h.description == d.description.value)
  {
    if k > 0 {
      assert entries[1..][k - 1] == entries[k] && entries[1..][k..] == entries[k + 1..];
      LastsWin(id, entries[1..], k - 1);
    }
  }

  function DropCommand(hooks: seq<Hook>, command: string): seq<Hook> {
    if hooks == [] then [] else (if hooks[0].command == command then [] else [hooks[0]]) + DropCommand(hooks[1..], command)
  }

  lemma {:induction false} DropCommandOfMore(a: seq<Hook>, b: seq<Hook>, command: string)
    ensures DropCommand(a + b, command) == DropCommand(a, command) + DropCommand(b, command)
  {
    if a == [] {
      assert a + b == b;
    } else {
      assert (a + b)[1..] == a[1..] + b;
      DropCommandOfMore(a[1..], b, command);
    }
  }

  /** One more entry displaces its predecessor and goes to the end. */
  lemma {:induction false} LastsOfOneMore(id: string, entries: seq<Declared>, d: Declared)
    ensures Lasts(id, entries + [d])
         == if Usable(d) then DropCommand(Lasts(id, entries), d.command) + [HookFor(id, d)] else Lasts(id, entries)
  {
    if entries == [] {
      assert entries + [d] == [d] && [d][1..] == [];
      assert Usable(d) ==> !Repeated(d.command, []);
    } else {
      var first, rest := entries[0], entries[1..];
      assert (entries + [d])[1..] == rest + [d];
      LastsOfOneMore(id, rest, d);
      if Usable(first) { RepeatedInOneMore(first.command, rest, d); }
      var head := if Usable(first) && !Repeated(first.command, rest) then [HookFor(id, first)] else [];
      if Usable(d) {
        DropCommandOfMore(head, Lasts(id, rest), d.command);
        if head != [] { assert head[1..] == []; }
      }
    }
  }

  lemma RepeatedInOneMore(command: string, later: seq<Declared>, more: Declared)
    ensures Repeated(command, later + [more]) <==> Repeated(command, later) || (Usable(more) && more.command == command)
  {
    if Repeated(command, later) {
      var i :| 0 <= i < |later| && Usable(later[i]) && later[i].command == command;
      assert (later + [more])[i] == later[i];
    }
    if Usable(more) && more.command == command { assert (later + [more])[|later|] == more; }
  }

  // ---- registering and unregistering ---------------------------------------------------------

  function At(events: Events, event: string): seq<Hook> {
    if event in events then events[event] else []
  }

  function DeclaredAt(id: string, m: Manifest, event: string): seq<Hook> {
    if event in m then Lasts(id, CoerceHookEntries(m[event])) else []
  }

  /** Others keep their entries in their order; the extension's new ones follow. */
  function NewList(events: Events, id: string, m: Manifest, event: string): seq<Hook> {
    Pick(At(events, event), id, false) + DeclaredAt(id, m, event)
  }

  function Registered(events: Events, id: string, m: Manifest): Events {
    map event | event in events.Keys + m.Keys && NewList(events, id, m, event) != [] :: NewList(events, id, m, event)
  }

  function Unregistered(events: Events, id: string): Events {
    map event | event in events && Pick(events[event], id, false) != [] :: Pick(events[event], id, false)
  }

  lemma RegisteredAt(events: Events, id: string, m: Manifest, event: string)
    ensures At(Registered(events, id, m), event) == NewList(events, id, m, event)
    ensures At(Unregistered(events, id), event) == Pick(At(events, event), id, false)
  {
  }

  lemma OthersThenOwn(others: seq<Hook>, own: seq<Hook>, id: string)
    requires forall h :: h in others ==> h.extension != id
    requires forall h :: h in own ==> h.extension == id
    ensures Pick(others + own, id, false) == others
  {
    PickOfMore(others, own, id, false);
    PickAll(others, id, false);
    PickAll(own, id, true);
    assert others + [] == others;
  }

  lemma NewListTwice(events: Events, id: string, m: Manifest, event: string)
    ensures NewList(Registered(events, id, m), id, m, event) == NewList(events, id, m, event)
  {
    RegisteredAt(events, id, m, event);
    OwnDeclared(id, m, event);
    OthersThenOwn(Pick(At(events, event), id, false), DeclaredAt(id, m, event), id);
    hide DeclaredAt, Registered, Pick, At;
  }

  lemma OwnDeclared(id: string, m: Manifest, event: string)
    ensures forall h :: h in DeclaredAt(id, m, event) ==> h.extension == id
  {
  }

  /** Registering the same manifest again changes nothing. */
  lemma RegisterTwice(events: Events, id: string, m: Manifest)
    ensures Registered(Registered(events, id, m), id, m) == Registered(events, id, m)
  {
    var once := Registered(events, id, m);
    forall event { NewListTwice(events, id, m, event); }
    hide NewList;
    assert forall event :: event in once.Keys + m.Keys ==> event in events.Keys + m.Keys;
    var twice := Registered(once, id, m);
    forall event ensures event in twice <==> event in once {
      assert NewList(once, id, m, event) == NewList(events, id, m, event);
    }
  }

  datatype Op = Register(id: string, m: Manifest) | Unregister(id: string)

  function Step(events: Events, op: Op): Events {
    match op
    case Register(id, m) => Registered(events, id, m)
    case Unregister(id) => Unregistered(events, id)
  }

  function Run(events: Events, ops: seq<Op>): Events {
    if ops == [] then events else Step(Run(events, ops[..|ops| - 1]), ops[|ops| - 1])
  }

  /** The last operation on an extension, if there is one. */
  function LastOf(ops: seq<Op>, id: string): (r: Option<Op>)
    ensures r.Some? ==> r.value in ops && r.value.id == id
    ensures r.None? <==> forall op :: op in ops ==> op.id != id
  {
    if ops == [] then None
    else
      assert ops == ops[..|ops| - 1] + [ops[|ops| - 1]];
      if ops[|ops| - 1].id == id then Some(ops[|ops| - 1]) else LastOf(ops[..|ops| - 1], id)
  }

  lemma StepAt(events: Events, op: Op, event: string)
    ensures At(Step(events, op), event)
         == Pick(At(events, event), op.id, false) + (if op.Register? then DeclaredAt(op.id, op.m, event) else [])
  {
    match op {
      case Register(id, m) => RegisteredAt(events, id, m, event);
      case Unregister(id) => RegisteredAt(events, id, map[], event);
    }
  }

  lemma {:induction false} PickTwice(hooks: seq<Hook>, other: string, id: string)
    requires other != id
    ensures Pick(Pick(hooks, other, false), id, true) == Pick(hooks, id, true)
  {
    if hooks != [] {
      PickTwice(hooks[1..], other, id);
      PickOfMore(if hooks[0].extension != other then [hooks[0]] else [], Pick(hooks[1..], other, false), id, true);
    }
  }

  lemma OwnAfterStep(events: Events, op: Op, id: string, event: string)
    ensures Pick(At(Step(events, op), event), id, true)
         == if op.id != id then Pick(At(events, event), id, true)
            else if op.Register? then DeclaredAt(id, op.m, event) else []
  {
    StepAt(events, op, event);
    var others, added := Pick(At(events, event), op.id, false), if op.Register? then DeclaredAt(op.id, op.m, event) else [];
    PickOfMore(others, added, id, true);
    PickAll(added, op.id, true);
    if op.id == id {
      PickAll(others, id, false);
    } else {
      PickTwice(At(events, event), op.id, id);
      PickAll(added, id, false);
    }
  }

  /** An extension's entries for an event are those of its last registered manifest, or none since it was unregistered. */
  lemma {:induction false} OwnAfterRun(events: Events, ops: seq<Op>, id: string, event: string)
    ensures Pick(At(Run(events, ops), event), id, true)
         == match LastOf(ops, id)
            case None => Pick(At(events, event), id, true)
            case Some(Register(_, m)) => DeclaredAt(id, m, event)
            case Some(Unregister(_)) => []
  {
    if ops != [] {
      var last := |ops| - 1;
      OwnAfterRun(events, ops[..last], id, event);
      OwnAfterStep(Run(events, ops[..last]), ops[last], id, event);
    }
  }

  /** The entries of extensions no operation names stay the same, in the same order. */
  lemma {:induction false} OthersAfterRun(events: Events, ops: seq<Op>, ids: set<string>, event: string)
    requires forall op :: op in ops ==> op.id !in ids
    ensures Among(At(Run(events, ops), event), ids) == Among(At(events, event), ids)
  {
    if ops != [] {
      var last := |ops| - 1;
      var before, op := Run(events, ops[..last]), ops[last];
      OthersAfterRun(events, ops[..last], ids, event);
      StepAt(before, op, event);
      var added := if op.Register? then DeclaredAt(op.id, op.m, event) else [];
      AmongOfMore(Pick(At(before, event), op.id, false), added, ids);
      AmongOthers(At(before, event), op.id, ids);
      AmongNone(added, ids);
    }
  }

  // ---- hooks for an event --------------------------------------------------------------------

  function PriorityOf(h: Hook): int {
    NormalizePriority(h.priority)
  }

  /** Put a hook behind all hooks of the same or a lower priority number. */
  function Insert(h: Hook, sorted: seq<Hook>): seq<Hook> {
    if sorted == [] || PriorityOf(h) < PriorityOf(sorted[0]) then [h] + sorted else [sorted[0]] + Insert(h, sorted[1..])
  }

  function Sort(hooks: seq<Hook>): seq<Hook> {
    if hooks == [] then [] else Insert(hooks[|hooks| - 1], Sort(hooks[..|hooks| - 1]))
  }

  predicate Sorted(hooks: seq<Hook>) {
    forall i, j :: 0 <= i < j < |hooks| ==> PriorityOf(hooks[i]) <= PriorityOf(hooks[j])
  }

  function WithPriority(hooks: seq<Hook>, p: int): (r: seq<Hook>)
    ensures forall h :: h in r <==> h in hooks && PriorityOf(h) == p
  {
    if hooks == [] then []
    else
      assert hooks == [hooks[0]] + hooks[1..];
      (if PriorityOf(hooks[0]) == p then [hooks[0]] else []) + WithPriority(hooks[1..], p)
  }

  lemma {:induction false} WithPriorityOfMore(a: seq<Hook>, b: seq<Hook>, p: int)
    ensures WithPriority(a + b, p) == WithPriority(a, p) + WithPriority(b, p)
  {
    if a == [] {
      assert a + b == b;
    } else {
      assert (a + b)[1..] == a[1..] + b;
      WithPriorityOfMore(a[1..], b, p);
    }
  }

  lemma {:induction false} InsertAdds(h: Hook, sorted: seq<Hook>)
    ensures multiset(Insert(h, sorted)) == multiset(sorted) + multiset{h}
  {
    hide PriorityOf;
    if sorted != [] && PriorityOf(h) >= PriorityOf(sorted[0]) {
      InsertAdds(h, sorted[1..]);
      assert sorted == [sorted[0]] + sorted[1..];
    }
  }

  lemma {:induction false} InsertKeepsSorted(h: Hook, sorted: seq<Hook>)
    requires Sorted(sorted)
    ensures Sorted(Insert(h, sorted))
  {
    hide PriorityOf;
    if sorted != [] && PriorityOf(h) >= PriorityOf(sorted[0]) {
      InsertKeepsSorted(h, sorted[1..]);
      var rest := Insert(h, sorted[1..]);
      InsertAdds(h, sorted[1..]);
      forall j | 0 <= j < |rest| ensures PriorityOf(sorted[0]) <= PriorityOf(rest[j]) {
        assert rest[j] in multiset(rest);
        assert rest[j] == h || rest[j] in sorted[1..];
      }
    }
  }

  lemma {:induction false} InsertAfterEquals(h: Hook, sorted: seq<Hook>, p: int)
    requires Sorted(sorted)
    ensures WithPriority(Insert(h, sorted), p) == WithPriority(sorted, p) + if PriorityOf(h) == p then [h] else []
  {
    hide PriorityOf;
    if sorted == [] || PriorityOf(h) < PriorityOf(sorted[0]) {
      if PriorityOf(h) == p { NothingLower(sorted, p); }
      assert ([h] + sorted)[1..] == sorted;
    } else {
      InsertAfterEquals(h, sorted[1..], p);
      assert ([sorted[0]] + Insert(h, sorted[1..]))[1..] == Insert(h, sorted[1..]);
    }
  }

  lemma {:induction false} NothingLower(sorted: seq<Hook>, p: int)
    requires Sorted(sorted) && (sorted != [] ==> p < PriorityOf(sorted[0]))
    ensures WithPriority(sorted, p) == []
  {
    if sorted != [] { NothingLower(sorted[1..], p); }
  }

  lemma OneWithPriority(h: Hook, p: int)
    ensures WithPriority([h], p) == if PriorityOf(h) == p then [h] else []
  {
    assert [h][1..] == [];
  }

  lemma EmptyIsSorted()
    ensures Sorted([])
  {
  }

  /** The sort is a permutation in priority order that keeps the order of equals. */
  lemma {:induction false} SortIsStable(hooks: seq<Hook>, p: int)
    ensures Sorted(Sort(hooks)) && multiset(Sort(hooks)) == multiset(hooks)
    ensures WithPriority(Sort(hooks), p) == WithPriority(hooks, p)
  {
    hide PriorityOf, Insert, WithPriority, Sorted;
    if hooks == [] {
      EmptyIsSorted();
    } else {
      var last := |hooks| - 1;
      SortIsStable(hooks[..last], p);
      InsertAdds(hooks[last], Sort(hooks[..last]));
      InsertKeepsSorted(hooks[last], Sort(hooks[..last]));
      InsertAfterEquals(hooks[last], Sort(hooks[..last]), p);
      assert hooks == hooks[..last] + [hooks[last]];
      WithPriorityOfMore(hooks[..last], [hooks[last]], p);
      OneWithPriority(hooks[last], p);
    }
  }

  lemma InBoth(a: seq<Hook>, b: seq<Hook>, h: Hook)
    requires h in a && WithPriority(a, PriorityOf(h)) == WithPriority(b, PriorityOf(h))
    ensures h in b
  {
    assert h in WithPriority(a, PriorityOf(h));
  }

  lemma HeadIsLowest(a: seq<Hook>, h: Hook)
    requires Sorted(a) && h in a
    ensures PriorityOf(a[0]) <= PriorityOf(h)
  {
    var i :| 0 <= i < |a| && a[i] == h;
  }

  lemma HeadWithPriority(a: seq<Hook>)
    requires a != []
    ensures WithPriority(a, PriorityOf(a[0])) != [] && WithPriority(a, PriorityOf(a[0]))[0] == a[0]
  {
  }

  lemma HeadsAgree(a: seq<Hook>, b: seq<Hook>)
    requires Sorted(a) && Sorted(b) && a != [] && b != []
    requires forall p: int :: WithPriority(a, p) == WithPriority(b, p)
    ensures a[0] == b[0]
  {
    HeadWithPriority(a);
    HeadWithPriority(b);
    InBoth(a, b, a[0]);
    InBoth(b, a, b[0]);
    HeadIsLowest(a, b[0]);
    HeadIsLowest(b, a[0]);
    hide PriorityOf, WithPriority, Sorted;
  }

  lemma TailsAgree(a: seq<Hook>, b: seq<Hook>, q: int)
    requires a != [] && b != [] && a[0] == b[0] && WithPriority(a, q) == WithPriority(b, q)
    ensures WithPriority(a[1..], q) == WithPriority(b[1..], q)
  {
    var head := if PriorityOf(a[0]) == q then [a[0]] else [];
    assert WithPriority(a, q)[|head|..] == WithPriority(a[1..], q);
    assert WithPriority(b, q)[|head|..] == WithPriority(b[1..], q);
  }

  /** No other list does both: sorted with the same equals in the same order is the same list. */
  lemma {:induction false} StableSortIsUnique(a: seq<Hook>, b: seq<Hook>)
    requires Sorted(a) && Sorted(b) && forall p: int :: WithPriority(a, p) == WithPriority(b, p)
    ensures a == b
  {
    if a == [] || b == [] {
      SameEmptiness(a, b);
    } else {
      HeadsAgree(a, b);
      forall q: int ensures WithPriority(a[1..], q) == WithPriority(b[1..], q) {
        assert WithPriority(a, q) == WithPriority(b, q);
        TailsAgree(a, b, q);
      }
      hide WithPriority, PriorityOf;
      StableSortIsUnique(a[1..], b[1..]);
      assert a == [a[0]] + a[1..] && b == [b[0]] + b[1..];
    }
  }

  lemma SameEmptiness(a: seq<Hook>, b: seq<Hook>)
    requires forall p: int :: WithPriority(a, p) == WithPriority(b, p)
    ensures a == [] <==> b == []
  {
    if a != [] {
      assert a[0] in WithPriority(a, PriorityOf(a[0]));
      assert WithPriority(b, PriorityOf(a[0])) == WithPriority(a, PriorityOf(a[0]));
    }
    if b != [] {
      assert b[0] in WithPriority(b, PriorityOf(b[0]));
      assert WithPriority(a, PriorityOf(b[0])) == WithPriority(b, PriorityOf(b[0]));
    }
  }

  function EnabledOf(hooks: seq<Hook>): (r: seq<Hook>)
    ensures forall h :: h in r <==> h in hooks && h.enabled
  {
    if hooks == [] then []
    else
      assert hooks == [hooks[0]] + hooks[1..];
      (if hooks[0].enabled then [hooks[0]] else []) + EnabledOf(hooks[1..])
  }

  lemma {:induction false} EnabledOfMore(a: seq<Hook>, b: seq<Hook>)
    ensures EnabledOf(a + b) == EnabledOf(a) + EnabledOf(b)
  {
    if a == [] {
      assert a + b == b;
    } else {
      assert (a + b)[1..] == a[1..] + b;
      EnabledOfMore(a[1..], b);
    }
  }

  /** The enabled ones in their listed order. */
  lemma EnabledKeepTheirOrder(before: seq<Hook>, h: Hook, later: seq<Hook>)
    ensures EnabledOf(before + [h] + later) == EnabledOf(before) + (if h.enabled then [h] else []) + EnabledOf(later)
  {
    EnabledOfMore(before + [h], later);
    EnabledOfMore(before, [h]);
    assert [h][1..] == [];
  }

  function HooksForEvent(events: Events, event: string): seq<Hook> {
    Sort(EnabledOf(At(events, event)))
  }

  /** The enabled hooks of the event and no others, by priority, equals in their listed order. */
  lemma HooksForEventAreStable(events: Events, event: string, p: int)
    ensures var r := HooksForEvent(events, event);
            && Sorted(r) && multiset(r) == multiset(EnabledOf(At(events, event)))
            && WithPriority(r, p) == WithPriority(EnabledOf(At(events, event)), p)
  {
    SortIsStable(EnabledOf(At(events, event)), p);
  }
}
