/** The project's extension configuration, changed in place: its list of installed extensions and its hooks. */
module HookExecutor {
  import opened Hooks
  import opened Wrappers
  import Text

  // ---- the installed list --------------------------------------------------------------------

  /** An item of the installed list on disk: an id, a record that may name one, or something else. */
  datatype Listed = Plain(text: string) | Record(id: Option<string>, details: string) | Unknown

  predicate Blank(c: char) {
    || '\U{09}' <= c <= '\U{0D}' || '\U{1C}' <= c <= ' ' || c == '\U{85}' || c == '\U{A0}' || c == '\U{1680}'
    || '\U{2000}' <= c <= '\U{200A}' || c == '\U{2028}' || c == '\U{2029}' || c == '\U{202F}' || c == '\U{205F}' || c == '\U{3000}'
  }

  function Strip(s: string): string {
    if s != "" && Blank(s[0]) then Strip(s[1..])
    else if s != "" && Blank(s[|s| - 1]) then Strip(s[..|s| - 1])
    else s
  }

  predicate ValidId(s: string) {
    s != "" && forall c :: c in s ==> 'a' <= c <= 'z' || '0' <= c <= '9' || c == '-'
  }

  lemma ValidIdIsStripped(s: string)
    requires ValidId(s)
    ensures Strip(s) == s
  {
    assert s[0] in s && s[|s| - 1] in s;
  }

  function KeyOf(x: Listed): Option<string> {
    match x
    case Plain(text) => Some(text)
    case Record(id, _) => id
    case Unknown => None
  }

  /** The id an item stands for, if it stands for one. */
  function IdOf(x: Listed): Option<string> {
    match KeyOf(x)
    case Some(key) => if ValidId(Strip(key)) then Some(Strip(key)) else None
    case None => None
  }

  ghost predicate Mentions(items: seq<Listed>, id: string) {
    exists x :: x in items && IdOf(x) == Some(id)
  }

  /** The item kept for each id: the last record that has it, else the first plain mention. */
  function Seen(items: seq<Listed>): map<string, Listed> {
    if items == [] then map[]
    else
      var seen, x := Seen(items[..|items| - 1]), items[|items| - 1];
      match IdOf(x)
      case None => seen
      case Some(id) => if id !in seen || x.Record? then seen[id := x] else seen
  }

  function Kept(items: seq<Listed>, add: string, remove: string): map<string, Listed> {
    var seen := Seen(items);
    var added := if add != "" && ValidId(Strip(add)) && add !in seen then seen[add := Plain(add)] else seen;
    if remove == "" then added else added - {remove}
  }

  /** Each kept item stands for its id. */
  ghost predicate Faithful(kept: map<string, Listed>) {
    forall id :: id in kept ==> IdOf(kept[id]) == Some(id)
  }

  ghost predicate Ascending(items: seq<Listed>) {
    forall i, j :: 0 <= i < j < |items| ==>
      KeyOf(items[i]).Some? && KeyOf(items[j]).Some? && Text.Less(KeyOf(items[i]).value, KeyOf(items[j]).value)
  }

  /** The kept items, in the order of their keys. */
  ghost predicate Arranges(items: seq<Listed>, kept: map<string, Listed>) {
    Ascending(items) && forall x :: x in items <==> exists id :: id in kept && kept[id] == x
  }

  lemma {:induction false} SeenIsFaithful(items: seq<Listed>)
    ensures Faithful(Seen(items))
    ensures forall id :: id in Seen(items) <==> Mentions(items, id)
    ensures forall id :: id in Seen(items) ==> Seen(items)[id] in items
  {
    hide IdOf;
    if items != [] {
      var last := |items| - 1;
      SeenIsFaithful(items[..last]);
      assert items == items[..last] + [items[last]];
      forall id ensures Mentions(items, id) <==> Mentions(items[..last], id) || IdOf(items[last]) == Some(id) {
        if Mentions(items, id) {
          var x :| x in items && IdOf(x) == Some(id);
          assert x in items[..last] || x == items[last];
        }
        assert items[last] in items;
      }
    }
  }

  /** A record wins over plain mentions, and the last record over earlier ones. */
  lemma {:induction false} LastRecordWins(items: seq<Listed>, k: nat, id: string)
    requires k < |items| && IdOf(items[k]) == Some(id) && items[k].Record?
    requires forall j :: k < j < |items| && items[j].Record? ==> IdOf(items[j]) != Some(id)
    ensures id in Seen(items) && Seen(items)[id] == items[k]
  {
    hide IdOf;
    var last := |items| - 1;
    if k < last {
      LastRecordWins(items[..last], k, id);
    }
  }

  lemma {:induction false} FirstPlainStays(items: seq<Listed>, k: nat, id: string)
    requires k < |items| && IdOf(items[k]) == Some(id) && !items[k].Record?
    requires forall j :: 0 <= j < |items| && items[j].Record? ==> IdOf(items[j]) != Some(id)
    requires forall j :: 0 <= j < k ==> IdOf(items[j]) != Some(id)
    ensures id in Seen(items) && Seen(items)[id] == items[k]
  {
    hide IdOf;
    var last := |items| - 1;
    if k < last {
      FirstPlainStays(items[..last], k, id);
    } else {
      SeenIsFaithful(items[..last]);
      forall x | x in items[..last] ensures IdOf(x) != Some(id) {
        var j :| 0 <= j < last && items[j] == x;
      }
      assert !Mentions(items[..last], id);
    }
  }

  lemma KeptIsFaithful(items: seq<Listed>, add: string, remove: string)
    requires add == "" || ValidId(add)
    ensures Faithful(Kept(items, add, remove))
    ensures forall id :: id in Kept(items, add, remove) <==> (Mentions(items, id) || (add != "" && id == add)) && (remove == "" || id != remove)
  {
    SeenIsFaithful(items);
    if add != "" { ValidIdIsStripped(add); }
  }

  /** Only one list arranges the kept items. */
  lemma {:induction false} ArrangementIsUnique(a: seq<Listed>, b: seq<Listed>)
    requires Ascending(a) && Ascending(b) && (forall x :: x in a <==> x in b)
    requires forall x :: x in a ==> KeyOf(x).Some?
    ensures a == b
  {
    SameEmptiness(a, b);
    if a != [] {
      assert a[0] in b && b[0] in a;
      SameHead(a, b);
      forall x ensures x in a[1..] <==> x in b[1..] {
        OnlyOnce(a, x);
        OnlyOnce(b, x);
        assert x in a <==> x in b;
      }
      ArrangementIsUnique(a[1..], b[1..]);
      assert a == [a[0]] + a[1..] && b == [b[0]] + b[1..];
    }
  }

  lemma SameEmptiness(a: seq<Listed>, b: seq<Listed>)
    requires forall x :: x in a <==> x in b
    ensures a == [] <==> b == []
  {
    if a != [] { assert a[0] in b; }
    if b != [] { assert b[0] in a; }
  }

  lemma OnlyOnce(a: seq<Listed>, x: Listed)
    requires a != [] && Ascending(a) && forall y :: y in a ==> KeyOf(y).Some?
    ensures x in a[1..] <==> x in a && x != a[0]
  {
    assert a[0] in a;
    Text.LessIsTotal(KeyOf(a[0]).value, KeyOf(a[0]).value);
    if x in a[1..] {
      var j :| 0 <= j < |a[1..]| && a[1..][j] == x;
      assert a[j + 1] == x;
    }
    if x in a && x != a[0] {
      var j :| 0 <= j < |a| && a[j] == x;
      assert a[1..][j - 1] == x;
    }
  }

  lemma SameHead(a: seq<Listed>, b: seq<Listed>)
    requires a != [] && b != [] && Ascending(a) && Ascending(b) && a[0] in b && b[0] in a
    requires KeyOf(a[0]).Some? && KeyOf(b[0]).Some?
    ensures a[0] == b[0]
  {
    if a[0] != b[0] {
      var i :| 0 <= i < |b| && b[i] == a[0];
      var j :| 0 <= j < |a| && a[j] == b[0];
      Text.LessIsTotal(KeyOf(a[0]).value, KeyOf(b[0]).value);
    }
  }

  /** Reading an arrangement again finds what was kept. */
  lemma SeenOfArranged(items: seq<Listed>, kept: map<string, Listed>)
    requires Faithful(kept) && Arranges(items, kept)
    ensures Seen(items) == kept
  {
    hide IdOf, Ascending, Seen;
    SeenIsFaithful(items);
    var seen := Seen(items);
    forall id ensures (id in seen <==> id in kept) && (id in kept ==> seen[id] == kept[id]) {
      if id in kept { assert kept[id] in items && IdOf(kept[id]) == Some(id); }
      if id in seen {
        var k :| k in kept && kept[k] == seen[id];
        assert IdOf(kept[k]) == Some(k) && IdOf(seen[id]) == Some(id);
      }
    }
  }

  /** Taking an id off the list and putting it back leaves a plain mention of it among the others. */
  lemma TakenOffAndPutBack(items: seq<Listed>, mid: seq<Listed>, id: string)
    requires ValidId(id) && Arranges(mid, Kept(items, "", id))
    ensures Kept(mid, id, "") == Seen(items)[id := Plain(id)]
  {
    KeptIsFaithful(items, "", id);
    SeenOfArranged(mid, Kept(items, "", id));
    ValidIdIsStripped(id);
    hide Seen, Arranges, Strip, ValidId, Faithful;
    assert (Seen(items) - {id})[id := Plain(id)] == Seen(items)[id := Plain(id)];
  }

  /** The kept items that are no longer to do are arranged. */
  ghost predicate Placed(items: seq<Listed>, kept: map<string, Listed>, todo: map<string, Listed>) {
    && (forall id :: id in todo ==> id in kept && todo[id] == kept[id])
    && Arranges(items, kept - todo.Keys)
  }

  lemma NewKey(items: seq<Listed>, kept: map<string, Listed>, todo: map<string, Listed>, id: string)
    requires Faithful(kept) && Placed(items, kept, todo) && id in todo
    ensures KeyOf(kept[id]).Some? && forall y :: y in items ==> KeyOf(y).Some? && KeyOf(y) != KeyOf(kept[id])
  {
    KeyedById(kept[id], id);
    forall y | y in items ensures KeyOf(y).Some? && KeyOf(y) != KeyOf(kept[id]) {
      var other :| other in kept - todo.Keys && kept[other] == y;
      KeyedById(y, other);
    }
  }

  lemma PlacedOneMore(items: seq<Listed>, more: seq<Listed>, kept: map<string, Listed>, todo: map<string, Listed>, id: string)
    requires Placed(items, kept, todo) && id in todo
    requires Ascending(more) && forall y :: y in more <==> y in items || y == kept[id]
    ensures Placed(more, kept, todo - {id})
  {
    hide Ascending;
    var before, after := kept - todo.Keys, kept - (todo - {id}).Keys;
    forall y ensures y in more <==> exists k :: k in after && after[k] == y {
      if y in items {
        var k :| k in before && before[k] == y;
        assert k in after && after[k] == y;
      }
      if y == kept[id] { assert id in after && after[id] == y; }
      if k :| k in after && after[k] == y {
        if k != id { assert k in before && before[k] == y; }
      }
    }
  }

  method ArrangeItems(kept: map<string, Listed>) returns (items: seq<Listed>)
    requires Faithful(kept)
    ensures Arranges(items, kept)
  {
    items := [];
    var todo := kept;
    assert kept - todo.Keys == map[];
    while todo != map[]
      invariant Placed(items, kept, todo)
      decreases |todo|
    {
      var id :| id in todo;
      NewKey(items, kept, todo, id);
      hide KeyOf, IdOf;
      var more := InsertByKey(items, todo[id]);
      PlacedOneMore(items, more, kept, todo, id);
      items, todo := more, todo - {id};
    }
    assert kept - todo.Keys == kept;
  }

  lemma KeyedById(x: Listed, id: string)
    requires IdOf(x) == Some(id)
    ensures KeyOf(x).Some? && forall y :: KeyOf(y) == KeyOf(x) ==> IdOf(y) == Some(id)
  {
  }

  method InsertByKey(items: seq<Listed>, x: Listed) returns (r: seq<Listed>)
    requires Ascending(items) && KeyOf(x).Some?
    requires forall y :: y in items ==> KeyOf(y).Some? && KeyOf(y) != KeyOf(x)
    ensures Ascending(r) && forall y :: y in r <==> y in items || y == x
  {
    var at := 0;
    while at < |items| && Text.Less(KeyOf(items[at]).value, KeyOf(x).value)
      invariant 0 <= at <= |items|
      invariant forall j :: 0 <= j < at ==> Text.Less(KeyOf(items[j]).value, KeyOf(x).value)
    {
      at := at + 1;
    }
    forall j | at <= j < |items| ensures Text.Less(KeyOf(x).value, KeyOf(items[j]).value) {
      Text.LessIsTotal(KeyOf(x).value, KeyOf(items[at]).value);
      if at < j { Text.LessIsTransitive(KeyOf(x).value, KeyOf(items[at]).value, KeyOf(items[j]).value); }
    }
    r := items[..at] + [x] + items[at..];
  }

  method SanitizeInstalledList(items: seq<Listed>, add: string, remove: string) returns (r: seq<Listed>)
    requires add == "" || ValidId(add)
    ensures Arranges(r, Kept(items, add, remove))
  {
    var seen := map[];
    var i := 0;
    while i < |items|
      invariant 0 <= i <= |items|
      invariant seen == Seen(items[..i])
    {
      assert items[..i + 1][..i] == items[..i];
      var id := IdOf(items[i]);
      if id.Some? && (id.value !in seen || items[i].Record?) {
        seen := seen[id.value := items[i]];
      }
      i := i + 1;
    }
    assert items[..i] == items;
    if add != "" && ValidId(Strip(add)) && add !in seen {
      seen := seen[add := Plain(add)];
    }
    if remove != "" {
      seen := seen - {remove};
    }
    KeptIsFaithful(items, add, remove);
    r := ArrangeItems(seen);
  }

  // ---- the configuration ---------------------------------------------------------------------

  /** An event's list as it is read: without what is not a mapping. */
  function Loaded(items: seq<Item>): seq<Hook> {
    if items == [] then [] else (match items[0] case Entry(hook) => [hook] case Junk => []) + Loaded(items[1..])
  }

  function Entries(hooks: seq<Hook>): (r: seq<Item>)
    ensures |r| == |hooks| && Loaded(r) == hooks
  {
    if hooks == [] then [] else [Entry(hooks[0])] + Entries(hooks[1..])
  }

  class Executor {
    var installed: seq<Listed>
    var hooks: map<string, seq<Item>>

    constructor ()
      ensures installed == [] && hooks == map[]
    {
      installed, hooks := [], map[];
    }

    function Events(): Hooks.Events
      reads this`hooks
    {
      map event | event in hooks :: Loaded(hooks[event])
    }

    method SaveHooks(events: Hooks.Events)
      modifies this`hooks
      ensures Events() == events
    {
      hooks := map event | event in events :: Entries(events[event]);
    }

    method RegisterExtension(id: string)
      requires ValidId(id)
      modifies this`installed
      ensures Arranges(installed, Kept(old(installed), id, ""))
      ensures forall x :: Mentions(installed, x) <==> Mentions(old(installed), x) || x == id
    {
      var sanitized := SanitizeInstalledList(installed, id, "");
      KeptIsFaithful(installed, id, "");
      MentionsKept(sanitized, Kept(installed, id, ""));
      if sanitized != installed {
        installed := sanitized;
      }
    }

    method UnregisterExtension(id: string)
      requires id != ""
      modifies this`installed
      ensures Arranges(installed, Kept(old(installed), "", id))
      ensures forall x :: Mentions(installed, x) <==> Mentions(old(installed), x) && x != id
    {
      var sanitized := SanitizeInstalledList(installed, "", id);
      KeptIsFaithful(installed, "", id);
      MentionsKept(sanitized, Kept(installed, "", id));
      if sanitized != installed {
        installed := sanitized;
      }
    }

    method CollectEntries(id: string, declaration: Declaration) returns (r: seq<Hook>)
      ensures r == Lasts(id, CoerceHookEntries(declaration))
    {
      hide Lasts, HookFor, DropCommand;
      var entries := CoerceHookEntries(declaration);
      r := [];
      NoneDeclared(id);
      assert entries[..0] == [];
      for i := 0 to |entries|
        invariant r == Lasts(id, entries[..i])
      {
        var entry := entries[i];
        assert entries[..i + 1] == entries[..i] + [entry];
        LastsOfOneMore(id, entries[..i], entry);
        if Usable(entry) {
          r := DropCommand(r, entry.command) + [HookFor(id, entry)];
        }
      }
      assert entries[..|entries|] == entries;
    }

    /** Drop the extension's entries from the events it no longer declares, renew them in the others. */
    method RenewEvents(id: string, manifest: Manifest, before: Hooks.Events) returns (events: Hooks.Events)
      ensures RenewedBut(events, id, manifest, before, {})
    {
      events := map event | event in before :: if event in manifest then before[event] else Pick(before[event], id, false);
      var todo := manifest.Keys;
      PurgedFirst(events, id, manifest, before);
      while todo != {}
        invariant todo <= manifest.Keys && RenewedBut(events, id, manifest, before, todo)
        decreases |todo|
      {
        hide NewList, Pick, Lasts;
        var event :| event in todo;
        var renewed := Renew(id, manifest[event], At(events, event));
        RenewOne(events, id, manifest, before, todo, event, renewed);
        events := events[event := renewed];
        todo := todo - {event};
      }
    }

    method Renew(id: string, declaration: Declaration, hooks: seq<Hook>) returns (r: seq<Hook>)
      ensures r == Pick(hooks, id, false) + Lasts(id, CoerceHookEntries(declaration))
    {
      var declared := CollectEntries(id, declaration);
      return Pick(hooks, id, false) + declared;
    }

    method RegisterHooks(id: string, manifest: Manifest)
      requires ValidId(id)
      modifies this
      ensures Events() == Registered(old(Events()), id, manifest)
      ensures Arranges(installed, Kept(old(installed), id, ""))
    {
      RegisterExtension(id);
      hide Kept, Arranges, RenewedBut, Registered;
      var events: Hooks.Events := Events();
      var renewed := RenewEvents(id, manifest, events);
      var nonEmpty := NonEmpty(renewed);
      NonEmptyIsRegistered(renewed, id, manifest, events);
      if nonEmpty != events {
        SaveHooks(nonEmpty);
      }
    }

    method UnregisterHooks(id: string)
      requires id != ""
      modifies this
      ensures Events() == Unregistered(old(Events()), id)
      ensures Arranges(installed, Kept(old(installed), "", id))
    {
      UnregisterExtension(id);
      var events: Hooks.Events := Events();
      var kept: Hooks.Events := map event | event in events :: Pick(events[event], id, false);
      SaveHooks(NonEmpty(kept));
    }

    method GetHooksForEvent(event: string) returns (r: seq<Hook>)
      ensures Sorted(r) && multiset(r) == multiset(EnabledOf(At(Events(), event)))
      ensures forall p: int :: WithPriority(r, p) == WithPriority(EnabledOf(At(Events(), event)), p)
      ensures r == HooksForEvent(Events(), event)
    {
      var enabled := EnabledOf(At(Events(), event));
      r := Sort(enabled);
      SortIsStable(enabled, 0);
      forall p: int ensures WithPriority(r, p) == WithPriority(enabled, p) {
        SortIsStable(enabled, p);
      }
    }
  }

  function NonEmpty(events: Hooks.Events): Hooks.Events {
    map event | event in events && events[event] != [] :: events[event]
  }

  lemma NonEmptyIsRegistered(renewed: Hooks.Events, id: string, m: Manifest, before: Hooks.Events)
    requires RenewedBut(renewed, id, m, before, {})
    ensures NonEmpty(renewed) == Registered(before, id, m)
  {
    hide NewList;
  }

  lemma NoneDeclared(id: string)
    ensures Lasts(id, []) == []
  {
  }

  /** Every event but those still to do has its new list. */
  ghost predicate RenewedBut(events: Hooks.Events, id: string, m: Manifest, before: Hooks.Events, todo: set<string>) {
    && events.Keys == before.Keys + (m.Keys - todo)
    && forall event :: event in events ==> events[event] == if event in todo then At(before, event) else NewList(before, id, m, event)
  }

  lemma PurgedFirst(events: Hooks.Events, id: string, m: Manifest, before: Hooks.Events)
    requires events == map event | event in before :: if event in m then before[event] else Pick(before[event], id, false)
    ensures RenewedBut(events, id, m, before, m.Keys)
  {
    hide Pick, Lasts;
    forall event | event in before && event !in m ensures NewList(before, id, m, event) == Pick(before[event], id, false) {
      assert Pick(before[event], id, false) + [] == Pick(before[event], id, false);
    }
  }

  lemma RenewOne(events: Hooks.Events, id: string, m: Manifest, before: Hooks.Events, todo: set<string>, event: string, renewed: seq<Hook>)
    requires RenewedBut(events, id, m, before, todo) && todo <= m.Keys && event in todo
    requires renewed == Pick(At(events, event), id, false) + Lasts(id, CoerceHookEntries(m[event]))
    ensures RenewedBut(events[event := renewed], id, m, before, todo - {event})
  {
    hide Pick, Lasts;
    assert At(events, event) == At(before, event);
    assert renewed == NewList(before, id, m, event);
    hide NewList, At;
  }

  lemma MentionsKept(items: seq<Listed>, kept: map<string, Listed>)
    requires Arranges(items, kept) && Faithful(kept)
    ensures forall id :: Mentions(items, id) <==> id in kept
  {
    forall id ensures Mentions(items, id) <==> id in kept {
      if Mentions(items, id) {
        var x :| x in items && IdOf(x) == Some(id);
        var k :| k in kept && kept[k] == x;
      }
      if id in kept { assert kept[id] in items; }
    }
  }
}
