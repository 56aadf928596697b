/**
 The two recursive merges of nested mappings: the polite one keeps what is there, the overriding one lets the
 newcomer win. Each is the other with its arguments swapped.
 */
module DeepMerge {
  import opened Wrappers

  type Fields = map<string, Tree>

  /** A parsed document: a mapping, or anything else as one value. */
  datatype Tree = Leaf(value: string) | Node(fields: Fields)

  // ---- the merges ----------------------------------------------------------------------------

  function Polite(base: Fields, update: Fields): Fields
    decreases Node(base)
  {
    map k | k in base.Keys + update.Keys ::
      if k !in base then update[k]
      else if base[k].Node? && k in update && update[k].Node? then Node(Polite(base[k].fields, update[k].fields))
      else base[k]
  }

  function Overriding(base: Fields, override: Fields): Fields
    decreases Node(base)
  {
    map k | k in base.Keys + override.Keys ::
      if k in base && k in override && base[k].Node? && override[k].Node? then Node(Overriding(base[k].fields, override[k].fields))
      else if k in override then override[k]
      else base[k]
  }

  lemma PoliteKeys(base: Fields, update: Fields)
    ensures Polite(base, update).Keys == base.Keys + update.Keys
    ensures forall k :: k in base && k !in update ==> Polite(base, update)[k] == base[k]
  {
  }

  lemma PoliteKey(base: Fields, update: Fields, k: string)
    requires k in update
    ensures k in Polite(base, update)
    ensures Polite(base, update)[k]
         == if k !in base then update[k]
            else if base[k].Node? && update[k].Node? then Node(Polite(base[k].fields, update[k].fields))
            else base[k]
  {
  }

  lemma OverridingKeys(base: Fields, override: Fields)
    ensures Overriding(base, override).Keys == base.Keys + override.Keys
    ensures forall k :: k in base && k !in override ==> Overriding(base, override)[k] == base[k]
  {
  }

  lemma OverridingKey(base: Fields, override: Fields, k: string)
    requires k in override
    ensures k in Overriding(base, override)
    ensures Overriding(base, override)[k]
         == if k in base && base[k].Node? && override[k].Node? then Node(Overriding(base[k].fields, override[k].fields)) else override[k]
  {
  }

  /** Half-way: the keys still to do are as in the base, the others as in the result. */
  ghost predicate HalfWay(now: Fields, base: Fields, update: Fields, merged: Fields, todo: set<string>) {
    && todo <= update.Keys && merged.Keys == base.Keys + update.Keys
    && now.Keys == base.Keys + (update.Keys - todo)
    && forall k :: k in now ==> now[k] == if k in todo then base[k] else merged[k]
  }

  lemma OneKeyDone(now: Fields, next: Fields, base: Fields, update: Fields, merged: Fields, todo: set<string>, key: string)
    requires HalfWay(now, base, update, merged, todo) && key in todo
    requires key in next && key in merged && next[key] == merged[key]
    requires next.Keys == now.Keys + {key} && forall k :: k in now && k != key ==> next[k] == now[k]
    ensures HalfWay(next, base, update, merged, todo - {key})
  {
  }

  lemma HalfWayEnds(base: Fields, update: Fields, merged: Fields)
    requires merged.Keys == base.Keys + update.Keys && forall k :: k in base && k !in update ==> merged[k] == base[k]
    ensures HalfWay(base, base, update, merged, update.Keys)
    ensures forall now :: HalfWay(now, base, update, merged, {}) ==> now == merged
  {
  }

  lemma HalfWayAt(now: Fields, base: Fields, update: Fields, merged: Fields, todo: set<string>, key: string)
    requires HalfWay(now, base, update, merged, todo) && key in todo
    ensures key in update && key in merged && (key in now <==> key in base) && (key in base ==> now[key] == base[key])
  {
  }

  /** Add a new key, merge two mappings, or keep what is there. */
  method MergeKeyPolitely(now: Fields, base: Fields, update: Fields, key: string) returns (next: Fields)
    requires key in update && (key in now <==> key in base) && (key in base ==> now[key] == base[key])
    ensures key in Polite(base, update) && next == now[key := Polite(base, update)[key]]
    decreases Node(base), 0
  {
    PoliteKey(base, update, key);
    hide Polite;
    next := now;
    if key !in next {
      next := next[key := update[key]];
    } else if next[key].Node? && update[key].Node? {
      var merged := DeepMergePolite(base[key].fields, update[key].fields);
      next := next[key := Node(merged)];
    }
  }

  /** Copy the base, then go through the update's keys. */
  method DeepMergePolite(base: Fields, update: Fields) returns (result: Fields)
    ensures result == Polite(base, update)
    decreases Node(base), 1
  {
    hide Polite, HalfWay;
    result := base;
    var todo := update.Keys;
    PoliteKeys(base, update);
    HalfWayEnds(base, update, Polite(base, update));
    while todo != {}
      invariant HalfWay(result, base, update, Polite(base, update), todo)
      decreases |todo|
    {
      var key :| key in todo;
      HalfWayAt(result, base, update, Polite(base, update), todo, key);
      var next := MergeKeyPolitely(result, base, update, key);
      OneKeyDone(result, next, base, update, Polite(base, update), todo, key);
      result, todo := next, todo - {key};
    }
  }

  /** Merge two mappings, or let the newcomer win. */
  method MergeKeyOverriding(now: Fields, base: Fields, override: Fields, key: string) returns (next: Fields)
    requires key in override && (key in now <==> key in base) && (key in base ==> now[key] == base[key])
    ensures key in Overriding(base, override) && next == now[key := Overriding(base, override)[key]]
    decreases Node(base), 0
  {
    OverridingKey(base, override, key);
    hide Overriding;
    if key in now && now[key].Node? && override[key].Node? {
      var merged := MergeConfigs(base[key].fields, override[key].fields);
      next := now[key := Node(merged)];
    } else {
      next := now[key := override[key]];
    }
  }

  method MergeConfigs(base: Fields, override: Fields) returns (result: Fields)
    ensures result == Overriding(base, override)
    decreases Node(base), 1
  {
    hide Overriding, HalfWay;
    result := base;
    var todo := override.Keys;
    OverridingKeys(base, override);
    HalfWayEnds(base, override, Overriding(base, override));
    while todo != {}
      invariant HalfWay(result, base, override, Overriding(base, override), todo)
      decreases |todo|
    {
      var key :| key in todo;
      HalfWayAt(result, base, override, Overriding(base, override), todo, key);
      var next := MergeKeyOverriding(result, base, override, key);
      OneKeyDone(result, next, base, override, Overriding(base, override), todo, key);
      result, todo := next, todo - {key};
    }
  }

  /** The settings file on disk. */
  datatype Existing = Missing | Unreadable | Parsed(content: Tree)

  /** The content to write, or None where the file is to be left alone. */
  method MergeJsonFiles(existing: Existing, newContent: Tree) returns (r: Option<Fields>)
    ensures r.Some? <==> newContent.Node? && (existing.Missing? || (existing.Parsed? && existing.content.Node?
                                                                    && !Covered(existing.content.fields, newContent.fields)))
    ensures r.Some? ==> r.value == if existing.Missing? then newContent.fields else Polite(existing.content.fields, newContent.fields)
  {
    if existing.Unreadable? || newContent.Leaf? {
      return None;
    }
    if existing.Missing? {
      return Some(newContent.fields);
    }
    if existing.content.Leaf? {
      return None;
    }
    UnchangedIffCovered(existing.content.fields, newContent.fields);
    var merged := DeepMergePolite(existing.content.fields, newContent.fields);
    if merged == existing.content.fields {
      return None;
    }
    return Some(merged);
  }

  // ---- duality -------------------------------------------------------------------------------

  /** Keeping what is there against an update is overriding the update by what is there. */
  lemma {:induction false} MergesAreDual(base: Fields, update: Fields)
    ensures Polite(base, update) == Overriding(update, base)
    decreases Node(base)
  {
    var p, o := Polite(base, update), Overriding(update, base);
    forall k | k in base && k in update && base[k].Node? && update[k].Node? ensures p[k] == o[k] {
      MergesAreDual(base[k].fields, update[k].fields);
    }
    assert p.Keys == o.Keys;
  }

  // ---- paths ---------------------------------------------------------------------------------

  function At(t: Tree, path: seq<string>): Option<Tree>
    decreases path
  {
    if path == [] then Some(t)
    else if t.Node? && path[0] in t.fields then At(t.fields[path[0]], path[1..])
    else None
  }

  /** A value of the tree stands above the path. */
  predicate Blocked(t: Tree, path: seq<string>)
    decreases path
  {
    path != [] && (t.Leaf? || (path[0] in t.fields && Blocked(t.fields[path[0]], path[1..])))
  }

  lemma {:induction false} BlockedIff(t: Tree, path: seq<string>)
    ensures Blocked(t, path) <==> exists n :: 0 <= n < |path| && At(t, path[..n]).Some? && At(t, path[..n]).value.Leaf?
    decreases path
  {
    if path != [] {
      if t.Leaf? {
        assert At(t, path[..0]) == Some(t);
      } else if path[0] in t.fields {
        var sub, rest := t.fields[path[0]], path[1..];
        BlockedIff(sub, rest);
        forall n | 0 < n <= |path| ensures At(t, path[..n]) == At(sub, rest[..n - 1]) {
          assert path[..n][1..] == rest[..n - 1];
        }
        assert At(t, path[..0]) == Some(t);
        if Blocked(sub, rest) {
          var n :| 0 <= n < |rest| && At(sub, rest[..n]).Some? && At(sub, rest[..n]).value.Leaf?;
          assert At(t, path[..n + 1]) == At(sub, rest[..n]);
        }
        if n :| 0 <= n < |path| && At(t, path[..n]).Some? && At(t, path[..n]).value.Leaf? {
          assert At(sub, rest[..n - 1]).Some? && At(sub, rest[..n - 1]).value.Leaf?;
        }
      } else {
        forall n | 0 <= n < |path| ensures At(t, path[..n]) == if n == 0 then Some(t) else None { }
      }
    }
  }

  /** What the polite merge has at every path: the base's values, the merged mappings, and the update's where no value of the base is in the way. */
  lemma {:induction false} PoliteAt(base: Fields, update: Fields, path: seq<string>)
    ensures At(Node(Polite(base, update)), path)
         == match At(Node(base), path)
            case Some(Leaf(v)) => Some(Leaf(v))
            case Some(Node(b)) => Some(Node(match At(Node(update), path) case Some(Node(u)) => Polite(b, u) case _ => b))
            case None => if Blocked(Node(base), path) then None else At(Node(update), path)
    decreases path
  {
    if path != [] {
      var k, rest := path[0], path[1..];
      var merged := Polite(base, update);
      if k in base && base[k].Node? && k in update && update[k].Node? {
        PoliteAt(base[k].fields, update[k].fields, rest);
      } else if k in base {
        UnmergedAt(base[k], rest);
        if k in update { UnmergedAt(update[k], rest); }
      }
    }
  }

  /** A value is in the way of every path below it. */
  lemma UnmergedAt(t: Tree, path: seq<string>)
    ensures t.Leaf? && path != [] ==> Blocked(t, path) && At(t, path).None?
    ensures path == [] ==> At(t, path) == Some(t) && !Blocked(t, path)
  {
  }

  // ---- nothing new ---------------------------------------------------------------------------

  /** Every key of the update is there, and where both are mappings the same holds below. */
  predicate Covered(base: Fields, update: Fields)
    decreases Node(base)
  {
    forall k :: k in update ==> k in base && (base[k].Node? && update[k].Node? ==> Covered(base[k].fields, update[k].fields))
  }

  /** The merge leaves the base as it is exactly when the update adds nothing. */
  lemma {:induction false} UnchangedIffCovered(base: Fields, update: Fields)
    ensures Polite(base, update) == base <==> Covered(base, update)
    decreases Node(base)
  {
    var merged := Polite(base, update);
    forall k | k in base && k in update && base[k].Node? && update[k].Node?
      ensures merged[k] == base[k] <==> Covered(base[k].fields, update[k].fields)
    {
      UnchangedIffCovered(base[k].fields, update[k].fields);
    }
    if Covered(base, update) {
      assert merged.Keys == base.Keys;
    }
    if merged == base {
      forall k | k in update ensures k in base { assert k in merged; }
    }
  }

  /** That is, exactly when no path of the update is missing from the base and not in the way of one of its values. */
  lemma {:induction false} CoveredIffNoNewPath(base: Fields, update: Fields)
    ensures Covered(base, update)
       <==> forall path :: At(Node(update), path).Some? && At(Node(base), path).None? ==> Blocked(Node(base), path)
    decreases Node(base)
  {
    if Covered(base, update) {
      forall path | At(Node(update), path).Some? && At(Node(base), path).None? ensures Blocked(Node(base), path) {
        CoveredHasNoNewPath(base, update, path);
      }
    } else {
      var path := NewPath(base, update);
    }
  }

  lemma {:induction false} CoveredHasNoNewPath(base: Fields, update: Fields, path: seq<string>)
    requires Covered(base, update) && At(Node(update), path).Some? && At(Node(base), path).None?
    ensures Blocked(Node(base), path)
    decreases path
  {
    var k, rest := path[0], path[1..];
    if base[k].Node? {
      if update[k].Node? { CoveredHasNoNewPath(base[k].fields, update[k].fields, rest); }
    } else {
      UnmergedAt(base[k], rest);
    }
  }

  lemma {:induction false} NewPath(base: Fields, update: Fields) returns (path: seq<string>)
    requires !Covered(base, update)
    ensures At(Node(update), path).Some? && At(Node(base), path).None? && !Blocked(Node(base), path)
    decreases Node(base)
  {
    var k :| k in update && !(k in base && (base[k].Node? && update[k].Node? ==> Covered(base[k].fields, update[k].fields)));
    if k !in base {
      path := [k];
      assert At(update[k], []) == Some(update[k]);
    } else {
      var below := NewPath(base[k].fields, update[k].fields);
      path := [k] + below;
      assert path[1..] == below;
    }
  }

  /** Merging again adds nothing. */
  lemma PoliteTwice(base: Fields, update: Fields)
    ensures Polite(Polite(base, update), update) == Polite(base, update)
  {
    PoliteCovers(base, update);
    UnchangedIffCovered(Polite(base, update), update);
  }

  lemma {:induction false} PoliteCovers(base: Fields, update: Fields)
    ensures Covered(Polite(base, update), update)
    decreases Node(base)
  {
    var merged := Polite(base, update);
    forall k | k in update && merged[k].Node? && update[k].Node? ensures Covered(merged[k].fields, update[k].fields) {
      if k in base {
        PoliteCovers(base[k].fields, update[k].fields);
      } else {
        CoversItself(update[k].fields);
      }
    }
  }

  lemma {:induction false} CoversItself(fields: Fields)
    ensures Covered(fields, fields)
    decreases Node(fields)
  {
    forall k | k in fields && fields[k].Node? { CoversItself(fields[k].fields); }
  }
}
