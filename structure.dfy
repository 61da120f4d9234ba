/**
 * Nested configuration dictionaries: `deep_merge`, `assign_path` and
 * `flatten_structure` on the dictionary branches. Keys are strings and
 * leaves are scalars; Pydantic models are not modelled.
 */
module Structure {
  import opened Wrappers

  datatype Atom = Str(s: string) | Int(i: int) | Num(r: real) | Bool(b: bool) | Null

  datatype Value = Leaf(atom: Atom) | Dict(entries: map<string, Value>)

  // ---------------------------------------------------------------- deep_merge

  /** What the merge puts under a key of `updates`: a recursive merge when both sides are dicts, else the update. */
  function MergeAt(base: map<string, Value>, updates: map<string, Value>, key: string): (r: Value)
    requires key in updates
    ensures !(updates[key].Dict? && key in base && base[key].Dict?) ==> r == updates[key]
    ensures updates[key].Dict? && key in base && base[key].Dict? ==>
      r.Dict? && r.entries.Keys == base[key].entries.Keys + updates[key].entries.Keys
      && forall k :: k in base[key].entries && k !in updates[key].entries ==> r.entries[k] == base[key].entries[k]
    decreases Dict(updates), 0
  {
    var value := updates[key];
    if value.Dict? && key in base && base[key].Dict? then
      assert Dict(value.entries) == value;
      Dict(Merged(base[key].entries, value.entries))
    else value
  }

  /** The dictionary `deep_merge(base, updates)` returns. */
  function Merged(base: map<string, Value>, updates: map<string, Value>): (r: map<string, Value>)
    ensures r.Keys == base.Keys + updates.Keys
    ensures forall k :: k in base && k !in updates ==> r[k] == base[k]
    ensures forall k :: k in updates ==> r[k] == MergeAt(base, updates, k)
    decreases Dict(updates), 1
  {
    map k | k in base.Keys + updates.Keys :: if k in updates then MergeAt(base, updates, k) else base[k]
  }

  /** The merge after the loop has handled the keys in `done`. */
  function MergedOver(base: map<string, Value>, updates: map<string, Value>, done: set<string>): (r: map<string, Value>)
    requires done <= updates.Keys
    ensures r.Keys == base.Keys + done
  {
    map k | k in base.Keys + done :: if k in done then MergeAt(base, updates, k) else base[k]
  }

  /** `deep_merge`: a copy of `base`, then each update applied in turn. */
  method DeepMerge(base: map<string, Value>, updates: map<string, Value>) returns (result: map<string, Value>)
    ensures result == Merged(base, updates)
    decreases Dict(updates)
  {
    result := base;
    var todo := updates.Keys;
    while todo != {}
      invariant todo <= updates.Keys
      invariant result == MergedOver(base, updates, updates.Keys - todo)
      decreases todo
    {
      var key :| key in todo;
      var value := updates[key];
      ghost var done := updates.Keys - todo;
      assert key !in done;
      assert key in result ==> result[key] == base[key];
      if value.Dict? && key in result && result[key].Dict? {
        assert Dict(value.entries) == value;
        var merged := DeepMerge(result[key].entries, value.entries);
        result := result[key := Dict(merged)];
      } else {
        result := result[key := value];
      }
      todo := todo - {key};
      assert updates.Keys - todo == done + {key};
    }
    assert updates.Keys - todo == updates.Keys;
  }

  /** Every scalar the updates hold is what the merge holds at that path. */
  lemma {:induction false} MergedGetUpdate(base: map<string, Value>, updates: map<string, Value>, q: seq<string>)
    requires IsLeafPath(Dict(updates), q)
    ensures Get(Dict(Merged(base, updates)), q) == Get(Dict(updates), q)
    decreases |q|
  {
    var k := q[0];
    var u := updates[k];
    if |q| > 1 && k in base && base[k].Dict? {
      assert Merged(base, updates)[k] == Dict(Merged(base[k].entries, u.entries));
      MergedGetUpdate(base[k].entries, u.entries, q[1..]);
    }
  }

  /** Where the updates have nothing on the way to a path, the merge holds what the base holds. */
  lemma {:induction false} MergedGetBase(base: map<string, Value>, updates: map<string, Value>, q: seq<string>)
    requires q != [] && Get(Dict(updates), q[..1]).None?
    ensures Get(Dict(Merged(base, updates)), q) == Get(Dict(base), q)
  {
    assert q[..1][1..] == [];
  }

  /**
   * Every scalar of the base survives the merge, at any depth, unless the
   * updates hold something on the way to it other than dicts: shared dict
   * keys are merged recursively and keep the base's other entries.
   */
  lemma {:induction false} MergedKeepsBase(base: map<string, Value>, updates: map<string, Value>, q: seq<string>)
    requires IsLeafPath(Dict(base), q)
    requires forall i :: 0 < i <= |q| ==> Get(Dict(updates), q[..i]).None? || (i < |q| && Get(Dict(updates), q[..i]).value.Dict?)
    ensures Get(Dict(Merged(base, updates)), q) == Get(Dict(base), q)
    decreases |q|
  {
    var k := q[0];
    if k !in updates {
      MergedGetBase(base, updates, q);
    } else {
      assert q[..1][1..] == [];
      assert Get(Dict(updates), q[..1]) == Some(updates[k]);
      var u := updates[k].entries;
      var b := base[k].entries;
      assert Dict(u) == updates[k] && Dict(b) == base[k];
      assert Merged(base, updates)[k] == Dict(Merged(b, u));
      forall i | 0 < i <= |q[1..]|
        ensures Get(Dict(u), q[1..][..i]).None? || (i < |q[1..]| && Get(Dict(u), q[1..][..i]).value.Dict?)
      {
        assert q[..i + 1][1..] == q[1..][..i];
        assert Get(Dict(updates), q[..i + 1]) == Get(Dict(u), q[1..][..i]);
      }
      MergedKeepsBase(b, u, q[1..]);
    }
  }

  /** Merging a dictionary into itself gives it back. */
  lemma {:induction false} MergeSelf(m: map<string, Value>)
    ensures Merged(m, m) == m
    decreases Dict(m)
  {
    forall k | k in m ensures Merged(m, m)[k] == m[k] {
      if m[k].Dict? {
        assert Dict(m[k].entries) == m[k];
        MergeSelf(m[k].entries);
      }
    }
  }

  /** Applying the same updates twice changes nothing more. */
  lemma {:induction false} MergeIdempotent(base: map<string, Value>, updates: map<string, Value>)
    ensures Merged(Merged(base, updates), updates) == Merged(base, updates)
    decreases Dict(updates)
  {
    var once := Merged(base, updates);
    forall k | k in updates ensures Merged(once, updates)[k] == once[k] {
      var u := updates[k];
      if u.Dict? {
        assert Dict(u.entries) == u;
        if k in base && base[k].Dict? {
          MergeIdempotent(base[k].entries, u.entries);
        } else {
          MergeSelf(u.entries);
        }
      }
    }
  }

  /** Merging no updates returns the base unchanged. */
  lemma MergeNothing(base: map<string, Value>)
    ensures Merged(base, map[]) == base
  {
  }

  /** The documented example: `{'a': {'b': 1, 'c': 2}}` merged with `{'a': {'c': 3, 'd': 4}}`. */
  lemma MergeExample()
    ensures Merged(map["a" := Dict(map["b" := Leaf(Int(1)), "c" := Leaf(Int(2))])],
                   map["a" := Dict(map["c" := Leaf(Int(3)), "d" := Leaf(Int(4))])])
         == map["a" := Dict(map["b" := Leaf(Int(1)), "c" := Leaf(Int(3)), "d" := Leaf(Int(4))])]
  {
    var inner := Merged(map["b" := Leaf(Int(1)), "c" := Leaf(Int(2))], map["c" := Leaf(Int(3)), "d" := Leaf(Int(4))]);
    assert inner == map["b" := Leaf(Int(1)), "c" := Leaf(Int(3)), "d" := Leaf(Int(4))];
  }

  // ---------------------------------------------------------------- assign_path

  datatype AssignError = EmptyPath | NotTraversable(at: seq<string>)

  /** The value under `path`, when every step is a dict holding the key. */
  function Get(v: Value, path: seq<string>): Option<Value>
  {
    if path == [] then Some(v)
    else if v.Dict? && path[0] in v.entries then Get(v.entries[path[0]], path[1..])
    else None
  }

  /**
   * `assign_path(d, path, value)` on dicts: missing steps become `{}` (the
   * `setdefault`), the last key is set; an empty path raises `IndexError`,
   * and a non-dict met on the way raises (`getattr` on a scalar).
   */
  function AssignPath(d: map<string, Value>, path: seq<string>, value: Value): (r: Result<map<string, Value>, AssignError>)
    ensures path == [] ==> r == Err(EmptyPath)
    decreases |path|
  {
    if path == [] then Err(EmptyPath)
    else if |path| == 1 then Ok(d[path[0] := value])
    else
      var child := if path[0] in d then d[path[0]] else Dict(map[]);
      if !child.Dict? then Err(NotTraversable([path[0]]))
      else match AssignPath(child.entries, path[1..], value)
        case Ok(c) => Ok(d[path[0] := Dict(c)])
        case Err(EmptyPath) => Err(EmptyPath)
        case Err(NotTraversable(at)) => Err(NotTraversable([path[0]] + at))
  }

  /** After a successful assignment the path holds the value. */
  lemma {:induction false} AssignThenGet(d: map<string, Value>, path: seq<string>, value: Value)
    requires AssignPath(d, path, value).Ok?
    ensures Get(Dict(AssignPath(d, path, value).value), path) == Some(value)
    decreases |path|
  {
    if |path| > 1 {
      var child := if path[0] in d then d[path[0]] else Dict(map[]);
      AssignThenGet(child.entries, path[1..], value);
    }
  }

  /** Assignment through dicts never fails: it fails only at an existing non-dict on the way. */
  lemma {:induction false} AssignIntoDicts(d: map<string, Value>, path: seq<string>, value: Value)
    requires path != []
    requires forall i :: 0 < i < |path| ==> Get(Dict(d), path[..i]).None? || Get(Dict(d), path[..i]).value.Dict?
    ensures AssignPath(d, path, value).Ok?
    decreases |path|
  {
    if |path| > 1 {
      var child := if path[0] in d then d[path[0]] else Dict(map[]);
      assert path[..1] == [path[0]];
      assert Get(Dict(d), [path[0]]) == (if path[0] in d then Some(d[path[0]]) else None) by {
        assert [path[0]][1..] == [];
      }
      forall i | 0 < i < |path[1..]|
        ensures Get(child, path[1..][..i]).None? || Get(child, path[1..][..i]).value.Dict?
      {
        assert path[..i + 1][1..] == path[1..][..i];
        assert path[..i + 1][0] == path[0];
        if path[0] !in d {
          EmptyGet(path[1..][..i]);
        }
      }
      AssignIntoDicts(child.entries, path[1..], value);
    }
  }

  lemma {:induction false} EmptyGet(p: seq<string>)
    requires p != []
    ensures Get(Dict(map[]), p).None?
  {
  }

  /** Paths that do not overlap the assigned one keep their values. */
  lemma {:induction false} AssignKeepsOthers(d: map<string, Value>, path: seq<string>, value: Value, other: seq<string>)
    requires AssignPath(d, path, value).Ok?
    requires other != [] && !IsPrefix(other, path) && !IsPrefix(path, other)
    ensures Get(Dict(AssignPath(d, path, value).value), other) == Get(Dict(d), other)
    decreases |path|
  {
    if other[0] != path[0] {
    } else if |path| > 1 {
      var child := if path[0] in d then d[path[0]] else Dict(map[]);
      AssignKeepsOthers(child.entries, path[1..], value, other[1..]);
      if path[0] !in d {
        EmptyGet(other[1..]);
      }
    }
  }

  predicate IsPrefix(p: seq<string>, q: seq<string>)
  {
    |p| <= |q| && q[..|p|] == p
  }

  // ---------------------------------------------------------------- flatten_structure

  /** `p` leads through dicts to a scalar. */
  predicate IsLeafPath(v: Value, p: seq<string>)
  {
    if p == [] then v.Leaf?
    else v.Dict? && p[0] in v.entries && IsLeafPath(v.entries[p[0]], p[1..])
  }

  lemma {:induction false} LeafPathGet(v: Value, p: seq<string>)
    requires IsLeafPath(v, p)
    ensures Get(v, p).Some? && Get(v, p).value.Leaf?
  {
    if p != [] {
      LeafPathGet(v.entries[p[0]], p[1..]);
    }
  }

  /** What `flatten_structure(v, parent)` returns: every leaf path under `parent`, mapped to its scalar. */
  ghost predicate FlattensTo(v: Value, parent: seq<string>, items: map<seq<string>, Value>)
  {
    && (forall q :: q in items <==> IsPrefix(parent, q) && IsLeafPath(v, q[|parent|..]))
    && (forall q :: q in items ==> Get(v, q[|parent|..]) == Some(items[q]))
  }

  /** The entries whose first key below `parent` is in `done`. */
  ghost predicate FlattensPart(m: map<string, Value>, parent: seq<string>, done: set<string>, items: map<seq<string>, Value>)
  {
    && (forall q :: q in items <==> IsPrefix(parent, q) && |q| > |parent| && q[|parent|] in done && IsLeafPath(Dict(m), q[|parent|..]))
    && (forall q :: q in items ==> Get(Dict(m), q[|parent|..]) == Some(items[q]))
  }

  /** `flatten_structure` on a scalar or a dict. */
  method FlattenStructure(v: Value, parent: seq<string>) returns (items: map<seq<string>, Value>)
    ensures FlattensTo(v, parent, items)
    decreases v
  {
    items := map[];
    if v.Leaf? {
      items := items[parent := v];
      assert parent[|parent|..] == [];
      forall q ensures q in items <==> IsPrefix(parent, q) && IsLeafPath(v, q[|parent|..]) {
        if IsPrefix(parent, q) && IsLeafPath(v, q[|parent|..]) {
          assert q[|parent|..] == [];
          assert q == parent;
        }
      }
      return;
    }
    var m := v.entries;
    var todo := m.Keys;
    while todo != {}
      invariant todo <= m.Keys
      invariant FlattensPart(m, parent, m.Keys - todo, items)
      decreases todo
    {
      var k :| k in todo;
      ghost var done := m.Keys - todo;
      var child := m[k];
      var newKey := parent + [k];
      ghost var before := items;
      if child.Dict? {
        var sub := FlattenStructure(child, newKey);
        items := items + sub;
        FlattenStep(m, parent, done, k, before, sub, items);
      } else {
        items := items[newKey := child];
        FlattenLeafStep(m, parent, done, k, before, items);
      }
      todo := todo - {k};
      assert m.Keys - todo == done + {k};
    }
    assert m.Keys - todo == m.Keys;
    forall q | q in items ensures |q| > |parent| {
    }
    forall q | IsPrefix(parent, q) && IsLeafPath(v, q[|parent|..]) ensures q in items {
      assert q[|parent|..] != [];
    }
  }

  lemma FlattenStep(m: map<string, Value>, parent: seq<string>, done: set<string>, k: string,
                    before: map<seq<string>, Value>, sub: map<seq<string>, Value>, after: map<seq<string>, Value>)
    requires k in m && k !in done && m[k].Dict?
    requires FlattensPart(m, parent, done, before)
    requires FlattensTo(m[k], parent + [k], sub)
    requires after == before + sub
    ensures FlattensPart(m, parent, done + {k}, after)
  {
    FlattenStepKeys(m, parent, done, k, before, sub, after);
    FlattenStepValues(m, parent, done, k, before, sub, after);
  }

  /** A path below `parent` seen from the key right under `parent`. */
  lemma BelowParent(parent: seq<string>, k: string, q: seq<string>)
    requires IsPrefix(parent, q) && |q| > |parent|
    ensures q[|parent|..][0] == q[|parent|]
    ensures q[|parent|..][1..] == q[|parent + [k]|..]
    ensures q[|parent|] == k <==> IsPrefix(parent + [k], q)
  {
    var pk := parent + [k];
    assert q[|parent|..][1..] == q[|pk|..];
    if q[|parent|] == k {
      assert q[..|pk|] == q[..|parent|] + [q[|parent|]];
    }
    if IsPrefix(pk, q) {
      assert q[|parent|] == q[..|pk|][|parent|];
    }
  }

  lemma AboveKey(parent: seq<string>, k: string, q: seq<string>)
    requires IsPrefix(parent + [k], q)
    ensures IsPrefix(parent, q) && |q| > |parent|
  {
    assert q[..|parent|] == q[..|parent + [k]|][..|parent|];
  }

  lemma FlattenStepKeys(m: map<string, Value>, parent: seq<string>, done: set<string>, k: string,
                        before: map<seq<string>, Value>, sub: map<seq<string>, Value>, after: map<seq<string>, Value>)
    requires k in m && k !in done && m[k].Dict?
    requires FlattensPart(m, parent, done, before)
    requires FlattensTo(m[k], parent + [k], sub)
    requires after == before + sub
    ensures forall q :: q in after <==> IsPrefix(parent, q) && |q| > |parent| && q[|parent|] in done + {k} && IsLeafPath(Dict(m), q[|parent|..])
  {
    forall q ensures q in after <==> IsPrefix(parent, q) && |q| > |parent| && q[|parent|] in done + {k} && IsLeafPath(Dict(m), q[|parent|..]) {
      if q in sub {
        AboveKey(parent, k, q);
      }
      if IsPrefix(parent, q) && |q| > |parent| {
        BelowParent(parent, k, q);
      }
    }
  }

  lemma FlattenStepValues(m: map<string, Value>, parent: seq<string>, done: set<string>, k: string,
                          before: map<seq<string>, Value>, sub: map<seq<string>, Value>, after: map<seq<string>, Value>)
    requires k in m && k !in done && m[k].Dict?
    requires FlattensPart(m, parent, done, before)
    requires FlattensTo(m[k], parent + [k], sub)
    requires after == before + sub
    ensures forall q :: q in after ==> Get(Dict(m), q[|parent|..]) == Some(after[q])
  {
    forall q | q in after ensures Get(Dict(m), q[|parent|..]) == Some(after[q]) {
      if q in sub {
        AboveKey(parent, k, q);
        BelowParent(parent, k, q);
      }
    }
  }

  lemma FlattenLeafStep(m: map<string, Value>, parent: seq<string>, done: set<string>, k: string,
                        before: map<seq<string>, Value>, after: map<seq<string>, Value>)
    requires k in m && k !in done && m[k].Leaf?
    requires FlattensPart(m, parent, done, before)
    requires after == before[parent + [k] := m[k]]
    ensures FlattensPart(m, parent, done + {k}, after)
  {
    var pk := parent + [k];
    assert pk[|parent|..] == [k];
    assert [k][1..] == [];
    forall q ensures q in after <==> IsPrefix(parent, q) && |q| > |parent| && q[|parent|] in done + {k} && IsLeafPath(Dict(m), q[|parent|..]) {
      if IsPrefix(parent, q) && |q| > |parent| && q[|parent|] == k && IsLeafPath(Dict(m), q[|parent|..]) {
        assert q[|parent|..][0] == k;
        assert IsLeafPath(m[k], q[|parent|..][1..]);
        assert q[|parent|..][1..] == [];
        assert q == pk;
      }
    }
  }

  /** An empty nested dict has no leaf path through it, so it contributes no entry. */
  lemma EmptyDictNoLeaves(m: map<string, Value>, k: string, p: seq<string>)
    requires k in m && m[k] == Dict(map[])
    ensures !IsLeafPath(Dict(m), [k] + p)
  {
    assert ([k] + p)[1..] == p;
    if p != [] {
      assert !(p[0] in m[k].entries);
    }
  }

  // ---------------------------------------------------------------- flatten, then assign back

  /** No nested dict is empty (the top level may be). */
  predicate NoEmptyDicts(m: map<string, Value>)
    decreases Dict(m)
  {
    forall k :: k in m && m[k].Dict? ==> m[k].entries != map[] && (assert Dict(m[k].entries) == m[k]; NoEmptyDicts(m[k].entries))
  }

  /** The tails of the paths in `paths` that start with `k`. */
  ghost function Under(paths: set<seq<string>>, k: string): set<seq<string>>
  {
    set p | p in paths && |p| > 0 && p[0] == k :: p[1..]
  }

  /** The part of `m` that holds exactly the leaves in `paths`. */
  ghost function Restrict(m: map<string, Value>, paths: set<seq<string>>): (r: map<string, Value>)
    ensures r.Keys <= m.Keys
    decreases Dict(m)
  {
    map k | k in m && Under(paths, k) != {} ::
      if m[k].Dict? then (assert Dict(m[k].entries) == m[k]; Dict(Restrict(m[k].entries, Under(paths, k)))) else m[k]
  }

  /** Assigning `d`'s leaves one by one, in the order of `entries`. */
  function AssignAll(d: map<string, Value>, entries: seq<(seq<string>, Value)>): Result<map<string, Value>, AssignError>
  {
    if entries == [] then Ok(d)
    else match AssignAll(d, entries[..|entries| - 1])
      case Ok(acc) => AssignPath(acc, entries[|entries| - 1].0, entries[|entries| - 1].1)
      case Err(e) => Err(e)
  }

  ghost predicate LeafPaths(m: map<string, Value>, paths: set<seq<string>>)
  {
    forall p :: p in paths ==> IsLeafPath(Dict(m), p)
  }

  lemma UnderLeafPaths(m: map<string, Value>, paths: set<seq<string>>, k: string)
    requires k in m && m[k].Dict? && LeafPaths(m, paths)
    ensures LeafPaths(m[k].entries, Under(paths, k))
  {
    forall q | q in Under(paths, k) ensures IsLeafPath(Dict(m[k].entries), q) {
      var p :| p in paths && |p| > 0 && p[0] == k && q == p[1..];
      assert Dict(m[k].entries) == m[k];
    }
  }

  lemma UnderAdd(paths: set<seq<string>>, p: seq<string>, k: string)
    requires p != []
    ensures Under(paths + {p}, k) == Under(paths, k) + (if p[0] == k then {p[1..]} else {})
  {
  }

  lemma SameHeadTail(p: seq<string>, q: seq<string>)
    requires |p| > 0 && |q| > 0 && p[0] == q[0] && p[1..] == q[1..]
    ensures p == q
  {
    assert p == [p[0]] + p[1..];
    assert q == [q[0]] + q[1..];
  }

  lemma RestrictNothing(m: map<string, Value>)
    ensures Restrict(m, {}) == map[]
  {
  }

  /** Keys other than the first step of `p` are the same with or without `p`. */
  lemma RestrictOthers(m: map<string, Value>, paths: set<seq<string>>, p: seq<string>, j: string)
    requires p != [] && j != p[0]
    ensures (j in Restrict(m, paths)) == (j in Restrict(m, paths + {p}))
    ensures j in Restrict(m, paths) ==> Restrict(m, paths)[j] == Restrict(m, paths + {p})[j]
  {
    UnderAdd(paths, p, j);
    assert Under(paths + {p}, j) == Under(paths, j);
  }

  /** One assignment adds exactly one leaf to the restricted structure. */
  lemma {:induction false} AssignLeaf(m: map<string, Value>, paths: set<seq<string>>, p: seq<string>)
    requires LeafPaths(m, paths) && IsLeafPath(Dict(m), p) && p !in paths
    ensures Get(Dict(m), p).Some?
    ensures AssignPath(Restrict(m, paths), p, Get(Dict(m), p).value) == Ok(Restrict(m, paths + {p}))
    decreases |p|, 1
  {
    LeafPathGet(Dict(m), p);
    var k := p[0];
    var acc := Restrict(m, paths);
    var goal := Restrict(m, paths + {p});
    AssignAtKey(m, paths, p);
    var at := goal[k];
    forall j | j != k ensures (j in acc) == (j in goal) && (j in acc ==> acc[j] == goal[j]) {
      RestrictOthers(m, paths, p, j);
    }
    assert acc[k := at] == goal;
  }

  /** What the assignment puts under the first key of `p`, and that it is what `goal` holds there. */
  lemma {:induction false} AssignAtKey(m: map<string, Value>, paths: set<seq<string>>, p: seq<string>)
    requires LeafPaths(m, paths) && IsLeafPath(Dict(m), p) && p !in paths
    ensures Get(Dict(m), p).Some?
    ensures p[0] in Restrict(m, paths + {p})
    ensures AssignPath(Restrict(m, paths), p, Get(Dict(m), p).value) == Ok(Restrict(m, paths)[p[0] := Restrict(m, paths + {p})[p[0]]])
    decreases |p|, 0
  {
    LeafPathGet(Dict(m), p);
    var k := p[0];
    var v := Get(Dict(m), p).value;
    UnderAdd(paths, p, k);
    assert p[1..] in Under(paths + {p}, k);
    if |p| == 1 {
      assert p[1..] == [];
      assert m[k].Leaf?;
    } else {
      var child := m[k].entries;
      assert Dict(child) == m[k];
      UnderLeafPaths(m, paths, k);
      var sub := Under(paths, k);
      if p[1..] in sub {
        var q :| q in paths && |q| > 0 && q[0] == k && p[1..] == q[1..];
        SameHeadTail(p, q);
        assert false;
      }
      AssignLeaf(child, sub, p[1..]);
      assert Get(Dict(m), p) == Get(Dict(child), p[1..]);
      if k !in Restrict(m, paths) {
        RestrictNothing(child);
      }
    }
  }

  /** A non-empty dict without empty nested dicts has a leaf. */
  lemma {:induction false} SomeLeaf(m: map<string, Value>)
    requires m != map[] && NoEmptyDicts(m)
    ensures exists q :: IsLeafPath(Dict(m), q)
    decreases Dict(m)
  {
    var k :| k in m;
    if m[k].Leaf? {
      assert [k][1..] == [];
      assert IsLeafPath(Dict(m), [k]);
    } else {
      assert Dict(m[k].entries) == m[k];
      SomeLeaf(m[k].entries);
      var q :| IsLeafPath(m[k], q);
      assert ([k] + q)[1..] == q;
      assert IsLeafPath(Dict(m), [k] + q);
    }
  }

  /** Restricting to every leaf keeps everything when no nested dict is empty. */
  lemma {:induction false} RestrictAll(m: map<string, Value>, paths: set<seq<string>>)
    requires NoEmptyDicts(m)
    requires forall q :: q in paths <==> IsLeafPath(Dict(m), q)
    ensures Restrict(m, paths) == m
    decreases Dict(m)
  {
    forall k | k in m ensures Under(paths, k) != {} && Restrict(m, paths)[k] == m[k] {
      if m[k].Leaf? {
        assert [k][1..] == [];
        assert IsLeafPath(Dict(m), [k]);
        assert [k] in paths;
        assert [] in Under(paths, k);
      } else {
        var child := m[k].entries;
        assert Dict(child) == m[k];
        forall q ensures q in Under(paths, k) <==> IsLeafPath(Dict(child), q) {
          if IsLeafPath(Dict(child), q) {
            assert ([k] + q)[1..] == q;
            assert [k] + q in paths;
          }
        }
        SomeLeaf(child);
        var q :| IsLeafPath(Dict(child), q);
        assert q in Under(paths, k);
        RestrictAll(child, Under(paths, k));
      }
    }
  }

  /** A leaf kept by the restriction reads the same as in the whole structure. */
  lemma {:induction false} RestrictGet(m: map<string, Value>, paths: set<seq<string>>, q: seq<string>)
    requires q in paths && IsLeafPath(Dict(m), q)
    ensures Get(Dict(Restrict(m, paths)), q) == Get(Dict(m), q)
    decreases |q|
  {
    var k := q[0];
    assert q[1..] in Under(paths, k);
    var child := m[k];
    if child.Dict? {
      assert Dict(child.entries) == child;
      RestrictGet(child.entries, Under(paths, k), q[1..]);
    }
  }

  /** A scalar found by `Get` lies at a leaf path. */
  lemma {:induction false} GetLeafPath(v: Value, q: seq<string>)
    requires Get(v, q).Some? && Get(v, q).value.Leaf?
    ensures IsLeafPath(v, q)
    decreases |q|
  {
    if q != [] {
      GetLeafPath(v.entries[q[0]], q[1..]);
    }
  }

  /** Restricting to a set of leaf paths keeps exactly those leaf paths. */
  lemma {:induction false} RestrictLeafPath(m: map<string, Value>, paths: set<seq<string>>, q: seq<string>)
    requires LeafPaths(m, paths)
    ensures IsLeafPath(Dict(Restrict(m, paths)), q) <==> q in paths
    decreases |q|
  {
    if q in paths {
      RestrictGet(m, paths, q);
      LeafPathGet(Dict(m), q);
      GetLeafPath(Dict(Restrict(m, paths)), q);
    } else if q != [] && IsLeafPath(Dict(Restrict(m, paths)), q) {
      var k := q[0];
      var p :| p in paths && |p| > 0 && p[0] == k;
      if m[k].Dict? {
        UnderLeafPaths(m, paths, k);
        assert Dict(m[k].entries) == m[k];
        RestrictLeafPath(m[k].entries, Under(paths, k), q[1..]);
        var p' :| p' in paths && |p'| > 0 && p'[0] == k && p'[1..] == q[1..];
        SameHeadTail(p', q);
      } else {
        assert IsLeafPath(Dict(m), p) && IsLeafPath(m[k], p[1..]);
        assert Restrict(m, paths)[k] == m[k];
        assert IsLeafPath(m[k], q[1..]);
        SameHeadTail(p, q);
      }
    }
  }

  /** The paths assigned by the first `n` entries. */
  ghost function PathsOf(entries: seq<(seq<string>, Value)>): set<seq<string>>
  {
    set i | 0 <= i < |entries| :: entries[i].0
  }

  lemma PathsOfSnoc(init: seq<(seq<string>, Value)>, last: (seq<string>, Value))
    ensures PathsOf(init + [last]) == PathsOf(init) + {last.0}
  {
    var entries := init + [last];
    forall q | q in PathsOf(entries) ensures q in PathsOf(init) + {last.0} {
      var i :| 0 <= i < |entries| && entries[i].0 == q;
      if i < |init| {
        assert init[i].0 == q;
      }
    }
    forall q | q in PathsOf(init) ensures q in PathsOf(entries) {
      var i :| 0 <= i < |init| && init[i].0 == q;
      assert entries[i].0 == q;
    }
    assert entries[|init|].0 == last.0;
  }

  lemma InitLeafPaths(m: map<string, Value>, init: seq<(seq<string>, Value)>)
    requires forall i :: 0 <= i < |init| ==> IsLeafPath(Dict(m), init[i].0)
    ensures LeafPaths(m, PathsOf(init))
  {
    forall q | q in PathsOf(init) ensures IsLeafPath(Dict(m), q) {
      var i :| 0 <= i < |init| && init[i].0 == q;
    }
  }

  lemma {:induction false} AssignAllRestrict(m: map<string, Value>, entries: seq<(seq<string>, Value)>)
    requires forall i :: 0 <= i < |entries| ==> IsLeafPath(Dict(m), entries[i].0) && Get(Dict(m), entries[i].0) == Some(entries[i].1)
    requires forall i, j :: 0 <= i < j < |entries| ==> entries[i].0 != entries[j].0
    ensures AssignAll(map[], entries) == Ok(Restrict(m, PathsOf(entries)))
  {
    if entries == [] {
      RestrictNothing(m);
    } else {
      var init := entries[..|entries| - 1];
      var last := entries[|entries| - 1];
      assert forall i :: 0 <= i < |init| ==> init[i] == entries[i];
      AssignAllRestrict(m, init);
      PathsOfSnoc(init, last);
      assert entries == init + [last];
      assert last.0 !in PathsOf(init) by {
        forall i | 0 <= i < |init| ensures init[i].0 != last.0 {
          assert entries[i].0 != entries[|entries| - 1].0;
        }
      }
      InitLeafPaths(m, init);
      AssignLeaf(m, PathsOf(init), last.0);
      assert AssignAll(map[], entries) == AssignPath(Restrict(m, PathsOf(init)), last.0, last.1);
    }
  }

  /**
   * Assigning every entry of `flatten_structure(d)` into `{}`, in any order,
   * rebuilds `d` when `d` has no empty nested dict.
   */
  lemma FlattenAssignRoundTrip(d: map<string, Value>, items: map<seq<string>, Value>, entries: seq<(seq<string>, Value)>)
    requires NoEmptyDicts(d)
    requires FlattensTo(Dict(d), [], items)
    requires forall i :: 0 <= i < |entries| ==> entries[i].0 in items && entries[i].1 == items[entries[i].0]
    requires forall q :: q in items ==> exists i :: 0 <= i < |entries| && entries[i].0 == q
    requires forall i, j :: 0 <= i < j < |entries| ==> entries[i].0 != entries[j].0
    ensures AssignAll(map[], entries) == Ok(d)
  {
    forall i | 0 <= i < |entries| ensures IsLeafPath(Dict(d), entries[i].0) && Get(Dict(d), entries[i].0) == Some(entries[i].1) {
      var q := entries[i].0;
      assert q[0..] == q;
    }
    AssignAllRestrict(d, entries);
    forall q ensures q in PathsOf(entries) <==> IsLeafPath(Dict(d), q) {
      assert q[0..] == q;
      if IsLeafPath(Dict(d), q) {
        assert q in items;
        var i :| 0 <= i < |entries| && entries[i].0 == q;
      }
    }
    RestrictAll(d, PathsOf(entries));
  }
}
