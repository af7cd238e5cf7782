/** Layered configuration: recursive merge of nested dictionaries. */
module ConfigMerge {

  /** A configuration value: a nested section, or anything else. */
  datatype Value = Leaf(text: string) | Node(entries: map<string, Value>)

  /** `over` wins, except that two sections at the same key are merged. */
  function Merge(base: Value, over: Value): (m: Value)
    decreases over
  {
    if base.Leaf? || over.Leaf? then over
    else
      Node(map k | k in base.entries.Keys + over.entries.Keys ::
        if k !in over.entries then base.entries[k]
        else if k in base.entries then Merge(base.entries[k], over.entries[k])
        else over.entries[k])
  }

  /** The merge as it runs: a copy of the base, overwritten key by key. */
  method DeepMerge(base: map<string, Value>, over: map<string, Value>) returns (out: map<string, Value>)
    ensures Node(out) == Merge(Node(base), Node(over))
    decreases Node(over)
  {
    out := base;
    var rest := over.Keys;
    while rest != {}
      invariant rest <= over.Keys
      invariant out.Keys == base.Keys + (over.Keys - rest)
      invariant forall k | k in out ::
                  out[k] == if k in over && k !in rest then Merge(Node(base), Node(over)).entries[k] else base[k]
      decreases rest
    {
      var k :| k in rest;
      if k in out && out[k].Node? && over[k].Node? {
        var merged := DeepMerge(out[k].entries, over[k].entries);
        out := out[k := Node(merged)];
      } else {
        out := out[k := over[k]];
      }
      rest := rest - {k};
    }
    assert out.Keys == base.Keys + over.Keys;
  }

  // ---- Path lookup ----------------------------------------------------------

  /** Following a path: a value, a leaf in the way, or a missing key. */
  datatype Probe = Found(value: Value) | Cut | Missing

  function Lookup(v: Value, path: seq<string>): Probe
    decreases |path|
  {
    if path == [] then Found(v)
    else if v.Leaf? then Cut
    else if path[0] !in v.entries then Missing
    else Lookup(v.entries[path[0]], path[1..])
  }

  /** How far a path leads before a leaf cuts it off. */
  function Reach(v: Value, path: seq<string>): (n: nat)
    ensures n <= |path|
    decreases |path|
  {
    if path == [] || v.Leaf? || path[0] !in v.entries then 0
    else 1 + Reach(v.entries[path[0]], path[1..])
  }

  /** The lookup law of a merge at any path.  What the override has there decides: a leaf
      wins, a section is merged with the base's section or else wins, a leaf on the way
      hides the base, and only where the override has nothing does the base show: except
      that a section of the override where the base has a leaf on the way clears it. */
  lemma {:induction false} MergeLookup(base: Value, over: Value, path: seq<string>)
    requires base.Node? && over.Node?
    ensures var m, b := Lookup(Merge(base, over), path), Lookup(base, path);
            match Lookup(over, path)
            case Found(v) => m == Found(if b.Found? then Merge(b.value, v) else v)
            case Cut => m == Cut
            case Missing => m == if b == Cut && Lookup(over, path[..Reach(base, path)]).Found? then Missing else b
    decreases |path|
  {
    if path != [] {
      var k, rest := path[0], path[1..];
      if k in base.entries {
        var n := Reach(base.entries[k], rest);
        assert path[..n + 1][0] == k && path[..n + 1][1..] == rest[..n];
      }
      if k in over.entries {
        var v := over.entries[k];
        if k in base.entries && base.entries[k].Node? && v.Node? {
          MergeLookup(base.entries[k], v, rest);
        } else if k in base.entries && v.Leaf? && rest != [] {
          assert Lookup(over, path) == Cut;
        }
      }
    }
  }

  // ---- Algebra --------------------------------------------------------------

  lemma EmptyIsIdentity(v: Value)
    requires v.Node?
    ensures Merge(v, Node(map[])) == v == Merge(Node(map[]), v)
  {
    var l, r := Merge(v, Node(map[])), Merge(Node(map[]), v);
    assert l.entries == v.entries && r.entries == v.entries;
  }

  lemma {:induction false} Idempotent(v: Value)
    ensures Merge(v, v) == v
  {
    if v.Node? {
      var m := Merge(v, v);
      forall k | k in v.entries ensures m.entries[k] == v.entries[k] {
        Idempotent(v.entries[k]);
      }
      assert m.entries == v.entries;
    }
  }

  /** The override already covers the base: every key of the base is in it, and where
      both have sections, recursively so. */
  predicate Covers(over: Value, base: Value)
    decreases over
  {
    && over.Node? && base.Node?
    && forall k | k in base.entries ::
         k in over.entries &&
         (base.entries[k].Node? && over.entries[k].Node? ==> Covers(over.entries[k], base.entries[k]))
  }

  lemma {:induction false} MergeVanishesIff(base: Value, over: Value)
    requires base.Node? && over.Node?
    ensures Merge(base, over) == over <==> Covers(over, base)
    decreases over
  {
    var m := Merge(base, over);
    forall k | k in base.entries && k in over.entries && base.entries[k].Node? && over.entries[k].Node?
      ensures Merge(base.entries[k], over.entries[k]) == over.entries[k] <==> Covers(over.entries[k], base.entries[k])
    {
      MergeVanishesIff(base.entries[k], over.entries[k]);
    }
    if Covers(over, base) {
      assert m.entries.Keys == over.entries.Keys;
      forall k | k in over.entries ensures m.entries[k] == over.entries[k] {
        if k in base.entries {
          assert m.entries[k] == Merge(base.entries[k], over.entries[k]);
          if base.entries[k].Node? && over.entries[k].Node? {
            assert Covers(over.entries[k], base.entries[k]);
          }
        }
      }
      assert m.entries == over.entries;
    } else {
      var k :| k in base.entries && (k in over.entries ==>
        base.entries[k].Node? && over.entries[k].Node? && !Covers(over.entries[k], base.entries[k]));
      assert k in m.entries;
    }
  }

  /** At no key does the middle layer replace a section of the first by a leaf that the
      last replaces by a section lacking some of it. */
  predicate Associates(a: Value, b: Value, c: Value)
    decreases c
  {
    if a.Node? && c.Node? then
      if b.Leaf? then Covers(c, a)
      else forall k | k in a.entries && k in b.entries && k in c.entries ::
             Associates(a.entries[k], b.entries[k], c.entries[k])
    else true
  }

  /** Merging is associative exactly on such layers. */
  lemma {:induction false} AssociativeIff(a: Value, b: Value, c: Value)
    ensures Merge(Merge(a, b), c) == Merge(a, Merge(b, c)) <==> Associates(a, b, c)
    decreases c
  {
    if a.Node? && c.Node? {
      if b.Leaf? {
        MergeVanishesIff(a, c);
      } else {
        var l, r := Merge(Merge(a, b), c), Merge(a, Merge(b, c));
        assert l.entries.Keys == r.entries.Keys;
        forall k | k in l.entries
          ensures l.entries[k] == r.entries[k] <==>
                  (k in a.entries && k in b.entries && k in c.entries ==>
                     Associates(a.entries[k], b.entries[k], c.entries[k]))
        {
          if k in a.entries && k in b.entries && k in c.entries {
            AssociativeIff(a.entries[k], b.entries[k], c.entries[k]);
          }
        }
        assert l == r <==> forall k | k in l.entries :: l.entries[k] == r.entries[k] by {
          if forall k | k in l.entries :: l.entries[k] == r.entries[k] {
            assert l.entries == r.entries;
          }
        }
      }
    }
  }

  // ---- The layers -----------------------------------------------------------

  /** Repository file, local file, environment and command line, lowest first. */
  function Layers(repo: Value, local: Value, env: Value, cli: Value): Value {
    Merge(Merge(Merge(Merge(Node(map[]), repo), local), env), cli)
  }

  /** Precedence: a leaf set by one layer, at a path no higher layer mentions or blocks,
      is the value of the whole configuration there. */
  lemma HighestLayerWins(repo: Value, local: Value, env: Value, cli: Value, path: seq<string>, leaf: Value)
    requires repo.Node? && local.Node? && env.Node? && cli.Node? && leaf.Leaf?
    requires var r, l, e, c := Lookup(repo, path), Lookup(local, path), Lookup(env, path), Lookup(cli, path);
             || c == Found(leaf)
             || (c == Missing && e == Found(leaf))
             || (c == Missing && e == Missing && l == Found(leaf))
             || (c == Missing && e == Missing && l == Missing && r == Found(leaf))
    ensures Lookup(Layers(repo, local, env, cli), path) == Found(leaf)
  {
    var m0 := Merge(Node(map[]), repo);
    EmptyIsIdentity(repo);
    var m1 := Merge(m0, local);
    var m2 := Merge(m1, env);
    MergeLookup(m0, local, path);
    MergeLookup(m1, env, path);
    MergeLookup(m2, cli, path);
  }

  /** A leaf in the local file between two sections: merging the layers from the left
      forgets what the repository set, from the right it would not. */
  lemma LeafBetweenSectionsIsNotAssociative(k: string, x: string, v: Value)
    requires v.Leaf?
    ensures var repo, local, env := Node(map[k := Node(map[x := v])]), Node(map[k := v]), Node(map[k := Node(map[])]);
            && Lookup(Layers(repo, local, env, Node(map[])), [k, x]) == Missing
            && Lookup(Merge(repo, Merge(local, env)), [k, x]) == Found(v)
  {
    var repo, local, env := Node(map[k := Node(map[x := v])]), Node(map[k := v]), Node(map[k := Node(map[])]);
    EmptyIsIdentity(repo);
    EmptyIsIdentity(Merge(Merge(repo, local), env));
    assert [k, x][1..] == [x] && [x][1..] == [];
    assert Merge(Merge(repo, local), env).entries[k] == Node(map[]);
    EmptyIsIdentity(Node(map[x := v]));
    assert Merge(local, env).entries[k] == Node(map[]);
    assert Merge(repo, Merge(local, env)).entries[k] == Node(map[x := v]);
    assert Lookup(Node(map[x := v]), [x]) == Lookup(v, []) == Found(v);
  }

  // ---- Setting one nested key -----------------------------------------------

  /** Sections are created on the way, and replace whatever else is in the way. */
  function SetNested(target: map<string, Value>, path: seq<string>, value: Value): map<string, Value>
    requires path != []
    decreases |path|
  {
    if |path| == 1 then target[path[0] := value]
    else
      var inner := if path[0] in target && target[path[0]].Node? then target[path[0]].entries else map[];
      target[path[0] := Node(SetNested(inner, path[1..], value))]
  }

  lemma {:induction false} SetNestedSets(target: map<string, Value>, path: seq<string>, value: Value)
    requires path != []
    ensures Lookup(Node(SetNested(target, path, value)), path) == Found(value)
    decreases |path|
  {
    if |path| > 1 {
      var inner := if path[0] in target && target[path[0]].Node? then target[path[0]].entries else map[];
      SetNestedSets(inner, path[1..], value);
    } else {
      assert path[1..] == [];
    }
  }

  lemma LookupInEmpty(path: seq<string>)
    requires path != []
    ensures Lookup(Node(map[]), path) == Missing
  {
  }

  /** A path that leaves the one being set at key `n` reads as before, unless a leaf had
      to make way at or above that point: then nothing is there any more. */
  lemma {:induction false} SetNestedKeepsOthers(
    target: map<string, Value>, path: seq<string>, value: Value, n: nat, other: seq<string>)
    requires n < |path| && n < |other| && other[..n] == path[..n] && other[n] != path[n]
    ensures var before, after := Lookup(Node(target), other), Lookup(Node(SetNested(target, path, value)), other);
            var fork := Lookup(Node(target), path[..n]);
            after == if fork == Cut || (fork.Found? && fork.value.Leaf?) then Missing else before
    decreases n
  {
    if n > 0 {
      assert other[0] == other[..n][0] == path[..n][0] == path[0];
      assert other[1..][..n - 1] == other[..n][1..] == path[..n][1..] == path[1..][..n - 1];
      var inner := if path[0] in target && target[path[0]].Node? then target[path[0]].entries else map[];
      SetNestedKeepsOthers(inner, path[1..], value, n - 1, other[1..]);
      if path[0] !in target || target[path[0]].Leaf? {
        LookupInEmpty(other[1..]);
        if n > 1 { LookupInEmpty(path[1..][..n - 1]); }
      }
    }
  }
}
