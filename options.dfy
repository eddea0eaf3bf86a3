/** The option schema tree (src/parse/options.rs): every dotted option key is split into
    segments; each segment but the last names an attribute set, a node of the tree, and the
    last segment is recorded as an option name at the node of the other segments. */
module Options {
  import opened Wrappers
  import opened Strings

  /** The metadata of one option. The JSON `default` and `example` values are kept as text. */
  datatype OptionData = OptionData(
    default: Option<string>,
    description: string,
    readOnly: bool,
    opType: string,
    declarations: seq<string>,
    example: Option<string>)

  /** `AttrTree`: the child attribute sets by name, and the options directly at this node in
      the order they were pushed. */
  datatype AttrTree = AttrTree(attributes: map<string, AttrTree>, options: seq<string>)

  /** A node with no children and no options. */
  const EmptyTree := AttrTree(map[], [])

  /** `attrloc`: the node reached from `tree` by following the segments of `pos` through the
      child maps; the root itself for the empty path, and `None` once a segment is missing. */
  function AttrLoc(tree: AttrTree, pos: seq<string>): Option<AttrTree>
    decreases pos
  {
    if |pos| > 1 then
      if pos[0] in tree.attributes then AttrLoc(tree.attributes[pos[0]], pos[1..]) else None
    else if |pos| == 1 then
      if pos[0] in tree.attributes then Some(tree.attributes[pos[0]]) else None
    else Some(tree)
  }

  /** The option names recorded at `pos`, none when `pos` is not a node. */
  function OptionsAt(tree: AttrTree, pos: seq<string>): seq<string>
  {
    match AttrLoc(tree, pos)
    case Some(n) => n.options
    case None => []
  }

  /** `buildtree_child`: record the key whose remaining segments are `segs` below `tree`,
      creating a child node only where none exists yet and pushing the last segment onto the
      options of the node the other segments reach. */
  function InsertKey(tree: AttrTree, segs: seq<string>): AttrTree
    decreases segs
  {
    if |segs| > 1 then
      var child := if segs[0] in tree.attributes then tree.attributes[segs[0]] else EmptyTree;
      tree.(attributes := tree.attributes[segs[0] := InsertKey(child, segs[1..])])
    else if |segs| == 1 then
      tree.(options := tree.options + [segs[0]])
    else
      tree
  }

  /** `p` is a proper prefix of `segs`: it names an attribute set on the way to the option. */
  predicate ProperPrefix(p: seq<string>, segs: seq<string>)
  {
    |p| < |segs| && segs[..|p|] == p
  }

  /** One step of a lookup: the first segment selects a child, the rest is looked up there. */
  lemma AttrLocStep(tree: AttrTree, pos: seq<string>)
    requires |pos| >= 1
    ensures AttrLoc(tree, pos) ==
      if pos[0] in tree.attributes then AttrLoc(tree.attributes[pos[0]], pos[1..]) else None
  {
  }

  /** A lookup of `p + q` is a lookup of `q` from the node `p` reaches. */
  lemma {:induction false} AttrLocConcat(tree: AttrTree, p: seq<string>, q: seq<string>)
    ensures AttrLoc(tree, p + q) ==
      match AttrLoc(tree, p)
      case Some(n) => AttrLoc(n, q)
      case None => None
    decreases p
  {
    if |p| > 0 {
      assert (p + q)[0] == p[0] && (p + q)[1..] == p[1..] + q;
      AttrLocStep(tree, p + q);
      AttrLocStep(tree, p);
      if p[0] in tree.attributes {
        AttrLocConcat(tree.attributes[p[0]], p[1..], q);
      }
    } else {
      assert p + q == q;
    }
  }

  /** Only the root of a fresh node can be reached, and it has no options. */
  lemma EmptyTreeLookup(q: seq<string>)
    ensures AttrLoc(EmptyTree, q).Some? <==> q == []
    ensures OptionsAt(EmptyTree, q) == []
  {
  }

  /** What inserting one key changes: `p` becomes reachable exactly when it is a proper
      prefix of the key, earlier nodes are kept (reused, never replaced), and the only options
      that change are those of the key's parent node, which get the last segment appended. */
  lemma {:induction false} InsertKeyEffect(tree: AttrTree, segs: seq<string>, p: seq<string>)
    requires |segs| >= 1
    ensures AttrLoc(InsertKey(tree, segs), p).Some? <==>
      AttrLoc(tree, p).Some? || ProperPrefix(p, segs)
    ensures OptionsAt(InsertKey(tree, segs), p) ==
      OptionsAt(tree, p) + (if p == segs[..|segs| - 1] then [segs[|segs| - 1]] else [])
    decreases segs
  {
    var t' := InsertKey(tree, segs);
    if |segs| == 1 {
      if |p| > 0 {
        AttrLocStep(tree, p);
        AttrLocStep(t', p);
      }
    } else if |p| > 0 {
      AttrLocStep(tree, p);
      AttrLocStep(t', p);
      if p[0] == segs[0] {
        var child := if segs[0] in tree.attributes then tree.attributes[segs[0]] else EmptyTree;
        InsertKeyEffect(child, segs[1..], p[1..]);
        EmptyTreeLookup(p[1..]);
        assert ProperPrefix(p, segs) <==> ProperPrefix(p[1..], segs[1..]) by {
          if |p| < |segs| {
            assert segs[..|p|] == [segs[0]] + segs[1..][..|p| - 1];
            assert p == [p[0]] + p[1..];
          }
        }
        assert p == segs[..|segs| - 1] <==> p[1..] == segs[1..][..|segs| - 2] by {
          if |p| == |segs| - 1 {
            assert segs[..|segs| - 1] == [segs[0]] + segs[1..][..|segs| - 2];
            assert p == [p[0]] + p[1..];
          }
        }
      } else {
        assert p != segs[..|segs| - 1];
        assert !ProperPrefix(p, segs);
      }
    }
  }

  /** Some key of `keys` has `p` as a proper prefix: `p` names an attribute set. */
  ghost predicate NamesAttrSet(keys: seq<string>, p: seq<string>)
  {
    exists i | 0 <= i < |keys| :: ProperPrefix(p, Segments(keys[i]))
  }

  /** The last segments of the keys whose other segments are `p`, in the order of `keys`,
      repeated keys repeated. */
  function LeavesAt(keys: seq<string>, p: seq<string>): seq<string>
  {
    if keys == [] then []
    else
      var segs := Segments(keys[|keys| - 1]);
      LeavesAt(keys[..|keys| - 1], p)
        + (if p == segs[..|segs| - 1] then [segs[|segs| - 1]] else [])
  }

  lemma NamesAttrSetSnoc(keys: seq<string>, n: nat, p: seq<string>)
    requires n < |keys|
    ensures NamesAttrSet(keys[..n + 1], p) <==>
      NamesAttrSet(keys[..n], p) || ProperPrefix(p, Segments(keys[n]))
  {
    var a, b := keys[..n], keys[..n + 1];
    if NamesAttrSet(b, p) {
      var i :| 0 <= i < |b| && ProperPrefix(p, Segments(b[i]));
      if i < n {
        assert a[i] == b[i];
      }
    }
    if NamesAttrSet(a, p) {
      var i :| 0 <= i < |a| && ProperPrefix(p, Segments(a[i]));
      assert b[i] == a[i];
    }
    if ProperPrefix(p, Segments(keys[n])) {
      assert b[n] == keys[n];
    }
  }

  /** `buildtree`: insert every key, in the iteration order of the catalogue. A path is a
      node of the result exactly when it is empty or names an attribute set of some key, and
      the options at each node are the last segments of its keys in input order. */
  method BuildTree(keys: seq<string>) returns (tree: AttrTree)
    ensures forall p :: AttrLoc(tree, p).Some? <==> p == [] || NamesAttrSet(keys, p)
    ensures forall p :: OptionsAt(tree, p) == LeavesAt(keys, p)
  {
    tree := AttrTree(map[], []);
    var n := 0;
    while n < |keys|
      invariant 0 <= n <= |keys|
      invariant forall p :: AttrLoc(tree, p).Some? <==> p == [] || NamesAttrSet(keys[..n], p)
      invariant forall p :: OptionsAt(tree, p) == LeavesAt(keys[..n], p)
    {
      ghost var before := tree;
      tree := InsertOne(tree, Segments(keys[n]));
      BuildStep(keys, n, before);
      n := n + 1;
    }
    assert keys[..n] == keys;
  }

  /** `buildtree_child` with the insertion into the first segment's child: one key's
      segments inserted into the tree. */
  method InsertOne(tree: AttrTree, attr: seq<string>) returns (t: AttrTree)
    ensures t == InsertKey(tree, attr)
  {
    t := tree;
    if |attr| > 1 {
      if attr[0] !in t.attributes {
        t := t.(attributes := t.attributes[attr[0] := AttrTree(map[], [])]);
      }
      t := t.(attributes := t.attributes[attr[0] := InsertKey(t.attributes[attr[0]], attr[1..])]);
    } else if |attr| == 1 {
      t := t.(options := t.options + [attr[0]]);
    }
  }

  /** Inserting the next key keeps the loop's description of the tree. */
  lemma BuildStep(keys: seq<string>, n: nat, before: AttrTree)
    requires n < |keys|
    requires forall p :: AttrLoc(before, p).Some? <==> p == [] || NamesAttrSet(keys[..n], p)
    requires forall p :: OptionsAt(before, p) == LeavesAt(keys[..n], p)
    ensures forall p :: AttrLoc(InsertKey(before, Segments(keys[n])), p).Some? <==>
      p == [] || NamesAttrSet(keys[..n + 1], p)
    ensures forall p :: OptionsAt(InsertKey(before, Segments(keys[n])), p) == LeavesAt(keys[..n + 1], p)
  {
    var tree := InsertKey(before, Segments(keys[n]));
    forall p
      ensures AttrLoc(tree, p).Some? <==> p == [] || NamesAttrSet(keys[..n + 1], p)
      ensures OptionsAt(tree, p) == LeavesAt(keys[..n + 1], p)
    {
      InsertKeyEffect(before, Segments(keys[n]), p);
      NamesAttrSetSnoc(keys, n, p);
      assert keys[..n + 1][..n] == keys[..n];
    }
  }

  /** A key of one segment is an option of the root and creates no node. */
  lemma {:induction false} SingleSegmentKey(tree: AttrTree, key: string, p: seq<string>)
    requires '.' !in key
    ensures AttrLoc(InsertKey(tree, Segments(key)), p) ==
      if p == [] then Some(tree.(options := tree.options + [key])) else AttrLoc(tree, p)
  {
    SplitNoSeparator(key, '.');
    if |p| > 0 {
      AttrLocStep(tree, p);
      AttrLocStep(InsertKey(tree, [key]), p);
    }
  }
}
