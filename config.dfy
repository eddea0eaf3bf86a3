/** The configuration side of the editor (src/parse/config.rs): prefix tests over the flat map
    of configured options, reading a value through list indices, and applying a batch of
    pending edits to the configuration text. The `nix_editor` library that parses and rewrites
    Nix text is not part of this model: its operations are the fields of `Primitives`, and
    configuration text is passed in where the source reads a file. */
module Config {
  import opened Wrappers
  import opened Strings

  /** The operations of the `nix_editor` library, and the re-indentation applied to each
      list element before a list literal is written back (src/parse/config.rs:149-154). */
  datatype Primitives = Primitives(
    getCollection: string -> Result<map<string, string>>,
    readValue: (string, string) -> Result<string>,
    getArrVals: (string, string) -> Result<seq<string>>,
    write: (string, string, string) -> Result<string>,
    deref: (string, string) -> Result<string>,
    reindent: string -> string)

  // ---------------------------------------------------------------- opconfigured / getconfvals

  /** `opconfigured`: some key of `conf`, split on '.', starts with `pos + [attr]`. */
  predicate OpConfigured<T>(conf: map<string, T>, pos: seq<string>, attr: string)
  {
    exists k | k in conf :: IsPrefix(pos + [attr], Segments(k))
  }

  /** Key `k` extends `pos` by at least one segment, and `x` is the segment after `pos`. */
  predicate NextSegment(k: string, pos: seq<string>, x: string)
  {
    var s := Segments(k);
    |s| > |pos| && s[..|pos|] == pos && s[|pos|] == x
  }

  /** `x` is the next segment after `pos` of some key of `conf`. */
  ghost predicate IsConfVal<T>(conf: map<string, T>, pos: seq<string>, x: string)
  {
    exists k | k in conf :: NextSegment(k, pos, x)
  }

  /** A key starts with `pos + [attr]` exactly when `attr` is its segment after `pos`. */
  lemma PrefixIsNextSegment(k: string, pos: seq<string>, attr: string)
    ensures IsPrefix(pos + [attr], Segments(k)) <==> NextSegment(k, pos, attr)
  {
    var s := Segments(k);
    if |s| > |pos| {
      assert s[..|pos| + 1] == s[..|pos|] + [s[|pos|]];
    }
  }

  /** `opconfigured(conf, pos, attr)` holds exactly when `getconfvals(conf, pos)` lists `attr`. */
  lemma ConfiguredIffListed<T>(conf: map<string, T>, pos: seq<string>, attr: string)
    ensures OpConfigured(conf, pos, attr) <==> IsConfVal(conf, pos, attr)
  {
    if OpConfigured(conf, pos, attr) {
      var k :| k in conf && IsPrefix(pos + [attr], Segments(k));
      PrefixIsNextSegment(k, pos, attr);
    }
    if IsConfVal(conf, pos, attr) {
      var k :| k in conf && NextSegment(k, pos, attr);
      PrefixIsNextSegment(k, pos, attr);
    }
  }

  /** Adding or overwriting the key `k` makes `pos + [attr]` configured exactly when it was
      before or `k` itself starts with it; the value stored does not matter. */
  lemma ConfiguredAfterInsert<T>(conf: map<string, T>, k: string, v: T, pos: seq<string>, attr: string)
    ensures OpConfigured(conf[k := v], pos, attr) <==>
      OpConfigured(conf, pos, attr) || IsPrefix(pos + [attr], Segments(k))
  {
    if OpConfigured(conf[k := v], pos, attr) {
      var k' :| k' in conf[k := v] && IsPrefix(pos + [attr], Segments(k'));
      if k' != k {
        assert k' in conf;
      }
    }
    if OpConfigured(conf, pos, attr) {
      var k' :| k' in conf && IsPrefix(pos + [attr], Segments(k'));
      assert k' in conf[k := v];
    }
  }

  /** `getconfvals`: the distinct segments that follow `pos` in the keys of `conf`, in the
      map's iteration order, which the model leaves unspecified. */
  method GetConfVals<T>(conf: map<string, T>, pos: seq<string>) returns (out: seq<string>)
    ensures forall i, j | 0 <= i < j < |out| :: out[i] != out[j]
    ensures forall x :: x in out <==> IsConfVal(conf, pos, x)
  {
    out := [];
    var rest := conf.Keys;
    while rest != {}
      invariant rest <= conf.Keys
      invariant forall i, j | 0 <= i < j < |out| :: out[i] != out[j]
      invariant forall x :: x in out <==> exists k | k in conf.Keys - rest :: NextSegment(k, pos, x)
      decreases rest
    {
      var attr :| attr in rest;
      ghost var before := out;
      var k := Segments(attr);
      if |k| > |pos| && k[..|pos|] == pos {
        var x := k[|pos|];
        if x !in out {
          out := out + [x];
        }
      }
      forall x
        ensures x in out <==> x in before || NextSegment(attr, pos, x)
      {
      }
      assert conf.Keys - (rest - {attr}) == (conf.Keys - rest) + {attr};
      rest := rest - {attr};
    }
  }

  // ---------------------------------------------------------------- readval

  /** The number of `*` segments. */
  function CountStars(p: seq<string>): nat
  {
    if p == [] then 0 else CountStars(p[..|p| - 1]) + (if p[|p| - 1] == "*" then 1 else 0)
  }

  /** The segments that are not `*`, in order. */
  function Unstarred(p: seq<string>): seq<string>
  {
    if p == [] then [] else Unstarred(p[..|p| - 1]) + (if p[|p| - 1] == "*" then [] else [p[|p| - 1]])
  }

  /** The schema path cut at each `*`: one group more than there are `*` segments. */
  function StarGroups(p: seq<string>): (r: seq<seq<string>>)
    ensures |r| == CountStars(p) + 1
  {
    if p == [] then [[]]
    else
      var g := StarGroups(p[..|p| - 1]);
      var s := p[|p| - 1];
      if s == "*" then g + [[]]
      else g[..|g| - 1] + [g[|g| - 1] + [s]]
  }

  /** The `*` segments are in no group, and every other segment is kept in its group, in
      order. */
  lemma {:induction false} StarGroupsFlatten(p: seq<string>)
    ensures Flatten(StarGroups(p)) == Unstarred(p)
  {
    if p != [] {
      var n := |p| - 1;
      StarGroupsFlatten(p[..n]);
      var g := StarGroups(p[..n]);
      if p[n] == "*" {
        FlattenSnoc(g, []);
      } else {
        var last := |g| - 1;
        FlattenExtendLast(g[..last], g[last], p[n]);
        assert g[..last] + [g[last]] == g;
      }
    }
  }

  /** Every `*` of the schema path has a query segment at the same position. */
  predicate StarsCovered(p: seq<string>, q: seq<string>)
  {
    forall i | 0 <= i < |p| && p[i] == "*" :: i < |q|
  }

  /** The indices the query supplies at the `*` positions of the schema path; a query
      segment there that is not an unsigned number is skipped. */
  function StarIndices(p: seq<string>, q: seq<string>): (r: seq<nat>)
    requires StarsCovered(p, q)
    ensures |r| <= CountStars(p)
  {
    if p == [] then []
    else
      var n := |p| - 1;
      var r := StarIndices(p[..n], q);
      if p[n] == "*" && ParseUsize(q[n]).Some? then r + [ParseUsize(q[n]).value] else r
  }

  /** The second loop of `readval`: while indices remain, each group selects the list element
      at the next index; the groups after that read a value; each step works on the text the
      previous step produced. */
  function Walk(pr: Primitives, f: string, groups: seq<seq<string>>, idx: seq<nat>, refq: string): Result<string>
    decreases |groups|
  {
    if groups == [] then Ok(f)
    else if idx != [] then
      match pr.getArrVals(f, Dotted(groups[0]))
      case Err(_) => Err("Failed to read value from configuration")
      case Ok(x) =>
        if idx[0] < |x| then Walk(pr, x[idx[0]], groups[1..], idx[1..], refq)
        else Err("Index out of bounds " + refq)
    else
      match pr.readValue(f, Dotted(groups[0]))
      case Err(_) => Err("Failed to read value from configuration")
      case Ok(v) => Walk(pr, v, groups[1..], idx, refq)
  }

  /** What `readval(query, refq)` returns on configuration text `f`. Without a `*` in the schema
      path the query is read directly and a failure is reported as "Failed to read value";
      otherwise the schema path is walked group by group as `Walk` says. */
  function ReadValue(pr: Primitives, f: string, query: string, refq: string): Result<string>
    requires StarsCovered(Segments(refq), Segments(query))
  {
    if '*' !in refq then
      match pr.readValue(f, query)
      case Ok(x) => Ok(x)
      case Err(_) => Err("Failed to read value " + query)
    else
      var p := Segments(refq);
      Walk(pr, f, StarGroups(p), StarIndices(p, Segments(query)), refq)
  }

  /** The first loop of `readval`: cut the schema path at each `*` and collect the indices the
      query gives there. */
  method CutAtStars(p: seq<string>, qs: seq<string>) returns (groups: seq<seq<string>>, indexvec: seq<nat>)
    requires StarsCovered(p, qs)
    ensures groups == StarGroups(p)
    ensures indexvec == StarIndices(p, qs)
  {
    groups := [[]];
    indexvec := [];
    var j := 0;
    for i := 0 to |p|
      invariant groups == StarGroups(p[..i])
      invariant indexvec == StarIndices(p[..i], qs)
      invariant j == |groups| - 1
    {
      assert p[..i + 1][..i] == p[..i];
      if p[i] == "*" {
        groups := groups + [[]];
        var x := ParseUsize(qs[i]);
        if x.Some? {
          indexvec := indexvec + [x.value];
        }
        j := j + 1;
      } else {
        groups := groups[j := groups[j] + [p[i]]];
      }
    }
    assert p[..|p|] == p;
  }

  /** The second loop of `readval`, leaving the function at the first failed step. */
  method WalkGroups(pr: Primitives, f: string, groups: seq<seq<string>>, indexvec: seq<nat>, refq: string)
    returns (r: Result<string>)
    ensures r == Walk(pr, f, groups, indexvec, refq)
  {
    var text := f;
    var k := 0;
    for n := 0 to |groups|
      invariant k <= |indexvec|
      invariant Walk(pr, f, groups, indexvec, refq) == Walk(pr, text, groups[n..], indexvec[k..], refq)
    {
      var y := groups[n];
      assert groups[n..][0] == y && groups[n..][1..] == groups[n + 1..];
      if k < |indexvec| {
        var x := pr.getArrVals(text, Dotted(y));
        if x.Err? {
          return Err("Failed to read value from configuration");
        }
        if indexvec[k] >= |x.value| {
          return Err("Index out of bounds " + refq);
        }
        assert indexvec[k..][1..] == indexvec[k + 1..];
        text := x.value[indexvec[k]];
        k := k + 1;
      } else {
        var v := pr.readValue(text, Dotted(y));
        if v.Err? {
          return Err("Failed to read value from configuration");
        }
        text := v.value;
      }
    }
    r := Ok(text);
  }

  /** `readval`. The query must have a segment at every `*` position of the schema path, since
      the source indexes the split query there. */
  method ReadVal(pr: Primitives, f: string, query: string, refq: string) returns (r: Result<string>)
    requires StarsCovered(Segments(refq), Segments(query))
    ensures r == ReadValue(pr, f, query, refq)
  {
    if '*' !in refq {
      var out := pr.readValue(f, query);
      r := if out.Ok? then Ok(out.value) else Err("Failed to read value " + query);
    } else {
      var groups, indexvec := CutAtStars(Segments(refq), Segments(query));
      r := WalkGroups(pr, f, groups, indexvec, refq);
    }
  }

  /** Without a `*` anywhere in the schema path, `readval` is the direct read of the query. */
  lemma ReadValueNoStar(pr: Primitives, f: string, query: string, refq: string)
    requires '*' !in refq
    ensures StarsCovered(Segments(refq), Segments(query))
    ensures ReadValue(pr, f, query, refq).Ok? <==> pr.readValue(f, query).Ok?
    ensures ReadValue(pr, f, query, refq).Ok? ==> ReadValue(pr, f, query, refq).value == pr.readValue(f, query).value
  {
    var p := Segments(refq);
    forall i | 0 <= i < |p| ensures p[i] != "*" {
      if p[i] == "*" {
        SplitPieceChars(refq, '.', i, '*');
      }
    }
  }

  /** A path without `*` segments is one group and supplies no index. */
  lemma {:induction false} StarFreeGroups(p: seq<string>, q: seq<string>)
    requires forall i | 0 <= i < |p| :: p[i] != "*"
    ensures StarsCovered(p, q)
    ensures StarGroups(p) == [p]
    ensures StarIndices(p, q) == []
  {
    if p != [] {
      StarFreeGroups(p[..|p| - 1], q);
      assert p[..|p| - 1] + [p[|p| - 1]] == p;
    }
  }

  /** A path with one `*` segment is cut into the segments before and after it, and supplies
      the query's index at that position when the query has one there. */
  lemma OneStarGroups(a: seq<string>, b: seq<string>, q: seq<string>)
    requires forall i | 0 <= i < |a| :: a[i] != "*"
    requires forall i | 0 <= i < |b| :: b[i] != "*"
    requires |q| > |a|
    ensures StarsCovered(a + ["*"] + b, q)
    ensures StarGroups(a + ["*"] + b) == [a, b]
    ensures StarIndices(a + ["*"] + b, q) ==
      if ParseUsize(q[|a|]).Some? then [ParseUsize(q[|a|]).value] else []
  {
    OneStarCut(a, b, q);
    OneStarIndex(a, b, q);
  }

  lemma {:induction false} OneStarCut(a: seq<string>, b: seq<string>, q: seq<string>)
    requires forall i | 0 <= i < |a| :: a[i] != "*"
    requires forall i | 0 <= i < |b| :: b[i] != "*"
    requires |q| > |a|
    ensures StarGroups(a + ["*"] + b) == [a, b]
    decreases |b|
  {
    var p := a + ["*"] + b;
    if b == [] {
      StarFreeGroups(a, q);
      assert p[..|p| - 1] == a;
    } else {
      var b' := b[..|b| - 1];
      OneStarCut(a, b', q);
      assert p[..|p| - 1] == a + ["*"] + b';
      assert b' + [b[|b| - 1]] == b;
    }
  }

  lemma {:induction false} OneStarIndex(a: seq<string>, b: seq<string>, q: seq<string>)
    requires forall i | 0 <= i < |a| :: a[i] != "*"
    requires forall i | 0 <= i < |b| :: b[i] != "*"
    requires |q| > |a|
    ensures StarsCovered(a + ["*"] + b, q)
    ensures StarIndices(a + ["*"] + b, q) ==
      if ParseUsize(q[|a|]).Some? then [ParseUsize(q[|a|]).value] else []
    decreases |b|
  {
    var p := a + ["*"] + b;
    if b == [] {
      StarFreeGroups(a, q);
      assert p[..|p| - 1] == a;
    } else {
      var b' := b[..|b| - 1];
      OneStarIndex(a, b', q);
      assert p[..|p| - 1] == a + ["*"] + b';
    }
  }

  /** A `*` that is only part of a segment makes `readval` take the wildcard branch with a
      single group: it reads the schema path itself, not the query, and a failed read is
      reported as "Failed to read value from configuration". */
  lemma ReadValueStarInsideSegment(pr: Primitives, f: string, query: string, refq: string)
    requires '*' in refq
    requires forall i | 0 <= i < |Segments(refq)| :: Segments(refq)[i] != "*"
    ensures StarsCovered(Segments(refq), Segments(query))
    ensures ReadValue(pr, f, query, refq) ==
      match pr.readValue(f, refq)
      case Ok(v) => Ok(v)
      case Err(_) => Err("Failed to read value from configuration")
  {
    var p := Segments(refq);
    StarFreeGroups(p, Segments(query));
    JoinSplit(refq, '.');
    assert [p][0] == p && [p][1..] == [];
    match pr.readValue(f, refq)
    case Ok(v) =>
      assert Walk(pr, v, [], [], refq) == Ok(v);
    case Err(_) =>
  }

  /** Reading through one list index: the list at the segments before the `*` is read, the
      element at the query's index is selected, and the value at the segments after the `*` is
      read from it. An index past the end of the list and any failed read give an error. */
  lemma ReadValueOneStar(pr: Primitives, f: string, query: string, a: seq<string>, b: seq<string>, n: nat)
    requires forall i | 0 <= i < |a| :: a[i] != "*" && '.' !in a[i]
    requires forall i | 0 <= i < |b| :: b[i] != "*" && '.' !in b[i]
    requires |Segments(query)| > |a| && ParseUsize(Segments(query)[|a|]) == Some(n)
    ensures StarsCovered(Segments(Dotted(a + ["*"] + b)), Segments(query))
    ensures ReadValue(pr, f, query, Dotted(a + ["*"] + b)) ==
      match pr.getArrVals(f, Dotted(a))
      case Err(_) => Err("Failed to read value from configuration")
      case Ok(xs) =>
        if n < |xs| then
          match pr.readValue(xs[n], Dotted(b))
          case Ok(v) => Ok(v)
          case Err(_) => Err("Failed to read value from configuration")
        else Err("Index out of bounds " + Dotted(a + ["*"] + b))
  {
    var p := a + ["*"] + b;
    var refq := Dotted(p);
    SplitJoin(p, '.');
    assert Segments(refq) == p;
    assert '*' in refq by {
      SplitPieceChars(refq, '.', |a|, '*');
    }
    OneStarGroups(a, b, Segments(query));
    var gs: seq<seq<string>> := [a, b];
    assert gs[0] == a && gs[1..] == [b] && [b][0] == b && [b][1..] == [];
    assert [n][0] == n && [n][1..] == [];
    match pr.getArrVals(f, Dotted(a))
    case Ok(xs) =>
      if n < |xs| {
        assert ReadValue(pr, f, query, refq) == Walk(pr, xs[n], [b], [], refq);
        match pr.readValue(xs[n], Dotted(b))
        case Ok(v) =>
          assert Walk(pr, v, [], [], refq) == Ok(v);
        case Err(_) =>
      }
    case Err(_) =>
  }

  /** `opconfigured2`: the value at `pos + [attr]` can be read with `refpos + [attr]` as its
      schema path. */
  predicate OpConfigured2(pr: Primitives, f: string, pos: seq<string>, refpos: seq<string>, attr: string)
    requires StarsCovered(Segments(Dotted(refpos + [attr])), Segments(Dotted(pos + [attr])))
  {
    ReadValue(pr, f, Dotted(pos + [attr]), Dotted(refpos + [attr])).Ok?
  }

  /** Without a `*` in the schema path, `opconfigured2` asks whether the concrete path can be
      read directly. */
  lemma OpConfigured2Direct(pr: Primitives, f: string, pos: seq<string>, refpos: seq<string>, attr: string)
    requires '*' !in Dotted(refpos + [attr])
    ensures StarsCovered(Segments(Dotted(refpos + [attr])), Segments(Dotted(pos + [attr])))
    ensures OpConfigured2(pr, f, pos, refpos, attr) <==> pr.readValue(f, Dotted(pos + [attr])).Ok?
  {
    ReadValueNoStar(pr, f, Dotted(pos + [attr]), Dotted(refpos + [attr]));
  }

  // ---------------------------------------------------------------- editconfig

  /** The elements of one list being rebuilt, by index. */
  type Slots = map<nat, string>

  /** The position of the first segment that is an unsigned number. */
  function FirstIndexSegment(segs: seq<string>): (r: Option<nat>)
    ensures r.Some? ==> r.value < |segs| && ParseUsize(segs[r.value]).Some?
    ensures r.Some? ==> forall k | 0 <= k < r.value :: ParseUsize(segs[k]).None?
    ensures r.None? ==> forall k | 0 <= k < |segs| :: ParseUsize(segs[k]).None?
  {
    if segs == [] then None
    else if ParseUsize(segs[0]).Some? then Some(0)
    else
      match FirstIndexSegment(segs[1..])
      case None => None
      case Some(i) => Some(i + 1)
  }

  /** The list attribute an indexed edit belongs to, the path before its first index; none
      for a plain edit. */
  function ListGroup(op: string): set<string>
  {
    var segs := Segments(op);
    match FirstIndexSegment(segs)
    case Some(i) => {Dotted(segs[..i])}
    case None => {}
  }

  /** The list attributes the edits touch. */
  function GroupKeys(order: seq<string>): set<string>
  {
    if order == [] then {} else GroupKeys(order[..|order| - 1]) + ListGroup(order[|order| - 1])
  }

  /** `s` lists every element of `keys` exactly once: one iteration order of a map's keys. */
  predicate Enumerates<T(==)>(s: seq<T>, keys: set<T>)
  {
    && (forall i, j | 0 <= i < j < |s| :: s[i] != s[j])
    && (forall i | 0 <= i < |s| :: s[i] in keys)
    && (forall k | k in keys :: k in s)
  }

  /** The length of the longest key, the measure the recursion of `editconfig` decreases. */
  function MaxLen(s: seq<string>): (m: nat)
    ensures forall i | 0 <= i < |s| :: |s[i]| <= m
    ensures |s| == 1 ==> m == |s[0]|
  {
    if s == [] then 0
    else
      var m := MaxLen(s[..|s| - 1]);
      if |s[|s| - 1]| > m then |s[|s| - 1]| else m
  }

  /** The iteration order of the one-entry edit map of a recursive call. */
  function InnerListOrder(v: string): (r: seq<string>)
    ensures Enumerates(r, GroupKeys([v]))
  {
    assert [v][..0] == [];
    var segs := Segments(v);
    match FirstIndexSegment(segs)
    case Some(i) => [Dotted(segs[..i])]
    case None => []
  }

  /** A number above every index of the set. */
  ghost function IndexBound(s: set<nat>): (b: nat)
    ensures forall k | k in s :: k < b
    decreases s
  {
    if s == {} then 0
    else
      var x :| x in s;
      var b := IndexBound(s - {x});
      assert forall k | k in s && k != x :: k in s - {x};
      if x < b then b else x + 1
  }

  /** The indices of the set below `n`, in ascending order. */
  function IndicesBelow(s: set<nat>, n: nat): (r: seq<nat>)
    ensures forall i, j | 0 <= i < j < |r| :: r[i] < r[j]
    ensures forall i | 0 <= i < |r| :: r[i] in s && r[i] < n
    ensures forall k | k in s && k < n :: k in r
  {
    if n == 0 then []
    else if n - 1 in s then IndicesBelow(s, n - 1) + [n - 1]
    else IndicesBelow(s, n - 1)
  }

  /** Any bound above every index lists the same indices. */
  lemma {:induction false} IndicesBelowBeyond(s: set<nat>, n: nat, m: nat)
    requires forall k | k in s :: k < n
    requires n <= m
    ensures IndicesBelow(s, m) == IndicesBelow(s, n)
    decreases m - n
  {
    if n < m {
      IndicesBelowBeyond(s, n, m - 1);
      assert m - 1 !in s;
    }
  }

  /** The indices of a set in ascending order, the `sort_by` on the index of the source. */
  ghost function AscendingIndices(s: set<nat>): (r: seq<nat>)
    ensures forall i, j | 0 <= i < j < |r| :: r[i] < r[j]
    ensures forall i | 0 <= i < |r| :: r[i] in s
    ensures forall k | k in s :: k in r
  {
    IndicesBelow(s, IndexBound(s))
  }

  /** Collecting the indices of a group and sorting them: a bound above them is found by a
      pass over the set, and the indices below it are listed in order. */
  method SortIndices(s: set<nat>) returns (r: seq<nat>)
    ensures r == AscendingIndices(s)
  {
    var b := 0;
    var rest := s;
    while rest != {}
      invariant rest <= s
      invariant forall k | k in s && k !in rest :: k < b
      decreases rest
    {
      var x :| x in rest;
      if x >= b {
        b := x + 1;
      }
      rest := rest - {x};
    }
    if b <= IndexBound(s) {
      IndicesBelowBeyond(s, b, IndexBound(s));
    } else {
      IndicesBelowBeyond(s, IndexBound(s), b);
    }
    r := IndicesBelow(s, b);
  }

  /** A list element that is the empty attribute set `{}` once trimmed and stripped of
      newlines and spaces; such elements are dropped when the list is written back. */
  predicate IsEmptyRecord(x: string)
  {
    RemoveChar(RemoveChar(Trim(x), '\n'), ' ') == "{}"
  }

  /** The values at the indices `idx` that are not empty records, in the order of `idx`. */
  function KeptValues(slots: Slots, idx: seq<nat>): seq<string>
    requires forall i | 0 <= i < |idx| :: idx[i] in slots
  {
    if idx == [] then []
    else (if IsEmptyRecord(slots[idx[0]]) then [] else [slots[idx[0]]]) + KeptValues(slots, idx[1..])
  }

  /** No kept value is an empty record; every value at an index that is not one is kept; and
      every kept value is the value at one of the indices. */
  lemma {:induction false} KeptValuesMeaning(slots: Slots, idx: seq<nat>)
    requires forall i | 0 <= i < |idx| :: idx[i] in slots
    ensures forall x | x in KeptValues(slots, idx) :: !IsEmptyRecord(x)
    ensures forall i | 0 <= i < |idx| && !IsEmptyRecord(slots[idx[i]]) :: slots[idx[i]] in KeptValues(slots, idx)
    ensures forall x | x in KeptValues(slots, idx) :: exists i | 0 <= i < |idx| :: slots[idx[i]] == x
  {
    if idx != [] {
      KeptValuesMeaning(slots, idx[1..]);
      var rest := KeptValues(slots, idx[1..]);
      forall x | x in rest ensures exists i | 0 <= i < |idx| :: slots[idx[i]] == x {
        var i :| 0 <= i < |idx[1..]| && slots[idx[1..][i]] == x;
        assert slots[idx[i + 1]] == x;
      }
      forall i | 0 <= i < |idx| && !IsEmptyRecord(slots[idx[i]]) ensures slots[idx[i]] in KeptValues(slots, idx) {
        if i > 0 {
          assert idx[1..][i - 1] == idx[i];
        }
      }
    }
  }

  /** Keeping distributes over concatenation of the index listings, so the kept values come
      in the order of `idx`, each non-empty slot once per occurrence of its index. */
  lemma {:induction false} KeptValuesConcat(slots: Slots, a: seq<nat>, b: seq<nat>)
    requires forall i | 0 <= i < |a| :: a[i] in slots
    requires forall i | 0 <= i < |b| :: b[i] in slots
    ensures KeptValues(slots, a + b) == KeptValues(slots, a) + KeptValues(slots, b)
  {
    if a != [] {
      assert (a + b)[1..] == a[1..] + b;
      KeptValuesConcat(slots, a[1..], b);
    } else {
      assert a + b == b;
    }
  }

  /** One index more at the end of the listing adds its value at the end, unless the slot is
      an empty record. */
  lemma KeptValuesSnoc(slots: Slots, idx: seq<nat>, i: nat)
    requires forall k | 0 <= k < |idx| :: idx[k] in slots
    requires i in slots
    ensures KeptValues(slots, idx + [i]) ==
      KeptValues(slots, idx) + (if IsEmptyRecord(slots[i]) then [] else [slots[i]])
  {
    KeptValuesConcat(slots, idx, [i]);
    assert [i][1..] == [];
  }

  /** The list literal of the kept elements: each re-indented and indented by two spaces, one
      per line, between `[` and `  ]`. */
  function ListText(pr: Primitives, kept: seq<string>): string
  {
    var lines := seq(|kept|, i requires 0 <= i < |kept| => "  " + pr.reindent(kept[i]));
    "[\n" + Join(lines, '\n') + "\n  ]"
  }

  /** The list literal written back for a group: its kept elements in ascending index order. */
  ghost function ListLiteral(pr: Primitives, slots: Slots): string
  {
    ListText(pr, KeptValues(slots, AscendingIndices(slots.Keys)))
  }

  /** The list a group starts from: the elements `getarrvals` reads, by position, or none when
      the read fails. */
  function SeedSlots(arr: Result<seq<string>>): Slots
  {
    match arr
    case Ok(x) => map k: nat | k < |x| :: x[k]
    case Err(_) => map[]
  }

  /** The state of the first loop of `editconfig`: the text with the plain edits applied so far,
      and the lists being rebuilt, by list attribute. */
  datatype Batch = Batch(text: string, starops: map<string, Slots>)

  /** The value path after the index of an indexed edit is shorter than the edit, which
      bounds the recursion of `editconfig`. */
  lemma IndexedParts(op: string, index: nat)
    requires FirstIndexSegment(Segments(op)) == Some(index)
    ensures |Dotted(Segments(op)[index + 1..])| < |op|
  {
    JoinSplit(op, '.');
    ParsedIsNonEmpty(Segments(op)[index]);
    JoinTailShorter(Segments(op), index, '.');
  }

  /** The elements of the group `o` an indexed edit works on: the group as collected so far,
      or, while it has no elements, the list read from the text by position. */
  function GroupSlots(pr: Primitives, b: Batch, o: string): Slots
  {
    if o in b.starops && |b.starops[o]| > 0 then b.starops[o] else SeedSlots(pr.getArrVals(b.text, o))
  }

  /** An indexed edit `o.i.v := val`: element `i` of group `o` (the empty record `{}` when there
      is none) is edited at `v` by a recursive `editconfig` on that element alone. */
  ghost function IndexedStep(pr: Primitives, b: Batch, op: string, val: string, index: nat): (r: Result<Batch>)
    requires FirstIndexSegment(Segments(op)) == Some(index)
    decreases |op|, 1
  {
    var option := Segments(op);
    var o := Dotted(option[..index]);
    var v := Dotted(option[index + 1..]);
    var i := ParseUsize(option[index]).value;
    var p := GroupSlots(pr, b, o);
    var arrval := if i in p then p[i] else "{}";
    IndexedParts(op, index);
    match EditSpec(pr, arrval, map[v := val], [v], InnerListOrder(v))
    case Err(e) => Err(e)
    case Ok(x) => Ok(Batch(b.text, b.starops[o := p[i := x]]))
  }

  /** One iteration of the first loop of `editconfig`, for the edit `op := val`: an indexed
      edit as `IndexedStep` says; a plain edit removes the option when the value is empty and
      writes it otherwise. */
  ghost function EditStep(pr: Primitives, b: Batch, op: string, val: string): Result<Batch>
    decreases |op|, 2
  {
    match FirstIndexSegment(Segments(op))
    case Some(index) => IndexedStep(pr, b, op, val, index)
    case None =>
      if val == "" then
        match pr.deref(b.text, op)
        case Ok(x) => Ok(b.(text := x))
        case Err(_) => Err("Failed to deref " + op)
      else
        match pr.write(b.text, op, val)
        case Ok(x) => Ok(b.(text := x))
        case Err(_) => Err("Failed to set value " + op + " to " + val)
  }

  /** The first loop of `editconfig` over the edits in the iteration order `order`; the first
      failing edit ends it. The lists touched are exactly those of the indexed edits. */
  ghost function Collect(pr: Primitives, f: string, edits: map<string, string>, order: seq<string>): Result<Batch>
    requires forall i | 0 <= i < |order| :: order[i] in edits
    decreases MaxLen(order), 3, |order|
  {
    if order == [] then Ok(Batch(f, map[]))
    else
      var n := |order| - 1;
      match Collect(pr, f, edits, order[..n])
      case Err(e) => Err(e)
      case Ok(b) => EditStep(pr, b, order[n], edits[order[n]])
  }

  /** Writing one rebuilt list back at its attribute; a failure names the attribute and the
      literal. */
  ghost function WriteList(pr: Primitives, t: string, k: string, slots: Slots): Result<string>
  {
    var valarr := ListLiteral(pr, slots);
    match pr.write(t, k, valarr)
    case Ok(x) => Ok(x)
    case Err(_) => Err("Failed to set value " + k + " to " + valarr)
  }

  /** The second loop of `editconfig`: each rebuilt list is written back as a list literal, in
      the iteration order `listOrder`; the first failing write ends it. */
  ghost function WriteLists(pr: Primitives, f: string, starops: map<string, Slots>, listOrder: seq<string>): Result<string>
    requires forall i | 0 <= i < |listOrder| :: listOrder[i] in starops
  {
    if listOrder == [] then Ok(f)
    else
      match WriteLists(pr, f, starops, listOrder[..|listOrder| - 1])
      case Err(e) => Err(e)
      case Ok(t) =>
        var k := listOrder[|listOrder| - 1];
        WriteList(pr, t, k, starops[k])
  }

  /** What `editconfig(f, edits)` returns when the edit map is iterated in the order `order`
      and the map of rebuilt lists in the order `listOrder`. */
  ghost function EditSpec(pr: Primitives, f: string, edits: map<string, string>, order: seq<string>, listOrder: seq<string>): Result<string>
    requires Enumerates(order, edits.Keys)
    requires Enumerates(listOrder, GroupKeys(order))
    decreases MaxLen(order), 5
  {
    match Collect(pr, f, edits, order)
    case Err(e) => Err(e)
    case Ok(b) =>
      CollectKeys(pr, f, edits, order);
      WriteLists(pr, b.text, b.starops, listOrder)
  }

  /** An edit adds the list it belongs to, if any, to the lists being rebuilt. */
  lemma EditStepKeys(pr: Primitives, b: Batch, op: string, val: string)
    requires EditStep(pr, b, op, val).Ok?
    ensures EditStep(pr, b, op, val).value.starops.Keys == b.starops.Keys + ListGroup(op)
    decreases |op|, 3
  {
  }

  /** The lists the first loop rebuilds are exactly those of the indexed edits. */
  lemma {:induction false} CollectKeys(pr: Primitives, f: string, edits: map<string, string>, order: seq<string>)
    requires forall i | 0 <= i < |order| :: order[i] in edits
    requires Collect(pr, f, edits, order).Ok?
    ensures Collect(pr, f, edits, order).value.starops.Keys == GroupKeys(order)
    decreases MaxLen(order), 4, |order|
  {
    if order != [] {
      var n := |order| - 1;
      CollectKeys(pr, f, edits, order[..n]);
      EditStepKeys(pr, Collect(pr, f, edits, order[..n]).value, order[n], edits[order[n]]);
    }
  }

  /** One more edit of the first loop is one more `EditStep`. */
  lemma CollectStep(pr: Primitives, f: string, edits: map<string, string>, order: seq<string>, n: nat, b: Batch)
    requires n < |order|
    requires forall i | 0 <= i < |order| :: order[i] in edits
    requires Collect(pr, f, edits, order[..n]) == Ok(b)
    ensures Collect(pr, f, edits, order[..n + 1]) == EditStep(pr, b, order[n], edits[order[n]])
  {
    assert order[..n + 1][..n] == order[..n];
  }

  /** Once an edit fails, the first loop returns that failure. */
  lemma {:induction false} CollectErrorStops(pr: Primitives, f: string, edits: map<string, string>, order: seq<string>, n: nat)
    requires n <= |order|
    requires forall i | 0 <= i < |order| :: order[i] in edits
    requires Collect(pr, f, edits, order[..n]).Err?
    ensures Collect(pr, f, edits, order) == Collect(pr, f, edits, order[..n])
    decreases |order|
  {
    if n < |order| {
      var m := |order| - 1;
      assert order[..m][..n] == order[..n];
      CollectErrorStops(pr, f, edits, order[..m], n);
    } else {
      assert order[..n] == order;
    }
  }

  /** Once a list write fails, the second loop returns that failure. */
  lemma {:induction false} WriteErrorStops(pr: Primitives, f: string, starops: map<string, Slots>, listOrder: seq<string>, n: nat)
    requires n <= |listOrder|
    requires forall i | 0 <= i < |listOrder| :: listOrder[i] in starops
    requires WriteLists(pr, f, starops, listOrder[..n]).Err?
    ensures WriteLists(pr, f, starops, listOrder) == WriteLists(pr, f, starops, listOrder[..n])
    decreases |listOrder|
  {
    if n < |listOrder| {
      var m := |listOrder| - 1;
      assert listOrder[..m][..n] == listOrder[..n];
      WriteErrorStops(pr, f, starops, listOrder[..m], n);
    } else {
      assert listOrder[..n] == listOrder;
    }
  }

  /** The filling of an empty group from the list as `getarrvals` read it. */
  method SeedList(read: Result<seq<string>>) returns (p: Slots)
    ensures p == SeedSlots(read)
  {
    p := map[];
    var arr := if read.Ok? then read.value else [];
    for j := 0 to |arr|
      invariant p == map k: nat | k < j :: arr[k]
    {
      p := p[j := arr[j]];
    }
  }

  /** One iteration of the first loop of `editconfig`. */
  method ApplyEdit(pr: Primitives, text: string, starops: map<string, Slots>, op: string, val: string)
    returns (r: Result<Batch>)
    ensures r == EditStep(pr, Batch(text, starops), op, val)
    decreases |op|, 1
  {
    var first := FirstIndexSegment(Segments(op));
    if first.Some? {
      r := ApplyIndexedEdit(pr, text, starops, op, val, first.value);
    } else if val == "" {
      var d := pr.deref(text, op);
      r := if d.Ok? then Ok(Batch(d.value, starops)) else Err("Failed to deref " + op);
    } else {
      var w := pr.write(text, op, val);
      r := if w.Ok? then Ok(Batch(w.value, starops)) else Err("Failed to set value " + op + " to " + val);
    }
  }

  /** The group an indexed edit works on, filled from the text on first use. */
  method LoadGroup(pr: Primitives, text: string, starops: map<string, Slots>, o: string) returns (p: Slots)
    ensures p == GroupSlots(pr, Batch(text, starops), o)
  {
    p := if o in starops then starops[o] else map[];
    if |p| == 0 {
      p := SeedList(pr.getArrVals(text, o));
    }
  }

  /** The indexed branch of the first loop of `editconfig`. */
  method ApplyIndexedEdit(pr: Primitives, text: string, starops: map<string, Slots>, op: string, val: string, index: nat)
    returns (r: Result<Batch>)
    requires FirstIndexSegment(Segments(op)) == Some(index)
    ensures r == IndexedStep(pr, Batch(text, starops), op, val, index)
    decreases |op|, 0
  {
    var o, v, i := IndexedPieces(op, index);
    var p := LoadGroup(pr, text, starops, o);
    var arrval := if i in p then p[i] else "{}";
    SingleEdit(v, val);
    var inner := EditConfig(pr, arrval, map[v := val], [v], InnerListOrder(v));
    r := if inner.Err? then Err(inner.msg) else Ok(Batch(text, starops[o := p[i := inner.value]]));
  }

  /** The parts of an indexed edit `o.i.v`: the list attribute, the value path inside the
      element, which is shorter than the edit, and the index. */
  method IndexedPieces(op: string, index: nat) returns (o: string, v: string, i: nat)
    requires FirstIndexSegment(Segments(op)) == Some(index)
    ensures o == Dotted(Segments(op)[..index]) && v == Dotted(Segments(op)[index + 1..])
    ensures i == ParseUsize(Segments(op)[index]).value
    ensures |v| < |op|
  {
    var option := Segments(op);
    o := Dotted(option[..index]);
    v := Dotted(option[index + 1..]);
    i := ParseUsize(option[index]).value;
    IndexedParts(op, index);
  }

  /** A single edit lists its one key. */
  lemma SingleEdit(v: string, val: string)
    ensures Enumerates([v], map[v := val].Keys)
  {
  }

  /** One iteration of the second loop of `editconfig`. */
  method WriteOneList(pr: Primitives, t: string, k: string, slots: Slots) returns (r: Result<string>)
    ensures r == WriteList(pr, t, k, slots)
  {
    var idx := SortIndices(slots.Keys);
    var valarr := ListText(pr, KeptValues(slots, idx));
    var w := pr.write(t, k, valarr);
    r := if w.Ok? then Ok(w.value) else Err("Failed to set value " + k + " to " + valarr);
  }

  /** The second loop of `editconfig`. */
  method WriteBack(pr: Primitives, f: string, starops: map<string, Slots>, listOrder: seq<string>)
    returns (r: Result<string>)
    requires forall i | 0 <= i < |listOrder| :: listOrder[i] in starops
    ensures r == WriteLists(pr, f, starops, listOrder)
  {
    var text := f;
    for n := 0 to |listOrder|
      invariant WriteLists(pr, f, starops, listOrder[..n]) == Ok(text)
    {
      assert listOrder[..n + 1][..n] == listOrder[..n];
      var w := WriteOneList(pr, text, listOrder[n], starops[listOrder[n]]);
      if w.Err? {
        WriteErrorStops(pr, f, starops, listOrder, n + 1);
        return w;
      }
      text := w.value;
    }
    assert listOrder[..|listOrder|] == listOrder;
    r := Ok(text);
  }

  /** The first loop of `editconfig`. */
  method CollectEdits(pr: Primitives, f: string, edits: map<string, string>, order: seq<string>)
    returns (r: Result<Batch>)
    requires forall i | 0 <= i < |order| :: order[i] in edits
    ensures r == Collect(pr, f, edits, order)
    decreases MaxLen(order), 2
  {
    var b := Batch(f, map[]);
    for n := 0 to |order|
      invariant Collect(pr, f, edits, order[..n]) == Ok(b)
    {
      var step := ApplyEdit(pr, b.text, b.starops, order[n], edits[order[n]]);
      CollectStep(pr, f, edits, order, n, b);
      if step.Err? {
        CollectErrorStops(pr, f, edits, order, n + 1);
        return step;
      }
      b := step.value;
    }
    assert order[..|order|] == order;
    r := Ok(b);
  }

  /** `editconfig`: apply the pending edits `edits` to the configuration text `f`. `order` is the
      iteration order of the edit map and `listOrder` that of the map of rebuilt lists; the
      result is the same function of them whatever they are. */
  method EditConfig(pr: Primitives, f: string, edits: map<string, string>, order: seq<string>, listOrder: seq<string>)
    returns (r: Result<string>)
    requires Enumerates(order, edits.Keys)
    requires Enumerates(listOrder, GroupKeys(order))
    ensures r == EditSpec(pr, f, edits, order, listOrder)
    decreases MaxLen(order), 3
  {
    var c := CollectEdits(pr, f, edits, order);
    if c.Err? {
      return Err(c.msg);
    }
    CollectKeys(pr, f, edits, order);
    r := WriteBack(pr, c.value.text, c.value.starops, listOrder);
  }

  /** With no pending edits the text is returned unchanged. */
  lemma EditNothing(pr: Primitives, f: string)
    ensures EditSpec(pr, f, map[], [], []) == Ok(f)
  {
  }

  /** A single plain edit removes the option when the value is empty and writes it otherwise;
      a failure of either names the option. */
  lemma EditSinglePlain(pr: Primitives, f: string, op: string, val: string)
    requires FirstIndexSegment(Segments(op)).None?
    ensures GroupKeys([op]) == {}
    ensures EditSpec(pr, f, map[op := val], [op], []) ==
      if val == "" then
        match pr.deref(f, op)
        case Ok(x) => Ok(x)
        case Err(_) => Err("Failed to deref " + op)
      else
        match pr.write(f, op, val)
        case Ok(x) => Ok(x)
        case Err(_) => Err("Failed to set value " + op + " to " + val)
  {
    assert [op][..0] == [];
    assert Collect(pr, f, map[op := val], [op]) == EditStep(pr, Batch(f, map[]), op, val);
  }

  /** A single indexed edit `o.i.v := val`: the list at `o` is read, element `i` (the empty
      record when the list is shorter) is edited at `v` by a recursive `editconfig`, and the
      list is written back at `o`. */
  lemma EditSingleIndexed(pr: Primitives, f: string, op: string, val: string, index: nat)
    requires FirstIndexSegment(Segments(op)) == Some(index)
    ensures GroupKeys([op]) == {Dotted(Segments(op)[..index])}
    ensures
      var segs := Segments(op);
      var o, v, i := Dotted(segs[..index]), Dotted(segs[index + 1..]), ParseUsize(segs[index]).value;
      var p := SeedSlots(pr.getArrVals(f, o));
      var arrval := if i in p then p[i] else "{}";
      EditSpec(pr, f, map[op := val], [op], [o]) ==
        match EditSpec(pr, arrval, map[v := val], [v], InnerListOrder(v))
        case Err(e) => Err(e)
        case Ok(x) => WriteList(pr, f, o, p[i := x])
  {
    EditSpecOne(pr, f, op, val, index);
  }

  /** `editconfig` on a single indexed edit of list `o`: the edit, then one write of that
      list. */
  lemma EditSpecOne(pr: Primitives, f: string, op: string, val: string, index: nat)
    requires FirstIndexSegment(Segments(op)) == Some(index)
    ensures GroupKeys([op]) == {Dotted(Segments(op)[..index])}
    ensures
      var o := Dotted(Segments(op)[..index]);
      var step := IndexedStep(pr, Batch(f, map[]), op, val, index);
      EditSpec(pr, f, map[op := val], [op], [o]) ==
        if step.Err? then Err(step.msg) else WriteList(pr, f, o, step.value.starops[o])
  {
    assert [op][..0] == [];
    var o := Dotted(Segments(op)[..index]);
    var step := IndexedStep(pr, Batch(f, map[]), op, val, index);
    CollectOne(pr, f, op, val, index);
    if step.Ok? {
      WriteListsOne(pr, f, step.value.starops, o);
    }
  }

  /** The first loop over a single indexed edit is that edit applied to no rebuilt lists. */
  lemma CollectOne(pr: Primitives, f: string, op: string, val: string, index: nat)
    requires FirstIndexSegment(Segments(op)) == Some(index)
    ensures Collect(pr, f, map[op := val], [op]) == IndexedStep(pr, Batch(f, map[]), op, val, index)
  {
    assert [op][..0] == [];
  }

  /** The second loop over a single list is one write. */
  lemma WriteListsOne(pr: Primitives, f: string, starops: map<string, Slots>, o: string)
    requires o in starops
    ensures WriteLists(pr, f, starops, [o]) == WriteList(pr, f, o, starops[o])
  {
    assert [o][..0] == [];
  }

  /** An indexed edit changes only the element it addresses in its group: a group that already
      has elements is not read again and keeps its other elements; an empty group is first
      filled from the text. The text and the other groups are unchanged. */
  lemma IndexedEditKeepsOtherSlots(pr: Primitives, b: Batch, op: string, val: string, index: nat)
    requires FirstIndexSegment(Segments(op)) == Some(index)
    requires EditStep(pr, b, op, val).Ok?
    ensures
      var segs := Segments(op);
      var o, i := Dotted(segs[..index]), ParseUsize(segs[index]).value;
      var before := GroupSlots(pr, b, o);
      var after := EditStep(pr, b, op, val).value;
      && after.text == b.text
      && o in after.starops
      && after.starops[o].Keys == before.Keys + {i}
      && (forall k | k in before && k != i :: after.starops[o][k] == before[k])
      && (forall g | g in b.starops && g != o :: g in after.starops && after.starops[g] == b.starops[g])
  {
    assert EditStep(pr, b, op, val) == IndexedStep(pr, b, op, val, index);
  }
}
