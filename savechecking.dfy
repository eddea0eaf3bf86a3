/** The type check run before a value is saved (src/ui/savechecking.rs): a Nix expression that
    selects the option's type through the option schema is synthesised from the schema path,
    and the evaluator's outcome is mapped to an accepted flag and a text. */
module SaveChecking {
  import opened Strings

  /** A schema segment standing for any list index or any attribute name. */
  predicate IsWildcard(seg: string)
  {
    seg == "*" || seg == "<name>"
  }

  /** Every wildcard of the schema path has a segment of the concrete path at its position. */
  predicate WildcardsCovered(p: seq<string>, q: seq<string>)
  {
    forall i | 0 <= i < |p| && IsWildcard(p[i]) :: i < |q|
  }

  /** The segments that are not wildcards, in order. */
  function NonWildcards(p: seq<string>): seq<string>
  {
    if p == [] then [] else NonWildcards(p[..|p| - 1]) + (if IsWildcard(p[|p| - 1]) then [] else [p[|p| - 1]])
  }

  /** The number of wildcards in the schema path. */
  function CountWildcards(p: seq<string>): nat
  {
    if p == [] then 0 else CountWildcards(p[..|p| - 1]) + (if IsWildcard(p[|p| - 1]) then 1 else 0)
  }

  /** Segment `i` starts a new group without being a wildcard: the segments before it name an
      option of `alloptions` and it is not the last segment. */
  predicate SplitsAtOption(p: seq<string>, i: nat, alloptions: seq<string>)
    requires i < |p|
  {
    Dotted(p[..i]) in alloptions && i + 1 < |p|
  }

  /** The groups the first `i` segments of the schema path `p` form: a wildcard closes the
      current group and is itself in no group; a segment after an option name opens a group
      holding it; every other segment joins the current group. */
  function CheckGroups(p: seq<string>, i: nat, alloptions: seq<string>): (r: seq<seq<string>>)
    requires i <= |p|
    ensures |r| >= 1
  {
    if i == 0 then [[]]
    else
      var g := CheckGroups(p, i - 1, alloptions);
      var s := p[i - 1];
      if IsWildcard(s) then g + [[]]
      else if SplitsAtOption(p, i - 1, alloptions) then g + [[s]]
      else g[..|g| - 1] + [g[|g| - 1] + [s]]
  }

  /** The groups hold the segments that are not wildcards, each once and in order. */
  lemma {:induction false} GroupsFlatten(p: seq<string>, i: nat, alloptions: seq<string>)
    requires i <= |p|
    ensures Flatten(CheckGroups(p, i, alloptions)) == NonWildcards(p[..i])
  {
    if i > 0 {
      GroupsFlatten(p, i - 1, alloptions);
      var g := CheckGroups(p, i - 1, alloptions);
      var s := p[i - 1];
      assert p[..i][..i - 1] == p[..i - 1];
      if IsWildcard(s) {
        FlattenSnoc(g, []);
      } else if SplitsAtOption(p, i - 1, alloptions) {
        FlattenSnoc(g, [s]);
      } else {
        var last := |g| - 1;
        FlattenExtendLast(g[..last], g[last], s);
        assert g[..last] + [g[last]] == g;
      }
    }
  }

  /** The selection through the groups: `options.<g0>`, then each later group `g` wraps it as
      `(<previous>.type.getSubOptions []).<g>`. */
  function Selection(gs: seq<seq<string>>): string
    requires |gs| >= 1
  {
    if |gs| == 1 then "options." + Dotted(gs[0])
    else "(" + Selection(gs[..|gs| - 1]) + ".type.getSubOptions [])." + Dotted(gs[|gs| - 1])
  }

  /** The check expression of the schema path with segments `p`. */
  function CheckExprOf(p: seq<string>, alloptions: seq<string>): string
  {
    Selection(CheckGroups(p, |p|, alloptions)) + ".type.check"
  }

  /** The check expression of a schema path. */
  function CheckExpr(refopt: string, alloptions: seq<string>): string
  {
    CheckExprOf(Segments(refopt), alloptions)
  }

  /** `n` copies of `c`. */
  function Repeat(c: char, n: nat): (r: string)
    ensures |r| == n && forall k | 0 <= k < n :: r[k] == c
  {
    if n == 0 then [] else [c] + Repeat(c, n - 1)
  }

  /** Each group after the first adds one level of `getSubOptions` nesting, so the selection
      opens with one parenthesis per such group, directly followed by `options.`. */
  lemma {:induction false} SelectionNesting(gs: seq<seq<string>>)
    requires |gs| >= 1
    ensures IsPrefix(Repeat('(', |gs| - 1) + "options.", Selection(gs))
  {
    if |gs| > 1 {
      var n := |gs| - 1;
      SelectionNesting(gs[..n]);
      var pre := Repeat('(', n - 1) + "options.";
      assert Repeat('(', n) + "options." == "(" + pre;
      var rest := Selection(gs[..n]);
      assert rest[..|pre|] == pre;
      var whole := "(" + rest + ".type.getSubOptions [])." + Dotted(gs[n]);
      assert whole[..|pre| + 1] == "(" + rest[..|pre|];
    }
  }

  /** The check expression has one level of nesting per wildcard or option-boundary group,
      so at least one more than there are wildcards. */
  lemma CheckExprNesting(p: seq<string>, alloptions: seq<string>)
    ensures |CheckGroups(p, |p|, alloptions)| >= CountWildcards(p) + 1
    ensures IsPrefix(Repeat('(', |CheckGroups(p, |p|, alloptions)| - 1) + "options.", CheckExprOf(p, alloptions))
  {
    var gs := CheckGroups(p, |p|, alloptions);
    GroupsCountWildcards(p, |p|, alloptions);
    assert p[..|p|] == p;
    SelectionNesting(gs);
    var sel := Selection(gs);
    var pre := Repeat('(', |gs| - 1) + "options.";
    assert (sel + ".type.check")[..|pre|] == sel[..|pre|];
  }

  /** Every wildcard adds one group. */
  lemma {:induction false} GroupsCountWildcards(p: seq<string>, i: nat, alloptions: seq<string>)
    requires i <= |p|
    ensures |CheckGroups(p, i, alloptions)| >= CountWildcards(p[..i]) + 1
  {
    if i > 0 {
      GroupsCountWildcards(p, i - 1, alloptions);
      assert p[..i][..i - 1] == p[..i - 1];
    }
  }

  /** `checkcmd`: the first loop cuts the schema path into groups, the second builds the
      selection. The concrete path must have a segment at every wildcard position, since the
      source indexes it there; the indices it collects from them are never used. */
  method CheckCmd(opt: string, refopt: string, alloptions: seq<string>) returns (cmd: string)
    requires WildcardsCovered(Segments(refopt), Segments(opt))
    ensures cmd == CheckExpr(refopt, alloptions)
  {
    var r := CutGroups(Segments(refopt), Segments(opt), alloptions);
    var s := BuildSelection(r);
    cmd := s + ".type.check";
  }

  /** The first loop of `checkcmd`. */
  method CutGroups(p: seq<string>, q: seq<string>, alloptions: seq<string>) returns (r: seq<seq<string>>)
    requires WildcardsCovered(p, q)
    ensures r == CheckGroups(p, |p|, alloptions)
  {
    r := [[]];
    var indexvec: seq<nat> := [];
    var j := 0;
    for i := 0 to |p|
      invariant r == CheckGroups(p, i, alloptions)
      invariant j == |r| - 1
    {
      ghost var g := r;
      if IsWildcard(p[i]) {
        r := r + [[]];
        var x := ParseUsize(q[i]);
        if x.Some? {
          indexvec := indexvec + [x.value];
        }
        j := j + 1;
      } else if Dotted(p[..i]) in alloptions && i + 1 < |p| {
        r := r + [[]];
        j := j + 1;
        r := r[j := r[j] + [p[i]]];
        assert r[j] == [p[i]];
        assert r == g + [[p[i]]];
      } else {
        r := r[j := r[j] + [p[i]]];
        assert r == g[..j] + [g[j] + [p[i]]];
      }
    }
  }

  /** The second loop of `checkcmd`. */
  method BuildSelection(r: seq<seq<string>>) returns (s: string)
    requires |r| >= 1
    ensures s == Selection(r)
  {
    s := "options." + Dotted(r[0]);
    for k := 1 to |r|
      invariant s == Selection(r[..k])
    {
      assert r[..k + 1][..k] == r[..k];
      s := "(" + s + ".type.getSubOptions []).";
      s := s + Dotted(r[k]);
    }
    assert r[..|r|] == r;
  }

  /** The expression handed to `nix-instantiate --eval --expr`: the check applied to the value. */
  function EvalExpression(checkcmd: string, conf: string): string
  {
    "with import <nixpkgs/nixos> {}; " + checkcmd + " (" + conf + ")"
  }

  /** What running the evaluator gave: it ran, with its exit status and its output decoded as
      text, or it could not be started. */
  datatype ProcessOutput =
    | Ran(success: bool, stdout: string, stderr: string)
    | SpawnFailed(error: string)

  /** The outcome sent back to the option page: the evaluator's standard output when it
      succeeded, its standard error when it failed, the error text when it did not start. */
  function Outcome(output: ProcessOutput): (r: (bool, string))
    ensures r.0 <==> output.Ran? && output.success
    ensures output.Ran? ==> r.1 == if output.success then output.stdout else output.stderr
    ensures output.SpawnFailed? ==> r.1 == output.error
  {
    match output
    case Ran(success, out, err) => if success then (true, out) else (false, err)
    case SpawnFailed(e) => (false, e)
  }

  /** The handling of one `SaveCheck(opt, refopt, conf, alloptions)` request; `evaluate` stands
      for running the evaluator on an expression. The pair is what `DoneSaving` carries. */
  method SaveCheck(opt: string, refopt: string, conf: string, alloptions: seq<string>,
                   evaluate: string -> ProcessOutput) returns (ok: bool, text: string)
    requires WildcardsCovered(Segments(refopt), Segments(opt))
    ensures (ok, text) == Outcome(evaluate(EvalExpression(CheckExpr(refopt, alloptions), conf)))
  {
    var checkcmd := CheckCmd(opt, refopt, alloptions);
    var output := evaluate(EvalExpression(checkcmd, conf));
    ok, text := Outcome(output).0, Outcome(output).1;
  }

  /** A wildcard closes the current group. */
  lemma GroupsAtWildcard(p: seq<string>, i: nat, alloptions: seq<string>)
    requires i < |p| && IsWildcard(p[i])
    ensures CheckGroups(p, i + 1, alloptions) == CheckGroups(p, i, alloptions) + [[]]
  {
  }

  /** A segment after a name that is an option, when it is not the last one, opens a new group
      holding it alone. */
  lemma GroupsAtOption(p: seq<string>, i: nat, alloptions: seq<string>)
    requires i < |p| && !IsWildcard(p[i]) && SplitsAtOption(p, i, alloptions)
    ensures CheckGroups(p, i + 1, alloptions) == CheckGroups(p, i, alloptions) + [[p[i]]]
  {
  }

  /** A segment that is neither a wildcard nor after an option name joins the current group. */
  lemma GroupsAppend(p: seq<string>, i: nat, alloptions: seq<string>)
    requires i < |p| && !IsWildcard(p[i]) && !SplitsAtOption(p, i, alloptions)
    ensures
      var g := CheckGroups(p, i, alloptions);
      CheckGroups(p, i + 1, alloptions) == g[..|g| - 1] + [g[|g| - 1] + [p[i]]]
  {
  }

  /** A first segment that is neither a wildcard nor after an option name forms the first
      group alone. */
  lemma FirstGroup(p: seq<string>, alloptions: seq<string>)
    requires |p| > 0 && !IsWildcard(p[0]) && !SplitsAtOption(p, 0, alloptions)
    ensures CheckGroups(p, 1, alloptions) == [[p[0]]]
  {
    var g0 := CheckGroups(p, 0, alloptions);
    assert g0 == [[]];
    assert g0[..0] == [] && g0[0] + [p[0]] == [p[0]];
  }

  /** Two first segments that are neither wildcards nor after an option name form the first
      group together. */
  lemma FirstTwoGroups(p: seq<string>, alloptions: seq<string>)
    requires |p| >= 2 && !IsWildcard(p[0]) && !IsWildcard(p[1])
    requires !SplitsAtOption(p, 0, alloptions) && !SplitsAtOption(p, 1, alloptions)
    ensures CheckGroups(p, 2, alloptions) == [[p[0], p[1]]]
  {
    FirstGroup(p, alloptions);
    GroupsAppend(p, 1, alloptions);
    var g1: seq<seq<string>> := [[p[0]]];
    assert g1[..0] == [] && g1[0] + [p[1]] == [p[0], p[1]];
  }

  /** Two plain segments, an attribute-name wildcard and a last segment form two groups when
      neither the empty path nor the first segment is an option. */
  lemma GroupsAroundName(x: string, y: string, z: string, alloptions: seq<string>)
    requires !IsWildcard(x) && !IsWildcard(y) && !IsWildcard(z)
    requires "" !in alloptions && x !in alloptions
    ensures CheckGroups([x, y, "<name>", z], 4, alloptions) == [[x, y], [z]]
  {
    var p := [x, y, "<name>", z];
    assert p[..0] == [] && Dotted([]) == "";
    assert p[..1] == [x] && Dotted([x]) == x;
    FirstTwoGroups(p, alloptions);
    GroupsAtWildcard(p, 2, alloptions);
    GroupsAppend(p, 3, alloptions);
    var g3: seq<seq<string>> := [[x, y], []];
    assert g3[..1] == [[x, y]] && g3[1] + [z] == [z];
  }

  /** The text of the example's expression, one concatenation at a time. */
  lemma UsersExampleText()
    ensures "(" + "options." + "users.users" + ".type.getSubOptions [])." + "autoSubUidGidRange" + ".type.check" ==
      "(options.users.users.type.getSubOptions []).autoSubUidGidRange.type.check"
  {
    assert "(" + "options." + "users.users" == "(options.users.users" by {
      assert "(" + "options." == "(options.";
    }
    assert "(options.users.users" + ".type.getSubOptions [])." + "autoSubUidGidRange" ==
      "(options.users.users.type.getSubOptions []).autoSubUidGidRange" by {
      assert "(options.users.users" + ".type.getSubOptions [])." == "(options.users.users.type.getSubOptions []).";
    }
  }

  /** The example of the source: for `users.users.<name>.autoSubUidGidRange`, where `users` is
      not an option, the check selects the sub-options of the
      `users.users` attribute set. Whether `users.users` is an option does not matter, since
      the segment after the wildcard is the last one. */
  lemma UsersExample(alloptions: seq<string>)
    requires "" !in alloptions && "users" !in alloptions
    ensures CheckExprOf(["users", "users", "<name>", "autoSubUidGidRange"], alloptions) ==
      "(options.users.users.type.getSubOptions []).autoSubUidGidRange.type.check"
  {
    GroupsAroundName("users", "users", "autoSubUidGidRange", alloptions);
    var g: seq<seq<string>> := [["users", "users"], ["autoSubUidGidRange"]];
    DottedPair("users", "users");
    assert g[..1] == [["users", "users"]];
    assert Selection(g) == "(" + "options." + "users.users" + ".type.getSubOptions [])." + "autoSubUidGidRange";
    UsersExampleText();
  }

  /** The groups of `a.b.c` when `a` is an option. */
  lemma OptionBoundaryGroups(alloptions: seq<string>)
    requires "" !in alloptions && "a" in alloptions && "a.b" !in alloptions
    ensures CheckGroups(["a", "b", "c"], 3, alloptions) == [["a"], ["b", "c"]]
  {
    var p := ["a", "b", "c"];
    assert p[..0] == [] && Dotted([]) == "";
    GroupsAppend(p, 0, alloptions);
    FirstGroup(p, alloptions);
    assert p[..1] == ["a"] && Dotted(["a"]) == "a";
    assert SplitsAtOption(p, 1, alloptions);
    GroupsAtOption(p, 1, alloptions);
    assert p[..2] == ["a", "b"];
    DottedPair("a", "b");
    GroupsAppend(p, 2, alloptions);
    var g2: seq<seq<string>> := [["a"], ["b"]];
    assert g2[..1] == [["a"]] && g2[1] + [p[2]] == ["b", "c"];
  }

  /** A segment after a name that is itself an option opens a new group: for `a.b.c` where `a`
      is an option, the check selects `b.c` among the sub-options of `a`. */
  lemma OptionBoundaryExample(alloptions: seq<string>)
    requires "" !in alloptions && "a" in alloptions && "a.b" !in alloptions
    ensures CheckExprOf(["a", "b", "c"], alloptions) == "(options.a.type.getSubOptions []).b.c.type.check"
  {
    OptionBoundaryGroups(alloptions);
    var g: seq<seq<string>> := [["a"], ["b", "c"]];
    DottedPair("b", "c");
    assert g[..1] == [["a"]];
    assert Selection(g) == "(" + "options." + "a" + ".type.getSubOptions [])." + "b.c";
    OptionBoundaryText();
  }

  /** The text of the expression of the option-boundary example. */
  lemma OptionBoundaryText()
    ensures "(" + "options." + "a" + ".type.getSubOptions [])." + "b.c" + ".type.check" ==
      "(options.a.type.getSubOptions []).b.c.type.check"
  {
    assert "(" + "options." + "a" == "(options.a" by {
      assert "(" + "options." == "(options.";
    }
    assert "(options.a" + ".type.getSubOptions [])." + "b.c" == "(options.a.type.getSubOptions []).b.c" by {
      assert "(options.a" + ".type.getSubOptions [])." == "(options.a.type.getSubOptions []).";
    }
  }

  /** Two segments joined with a dot. */
  lemma DottedPair(x: string, y: string)
    ensures Dotted([x, y]) == x + "." + y
  {
    assert [x, y][1..] == [y];
    assert Join([y], '.') == y;
  }
}
