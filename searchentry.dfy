/** The dialog that creates a new instance of an option under a wildcard
    (src/ui/searchentry.rs). Given a schema path with `<name>` and `*` segments and the
    option paths that already exist, it lets the user name each `<name>` and numbers each `*`
    one past the largest index in use, then asks the window to open the resulting path. */
module SearchEntry {
  import opened Wrappers
  import opened Strings
  import Sorting

  /** The escaped placeholder shown for an attribute name not chosen yet. */
  const NamePlaceholder := "&lt;name&gt;"

  /** The placeholder that marks the name being edited in a name-entry row. */
  const BoldNamePlaceholder := "<b>&lt;name&gt;</b>"

  /** A name-entry row: the path shown, and the position of the `<name>` segment it sets. */
  datatype NameEntry = NameEntry(value: string, index: nat)

  /** The messages the dialog sends to the window. */
  datatype Event =
    | AddNameAttr(parent: Option<string>, name: string)
    | AddStar(list: string)
    | OpenSearchOption(target: seq<string>, schema: seq<string>)

  /** A segment with every `<name>` escaped for display. */
  function Escape(seg: string): string
  {
    ReplaceAll(seg, "<name>", NamePlaceholder)
  }

  /** The text of the name-entry row for position `k`: the whole path with segment `k` in
      bold and every other `<name>` escaped. */
  function NameRow(pos: seq<string>, k: nat): string
    requires k < |pos|
  {
    ReplaceAll(Dotted(pos[k := BoldNamePlaceholder]), "<name>", NamePlaceholder)
  }

  /** The name-entry rows for the positions before `i`: one per `<name>` segment, by
      increasing position. */
  function NameEntriesBefore(pos: seq<string>, i: nat): (r: seq<NameEntry>)
    requires i <= |pos|
    ensures |r| <= i
    ensures forall e | e in r :: e.index < i && pos[e.index] == "<name>" && e.value == NameRow(pos, e.index)
    ensures forall k | 0 <= k < i && pos[k] == "<name>" :: exists e | e in r :: e.index == k
    ensures forall a, b | 0 <= a < b < |r| :: r[a].index < r[b].index
  {
    if i == 0 then []
    else
      var prev := NameEntriesBefore(pos, i - 1);
      if pos[i - 1] == "<name>" then prev + [NameEntry(NameRow(pos, i - 1), i - 1)] else prev
  }

  /** The name-entry rows of a schema path. */
  function NameEntries(pos: seq<string>): seq<NameEntry>
  {
    NameEntriesBefore(pos, |pos|)
  }

  /** Entry `d` of the existing paths lies under `prefix`. */
  predicate Under(d: string, prefix: seq<string>, i: nat)
  {
    var dvec := Segments(d);
    |dvec| >= i && dvec[..i] == prefix
  }

  /** The distinct names the existing paths under `prefix` have at position `i`, in order. */
  function NamesAt(data: seq<string>, prefix: seq<string>, i: nat): seq<string>
    requires forall j | 0 <= j < |data| :: |Segments(data[j])| > i
  {
    if data == [] then []
    else
      var n := |data| - 1;
      var dvec := Segments(data[n]);
      var prev := NamesAt(data[..n], prefix, i);
      if dvec[i] !in prev && dvec[..i] == prefix then prev + [dvec[i]] else prev
  }

  /** Some existing path under `prefix` has `x` at position `i`. */
  ghost predicate NameInUse(data: seq<string>, prefix: seq<string>, i: nat, x: string)
    requires forall j | 0 <= j < |data| :: |Segments(data[j])| > i
  {
    exists j | 0 <= j < |data| :: Under(data[j], prefix, i) && Segments(data[j])[i] == x
  }

  /** The names at `i` are distinct, and they are exactly the names in use there. */
  lemma {:induction false} NamesAtMeaning(data: seq<string>, prefix: seq<string>, i: nat)
    requires forall j | 0 <= j < |data| :: |Segments(data[j])| > i
    ensures forall a, b | 0 <= a < b < |NamesAt(data, prefix, i)| ::
      NamesAt(data, prefix, i)[a] != NamesAt(data, prefix, i)[b]
    ensures forall x :: x in NamesAt(data, prefix, i) <==> NameInUse(data, prefix, i, x)
  {
    if data != [] {
      var n := |data| - 1;
      assert forall j | 0 <= j < n :: data[..n][j] == data[j];
      NamesAtMeaning(data[..n], prefix, i);
      forall x {
        NameInUseSnoc(data, prefix, i, x);
      }
    }
  }

  lemma NameInUseSnoc(data: seq<string>, prefix: seq<string>, i: nat, x: string)
    requires forall j | 0 <= j < |data| :: |Segments(data[j])| > i
    requires data != []
    ensures NameInUse(data, prefix, i, x) <==>
      (NameInUse(data[..|data| - 1], prefix, i, x) ||
       (Under(data[|data| - 1], prefix, i) && Segments(data[|data| - 1])[i] == x))
  {
    var n := |data| - 1;
    assert forall j | 0 <= j < n :: data[..n][j] == data[j];
    if NameInUse(data, prefix, i, x) {
      var j :| 0 <= j < |data| && Under(data[j], prefix, i) && Segments(data[j])[i] == x;
    }
  }

  /** The distinct indices the existing paths under `prefix` have at position `i`, in order; a
      path without a number there contributes none. */
  function IndicesAt(data: seq<string>, prefix: seq<string>, i: nat): seq<nat>
    requires forall j | 0 <= j < |data| :: |Segments(data[j])| >= i
  {
    if data == [] then []
    else
      var n := |data| - 1;
      var prev := IndicesAt(data[..n], prefix, i);
      var dvec := Segments(data[n]);
      if dvec[..i] == prefix && i < |dvec| && ParseUsize(dvec[i]).Some? && ParseUsize(dvec[i]).value !in prev then
        prev + [ParseUsize(dvec[i]).value]
      else prev
  }

  /** Some existing path under `prefix` has a segment at `i` that parses as `x`. */
  ghost predicate IndexInUse(data: seq<string>, prefix: seq<string>, i: nat, x: nat)
  {
    exists j | 0 <= j < |data| ::
      Under(data[j], prefix, i) && i < |Segments(data[j])| && ParseUsize(Segments(data[j])[i]) == Some(x)
  }

  /** The indices at `i` are distinct, and they are exactly the indices in use there. */
  lemma {:induction false} IndicesAtMeaning(data: seq<string>, prefix: seq<string>, i: nat)
    requires forall j | 0 <= j < |data| :: |Segments(data[j])| >= i
    ensures forall a, b | 0 <= a < b < |IndicesAt(data, prefix, i)| ::
      IndicesAt(data, prefix, i)[a] != IndicesAt(data, prefix, i)[b]
    ensures forall x :: x in IndicesAt(data, prefix, i) <==> IndexInUse(data, prefix, i, x)
  {
    if data != [] {
      var n := |data| - 1;
      assert forall j | 0 <= j < n :: data[..n][j] == data[j];
      IndicesAtMeaning(data[..n], prefix, i);
      forall x: nat {
        IndexInUseSnoc(data, prefix, i, x);
      }
    }
  }

  lemma IndexInUseSnoc(data: seq<string>, prefix: seq<string>, i: nat, x: nat)
    requires data != []
    ensures IndexInUse(data, prefix, i, x) <==>
      (IndexInUse(data[..|data| - 1], prefix, i, x) ||
       (Under(data[|data| - 1], prefix, i) && i < |Segments(data[|data| - 1])| &&
        ParseUsize(Segments(data[|data| - 1])[i]) == Some(x)))
  {
    var n := |data| - 1;
    assert forall j | 0 <= j < n :: data[..n][j] == data[j];
    if IndexInUse(data, prefix, i, x) {
      var j :| 0 <= j < |data| && Under(data[j], prefix, i) && i < |Segments(data[j])| &&
        ParseUsize(Segments(data[j])[i]) == Some(x);
    }
  }

  /** The order of `sort_unstable` on indices. */
  function NatLe(a: nat, b: nat): bool
  {
    a <= b
  }

  /** The index for a new element: one past the last of the sorted indices in use, 0 when none
      is. It is the least number above every index in use. */
  function NextFree(existing: seq<nat>): (r: nat)
    ensures r !in existing
    ensures forall x | x in existing :: x < r
    ensures existing == [] ==> r == 0
    ensures existing != [] ==> r - 1 in existing
  {
    assert Sorting.IsTotalPreorder(NatLe);
    var sorted := Sorting.Sort(existing, NatLe);
    if sorted == [] then
      assert |multiset(existing)| == 0;
      0
    else
      SortedLastIsMax(existing, sorted);
      sorted[|sorted| - 1] + 1
  }

  /** The last of the sorted indices is one of them and no index exceeds it. */
  lemma SortedLastIsMax(existing: seq<nat>, sorted: seq<nat>)
    requires sorted != [] && multiset(sorted) == multiset(existing) && Sorting.SortedBy(sorted, NatLe)
    ensures sorted[|sorted| - 1] in existing
    ensures forall x | x in existing :: x <= sorted[|sorted| - 1]
  {
    var last := sorted[|sorted| - 1];
    assert last in multiset(existing);
    forall x | x in existing ensures x <= last {
      assert x in multiset(sorted);
      var k :| 0 <= k < |sorted| && sorted[k] == x;
      if k < |sorted| - 1 {
        assert NatLe(sorted[k], sorted[|sorted| - 1]);
      }
    }
  }

  /** Every existing path is long enough at every wildcard of the schema path: the source
      indexes its segments there. */
  predicate DataCoversWildcards(position: seq<string>, data: seq<string>)
  {
    forall k, j | 0 <= k < |position| && 0 <= j < |data| ::
      && (position[k] == "<name>" ==> |Segments(data[j])| > k)
      && (position[k] == "*" ==> |Segments(data[j])| >= k)
  }

  /** The events a save without a destination sends for the wildcards before position `i`: at a
      `<name>` the name is added when no existing path under the same prefix has it; at a `*` a
      new element is added to the list there. */
  function SaveEvents(position: seq<string>, customopt: seq<string>, data: seq<string>, i: nat): seq<Event>
    requires i <= |position| == |customopt|
    requires DataCoversWildcards(position, data)
  {
    if i == 0 then []
    else
      var k := i - 1;
      SaveEvents(position, customopt, data, k) +
        if position[k] == "<name>" then
          if customopt[k] !in NamesAt(data, customopt[..k], k) then
            [AddNameAttr(Some(Dotted(customopt[..k])), customopt[k])]
          else []
        else if position[k] == "*" then [AddStar(Dotted(customopt[..k]))]
        else []
  }

  /** The index a `*` at position `k` receives. */
  function StarIndex(customopt: seq<string>, data: seq<string>, k: nat): nat
    requires k <= |customopt|
    requires forall j | 0 <= j < |data| :: |Segments(data[j])| >= k
  {
    NextFree(IndicesAt(data, customopt[..k], k))
  }

  /** The concrete path a save without a destination opens: every `*` replaced by its new
      index, computed against the path before any replacement. */
  function SavedPath(position: seq<string>, customopt: seq<string>, data: seq<string>): (r: seq<string>)
    requires |position| == |customopt|
    requires DataCoversWildcards(position, data)
    ensures |r| == |customopt|
  {
    seq(|customopt|, k requires 0 <= k < |customopt| =>
      if position[k] == "*" then NatToString(StarIndex(customopt, data, k)) else customopt[k])
  }

  /** The new index at a `*` reads back as a number above every index in use under the same
      prefix, and it is a single segment. */
  lemma StarIndexFresh(position: seq<string>, customopt: seq<string>, data: seq<string>, k: nat)
    requires |position| == |customopt| && DataCoversWildcards(position, data)
    requires k < |position| && position[k] == "*"
    requires StarIndex(customopt, data, k) < UsizeLimit
    ensures ParseUsize(SavedPath(position, customopt, data)[k]) == Some(StarIndex(customopt, data, k))
    ensures '.' !in SavedPath(position, customopt, data)[k]
    ensures forall j | 0 <= j < |data| && Under(data[j], customopt[..k], k) && k < |Segments(data[j])| ::
      ParseUsize(Segments(data[j])[k]) != Some(StarIndex(customopt, data, k))
  {
    IndicesAtMeaning(data, customopt[..k], k);
    ParsePrintedIndex(StarIndex(customopt, data, k));
    PrintedIndexHasNoDot(StarIndex(customopt, data, k));
  }

  /** A `*` after an earlier `*` always receives index 0: the earlier wildcard is still the
      literal `*` when the later one is numbered, and no existing path has that segment, so no
      path lies under the prefix. The list sits inside an element the same save creates, so it
      is empty. */
  lemma NestedStarStartsAtZero(cust: seq<string>, data: seq<string>, j: nat, k: nat)
    requires j < k <= |cust| && cust[j] == "*"
    requires forall d | 0 <= d < |data| :: |Segments(data[d])| >= k && Segments(data[d])[j] != "*"
    ensures StarIndex(cust, data, k) == 0
  {
    forall d | 0 <= d < |data| ensures !Under(data[d], cust[..k], k) {
      assert Segments(data[d])[..k][j] != cust[..k][j];
    }
    var r := IndicesAt(data, cust[..k], k);
    IndicesAtMeaning(data, cust[..k], k);
    if r != [] {
      assert r[0] in r;
    }
  }

  /** The names already in use at position `i` under `prefix`, as the source collects them. */
  method ExistingNames(data: seq<string>, prefix: seq<string>, i: nat) returns (existing: seq<string>)
    requires forall j | 0 <= j < |data| :: |Segments(data[j])| > i
    ensures existing == NamesAt(data, prefix, i)
  {
    existing := [];
    for j := 0 to |data|
      invariant existing == NamesAt(data[..j], prefix, i)
    {
      assert data[..j + 1][..j] == data[..j];
      var dvec := Segments(data[j]);
      if dvec[i] !in existing && dvec[..i] == prefix {
        existing := existing + [dvec[i]];
      }
    }
    assert data[..|data|] == data;
  }

  /** The indices already in use at position `i` under `prefix`, as the source collects them. */
  method ExistingIndices(data: seq<string>, prefix: seq<string>, i: nat) returns (existing: seq<nat>)
    requires forall j | 0 <= j < |data| :: |Segments(data[j])| >= i
    ensures existing == IndicesAt(data, prefix, i)
  {
    existing := [];
    for j := 0 to |data|
      invariant existing == IndicesAt(data[..j], prefix, i)
    {
      assert data[..j + 1][..j] == data[..j];
      var dvec := Segments(data[j]);
      if dvec[..i] == prefix && i < |dvec| {
        var x := ParseUsize(dvec[i]);
        if x.Some? && x.value !in existing {
          existing := existing + [x.value];
        }
      }
    }
    assert data[..|data|] == data;
  }

  /** The loop of a save over the wildcards of the schema path: the events it sends, and the
      new index of every `*`, by position. */
  method WildcardEvents(pos: seq<string>, cust: seq<string>, dat: seq<string>) returns (events: seq<Event>, n: map<nat, nat>)
    requires |pos| == |cust| && DataCoversWildcards(pos, dat)
    ensures events == SaveEvents(pos, cust, dat, |pos|)
    ensures forall k | 0 <= k < |pos| && pos[k] == "*" :: k in n && n[k] == StarIndex(cust, dat, k)
    ensures forall k | k in n :: k < |pos| && pos[k] == "*"
  {
    ghost var value: nat -> nat := (k: nat) => StarIndexAt(pos, cust, dat, k);
    events := [];
    n := map[];
    for i := 0 to |pos|
      invariant events == SaveEvents(pos, cust, dat, i)
      invariant n == Numbered(pos, i, value)
    {
      var ev := WildcardAt(pos, cust, dat, i);
      events := events + ev;
      if pos[i] == "*" {
        var num := NewIndex(pos, cust, dat, i);
        n := n[i := num];
      }
    }
    NumberedCovers(pos, |pos|, value);
    NumberedOnlyStars(pos, |pos|, value);
  }

  /** The `*` positions before `i`, each mapped to `value` of it. */
  ghost function Numbered(pos: seq<string>, i: nat, value: nat -> nat): map<nat, nat>
    requires i <= |pos|
  {
    if i == 0 then map[]
    else
      var m := Numbered(pos, i - 1, value);
      if pos[i - 1] == "*" then m[i - 1 := value(i - 1)] else m
  }

  /** Every `*` position before `i` is numbered, with its value. */
  lemma {:induction false} NumberedCovers(pos: seq<string>, i: nat, value: nat -> nat)
    requires i <= |pos|
    ensures forall k | 0 <= k < i && pos[k] == "*" :: k in Numbered(pos, i, value) && Numbered(pos, i, value)[k] == value(k)
  {
    if i > 0 {
      NumberedCovers(pos, i - 1, value);
    }
  }

  /** Only `*` positions before `i` are numbered. */
  lemma {:induction false} NumberedOnlyStars(pos: seq<string>, i: nat, value: nat -> nat)
    requires i <= |pos|
    ensures forall k | k in Numbered(pos, i, value) :: k < i && pos[k] == "*"
  {
    if i > 0 {
      NumberedOnlyStars(pos, i - 1, value);
    }
  }

  /** The index the `*` at position `k` of the schema path receives, 0 elsewhere. */
  ghost function StarIndexAt(pos: seq<string>, cust: seq<string>, dat: seq<string>, k: nat): nat
  {
    if k < |pos| == |cust| && DataCoversWildcards(pos, dat) && pos[k] == "*" then StarIndex(cust, dat, k) else 0
  }

  /** The index the `*` at position `i` receives: one past the largest in use there. */
  method NewIndex(pos: seq<string>, cust: seq<string>, dat: seq<string>, i: nat) returns (num: nat)
    requires i < |pos| == |cust| && DataCoversWildcards(pos, dat) && pos[i] == "*"
    ensures num == StarIndex(cust, dat, i)
  {
    var existing := ExistingIndices(dat, cust[..i], i);
    num := NextFree(existing);
  }

  /** The events of one position of the schema path. */
  method WildcardAt(pos: seq<string>, cust: seq<string>, dat: seq<string>, i: nat) returns (ev: seq<Event>)
    requires i < |pos| == |cust| && DataCoversWildcards(pos, dat)
    ensures SaveEvents(pos, cust, dat, i + 1) == SaveEvents(pos, cust, dat, i) + ev
  {
    ev := [];
    if pos[i] == "<name>" {
      var existing := ExistingNames(dat, cust[..i], i);
      if cust[i] !in existing {
        ev := [AddNameAttr(Some(Dotted(cust[..i])), cust[i])];
      }
    } else if pos[i] == "*" {
      ev := [AddStar(Dotted(cust[..i]))];
    }
  }

  /** Write the new index of every `*` into the concrete path, key by key in any order. */
  method NumberStars(cust: seq<string>, n: map<nat, nat>, ghost target: seq<string>) returns (r: seq<string>)
    requires |target| == |cust|
    requires forall k | 0 <= k < |cust| :: target[k] == if k in n then NatToString(n[k]) else cust[k]
    requires forall k | k in n :: k < |cust|
    ensures r == target
  {
    r := cust;
    var rest := n.Keys;
    while rest != {}
      invariant rest <= n.Keys
      invariant |r| == |target|
      invariant forall k | 0 <= k < |r| && k !in rest :: r[k] == target[k]
      decreases rest
    {
      var k :| k in rest;
      r := r[k := NatToString(n[k])];
      rest := rest - {k};
    }
  }

  /** `SearchEntryModel`: the dialog's state. */
  class SearchEntryModel {
    var hidden: bool
    /** The schema path being instantiated. */
    var position: seq<string>
    /** The existing option paths shown in the dialog. */
    var data: seq<string>
    var nameopts: seq<NameEntry>
    /** The concrete path being built, one segment per segment of `position`. */
    var customopt: seq<string>

    ghost predicate Valid()
      reads this
    {
      |customopt| == |position|
    }

    /** `init_model`: hidden, with nothing to show. */
    constructor ()
      ensures Valid()
      ensures hidden && position == [] && data == [] && nameopts == [] && customopt == []
    {
      hidden := true;
      position := [];
      data := [];
      nameopts := [];
      customopt := [];
    }

    /** `Show(pos, optdata)`: list the existing paths, one name-entry row per `<name>`, and
        start the concrete path as the schema path with `<name>` escaped. */
    method Show(pos: seq<string>, optdata: seq<string>)
      modifies this
      ensures Valid()
      ensures !hidden && position == pos && data == optdata
      ensures nameopts == NameEntries(pos)
      ensures |customopt| == |pos| && forall k | 0 <= k < |pos| :: customopt[k] == Escape(pos[k])
    {
      var shown := [];
      for j := 0 to |optdata|
        invariant shown == optdata[..j]
      {
        shown := shown + [optdata[j]];
      }
      assert optdata[..|optdata|] == optdata;
      data := shown;
      var names := [];
      for i := 0 to |pos|
        invariant names == NameEntriesBefore(pos, i)
      {
        if pos[i] == "<name>" {
          var op := pos[i := BoldNamePlaceholder];
          names := names + [NameEntry(ReplaceAll(Dotted(op), "<name>", NamePlaceholder), i)];
        }
      }
      nameopts := names;
      position := pos;
      customopt := seq(|pos|, k requires 0 <= k < |pos| => Escape(pos[k]));
      hidden := false;
    }

    /** `Close`: hide the dialog and forget the listed paths. */
    method Close()
      modifies this`hidden, this`data
      ensures hidden && data == []
    {
      hidden := true;
      data := [];
    }

    /** `Save(dest)`: hide the dialog and open `dest`, or, without a destination, announce the
        new names and list elements and open the concrete path with every `*` numbered. */
    method Save(dest: Option<seq<string>>) returns (events: seq<Event>)
      requires Valid()
      requires dest.None? ==> DataCoversWildcards(position, data)
      modifies this`hidden, this`data, this`customopt
      ensures Valid()
      ensures hidden && data == []
      ensures customopt == if dest.None? then SavedPath(old(position), old(customopt), old(data)) else old(customopt)
      ensures events ==
        (if dest.None? then SaveEvents(old(position), old(customopt), old(data), |old(position)|) else [])
        + [OpenSearchOption(if dest.Some? then dest.value else customopt, position)]
    {
      hidden := true;
      events := [];
      if dest.None? {
        var starred;
        events, starred := WildcardEvents(position, customopt, data);
        customopt := NumberStars(customopt, starred, SavedPath(position, customopt, data));
      }
      data := [];
      events := events + [OpenSearchOption(if dest.Some? then dest.value else customopt, position)];
    }

    /** `SetName(v, i)`: set the name at position `i`, back to the placeholder when `v` is empty;
        a position outside the path changes nothing. */
    method SetName(v: string, i: nat)
      requires Valid()
      modifies this`customopt
      ensures Valid()
      ensures customopt == if i < |position| then old(customopt)[i := if v == "" then NamePlaceholder else v] else old(customopt)
    {
      if i < |position| {
        if v == "" {
          customopt := customopt[i := NamePlaceholder];
        } else {
          customopt := customopt[i := v];
        }
      }
    }
  }
}
