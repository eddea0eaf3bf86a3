/** The session state of the main window (src/ui/window.rs, `AppModel::update`): the position
    in the option tree, the configured values, the pending edits, the busy flag, and the option,
    attribute and breadcrumb lists shown for the position. Messages to other components and to
    the window itself are returned as events. */
module Window {
  import opened Wrappers
  import opened Strings
  import Sorting
  import opened Options
  import opened Config

  /** A row of the option or attribute list: its path, and whether the configuration and the
      pending edits set anything at or below it. */
  datatype Row = Row(value: seq<string>, configured: bool, modified: bool)

  /** A breadcrumb button: the path it moves to, and whether that path is an option. */
  datatype AttrBtn = AttrBtn(value: seq<string>, opt: bool)

  datatype Page = ListPage | OptionPage | LoadingPage

  datatype HeaderBar = ListHeader | TitleHeader | SearchHeader

  /** What `InitialLoad` receives from the loader. */
  datatype LoadValues = LoadValues(data: map<string, OptionData>, tree: AttrTree, conf: map<string, string>)

  /** The messages the window sends, to other components or to itself. */
  datatype Event =
    | LoadOptions(options: seq<(string, bool)>)
    | MoveTo(pos: seq<string>)
    | OpenOption(pos: seq<string>)
    | ShowSearch
    | HideSearch
    | LoadError(title: string, body: string)
    | ShowLoadError(title: string, body: string)
    | RunWindow(path: string)
    | SetConfig(path: string, flake: Option<string>)
    | UpdateOption(data: OptionData, opt: seq<string>, value: string)
    | Search(query: string)
    | ShowSaveError(msg: string)
    | DoneSaving(ok: bool, out: string)
    | ResetConf
    | RebuildFinishError(msg: string)
    | StartRebuild(conf: string, path: string, flake: Option<string>)

  /** The rows for the names `names` below `pos`, flagged by the configured values and the
      pending edits. */
  function Rows(conf: map<string, string>, edited: map<string, string>, pos: seq<string>, names: seq<string>): (r: seq<Row>)
    ensures |r| == |names|
  {
    if names == [] then []
    else
      var n := |names| - 1;
      Rows(conf, edited, pos, names[..n]) + [Row(pos + [names[n]], OpConfigured(conf, pos, names[n]), OpConfigured(edited, pos, names[n]))]
  }

  /** Row `i` is the row of `names[i]`. */
  lemma {:induction false} RowsAt(conf: map<string, string>, edited: map<string, string>, pos: seq<string>, names: seq<string>, i: nat)
    requires i < |names|
    ensures Rows(conf, edited, pos, names)[i] ==
      Row(pos + [names[i]], OpConfigured(conf, pos, names[i]), OpConfigured(edited, pos, names[i]))
  {
    var n := |names| - 1;
    if i < n {
      RowsAt(conf, edited, pos, names[..n], i);
    }
  }

  /** A row is flagged modified exactly when some pending edit lies at or below its path. */
  lemma RowModifiedMeaning(conf: map<string, string>, edited: map<string, string>, pos: seq<string>, names: seq<string>, i: nat)
    requires i < |names|
    ensures Rows(conf, edited, pos, names)[i].modified <==>
      exists k | k in edited :: IsPrefix(Rows(conf, edited, pos, names)[i].value, Segments(k))
  {
    RowsAt(conf, edited, pos, names, i);
  }

  /** An edit marks as modified every row on its path, and no other row changes. */
  lemma {:induction false} EditMarksRows(conf: map<string, string>, edited: map<string, string>, pos: seq<string>, names: seq<string>, k: string, v: string)
    ensures |Rows(conf, edited[k := v], pos, names)| == |Rows(conf, edited, pos, names)|
    ensures forall i | 0 <= i < |names| ::
      var before, after := Rows(conf, edited, pos, names)[i], Rows(conf, edited[k := v], pos, names)[i];
      && after.value == before.value && after.configured == before.configured
      && (after.modified <==> before.modified || IsPrefix(pos + [names[i]], Segments(k)))
  {
    forall i | 0 <= i < |names|
      ensures
        var before, after := Rows(conf, edited, pos, names)[i], Rows(conf, edited[k := v], pos, names)[i];
        && after.value == before.value && after.configured == before.configured
        && (after.modified <==> before.modified || IsPrefix(pos + [names[i]], Segments(k)))
    {
      ConfiguredAfterInsert(edited, k, v, pos, names[i]);
      RowsAt(conf, edited, pos, names, i);
      RowsAt(conf, edited[k := v], pos, names, i);
    }
  }

  /** The breadcrumb buttons for the first `n` segments of `pos`: one per prefix, shortest
      first. */
  function Breadcrumbs(pos: seq<string>, n: nat): seq<AttrBtn>
    requires n <= |pos|
  {
    if n == 0 then [] else Breadcrumbs(pos, n - 1) + [AttrBtn(pos[..n], false)]
  }

  /** The buttons are the prefixes of `pos` of lengths 1 to `n` in order, none an option. */
  lemma {:induction false} BreadcrumbsMeaning(pos: seq<string>, n: nat)
    requires n <= |pos|
    ensures |Breadcrumbs(pos, n)| == n
    ensures forall i | 0 <= i < n ::
      var b := Breadcrumbs(pos, n)[i];
      !b.opt && |b.value| == i + 1 && IsPrefix(b.value, pos)
  {
    if n > 0 {
      BreadcrumbsMeaning(pos, n - 1);
      var prev := Breadcrumbs(pos, n - 1);
      assert forall i | 0 <= i < n - 1 :: Breadcrumbs(pos, n)[i] == prev[i];
    }
  }

  /** The value an opened option shows: the pending edit, else the configured value, else
      empty. */
  function OpenedValue(edited: map<string, string>, conf: map<string, string>, key: string): (r: string)
    ensures key in edited ==> r == edited[key]
    ensures key !in edited && key in conf ==> r == conf[key]
    ensures key !in edited && key !in conf ==> r == ""
  {
    if key in edited then edited[key] else if key in conf then conf[key] else ""
  }

  /** Opening an option after editing it shows the edit; after the edits are reset it shows
      the configured value again. */
  lemma EditThenOpen(edited: map<string, string>, conf: map<string, string>, key: string, v: string)
    ensures OpenedValue(edited[key := v], conf, key) == v
    ensures OpenedValue(map[], conf, key) == if key in conf then conf[key] else ""
  {
  }

  /** The search entry for option key `k`: the key, and whether the configuration sets it,
      asked of `opconfigured` with the key's last segment split off. */
  function SearchEntryOf(conf: map<string, string>, k: string): (string, bool)
  {
    var v := Segments(k);
    (k, OpConfigured(conf, v[..|v| - 1], v[|v| - 1]))
  }

  /** The flag of a search entry holds exactly when some configured key has every segment of
      the option key as a prefix. */
  lemma SearchEntryFlag(conf: map<string, string>, k: string)
    ensures SearchEntryOf(conf, k).1 <==> exists c | c in conf :: IsPrefix(Segments(k), Segments(c))
  {
    var v := Segments(k);
    assert v[..|v| - 1] + [v[|v| - 1]] == v;
  }

  /** The search entries for the keys in `order`. */
  function SearchEntries(conf: map<string, string>, order: seq<string>): (r: seq<(string, bool)>)
    ensures |r| == |order|
  {
    seq(|order|, i requires 0 <= i < |order| => SearchEntryOf(conf, order[i]))
  }

  /** Strictly ascending in string order. */
  predicate Ascending(s: seq<string>)
  {
    forall i, j | 0 <= i < j < |s| :: StrLe(s[i], s[j]) && s[i] != s[j]
  }

  /** The ascending listing of a set is unique: the attribute list does not depend on the
      iteration order of the map it comes from. */
  lemma {:induction false} AscendingUnique(a: seq<string>, b: seq<string>)
    requires Ascending(a) && Ascending(b)
    requires forall x :: x in a <==> x in b
    ensures a == b
    decreases |a|
  {
    if a != [] {
      assert a[0] in a;
    }
    if b != [] {
      assert b[0] in b;
    }
    if a != [] && b != [] {
      var i :| 0 <= i < |b| && b[i] == a[0];
      var j :| 0 <= j < |a| && a[j] == b[0];
      if a[0] != b[0] {
        StrLeAntisymmetric(a[0], b[0]);
      }
      forall x ensures x in a[1..] <==> x in b[1..] {
        if x in a[1..] {
          var m :| 0 <= m < |a| - 1 && a[1..][m] == x;
          assert a[m + 1] == x;
        }
        if x in b[1..] {
          var m :| 0 <= m < |b| - 1 && b[1..][m] == x;
          assert b[m + 1] == x;
        }
        if x in a && x != a[0] {
          var m :| 0 <= m < |a| && a[m] == x;
          assert a[1..][m - 1] == x;
        }
        if x in b && x != b[0] {
          var m :| 0 <= m < |b| && b[m] == x;
          assert b[1..][m - 1] == x;
        }
      }
      AscendingUnique(a[1..], b[1..]);
      assert a == [a[0]] + a[1..] && b == [b[0]] + b[1..];
    }
  }

  /** `rows` are the rows for the names in `keys`, in ascending order (which
      `AscendingUnique` shows is a single listing). */
  ghost predicate ListsKeysAscending(rows: seq<Row>, conf: map<string, string>, edited: map<string, string>, pos: seq<string>, keys: set<string>)
  {
    exists names :: Enumerates(names, keys) && Ascending(names) && rows == Rows(conf, edited, pos, names)
  }

  lemma StrLeIsTotalPreorder()
    ensures Sorting.IsTotalPreorder(StrLe)
  {
    forall a: string, b: string ensures StrLe(a, b) || StrLe(b, a) {
      StrLeTotal(a, b);
    }
    forall a: string, b: string, c: string | StrLe(a, b) && StrLe(b, c) ensures StrLe(a, c) {
      StrLeTransitive(a, b, c);
    }
  }

  /** `sort()` on strings. */
  function SortStrings(s: seq<string>): (r: seq<string>)
    ensures multiset(r) == multiset(s)
    ensures Sorting.SortedBy(r, StrLe)
  {
    StrLeIsTotalPreorder();
    Sorting.Sort(s, StrLe)
  }

  /** Sorting the distinct keys of a map lists them in ascending order. */
  lemma SortedKeysAscending(keys: seq<string>, s: set<string>)
    requires Enumerates(keys, s)
    ensures Enumerates(SortStrings(keys), s)
    ensures Ascending(SortStrings(keys))
  {
    PermutationEnumerates(keys, SortStrings(keys), s);
  }

  /** A permutation of an enumeration of `s` enumerates `s`. */
  lemma PermutationEnumerates(keys: seq<string>, r: seq<string>, s: set<string>)
    requires Enumerates(keys, s) && multiset(r) == multiset(keys)
    ensures Enumerates(r, s)
  {
    forall i | 0 <= i < |r| ensures r[i] in s {
      assert r[i] in multiset(r);
      assert r[i] in keys;
    }
    forall k | k in s ensures k in r {
      assert k in multiset(keys);
    }
    forall i, j | 0 <= i < j < |r| ensures r[i] != r[j] {
      if r[i] == r[j] {
        RepeatCounts(r, i, j);
        DistinctCount(keys, r[i]);
      }
    }
  }

  /** A value at two positions is counted at least twice. */
  lemma RepeatCounts(s: seq<string>, i: nat, j: nat)
    requires i < j < |s| && s[i] == s[j]
    ensures multiset(s)[s[i]] >= 2
  {
    assert s == s[..j] + s[j..];
    assert s[..j][i] == s[i];
    assert s[j..][0] == s[i];
    assert multiset(s) == multiset(s[..j]) + multiset(s[j..]);
  }

  /** A value occurs at most once in a sequence without repetitions. */
  lemma {:induction false} DistinctCount(s: seq<string>, x: string)
    requires forall i, j | 0 <= i < j < |s| :: s[i] != s[j]
    ensures multiset(s)[x] <= 1
  {
    if s != [] {
      var n := |s| - 1;
      assert s == s[..n] + [s[n]];
      DistinctCount(s[..n], x);
      if s[n] == x {
        assert x !in s[..n];
      }
    }
  }

  /** The rows listed for `names` below `pos`, computed one by one. */
  method ListRows(conf: map<string, string>, edited: map<string, string>, pos: seq<string>, names: seq<string>)
    returns (rows: seq<Row>)
    ensures rows == Rows(conf, edited, pos, names)
  {
    rows := [];
    for i := 0 to |names|
      invariant rows == Rows(conf, edited, pos, names[..i])
    {
      assert names[..i + 1][..i] == names[..i];
      var o := pos + [names[i]];
      rows := rows + [Row(o, OpConfigured(conf, pos, names[i]), OpConfigured(edited, pos, names[i]))];
    }
    assert names[..|names|] == names;
  }

  /** The option rows and the attribute rows listed for `node` at `pos`: its options sorted,
      and the keys of its child map collected in iteration order and sorted. */
  method ListNode(conf: map<string, string>, edited: map<string, string>, pos: seq<string>, node: AttrTree)
    returns (opts: seq<Row>, attrs: seq<Row>)
    ensures opts == Rows(conf, edited, pos, SortStrings(node.options))
    ensures ListsKeysAscending(attrs, conf, edited, pos, node.attributes.Keys)
  {
    var sortedoptions := SortStrings(node.options);
    opts := ListRows(conf, edited, pos, sortedoptions);
    var keys := KeysOf(node.attributes);
    var sortedattrs := SortStrings(keys);
    SortedKeysAscending(keys, node.attributes.Keys);
    attrs := ListRows(conf, edited, pos, sortedattrs);
  }

  /** The breadcrumb buttons, pushed one prefix at a time. */
  method PrefixButtons(pos: seq<string>, n: nat) returns (btns: seq<AttrBtn>)
    requires n <= |pos|
    ensures btns == Breadcrumbs(pos, n)
  {
    btns := [];
    var pref: seq<string> := [];
    for i := 0 to n
      invariant pref == pos[..i]
      invariant btns == Breadcrumbs(pos, i)
    {
      pref := pref + [pos[i]];
      btns := btns + [AttrBtn(pref, false)];
    }
  }

  /** The breadcrumbs of an opened option: one per proper prefix, then the option itself. */
  function OptionBreadcrumbs(pos: seq<string>): seq<AttrBtn>
  {
    (if pos == [] then [] else Breadcrumbs(pos, |pos| - 1)) + [AttrBtn(pos, true)]
  }

  /** The breadcrumbs of an opened option, pushed for the path without its last segment and
      then for the option. */
  method OptionButtons(pos: seq<string>) returns (btns: seq<AttrBtn>)
    ensures btns == OptionBreadcrumbs(pos)
  {
    var p2 := if pos == [] then [] else pos[..|pos| - 1];
    btns := PrefixButtons(pos, |p2|);
    btns := btns + [AttrBtn(pos, true)];
  }

  /** The keys of a map, in one iteration order. */
  method KeysOf<T>(m: map<string, T>) returns (keys: seq<string>)
    ensures Enumerates(keys, m.Keys)
  {
    keys := [];
    var rest := m.Keys;
    while rest != {}
      invariant rest <= m.Keys
      invariant Enumerates(keys, m.Keys - rest)
      decreases rest
    {
      var k :| k in rest;
      keys := keys + [k];
      rest := rest - {k};
    }
  }

  /** `AppModel`, restricted to the fields the session logic reads and writes. */
  class AppModel {
    var position: seq<string>
    var tree: AttrTree
    var attributes: seq<Row>
    var options: seq<Row>
    var posbtn: seq<AttrBtn>
    var conf: map<string, string>
    var page: Page
    var header: HeaderBar
    var search: bool
    var busy: bool
    var data: map<string, OptionData>
    /** The pending edits: option key to new value text. */
    var editedopts: map<string, string>
    var configpath: string
    var flake: Option<string>

    constructor (configpath: string, flake: Option<string>)
      ensures position == [] && tree == EmptyTree && attributes == [] && options == [] && posbtn == []
      ensures conf == map[] && editedopts == map[] && data == map[]
      ensures page == LoadingPage && header == TitleHeader && !search && busy
      ensures this.configpath == configpath && this.flake == flake
    {
      position := [];
      tree := EmptyTree;
      attributes := [];
      options := [];
      posbtn := [];
      conf := map[];
      page := LoadingPage;
      header := TitleHeader;
      search := false;
      busy := true;
      data := map[];
      editedopts := map[];
      this.configpath := configpath;
      this.flake := flake;
    }

    /** `InitialLoad`: take the loaded options, tree and configuration, hand the search page
        one entry per option, and move to the root. */
    method InitialLoad(x: LoadValues) returns (events: seq<Event>)
      modifies this`position, this`tree, this`conf, this`busy, this`data
      ensures data == x.data && tree == x.tree && conf == x.conf && position == [] && !busy
      ensures exists order :: (Enumerates(order, x.data.Keys) &&
        events == [LoadOptions(SearchEntries(x.conf, order)), MoveTo([])])
    {
      data := x.data;
      tree := x.tree;
      conf := x.conf;
      position := [];
      var keys := KeysOf(data);
      var entries := [];
      for i := 0 to |keys|
        invariant entries == SearchEntries(conf, keys[..i])
      {
        var v := Segments(keys[i]);
        var attr := v[|v| - 1];
        entries := entries + [(keys[i], OpConfigured(conf, v[..|v| - 1], attr))];
      }
      assert keys[..|keys|] == keys;
      busy := false;
      events := [LoadOptions(entries), MoveTo([])];
    }

    /** `LoadError(s, s2)`: stop being busy and show the error. */
    method ReportLoadError(s: string, s2: string) returns (events: seq<Event>)
      modifies this`busy
      ensures !busy && events == [ShowLoadError(s, s2)]
    {
      busy := false;
      events := [ShowLoadError(s, s2)];
    }

    /** `TryLoad`: become busy and load the configuration file again. */
    method TryLoad() returns (events: seq<Event>)
      modifies this`busy
      ensures busy && events == [RunWindow(configpath)]
    {
      busy := true;
      events := [RunWindow(configpath)];
    }

    /** `SetConfPath(s, b)`: become busy, show the loading page and load from the new path. */
    method SetConfPath(s: string, b: Option<string>) returns (events: seq<Event>)
      modifies this`page, this`busy, this`configpath, this`flake
      ensures busy && page == LoadingPage && configpath == s && flake == b
      ensures events == [SetConfig(s, b)]
    {
      busy := true;
      page := LoadingPage;
      configpath := s;
      flake := b;
      events := [SetConfig(s, b)];
    }

    /** The part of `MoveTo` for a path that is a node: the lists, the breadcrumbs and the
        position. */
    method ShowNode(pos: seq<string>, node: AttrTree)
      modifies this`position, this`attributes, this`options, this`posbtn
      ensures position == pos
      ensures options == Rows(conf, editedopts, pos, SortStrings(node.options))
      ensures ListsKeysAscending(attributes, conf, editedopts, pos, node.attributes.Keys)
      ensures posbtn == if pos == [] then old(posbtn) else Breadcrumbs(pos, |pos|)
    {
      var opts, attrs := ListNode(conf, editedopts, pos, node);
      var btns := posbtn;
      if pos != [] {
        btns := PrefixButtons(pos, |pos|);
      }
      options, attributes, posbtn, position := opts, attrs, btns, pos;
    }

    /** `MoveTo(pos)`: when `pos` is a node of the tree, list its options and its child
        attribute sets, each in ascending order with their configured and modified flags,
        show a breadcrumb per prefix of a non-empty `pos`, and make `pos` the position. A path
        that is not a node changes no list. Ignored while busy. */
    method MoveToPos(pos: seq<string>)
      modifies this`position, this`attributes, this`options, this`posbtn, this`page, this`header
      ensures old(busy) ==> unchanged(this)
      ensures !old(busy) ==>
        match AttrLoc(tree, pos)
        case None =>
          position == old(position) && options == old(options) && attributes == old(attributes) && posbtn == old(posbtn)
        case Some(node) =>
          && position == pos
          && options == Rows(conf, editedopts, pos, SortStrings(node.options))
          && ListsKeysAscending(attributes, conf, editedopts, pos, node.attributes.Keys)
          && posbtn == if pos == [] then old(posbtn) else Breadcrumbs(pos, |pos|)
      ensures !old(busy) ==> page == ListPage && header == if position == [] then TitleHeader else ListHeader
    {
      if busy {
        return;
      }
      page := ListPage;
      match AttrLoc(tree, pos) {
        case Some(x) =>
          header := if pos == [] then TitleHeader else ListHeader;
          ShowNode(pos, x);
        case None =>
          header := if position == [] then TitleHeader else ListHeader;
      }
    }

    /** `OpenOption(pos)`: send the option page the option's data and the value it shows (the
        pending edit, else the configured value, else empty), clear the lists, show a
        breadcrumb per proper prefix and one for the option, and switch to the option page.
        Ignored while busy; otherwise the option must be known. */
    method OpenOptionAt(pos: seq<string>) returns (events: seq<Event>)
      requires !busy ==> Dotted(pos) in data
      modifies this`position, this`attributes, this`options, this`posbtn, this`page, this`header, this`search
      ensures old(busy) ==> unchanged(this) && events == []
      ensures !old(busy) ==>
        && events == [UpdateOption(old(data)[Dotted(pos)], pos, OpenedValue(old(editedopts), old(conf), Dotted(pos)))]
        && options == [] && attributes == []
        && posbtn == OptionBreadcrumbs(pos)
        && position == pos && header == ListHeader && !search && page == OptionPage
    {
      events := [];
      if busy {
        return;
      }
      var key := Dotted(pos);
      var d := data[key];
      var value: string;
      if key in editedopts {
        value := editedopts[key];
      } else if key in conf {
        value := conf[key];
      } else {
        value := "";
      }
      events := [UpdateOption(d, pos, value)];
      options := [];
      attributes := [];
      posbtn := OptionButtons(pos);
      position := pos;
      header := ListHeader;
      search := false;
      page := OptionPage;
    }

    /** `ShowSearch`: show the search bar, unless busy. */
    method ShowSearchBar()
      modifies this`header
      ensures header == if old(busy) then old(header) else SearchHeader
    {
      if !busy {
        header := SearchHeader;
      }
    }

    /** `HideSearch`: restore the header for the position and leave the search page. */
    method HideSearchBar()
      modifies this`header, this`search
      ensures header == (if position == [] then TitleHeader else ListHeader) && !search
    {
      if position == [] {
        header := TitleHeader;
      } else {
        header := ListHeader;
      }
      search := false;
    }

    /** `ToggleSearch`: ask to hide the search bar when it shows, else to show it; nothing
        while busy. The window itself does not change. */
    method ToggleSearch() returns (events: seq<Event>)
      ensures events == if busy then [] else if header == SearchHeader then [HideSearch] else [ShowSearch]
    {
      if busy {
        events := [];
      } else if header == SearchHeader {
        events := [HideSearch];
      } else {
        events := [ShowSearch];
      }
    }

    /** `ShowSearchPage(s)`: run the search and show its page, unless busy. */
    method ShowSearchPage(s: string) returns (events: seq<Event>)
      modifies this`search
      ensures old(busy) ==> unchanged(this) && events == []
      ensures !old(busy) ==> search && events == [Search(s)]
    {
      events := [];
      if !busy {
        events := [Search(s)];
        search := true;
      }
    }

    /** `HideSearchPage`: leave the search page. */
    method HideSearchPage()
      modifies this`search
      ensures !search
    {
      search := false;
    }

    /** `SetBusy(b)`. */
    method SetBusy(b: bool)
      modifies this`busy
      ensures busy == b
    {
      busy := b;
    }

    /** `SaveError(msg)`, `SaveWithError` and `SaveErrorReset` only forward: show the error,
        accept the value as if it checked (`"true\n"`), or reset the option page. */
    method SaveError(msg: string) returns (events: seq<Event>)
      ensures events == [ShowSaveError(msg)]
    {
      events := [ShowSaveError(msg)];
    }

    method SaveWithError() returns (events: seq<Event>)
      ensures events == [DoneSaving(true, "true\n")]
    {
      events := [DoneSaving(true, "true\n")];
    }

    method SaveErrorReset() returns (events: seq<Event>)
      ensures events == [ResetConf]
    {
      events := [ResetConf];
    }

    /** `EditOpt(opt, value)`: record one pending edit, replacing an earlier one for the same
        option; nothing else changes. */
    method EditOpt(opt: string, value: string)
      modifies this`editedopts
      ensures editedopts == old(editedopts)[opt := value]
    {
      editedopts := editedopts[opt := value];
    }

    /** `Rebuild`: apply the pending edits to the text of the configuration file (read from
        `configpath`) and start the rebuild with the result, or report why editing failed.
        `order` and `listOrder` are the iteration orders of the edit map and of the list
        groups inside `editconfig`. */
    method Rebuild(pr: Primitives, fileText: string, order: seq<string>, listOrder: seq<string>) returns (events: seq<Event>)
      requires Enumerates(order, editedopts.Keys)
      requires Enumerates(listOrder, GroupKeys(order))
      ensures events == match EditSpec(pr, fileText, editedopts, order, listOrder)
        case Ok(text) => [StartRebuild(text, configpath, flake)]
        case Err(e) => [RebuildFinishError("Error modifying configuration file.\n" + e)]
    {
      var r := EditConfig(pr, fileText, editedopts, order, listOrder);
      match r
      case Ok(text) =>
        events := [StartRebuild(text, configpath, flake)];
      case Err(e) =>
        events := [RebuildFinishError("Error modifying configuration file.\n" + e)];
    }

    /** `ResetConfig`: drop every pending edit and reopen the option on show, if any. */
    method ResetConfig() returns (events: seq<Event>)
      modifies this`editedopts
      ensures editedopts == map[]
      ensures events == if page == OptionPage then [OpenOption(position)] else []
    {
      editedopts := map[];
      events := [];
      if page == OptionPage {
        events := [OpenOption(position)];
      }
    }

    /** `SaveConfig`: drop every pending edit, now written to the file, and take the
        configured values parsed from the saved file, or report a file that does not parse
        and keep the old values. */
    method SaveConfig(parsed: Result<map<string, string>>) returns (events: seq<Event>)
      modifies this`conf, this`editedopts
      ensures editedopts == map[]
      ensures conf == if parsed.Ok? then parsed.value else old(conf)
      ensures events == if parsed.Ok? then [] else
        [LoadError("Error loading configuration file", "<tt>" + configpath + "</tt> may be an invalid configuration file")]
    {
      editedopts := map[];
      events := [];
      match parsed
      case Ok(c) =>
        conf := c;
      case Err(_) =>
        events := [LoadError("Error loading configuration file", "<tt>" + configpath + "</tt> may be an invalid configuration file")];
    }
  }
}
