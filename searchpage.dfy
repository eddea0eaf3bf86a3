/** The option search page (src/ui/searchpage.rs). A query is split at spaces; an option
    matches when its name contains every part. Matches are listed longest name first, names of
    equal length in ascending order, and at most `Cap` of them are shown. */
module SearchPage {
  import opened Strings
  import Sorting

  /** The most results a search shows. */
  const Cap: nat := 1500

  /** A search result: the option's path segments and whether the configuration sets it. */
  datatype SearchOption = SearchOption(value: seq<string>, configured: bool)

  /** An option as the search page holds it: its dotted name and its configured flag. */
  type Entry = (string, bool)

  /** `Ord` on `(String, bool)`: by name, then `false` before `true`. */
  function EntryLe(a: Entry, b: Entry): bool
  {
    StrLe(a.0, b.0) && (a.0 == b.0 ==> !a.1 || b.1)
  }

  /** The comparison of the second sort: longer names (in UTF-8 bytes) first. */
  function LongerFirst(a: Entry, b: Entry): bool
  {
    Utf8Len(a.0) >= Utf8Len(b.0)
  }

  lemma EntryLeIsTotalPreorder()
    ensures Sorting.IsTotalPreorder(EntryLe)
  {
    forall a: Entry, b: Entry ensures EntryLe(a, b) || EntryLe(b, a) {
      StrLeTotal(a.0, b.0);
    }
    forall a: Entry, b: Entry, c: Entry | EntryLe(a, b) && EntryLe(b, c) ensures EntryLe(a, c) {
      StrLeTransitive(a.0, b.0, c.0);
      if a.0 == c.0 {
        StrLeAntisymmetric(a.0, b.0);
      }
    }
  }

  lemma LongerFirstIsTotalPreorder()
    ensures Sorting.IsTotalPreorder(LongerFirst)
  {
  }

  /** The options in the order the search visits them: sorted, then stably sorted by length,
      longest first. */
  function Ranked(options: seq<Entry>): seq<Entry>
  {
    EntryLeIsTotalPreorder();
    LongerFirstIsTotalPreorder();
    Sorting.Sort(Sorting.Sort(options, EntryLe), LongerFirst)
  }

  /** The visiting order holds every option once per occurrence, longer names before shorter
      ones, and names of equal length in ascending order. */
  lemma RankedOrder(options: seq<Entry>)
    ensures multiset(Ranked(options)) == multiset(options)
    ensures forall i, j | 0 <= i < j < |Ranked(options)| ::
      var a, b := Ranked(options)[i], Ranked(options)[j];
      Utf8Len(a.0) >= Utf8Len(b.0) && (Utf8Len(a.0) == Utf8Len(b.0) ==> EntryLe(a, b))
  {
    EntryLeIsTotalPreorder();
    LongerFirstIsTotalPreorder();
    Sorting.SortStable(Sorting.Sort(options, EntryLe), LongerFirst, EntryLe);
  }

  /** Every space-separated part of the query occurs in the option's name; an empty part
      occurs in every name. */
  predicate Matches(query: string, opt: Entry)
  {
    forall part | part in Split(query, ' ') :: Contains(opt.0, part)
  }

  /** The result row for an option. */
  function Row(opt: Entry): SearchOption
  {
    SearchOption(Segments(opt.0), opt.1)
  }

  /** The rows of the matching options of `s`, in order, without the cap. */
  function Shown(query: string, s: seq<Entry>): (r: seq<SearchOption>)
    ensures |r| <= |s|
  {
    if s == [] then []
    else
      var n := |s| - 1;
      Shown(query, s[..n]) + if Matches(query, s[n]) then [Row(s[n])] else []
  }

  lemma {:induction false} ShownConcat(query: string, a: seq<Entry>, b: seq<Entry>)
    ensures Shown(query, a + b) == Shown(query, a) + Shown(query, b)
    decreases |b|
  {
    if b == [] {
      assert a + b == a;
    } else {
      var n := |b| - 1;
      assert (a + b)[..|a + b| - 1] == a + b[..n];
      ShownConcat(query, a, b[..n]);
    }
  }

  /** At most the first `Cap` rows. */
  function Capped(rows: seq<SearchOption>): (r: seq<SearchOption>)
    ensures |r| <= Cap && IsPrefix(r, rows)
    ensures |rows| <= Cap ==> r == rows
  {
    if |rows| <= Cap then rows else rows[..Cap]
  }

  /** The rows of a search: the first `Cap` matching options in the visiting order. */
  function Results(query: string, options: seq<Entry>): seq<SearchOption>
  {
    Capped(Shown(query, Ranked(options)))
  }

  /** `row` is the row of an option of `s` that matches the query. */
  ghost predicate MatchingRow(query: string, s: seq<Entry>, row: SearchOption)
  {
    exists o | o in s :: Matches(query, o) && row == Row(o)
  }

  /** Each row is a matching option of the list, split at dots. */
  lemma {:induction false} ShownSound(query: string, s: seq<Entry>, k: nat)
    requires k < |Shown(query, s)|
    ensures MatchingRow(query, s, Shown(query, s)[k])
  {
    var n := |s| - 1;
    var prev := Shown(query, s[..n]);
    if k < |prev| {
      ShownSound(query, s[..n], k);
      var o :| o in s[..n] && Matches(query, o) && prev[k] == Row(o);
      assert o in s;
    } else {
      assert s[n] in s;
    }
  }

  /** Every matching option has a row unless the cap cut the list. */
  lemma {:induction false} ShownComplete(query: string, s: seq<Entry>, o: Entry)
    requires o in s && Matches(query, o)
    ensures Row(o) in Shown(query, s)
  {
    var n := |s| - 1;
    if s[n] != o {
      assert o in s[..n] by {
        var i :| 0 <= i < |s| && s[i] == o;
        assert s[..n][i] == o;
      }
      ShownComplete(query, s[..n], o);
    }
  }

  /** What a search shows: at most `Cap` rows, each a loaded option that matches the query,
      and, when fewer than `Cap` options match, a row for every matching option. */
  lemma ResultsMeaning(query: string, options: seq<Entry>)
    ensures |Results(query, options)| <= Cap
    ensures forall k | 0 <= k < |Results(query, options)| :: MatchingRow(query, options, Results(query, options)[k])
    ensures |Shown(query, Ranked(options))| <= Cap ==>
      forall o | o in options && Matches(query, o) :: Row(o) in Results(query, options)
  {
    RankedOrder(options);
    var ranked := Ranked(options);
    var all := Shown(query, ranked);
    forall k | 0 <= k < |Results(query, options)|
      ensures MatchingRow(query, options, Results(query, options)[k])
    {
      assert Results(query, options)[k] == all[k];
      ShownSound(query, ranked, k);
      var o :| o in ranked && Matches(query, o) && all[k] == Row(o);
      assert o in multiset(ranked);
    }
    forall o | o in options && Matches(query, o) ensures Row(o) in all {
      assert o in multiset(options);
      ShownComplete(query, ranked, o);
    }
  }

  /** The loop of a search: visit the options in order, collect the rows of the matching ones
      and stop once `Cap` rows are collected. */
  method FirstMatches(query: string, sorted: seq<Entry>) returns (lst: seq<SearchOption>)
    ensures lst == Capped(Shown(query, sorted))
  {
    lst := [];
    var n := 0;
    while n < |sorted|
      invariant 0 <= n <= |sorted|
      invariant lst == Shown(query, sorted[..n])
      invariant |lst| < Cap
    {
      var opt := sorted[n];
      assert sorted[..n + 1][..n] == sorted[..n];
      if Matches(query, opt) {
        lst := lst + [Row(opt)];
      }
      if |lst| >= Cap {
        CappedPrefix(query, sorted, n + 1);
        return;
      }
      n := n + 1;
    }
    assert sorted[..n] == sorted;
  }

  /** Once a prefix of the list has `Cap` rows, the rest of the list adds none that are shown. */
  lemma CappedPrefix(query: string, s: seq<Entry>, n: nat)
    requires n <= |s| && |Shown(query, s[..n])| == Cap
    ensures Capped(Shown(query, s)) == Shown(query, s[..n])
  {
    ShownConcat(query, s[..n], s[n..]);
    assert s[..n] + s[n..] == s;
  }

  /** `SearchPageModel`: the loaded options and the rows of the last search. */
  class SearchPageModel {
    var options: seq<Entry>
    var oplst: seq<SearchOption>

    /** `init_model`: nothing loaded, nothing shown. */
    constructor ()
      ensures options == [] && oplst == []
    {
      options := [];
      oplst := [];
    }

    /** `Search(query)`: replace the rows by the first `Cap` matches in the visiting order. */
    method Search(query: string)
      modifies this`oplst
      ensures oplst == Results(query, options)
    {
      oplst := [];
      var sorted := Ranked(options);
      oplst := FirstMatches(query, sorted);
    }

    /** `LoadOptions(options)`: replace the loaded options; the rows stay until the next
        search. */
    method LoadOptions(opts: seq<Entry>)
      modifies this`options
      ensures options == opts
    {
      options := opts;
    }
  }
}
