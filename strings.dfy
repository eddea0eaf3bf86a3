/** String helpers with the semantics of the Rust standard-library calls the editor makes:
    `split`/`join` on a one-character separator, `parse::<usize>()`, `to_string()` of an index,
    `trim`, `replace`, byte length and the lexicographic order of `String`. */
module Strings {
  import opened Wrappers

  // ---------------------------------------------------------------- split / join

  /** `s.split(c)`: the pieces between occurrences of `c`; there is always at least one piece
      (`"".split(c)` yields `[""]`) and no piece contains `c`. */
  function Split(s: string, c: char): (r: seq<string>)
    ensures |r| >= 1
    ensures forall i | 0 <= i < |r| :: c !in r[i]
  {
    if |s| == 0 then [""]
    else
      var rest := Split(s[1..], c);
      if s[0] == c then [""] + rest else [[s[0]] + rest[0]] + rest[1..]
  }

  /** `parts.join(c)`; the empty vector joins to the empty string. */
  function Join(parts: seq<string>, c: char): string
  {
    if |parts| == 0 then ""
    else if |parts| == 1 then parts[0]
    else parts[0] + [c] + Join(parts[1..], c)
  }

  /** Every character of a piece of a split is a character of the text. */
  lemma {:induction false} SplitPieceChars(s: string, c: char, i: nat, ch: char)
    requires i < |Split(s, c)| && ch in Split(s, c)[i]
    ensures ch in s
    decreases |s|
  {
    if |s| > 0 {
      if s[0] == c {
        if i > 0 {
          SplitPieceChars(s[1..], c, i - 1, ch);
        }
      } else if i > 0 {
        SplitPieceChars(s[1..], c, i, ch);
      } else if ch != s[0] {
        SplitPieceChars(s[1..], c, 0, ch);
      }
    }
  }

  /** The segments of a dotted option path: `path.split('.')`. */
  function Segments(path: string): (segs: seq<string>)
    ensures |segs| >= 1
    ensures forall i | 0 <= i < |segs| :: '.' !in segs[i]
  {
    Split(path, '.')
  }

  /** A dotted option path from its segments: `segs.join(".")`. */
  function Dotted(segs: seq<string>): string
  {
    Join(segs, '.')
  }

  /** Joining the pieces of a split gives back the original text. */
  lemma {:induction false} JoinSplit(s: string, c: char)
    ensures Join(Split(s, c), c) == s
  {
    if |s| > 0 {
      JoinSplit(s[1..], c);
      var rest := Split(s[1..], c);
      if s[0] == c {
        assert Split(s, c) == [""] + rest;
        assert ([""] + rest)[1..] == rest;
      } else if |rest| > 1 {
        var r := Split(s, c);
        assert r == [[s[0]] + rest[0]] + rest[1..];
        assert r[1..] == rest[1..];
        assert Join(rest, c) == rest[0] + [c] + Join(rest[1..], c);
      }
    }
  }

  /** A separator splits the text into the pieces of its two sides. */
  lemma {:induction false} SplitConcat(a: string, b: string, c: char)
    ensures Split(a + [c] + b, c) == Split(a, c) + Split(b, c)
  {
    if |a| == 0 {
      assert a + [c] + b == [c] + b;
      assert ([c] + b)[1..] == b;
    } else {
      assert (a + [c] + b)[1..] == a[1..] + [c] + b;
      SplitConcat(a[1..], b, c);
    }
  }

  /** A text without the separator is a single piece. */
  lemma {:induction false} SplitNoSeparator(a: string, c: char)
    requires c !in a
    ensures Split(a, c) == [a]
  {
    if |a| > 0 {
      SplitNoSeparator(a[1..], c);
      assert [a[0]] + a[1..] == a;
    }
  }

  /** Splitting a join gives back the pieces, provided no piece contains the separator. */
  lemma {:induction false} SplitJoin(parts: seq<string>, c: char)
    requires |parts| >= 1
    requires forall i | 0 <= i < |parts| :: c !in parts[i]
    ensures Split(Join(parts, c), c) == parts
  {
    if |parts| == 1 {
      SplitNoSeparator(parts[0], c);
    } else {
      SplitJoin(parts[1..], c);
      SplitConcat(parts[0], Join(parts[1..], c), c);
      SplitNoSeparator(parts[0], c);
      assert [parts[0]] + parts[1..] == parts;
    }
  }

  /** Joining a concatenation puts one separator between the two joins. */
  lemma {:induction false} JoinConcat(a: seq<string>, b: seq<string>, c: char)
    requires |a| >= 1 && |b| >= 1
    ensures Join(a + b, c) == Join(a, c) + [c] + Join(b, c)
  {
    if |a| > 1 {
      assert (a + b)[1..] == a[1..] + b;
      JoinConcat(a[1..], b, c);
    } else {
      assert (a + b)[1..] == b;
    }
  }

  /** The join of the pieces after position `i` is strictly shorter than the whole join
      when the piece at `i` is not empty. */
  lemma {:induction false} JoinTailShorter(parts: seq<string>, i: nat, c: char)
    requires i < |parts| && |parts[i]| > 0
    ensures |Join(parts[i + 1..], c)| < |Join(parts, c)|
  {
    if i + 1 == |parts| {
      assert parts[i + 1..] == [];
      JoinGrows(parts, i, c);
    } else {
      JoinConcat(parts[..i + 1], parts[i + 1..], c);
      assert parts[..i + 1] + parts[i + 1..] == parts;
      JoinGrows(parts[..i + 1], i, c);
    }
  }

  /** A join is at least as long as each of its pieces. */
  lemma {:induction false} JoinGrows(parts: seq<string>, i: nat, c: char)
    requires i < |parts|
    ensures |parts[i]| <= |Join(parts, c)|
  {
    if i > 0 {
      JoinGrows(parts[1..], i - 1, c);
    }
  }

  /** The concatenation of the groups of a path cut into groups. */
  function Flatten(gs: seq<seq<string>>): seq<string>
  {
    if gs == [] then [] else Flatten(gs[..|gs| - 1]) + gs[|gs| - 1]
  }

  lemma FlattenSnoc(g: seq<seq<string>>, h: seq<string>)
    ensures Flatten(g + [h]) == Flatten(g) + h
  {
    assert (g + [h])[..|g|] == g;
  }

  lemma FlattenExtendLast(a: seq<seq<string>>, b: seq<string>, s: string)
    ensures Flatten(a + [b + [s]]) == Flatten(a + [b]) + [s]
  {
    FlattenSnoc(a, b + [s]);
    FlattenSnoc(a, b);
    assert Flatten(a) + (b + [s]) == (Flatten(a) + b) + [s];
  }

  // ---------------------------------------------------------------- prefixes and substrings

  /** `s[0..p.len()] == p` after checking the length, as the editor writes it. */
  predicate IsPrefix<T(==)>(p: seq<T>, s: seq<T>)
  {
    |p| <= |s| && s[..|p|] == p
  }

  /** `sub` occurs in `s` starting at position `i`. */
  predicate OccursAt(s: string, sub: string, i: int)
  {
    0 <= i <= |s| - |sub| && s[i..i + |sub|] == sub
  }

  /** `s.contains(sub)` for a string pattern. */
  predicate Contains(s: string, sub: string)
  {
    exists i | 0 <= i <= |s| - |sub| :: OccursAt(s, sub, i)
  }

  /** `s.replace(pat, rep)`: every non-overlapping occurrence of `pat`, left to right. */
  function ReplaceAll(s: string, pat: string, rep: string): string
    requires |pat| > 0
    decreases |s|
  {
    if |s| < |pat| then s
    else if s[..|pat|] == pat then rep + ReplaceAll(s[|pat|..], pat, rep)
    else [s[0]] + ReplaceAll(s[1..], pat, rep)
  }

  /** A text in which the pattern does not occur is left as it is. */
  lemma {:induction false} ReplaceAbsent(s: string, pat: string, rep: string)
    requires |pat| > 0 && !Contains(s, pat)
    ensures ReplaceAll(s, pat, rep) == s
    decreases |s|
  {
    if |s| >= |pat| {
      assert !OccursAt(s, pat, 0);
      forall i | OccursAt(s[1..], pat, i)
        ensures OccursAt(s, pat, i + 1)
      {
        assert s[1..][i..i + |pat|] == s[i + 1..i + 1 + |pat|];
      }
      ReplaceAbsent(s[1..], pat, rep);
      assert [s[0]] + s[1..] == s;
    }
  }

  /** The pattern alone is replaced by the replacement alone. */
  lemma ReplaceWhole(pat: string, rep: string)
    requires |pat| > 0
    ensures ReplaceAll(pat, pat, rep) == rep
  {
    assert pat[..|pat|] == pat;
    assert pat[|pat|..] == "";
  }

  /** `s.replace(ch, "")`: every occurrence of one character removed. */
  function RemoveChar(s: string, ch: char): (r: string)
    ensures ch !in r
    ensures |r| <= |s|
  {
    if |s| == 0 then ""
    else if s[0] == ch then RemoveChar(s[1..], ch)
    else [s[0]] + RemoveChar(s[1..], ch)
  }

  // ---------------------------------------------------------------- whitespace

  /** `char::is_whitespace`: the Unicode White_Space property. */
  predicate IsWhitespace(ch: char)
  {
    var n := ch as int;
    (9 <= n <= 13) || n == 32 || n == 0x85 || n == 0xA0 || n == 0x1680
    || (0x2000 <= n <= 0x200A) || n == 0x2028 || n == 0x2029 || n == 0x202F
    || n == 0x205F || n == 0x3000
  }

  function TrimStart(s: string): string
  {
    if |s| > 0 && IsWhitespace(s[0]) then TrimStart(s[1..]) else s
  }

  function TrimEnd(s: string): string
  {
    if |s| > 0 && IsWhitespace(s[|s| - 1]) then TrimEnd(s[..|s| - 1]) else s
  }

  /** `s.trim()`: leading and trailing whitespace removed. */
  function Trim(s: string): string
  {
    TrimEnd(TrimStart(s))
  }

  // ---------------------------------------------------------------- numbers

  /** The size of `usize` on the 64-bit targets the editor is built for. */
  const UsizeLimit: nat := 0x1_0000_0000_0000_0000

  predicate IsDigit(ch: char)
  {
    '0' <= ch <= '9'
  }

  predicate AllDigits(d: string)
  {
    forall i | 0 <= i < |d| :: IsDigit(d[i])
  }

  function DigitValue(ch: char): nat
    requires IsDigit(ch)
  {
    ch as int - '0' as int
  }

  /** The decimal value of a digit string. */
  function DigitsValue(d: string): nat
    requires AllDigits(d)
  {
    if |d| == 0 then 0 else DigitsValue(d[..|d| - 1]) * 10 + DigitValue(d[|d| - 1])
  }

  /** `s.parse::<usize>()`: an optional `+`, then one or more decimal digits whose value fits
      in 64 bits; anything else (including the empty string and a sign alone) is an error. */
  function ParseUsize(s: string): Option<nat>
  {
    if |s| == 0 then None
    else
      var d := if s[0] == '+' then s[1..] else s;
      if |d| == 0 || !AllDigits(d) then None
      else if DigitsValue(d) < UsizeLimit then Some(DigitsValue(d))
      else None
  }

  function Digit(n: nat): char
    requires n < 10
  {
    ('0' as int + n) as char
  }

  /** `n.to_string()` for an unsigned index: its decimal digits, without leading zeros. */
  function NatToString(n: nat): (r: string)
    ensures |r| >= 1 && AllDigits(r)
  {
    if n < 10 then [Digit(n)] else NatToString(n / 10) + [Digit(n % 10)]
  }

  lemma {:induction false} DigitsOfNat(n: nat)
    ensures DigitsValue(NatToString(n)) == n
  {
    if n >= 10 {
      DigitsOfNat(n / 10);
      var s := NatToString(n);
      assert s[..|s| - 1] == NatToString(n / 10);
    }
  }

  /** Printing an index and parsing it back gives the index. */
  lemma ParsePrintedIndex(n: nat)
    requires n < UsizeLimit
    ensures ParseUsize(NatToString(n)) == Some(n)
  {
    DigitsOfNat(n);
  }

  /** A printed index never contains the path separator. */
  lemma PrintedIndexHasNoDot(n: nat)
    ensures '.' !in NatToString(n)
  {
  }

  /** A string that parses as an index is not empty. */
  lemma ParsedIsNonEmpty(s: string)
    requires ParseUsize(s).Some?
    ensures |s| > 0
  {
  }

  // ---------------------------------------------------------------- length and order

  function CharUtf8Len(ch: char): nat
  {
    var n := ch as int;
    if n < 0x80 then 1 else if n < 0x800 then 2 else if n < 0x10000 then 3 else 4
  }

  /** `s.len()`: the length of the UTF-8 encoding, in bytes. */
  function Utf8Len(s: string): nat
  {
    if |s| == 0 then 0 else Utf8Len(s[..|s| - 1]) + CharUtf8Len(s[|s| - 1])
  }

  /** `a <= b` for `String`: lexicographic on the UTF-8 bytes, which is the same as
      lexicographic on code points. */
  predicate StrLe(a: string, b: string)
  {
    if |a| == 0 then true
    else if |b| == 0 then false
    else if a[0] != b[0] then a[0] < b[0]
    else StrLe(a[1..], b[1..])
  }

  lemma {:induction false} StrLeTotal(a: string, b: string)
    ensures StrLe(a, b) || StrLe(b, a)
  {
    if |a| > 0 && |b| > 0 && a[0] == b[0] {
      StrLeTotal(a[1..], b[1..]);
    }
  }

  lemma {:induction false} StrLeTransitive(a: string, b: string, c: string)
    requires StrLe(a, b) && StrLe(b, c)
    ensures StrLe(a, c)
  {
    if |a| > 0 && |b| > 0 && |c| > 0 && a[0] == b[0] == c[0] {
      StrLeTransitive(a[1..], b[1..], c[1..]);
    }
  }

  lemma {:induction false} StrLeAntisymmetric(a: string, b: string)
    requires StrLe(a, b) && StrLe(b, a)
    ensures a == b
  {
    if |a| > 0 && |b| > 0 {
      StrLeAntisymmetric(a[1..], b[1..]);
      assert a == [a[0]] + a[1..];
      assert b == [b[0]] + b[1..];
    }
  }
}
