/** The Python string operations the driver uses, over `seq<char>`:
    filtering by a character class, `str.split(sep)` with a one-character
    separator (and its inverse `sep.join`), `in`, `str.endswith` and
    `str.replace(old, new)`. */
module Text {

  /** The characters of `s` that satisfy `keep`, in their original order. */
  function Filter(s: string, keep: char -> bool): (r: string)
    ensures |r| <= |s|
    ensures forall i :: 0 <= i < |r| ==> keep(r[i])
  {
    if s == [] then [] else (if keep(s[0]) then [s[0]] else []) + Filter(s[1..], keep)
  }

  lemma {:induction false} FilterConcat(a: string, b: string, keep: char -> bool)
    ensures Filter(a + b, keep) == Filter(a, keep) + Filter(b, keep)
  {
    if a != [] {
      assert (a + b)[0] == a[0] && (a + b)[1..] == a[1..] + b;
      FilterConcat(a[1..], b, keep);
    } else {
      assert a + b == b;
    }
  }

  /** Filtering keeps every wanted character as often as it occurs and drops every
      other one: together with FilterConcat this fixes the result completely. */
  lemma {:induction false} FilterCounts(s: string, keep: char -> bool, c: char)
    ensures multiset(Filter(s, keep))[c] == if keep(c) then multiset(s)[c] else 0
  {
    if s != [] {
      FilterCounts(s[1..], keep, c);
      assert s == [s[0]] + s[1..];
    }
  }

  lemma {:induction false} FilterKeepsAll(s: string, keep: char -> bool)
    requires forall i :: 0 <= i < |s| ==> keep(s[i])
    ensures Filter(s, keep) == s
  {
    if s != [] {
      FilterKeepsAll(s[1..], keep);
    }
  }

  lemma {:induction false} FilterDropsAll(s: string, keep: char -> bool)
    requires forall i :: 0 <= i < |s| ==> !keep(s[i])
    ensures Filter(s, keep) == []
  {
    if s != [] {
      FilterDropsAll(s[1..], keep);
    }
  }

  /** `s.split(sep)`: the maximal `sep`-free pieces between separators; never empty. */
  function Split(s: string, sep: char): (r: seq<string>)
    ensures |r| >= 1
    ensures forall i :: 0 <= i < |r| ==> sep !in r[i]
  {
    if s == [] then [""]
    else
      var rest := Split(s[1..], sep);
      if s[0] == sep then [""] + rest else [[s[0]] + rest[0]] + rest[1..]
  }

  /** A separator-free string is a single field. */
  lemma {:induction false} SplitNoSeparator(s: string, sep: char)
    requires sep !in s
    ensures Split(s, sep) == [s]
  {
    if s != [] {
      SplitNoSeparator(s[1..], sep);
      assert [s[0]] + s[1..] == s;
    }
  }

  /** Splitting distributes over a separator. */
  lemma {:induction false} SplitAtSeparator(a: string, b: string, sep: char)
    ensures Split(a + [sep] + b, sep) == Split(a, sep) + Split(b, sep)
  {
    if a == [] {
      assert a + [sep] + b == [sep] + b;
    } else {
      assert (a + [sep] + b)[1..] == a[1..] + [sep] + b;
      SplitAtSeparator(a[1..], b, sep);
    }
  }

  /** A separator-free leading field splits off as the first field. */
  lemma SplitHead(field: string, rest: string, sep: char)
    requires sep !in field
    ensures Split(field + [sep] + rest, sep) == [field] + Split(rest, sep)
  {
    SplitAtSeparator(field, rest, sep);
    SplitNoSeparator(field, sep);
  }

  /** `sep.join(fields)`. */
  function Join(fields: seq<string>, sep: char): string
    requires |fields| >= 1
  {
    if |fields| == 1 then fields[0] else fields[0] + [sep] + Join(fields[1..], sep)
  }

  /** Joining a leading field puts it and one separator in front. */
  lemma JoinCons(f: string, rest: seq<string>, sep: char)
    requires |rest| >= 1
    ensures Join([f] + rest, sep) == f + [sep] + Join(rest, sep)
  {
    assert ([f] + rest)[0] == f && ([f] + rest)[1..] == rest;
  }

  /** Joining a trailing field appends one separator and the field. */
  lemma {:induction false} JoinSnoc(fields: seq<string>, last: string, sep: char)
    requires |fields| >= 1
    ensures Join(fields + [last], sep) == Join(fields, sep) + [sep] + last
  {
    if |fields| == 1 {
      JoinCons(fields[0], [last], sep);
      assert fields + [last] == [fields[0]] + [last];
    } else {
      assert fields + [last] == [fields[0]] + (fields[1..] + [last]);
      JoinCons(fields[0], fields[1..] + [last], sep);
      JoinSnoc(fields[1..], last, sep);
      JoinCons(fields[0], fields[1..], sep);
      assert [fields[0]] + fields[1..] == fields;
    }
  }

  /** A separator-free leading field of a join is its first split field. */
  lemma SplitJoinCons(f: string, rest: seq<string>, sep: char)
    requires |rest| >= 1 && sep !in f
    ensures Split(Join([f] + rest, sep), sep) == [f] + Split(Join(rest, sep), sep)
  {
    JoinCons(f, rest, sep);
    SplitHead(f, Join(rest, sep), sep);
  }

  /** A character other than the separator occurs in a join only inside a field. */
  lemma {:induction false} CharNotInJoin(fields: seq<string>, sep: char, c: char)
    requires |fields| >= 1 && c != sep
    requires forall i :: 0 <= i < |fields| ==> c !in fields[i]
    ensures c !in Join(fields, sep)
  {
    if |fields| > 1 {
      CharNotInJoin(fields[1..], sep, c);
      assert c !in fields[0];
    }
  }

  /** Split undoes Join when no field holds the separator. */
  lemma {:induction false} SplitJoin(fields: seq<string>, sep: char)
    requires |fields| >= 1
    requires forall i :: 0 <= i < |fields| ==> sep !in fields[i]
    ensures Split(Join(fields, sep), sep) == fields
  {
    if |fields| == 1 {
      SplitNoSeparator(fields[0], sep);
    } else {
      SplitNoSeparator(fields[0], sep);
      SplitAtSeparator(fields[0], Join(fields[1..], sep), sep);
      SplitJoin(fields[1..], sep);
    }
  }

  /** Join undoes Split: no character is lost or added by splitting. */
  lemma {:induction false} JoinSplit(s: string, sep: char)
    ensures Join(Split(s, sep), sep) == s
  {
    if s != [] {
      JoinSplit(s[1..], sep);
      var rest := Split(s[1..], sep);
      if s[0] != sep && |rest| > 1 {
        assert Join(rest, sep) == rest[0] + [sep] + Join(rest[1..], sep);
        assert [[s[0]] + rest[0]] + rest[1..] == [[s[0]] + rest[0]] + rest[1..];
        assert ([[s[0]] + rest[0]] + rest[1..])[1..] == rest[1..];
      }
      if s[0] == sep {
        assert ([""] + rest)[1..] == rest;
      }
    }
  }

  predicate StartsWith(s: string, prefix: string) {
    |prefix| <= |s| && s[..|prefix|] == prefix
  }

  /** `s.endswith(suffix)`. */
  predicate EndsWith(s: string, suffix: string) {
    |suffix| <= |s| && s[|s| - |suffix|..] == suffix
  }

  /** `pat in s`. */
  predicate Contains(s: string, pat: string)
    decreases |s|
  {
    StartsWith(s, pat) || (s != [] && Contains(s[1..], pat))
  }

  /** A string that ends with `pat` contains it. */
  lemma {:induction false} SuffixContained(s: string, pat: string)
    requires EndsWith(s, pat)
    ensures Contains(s, pat)
    decreases |s|
  {
    if |s| > |pat| {
      assert s[1..][|s[1..]| - |pat|..] == s[|s| - |pat|..];
      SuffixContained(s[1..], pat);
    } else {
      assert s[..|pat|] == s[|s| - |pat|..];
    }
  }

  /** A string lacking one of the characters of `pat` does not contain `pat`. */
  lemma {:induction false} MissingCharNotContained(s: string, pat: string, c: char)
    requires c in pat && c !in s
    ensures !Contains(s, pat)
    decreases |s|
  {
    if |pat| <= |s| {
      var i :| 0 <= i < |pat| && pat[i] == c;
      assert s[..|pat|][i] != pat[i];
    }
    if s != [] {
      MissingCharNotContained(s[1..], pat, c);
    }
  }

  /** `s.replace(pat, rep)` for a non-empty `pat`: a left-to-right scan that
      replaces each occurrence it meets and resumes after it, so occurrences
      never overlap. */
  function ReplaceAll(s: string, pat: string, rep: string): (r: string)
    requires pat != []
    ensures !Contains(s, pat) ==> r == s
    decreases |s|
  {
    if |s| < |pat| then s
    else if s[..|pat|] == pat then rep + ReplaceAll(s[|pat|..], pat, rep)
    else [s[0]] + ReplaceAll(s[1..], pat, rep)
  }

  /** An occurrence at the front is replaced, and the scan resumes right after it. */
  lemma ReplaceLeading(pat: string, tail: string, rep: string)
    requires pat != []
    ensures ReplaceAll(pat + tail, pat, rep) == rep + ReplaceAll(tail, pat, rep)
  {
    assert (pat + tail)[..|pat|] == pat;
    assert (pat + tail)[|pat|..] == tail;
  }

  /** Concatenating two lists of separator-free fields gives separator-free fields. */
  lemma SeparatorFreeConcat(head: seq<string>, rest: seq<string>, sep: char)
    requires forall i :: 0 <= i < |head| ==> sep !in head[i]
    requires forall i :: 0 <= i < |rest| ==> sep !in rest[i]
    ensures forall i :: 0 <= i < |head + rest| ==> sep !in (head + rest)[i]
  {
    forall i | 0 <= i < |head + rest|
      ensures sep !in (head + rest)[i]
    {
      if i >= |head| {
        assert (head + rest)[i] == rest[i - |head|];
      }
    }
  }

  /** A string shorter than `pat` cannot contain it. */
  lemma {:induction false} ShortNotContained(s: string, pat: string)
    requires |s| < |pat|
    ensures !Contains(s, pat)
    decreases |s|
  {
    if s != [] {
      ShortNotContained(s[1..], pat);
    }
  }
}
