/** The Python `str` operations the bot relies on, with Python's semantics:
    `sep in s`, `s.find`, `s.split(sep)` with an explicit separator, `sep.join`,
    `s.replace`, `s.startswith`/`s.endswith`, slicing `s[i:j]`, and `<` on strings. */
module PyStr {
  import opened Wrappers

  /** `sep` occurs in `s` starting at index `k`. */
  predicate OccursAt(s: string, sep: string, k: nat)
  {
    k + |sep| <= |s| && s[k..k + |sep|] == sep
  }

  /** The first index at or after `i` at which `sep` occurs in `s`. */
  function FindFrom(s: string, sep: string, i: nat): (r: Option<nat>)
    requires |sep| > 0
    ensures r.Some? ==> i <= r.value && OccursAt(s, sep, r.value)
    ensures r.Some? ==> forall j: nat :: i <= j < r.value ==> !OccursAt(s, sep, j)
    ensures r.None? ==> forall j: nat :: i <= j ==> !OccursAt(s, sep, j)
    decreases |s| - i
  {
    if |s| < i + |sep| then None
    else if s[i..i + |sep|] == sep then Some(i)
    else FindFrom(s, sep, i + 1)
  }

  /** `s.find(sep)`, with `None` for Python's -1: the least index at which `sep` occurs. */
  function Find(s: string, sep: string): (r: Option<nat>)
    requires |sep| > 0
    ensures r.Some? ==> OccursAt(s, sep, r.value)
    ensures r.Some? ==> forall j: nat :: j < r.value ==> !OccursAt(s, sep, j)
    ensures r.None? ==> forall j: nat :: !OccursAt(s, sep, j)
  {
    FindFrom(s, sep, 0)
  }

  /** `sep in s` */
  predicate Contains(s: string, sep: string)
    requires |sep| > 0
  {
    Find(s, sep).Some?
  }

  /** `s.split(sep)` for a non-empty explicit separator. */
  function Split(s: string, sep: string): (r: seq<string>)
    requires |sep| > 0
    ensures |r| >= 1
    ensures |r| >= 2 <==> Contains(s, sep)
    decreases |s|
  {
    match Find(s, sep)
    case None => [s]
    case Some(k) => [s[..k]] + Split(s[k + |sep|..], sep)
  }

  /** `sep.join(parts)` */
  function Join(sep: string, parts: seq<string>): string
  {
    if |parts| == 0 then ""
    else if |parts| == 1 then parts[0]
    else parts[0] + sep + Join(sep, parts[1..])
  }

  /** Joining the pieces of a split with the same separator gives the string back. */
  lemma {:induction false} JoinSplit(s: string, sep: string)
    requires |sep| > 0
    ensures Join(sep, Split(s, sep)) == s
    decreases |s|
  {
    match Find(s, sep)
    case None =>
    case Some(k) =>
      var rest := s[k + |sep|..];
      JoinSplit(rest, sep);
      assert Split(s, sep) == [s[..k]] + Split(rest, sep);
      assert s == s[..k] + sep + rest;
  }

  /** `s.replace(pattern, replacement)` for a non-empty `pattern`: Python replaces the same
      left-to-right, non-overlapping occurrences that `split` cuts at. */
  function Replace(s: string, pattern: string, replacement: string): string
    requires |pattern| > 0
  {
    Join(replacement, Split(s, pattern))
  }

  /** `s.startswith(p)` */
  predicate StartsWith(s: string, p: string)
  {
    |p| <= |s| && s[..|p|] == p
  }

  /** `s.endswith(p)` */
  predicate EndsWith(s: string, p: string)
  {
    |p| <= |s| && s[|s| - |p|..] == p
  }

  /** `s[i:j]` for non-negative bounds: Python clamps them to the string. */
  function Slice(s: string, i: nat, j: nat): (r: string)
    ensures |r| == (if i < j && i < |s| then (if j <= |s| then j else |s|) - i else 0)
    ensures forall k :: 0 <= k < |r| ==> r[k] == s[i + k]
  {
    var hi := if j <= |s| then j else |s|;
    if i >= hi then "" else s[i..hi]
  }

  predicate NoSpace(s: string)
  {
    forall i :: 0 <= i < |s| ==> s[i] != ' '
  }

  /** A character that differs from the separator's rules out an occurrence. */
  lemma NoOccurrenceAt(s: string, sep: string, k: nat, i: nat)
    requires i < |sep| && k + i < |s| && s[k + i] != sep[i]
    ensures !OccursAt(s, sep, k)
  {
    if k + |sep| <= |s| {
      assert s[k..k + |sep|][i] == s[k + i];
    }
  }

  /** The first occurrence is the occurrence that has none before it. */
  lemma FindIs(s: string, sep: string, k: nat)
    requires |sep| > 0 && OccursAt(s, sep, k)
    requires forall j: nat :: j < k ==> !OccursAt(s, sep, j)
    ensures Find(s, sep) == Some(k)
  {
  }

  lemma FindNone(s: string, sep: string)
    requires |sep| > 0
    requires forall j: nat :: !OccursAt(s, sep, j)
    ensures Find(s, sep) == None
  {
  }

  /** Occurrences in `y` are occurrences in `x + y`, moved by `|x|`. */
  lemma OccursShifted(x: string, y: string, sep: string, j: nat)
    ensures OccursAt(x + y, sep, |x| + j) <==> OccursAt(y, sep, j)
  {
    if |x| + j + |sep| <= |x + y| {
      assert (x + y)[|x| + j..|x| + j + |sep|] == y[j..j + |sep|];
    }
  }

  lemma FindSkipNone(x: string, y: string, sep: string)
    requires |sep| > 0
    requires forall j: nat :: j < |x| ==> !OccursAt(x + y, sep, j)
    ensures Find(y, sep).None? ==> Find(x + y, sep).None?
  {
    var s := x + y;
    if Find(y, sep).None? {
      forall j: nat
        ensures !OccursAt(s, sep, j)
      {
        if |x| <= j {
          OccursShifted(x, y, sep, j - |x|);
        }
      }
      FindNone(s, sep);
    }
  }

  lemma FindSkipSome(x: string, y: string, sep: string)
    requires |sep| > 0
    requires forall j: nat :: j < |x| ==> !OccursAt(x + y, sep, j)
    ensures Find(y, sep).Some? ==> Find(x + y, sep) == Some(|x| + Find(y, sep).value)
  {
    var s := x + y;
    if Find(y, sep).Some? {
      var ky := Find(y, sep).value;
      OccursShifted(x, y, sep, ky);
      forall j: nat | |x| <= j < |x| + ky
        ensures !OccursAt(s, sep, j)
      {
        OccursShifted(x, y, sep, j - |x|);
      }
      FindIs(s, sep, |x| + ky);
    }
  }

  /** A prefix in which `sep` never starts moves the first occurrence by its length. */
  lemma FindSkip(x: string, y: string, sep: string)
    requires |sep| > 0
    requires forall j: nat :: j < |x| ==> !OccursAt(x + y, sep, j)
    ensures Find(y, sep).None? ==> Find(x + y, sep).None?
    ensures Find(y, sep).Some? ==> Find(x + y, sep) == Some(|x| + Find(y, sep).value)
  {
    FindSkipNone(x, y, sep);
    FindSkipSome(x, y, sep);
  }

  /** A prefix that never holds the separator's first character moves the first occurrence by its length. */
  lemma FindSkipNoLead(x: string, y: string, sep: string)
    requires |sep| > 0
    requires forall i :: 0 <= i < |x| ==> x[i] != sep[0]
    ensures Find(y, sep).None? ==> Find(x + y, sep).None?
    ensures Find(y, sep).Some? ==> Find(x + y, sep) == Some(|x| + Find(y, sep).value)
  {
    forall j: nat | j < |x|
      ensures !OccursAt(x + y, sep, j)
    {
      NoOccurrenceAt(x + y, sep, j, 0);
    }
    FindSkip(x, y, sep);
  }

  /** `(tok + " " + w).split(" ")[0] == tok` for a word without spaces. */
  lemma FirstWord(tok: string, w: string)
    requires NoSpace(tok)
    ensures Split(tok + " " + w, " ")[0] == tok
  {
    FindSkipNoLead(tok, " " + w, " ");
    assert tok + " " + w == tok + (" " + w);
    FindIs(" " + w, " ", 0);
  }

  /** In `tok + " " + w`, the first occurrence of `stem + " "` lies inside `w` when the
      word `tok` has no space and does not end with `stem`. */
  lemma FindAfterWord(tok: string, w: string, stem: string)
    requires |stem| > 0 && NoSpace(stem) && NoSpace(tok) && !EndsWith(tok, stem)
    ensures Find(w, stem + " ").None? ==> Find(tok + " " + w, stem + " ").None?
    ensures Find(w, stem + " ").Some? ==>
              Find(tok + " " + w, stem + " ") == Some(|tok| + 1 + Find(w, stem + " ").value)
  {
    var sep := stem + " ";
    var x := tok + " ";
    var s := x + w;
    forall j: nat | j < |x|
      ensures !OccursAt(s, sep, j)
    {
      var e := j + |stem|;
      if e < |tok| {
        assert s[e] == tok[e] != ' ';
        NoOccurrenceAt(s, sep, j, |stem|);
      } else if e > |tok| {
        assert s[j + (|tok| - j)] == ' ' != stem[|tok| - j];
        NoOccurrenceAt(s, sep, j, |tok| - j);
      } else {
        assert tok[|tok| - |stem|..] != stem;
        var i :| 0 <= i < |stem| && tok[j..][i] != stem[i];
        assert s[j + i] == tok[j..][i];
        NoOccurrenceAt(s, sep, j, i);
      }
    }
    FindSkip(x, w, sep);
    assert tok + " " + w == x + w;
  }

  /** The word that Python's `s.split(stem + " ")[0].split(" ")[0]` extracts from
      `tok + " " + w` is `tok`. */
  lemma WordBeforeSeparator(tok: string, w: string, stem: string)
    requires |stem| > 0 && NoSpace(stem) && NoSpace(tok) && !EndsWith(tok, stem)
    ensures Split(Split(tok + " " + w, stem + " ")[0], " ")[0] == tok
  {
    FindAfterWord(tok, w, stem);
    var s := tok + " " + w;
    var k := match Find(s, stem + " ") case None => |s| case Some(k) => k;
    assert |tok| + 1 <= k <= |s|;
    assert Split(s, stem + " ")[0] == s[..k];
    var rest := s[|tok| + 1..k];
    assert s[..k] == tok + " " + rest;
    FirstWord(tok, rest);
  }

  /** The first two parts of a split whose separator first occurs at `k`. */
  lemma SplitAt(s: string, sep: string, k: nat)
    requires |sep| > 0 && Find(s, sep) == Some(k)
    ensures |Split(s, sep)| >= 2
    ensures Split(s, sep)[0] == s[..k]
    ensures Split(s, sep)[1] == Split(s[k + |sep|..], sep)[0]
  {
  }

  /** `(v + suffix).replace(suffix, "")` is `v` when `v` never holds the suffix's first character. */
  lemma ReplaceSuffix(v: string, suffix: string)
    requires |suffix| > 0
    requires forall i :: 0 <= i < |v| ==> v[i] != suffix[0]
    ensures Replace(v + suffix, suffix, "") == v
  {
    FindSkipNoLead(v, suffix, suffix);
    FindIs(suffix, suffix, 0);
    var s := v + suffix;
    assert s[..|v|] == v && s[|v| + |suffix|..] == "";
    SplitAt(s, suffix, |v|);
    assert Find("", suffix).None?;
    assert Split(s, suffix) == [v] + Split("", suffix) == [v, ""];
    assert Join("", [v, ""]) == v + "" + Join("", [""]);
  }

  /** Every occurrence is removed: a doubled suffix goes as a single one does. */
  lemma ReplaceDoubledSuffix(v: string, suffix: string)
    requires |suffix| > 0
    requires forall i :: 0 <= i < |v| ==> v[i] != suffix[0]
    ensures Replace(v + suffix + suffix, suffix, "") == v
  {
    var s := v + (suffix + suffix);
    assert v + suffix + suffix == s;
    FindSkipNoLead(v, suffix + suffix, suffix);
    FindIs(suffix + suffix, suffix, 0);
    assert s[..|v|] == v && s[|v| + |suffix|..] == suffix;
    assert Split(s, suffix) == [v] + Split(suffix, suffix);
    SplitSelf(suffix);
    assert Join("", [v, "", ""]) == v + "" + Join("", ["", ""]);
  }

  /** A separator split on itself leaves an empty part on either side. */
  lemma SplitSelf(sep: string)
    requires |sep| > 0
    ensures Split(sep, sep) == ["", ""]
  {
  }

  /** The first part of a split on a one-character separator does not hold that character. */
  lemma SplitHeadWithout(s: string, c: char)
    ensures forall i :: 0 <= i < |Split(s, [c])[0]| ==> Split(s, [c])[0][i] != c
  {
    var k := match Find(s, [c]) case None => |s| case Some(k) => k;
    assert Split(s, [c])[0] == s[..k];
    forall i | 0 <= i < k
      ensures s[i] != c
    {
      assert !OccursAt(s, [c], i);
      assert s[i..i + 1] == [s[i]];
    }
  }

  /** `s.split(stem + " ")[1].split(" ")[0]` is the word `tok` that follows the first
      occurrence of the key `stem + " "`. */
  lemma WordAfterKeyAt(s: string, stem: string, k: nat, tok: string, w: string)
    requires |stem| > 0 && NoSpace(stem) && NoSpace(tok) && !EndsWith(tok, stem)
    requires Find(s, stem + " ") == Some(k) && s[k + |stem| + 1..] == tok + " " + w
    ensures Split(Split(s, stem + " ")[1], " ")[0] == tok
  {
    SplitAt(s, stem + " ", k);
    WordBeforeSeparator(tok, w, stem);
  }

  /** Python's `a < b` on `str`: lexicographic by code point, a proper prefix being smaller. */
  predicate StrLt(a: string, b: string)
    decreases |a|
  {
    |b| > 0 && (|a| == 0 || a[0] < b[0] || (a[0] == b[0] && StrLt(a[1..], b[1..])))
  }

  /** Python's `a <= b` on `str`. */
  predicate StrLe(a: string, b: string)
  {
    a == b || StrLt(a, b)
  }

  lemma {:induction false} StrLtIrreflexive(a: string)
    ensures !StrLt(a, a)
    decreases |a|
  {
    if |a| > 0 {
      StrLtIrreflexive(a[1..]);
    }
  }

  lemma {:induction false} StrLtTransitive(a: string, b: string, c: string)
    requires StrLt(a, b) && StrLt(b, c)
    ensures StrLt(a, c)
    decreases |a|
  {
    if |a| > 0 && a[0] == b[0] && b[0] == c[0] {
      StrLtTransitive(a[1..], b[1..], c[1..]);
    }
  }

  lemma {:induction false} StrLtTotal(a: string, b: string)
    ensures StrLt(a, b) || a == b || StrLt(b, a)
    decreases |a|
  {
    if |a| > 0 && |b| > 0 && a[0] == b[0] {
      StrLtTotal(a[1..], b[1..]);
      if a[1..] == b[1..] {
        assert a == [a[0]] + a[1..];
        assert b == [b[0]] + b[1..];
      }
    }
  }

  lemma {:induction false} StrLtAsymmetric(a: string, b: string)
    ensures StrLt(a, b) ==> !StrLt(b, a)
    decreases |a|
  {
    if |a| > 0 && |b| > 0 && a[0] == b[0] {
      StrLtAsymmetric(a[1..], b[1..]);
    }
  }

  /** `<` on strings is a strict total order: no string is below itself,
      it is transitive, and any two different strings are comparable. */
  lemma StrLtStrictTotalOrder()
    ensures forall a: string :: !StrLt(a, a)
    ensures forall a: string, b: string, c: string :: StrLt(a, b) && StrLt(b, c) ==> StrLt(a, c)
    ensures forall a: string, b: string :: a != b ==> StrLt(a, b) || StrLt(b, a)
  {
    forall a: string
      ensures !StrLt(a, a)
    {
      StrLtIrreflexive(a);
    }
    forall a: string, b: string, c: string | StrLt(a, b) && StrLt(b, c)
      ensures StrLt(a, c)
    {
      StrLtTransitive(a, b, c);
    }
    forall a: string, b: string | a != b
      ensures StrLt(a, b) || StrLt(b, a)
    {
      StrLtTotal(a, b);
    }
  }
}
