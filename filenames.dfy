/**
 * File-name handling shared by the tools: lower-casing, suffix tests,
 * pathlib's `suffix`/`stem`, os.path.splitext, and the code-point order in
 * which Python's sorted() arranges names.
 */
module FileNames {

  /** str.lower() on ASCII letters; other characters are kept. */
  function LowerChar(c: char): (l: char)
    ensures 'A' <= c <= 'Z' ==> l as int == c as int + 32
    ensures !('A' <= c <= 'Z') ==> l == c
  {
    if 'A' <= c <= 'Z' then (c as int + 32) as char else c
  }

  function Lower(s: string): (l: string)
    ensures |l| == |s|
    ensures forall i :: 0 <= i < |s| ==> l[i] == LowerChar(s[i])
  {
    if s == [] then [] else [LowerChar(s[0])] + Lower(s[1..])
  }

  lemma {:induction false} LowerIdempotent(s: string)
    ensures Lower(Lower(s)) == Lower(s)
  {
    if s != [] {
      LowerIdempotent(s[1..]);
      assert Lower(s)[1..] == Lower(s[1..]);
    }
  }

  /** str.endswith for a single suffix. */
  predicate EndsWith(s: string, suffix: string) {
    |suffix| <= |s| && s[|s| - |suffix|..] == suffix
  }

  /** str.endswith with a tuple: any of the suffixes. */
  predicate EndsWithAny(s: string, suffixes: seq<string>) {
    exists i :: 0 <= i < |suffixes| && EndsWith(s, suffixes[i])
  }

  /** str.rfind: the last index holding c, or -1. */
  function LastIndexOf(s: string, c: char): (i: int)
    ensures -1 <= i < |s|
    ensures i >= 0 ==> s[i] == c
    ensures forall j :: i < j < |s| ==> s[j] != c
  {
    if s == [] then -1
    else if s[|s| - 1] == c then |s| - 1
    else LastIndexOf(s[..|s| - 1], c)
  }

  /**
   * pathlib's PurePath.suffix: from the last dot on, provided that dot is
   * neither the first nor the last character of the name.
   */
  function PathSuffix(name: string): string {
    var i := LastIndexOf(name, '.');
    if 0 < i < |name| - 1 then name[i..] else ""
  }

  /** pathlib's PurePath.stem: the name without its suffix. */
  function PathStem(name: string): string {
    var i := LastIndexOf(name, '.');
    if 0 < i < |name| - 1 then name[..i] else name
  }

  lemma StemAndSuffix(name: string)
    ensures PathStem(name) + PathSuffix(name) == name
    ensures PathSuffix(name) == "" || (PathSuffix(name)[0] == '.' && |PathSuffix(name)| >= 2)
    ensures forall j :: 0 <= j < |PathSuffix(name)| && j > 0 ==> PathSuffix(name)[j] != '.'
  {}

  /** There is a character other than '.' strictly before position k. */
  predicate HasNonDotBefore(s: string, k: int)
    requires 0 <= k <= |s|
  {
    exists j :: 0 <= j < k && s[j] != '.'
  }

  /**
   * os.path.splitext on a bare file name: split at the last dot, unless
   * every character before it is a dot (".bashrc" has no extension).
   */
  function SplitExt(name: string): (parts: (string, string))
    ensures parts.0 + parts.1 == name
    ensures parts.1 == "" || parts.1[0] == '.'
    ensures parts.1 != "" ==>
              |parts.0| == LastIndexOf(name, '.') && '.' !in parts.1[1..] && HasNonDotBefore(name, |parts.0|)
    ensures parts.1 == "" ==> LastIndexOf(name, '.') <= 0 || !HasNonDotBefore(name, LastIndexOf(name, '.'))
  {
    var i := LastIndexOf(name, '.');
    if i > 0 && HasNonDotBefore(name, i) then
      assert forall j :: 0 <= j < |name[i..][1..]| ==> name[i..][1..][j] == name[i + 1 + j];
      (name[..i], name[i..])
    else (name, "")
  }

  /** Unlike pathlib, splitext keeps a trailing dot as the extension. */
  lemma SplitExtTrailingDot()
    ensures SplitExt("a.") == ("a", ".")
    ensures PathSuffix("a.") == "" && PathStem("a.") == "a."
  {
    assert LastIndexOf("a.", '.') == 1;
    assert HasNonDotBefore("a.", 1) by { assert "a."[0] != '.'; }
    assert "a."[..1] == "a" && "a."[1..] == ".";
  }

  // Python compares strings by code point, character by character; a proper
  // prefix comes first.

  predicate AtMost(a: string, b: string)
    decreases |a|
  {
    a == [] || (b != [] && (a[0] < b[0] || (a[0] == b[0] && AtMost(a[1..], b[1..]))))
  }

  lemma {:induction false} AtMostReflexive(a: string)
    ensures AtMost(a, a)
  {
    if a != [] { AtMostReflexive(a[1..]); }
  }

  lemma {:induction false} AtMostTotal(a: string, b: string)
    ensures AtMost(a, b) || AtMost(b, a)
  {
    if a != [] && b != [] && a[0] == b[0] { AtMostTotal(a[1..], b[1..]); }
  }

  lemma {:induction false} AtMostAntisymmetric(a: string, b: string)
    requires AtMost(a, b) && AtMost(b, a)
    ensures a == b
  {
    if a != [] && b != [] {
      AtMostAntisymmetric(a[1..], b[1..]);
      assert a == [a[0]] + a[1..] && b == [b[0]] + b[1..];
    }
  }

  lemma {:induction false} AtMostTransitive(a: string, b: string, c: string)
    requires AtMost(a, b) && AtMost(b, c)
    ensures AtMost(a, c)
  {
    if a != [] && b != [] && c != [] && a[0] == b[0] && b[0] == c[0] {
      AtMostTransitive(a[1..], b[1..], c[1..]);
    }
  }

  predicate Sorted(s: seq<string>) {
    forall i, j :: 0 <= i < j < |s| ==> AtMost(s[i], s[j])
  }

  /** Places x before the first element it does not exceed. */
  function Insert(x: string, s: seq<string>): (r: seq<string>)
    requires Sorted(s)
    ensures multiset(r) == multiset(s) + multiset{x}
    ensures Sorted(r)
  {
    if s == [] then [x]
    else if AtMost(x, s[0]) then
      InsertFront(x, s);
      [x] + s
    else
      AtMostTotal(x, s[0]);
      var rest := Insert(x, s[1..]);
      InsertTail(x, s, rest);
      assert s == [s[0]] + s[1..];
      [s[0]] + rest
  }

  lemma InsertFront(x: string, s: seq<string>)
    requires Sorted(s) && s != [] && AtMost(x, s[0])
    ensures Sorted([x] + s)
  {
    forall j | 0 <= j < |s| ensures AtMost(x, s[j]) {
      if j > 0 { AtMostTransitive(x, s[0], s[j]); }
    }
  }

  lemma InsertTail(x: string, s: seq<string>, rest: seq<string>)
    requires Sorted(s) && s != [] && AtMost(s[0], x)
    requires Sorted(rest) && multiset(rest) == multiset(s[1..]) + multiset{x}
    ensures Sorted([s[0]] + rest)
  {
    forall k | 0 <= k < |rest| ensures AtMost(s[0], rest[k]) {
      assert rest[k] in multiset(rest);
      if rest[k] != x {
        assert rest[k] in multiset(s[1..]);
        var j :| 0 <= j < |s[1..]| && s[1..][j] == rest[k];
        assert s[j + 1] == rest[k];
      }
    }
  }

  /** Python's sorted() on a list of names. */
  function Sort(s: seq<string>): (r: seq<string>)
    ensures Sorted(r)
    ensures multiset(r) == multiset(s)
  {
    if s == [] then []
    else
      assert s == [s[0]] + s[1..];
      Insert(s[0], Sort(s[1..]))
  }

  /**
   * Sorting decides the order completely: two sorted arrangements of the same
   * names are equal, so the order the directory listing came in is lost.
   */
  lemma {:induction false} SortedPermutationUnique(a: seq<string>, b: seq<string>)
    requires Sorted(a) && Sorted(b) && multiset(a) == multiset(b)
    ensures a == b
  {
    if a != [] {
      assert b != [] by { assert a[0] in multiset(b); }
      SortedHeadsEqual(a, b);
      TailMultiset(a, b);
      SortedPermutationUnique(a[1..], b[1..]);
      assert a == [a[0]] + a[1..] && b == [b[0]] + b[1..];
    }
  }

  /** The first element of a sorted sequence is its least element. */
  lemma SortedHeadsEqual(a: seq<string>, b: seq<string>)
    requires Sorted(a) && Sorted(b) && multiset(a) == multiset(b) && a != [] && b != []
    ensures a[0] == b[0]
  {
    assert a[0] in multiset(b);
    assert b[0] in multiset(a);
    var i :| 0 <= i < |b| && b[i] == a[0];
    var j :| 0 <= j < |a| && a[j] == b[0];
    if i == 0 { AtMostReflexive(b[0]); }
    if j == 0 { AtMostReflexive(a[0]); }
    assert AtMost(b[0], b[i]);
    assert AtMost(a[0], a[j]);
    AtMostAntisymmetric(a[0], b[0]);
  }

  lemma TailMultiset(a: seq<string>, b: seq<string>)
    requires a != [] && b != [] && a[0] == b[0] && multiset(a) == multiset(b)
    ensures multiset(a[1..]) == multiset(b[1..])
  {
    assert a == [a[0]] + a[1..] && b == [b[0]] + b[1..];
    assert multiset(a) == multiset{a[0]} + multiset(a[1..]);
    assert multiset(b) == multiset{b[0]} + multiset(b[1..]);
    forall y ensures multiset(a[1..])[y] == multiset(b[1..])[y] {
      assert multiset(a)[y] == multiset{a[0]}[y] + multiset(a[1..])[y];
      assert multiset(b)[y] == multiset{b[0]}[y] + multiset(b[1..])[y];
    }
  }

  /** Sorting keeps exactly the names it was given. */
  lemma SortKeepsNames(s: seq<string>)
    ensures forall x :: x in Sort(s) <==> x in s
    ensures Sort(s) == [] <==> s == []
  {
    var r := Sort(s);
    forall x ensures x in r <==> x in s {
      assert x in r <==> x in multiset(r);
      assert x in s <==> x in multiset(s);
    }
    if s != [] { assert s[0] in r; }
  }

  lemma SortIgnoresListingOrder(s: seq<string>, t: seq<string>)
    requires multiset(s) == multiset(t)
    ensures Sort(s) == Sort(t)
  {
    SortedPermutationUnique(Sort(s), Sort(t));
  }

  /** The names of a listing whose lower-cased form ends with one of the suffixes, in listing order. */
  function FilterEndsWith(names: seq<string>, suffixes: seq<string>): (r: seq<string>)
    ensures |r| <= |names|
    ensures forall x :: x in r <==> x in names && EndsWithAny(Lower(x), suffixes)
  {
    if names == [] then []
    else
      var rest := FilterEndsWith(names[1..], suffixes);
      if EndsWithAny(Lower(names[0]), suffixes) then [names[0]] + rest else rest
  }

  /** The filter keeps listing order: filtering a concatenation concatenates the filtered parts. */
  lemma {:induction false} FilterEndsWithAppend(a: seq<string>, b: seq<string>, suffixes: seq<string>)
    ensures FilterEndsWith(a + b, suffixes) == FilterEndsWith(a, suffixes) + FilterEndsWith(b, suffixes)
  {
    if a == [] {
      assert a + b == b;
    } else {
      assert (a + b)[0] == a[0] && (a + b)[1..] == a[1..] + b;
      FilterEndsWithAppend(a[1..], b, suffixes);
    }
  }

  /** The names of a listing whose lower-cased pathlib suffix is one of the given ones, in listing order. */
  function FilterSuffixIn(names: seq<string>, suffixes: seq<string>): (r: seq<string>)
    ensures |r| <= |names|
    ensures forall x :: x in r <==> x in names && Lower(PathSuffix(x)) in suffixes
  {
    if names == [] then []
    else
      var rest := FilterSuffixIn(names[1..], suffixes);
      if Lower(PathSuffix(names[0])) in suffixes then [names[0]] + rest else rest
  }

  lemma {:induction false} FilterSuffixInAppend(a: seq<string>, b: seq<string>, suffixes: seq<string>)
    ensures FilterSuffixIn(a + b, suffixes) == FilterSuffixIn(a, suffixes) + FilterSuffixIn(b, suffixes)
  {
    if a == [] {
      assert a + b == b;
    } else {
      assert (a + b)[0] == a[0] && (a + b)[1..] == a[1..] + b;
      FilterSuffixInAppend(a[1..], b, suffixes);
    }
  }
}
