/** release/make_bundle.py: the canonical manifest lines whose digest names a release. */
module Manifest {
  import opened Bytes

  /** One file of the walk: its relative path and the hex digest of its contents. */
  datatype Entry = Entry(path: string, sha: string)

  // ---------------------------------------------------------------- the order of paths

  /** Python's order on strings: by code points, a prefix first. */
  predicate Less(a: string, b: string) {
    b != [] && (a == [] || a[0] < b[0] || (a[0] == b[0] && Less(a[1..], b[1..])))
  }

  lemma {:induction false} LessTotal(a: string, b: string)
    ensures Less(a, b) || a == b || Less(b, a)
  {
    if a != [] && b != [] && a[0] == b[0] {
      LessTotal(a[1..], b[1..]);
      assert a == [a[0]] + a[1..] && b == [b[0]] + b[1..];
    }
  }

  lemma {:induction false} LessTransitive(a: string, b: string, c: string)
    requires Less(a, b) && Less(b, c)
    ensures Less(a, c)
  {
    if a != [] && a[0] == b[0] && b[0] == c[0] { LessTransitive(a[1..], b[1..], c[1..]); }
  }

  lemma {:induction false} LessIrreflexive(a: string)
    ensures !Less(a, a)
  {
    if a != [] { LessIrreflexive(a[1..]); }
  }

  /** `a` comes before `b`, told from where the two first differ: `b` goes on where `a` ends, or holds the
      greater code point there. */
  ghost predicate FirstDiffersBelow(a: string, b: string, i: nat) {
    && i <= |a| && i <= |b| && a[..i] == b[..i]
    && (i == |a| < |b| || (i < |a| && i < |b| && a[i] < b[i]))
  }

  ghost predicate Before(a: string, b: string) {
    exists i: nat :: FirstDiffersBelow(a, b, i)
  }

  /** The recursive comparison is the order told from the first difference. */
  lemma {:induction false} LessIff(a: string, b: string)
    ensures Less(a, b) <==> Before(a, b)
  {
    if Less(a, b) { var _ := LessDiffers(a, b); }
    if Before(a, b) {
      var i: nat :| FirstDiffersBelow(a, b, i);
      DiffersLess(a, b, i);
    }
  }

  lemma {:induction false} LessDiffers(a: string, b: string) returns (i: nat)
    requires Less(a, b)
    ensures FirstDiffersBelow(a, b, i)
  {
    i := 0;
    if a != [] && a[0] == b[0] {
      var k := LessDiffers(a[1..], b[1..]);
      i := k + 1;
      assert a[..i] == [a[0]] + a[1..][..k] && b[..i] == [b[0]] + b[1..][..k];
    }
  }

  lemma {:induction false} DiffersLess(a: string, b: string, i: nat)
    requires FirstDiffersBelow(a, b, i)
    ensures Less(a, b)
  {
    if i > 0 {
      assert a[0] == a[..i][0] == b[..i][0] == b[0];
      assert a[1..][..i - 1] == a[..i][1..] && b[1..][..i - 1] == b[..i][1..];
      DiffersLess(a[1..], b[1..], i - 1);
    }
  }

  ghost predicate Sorted(es: seq<Entry>) {
    forall i, j :: 0 <= i < j < |es| ==> !Less(es[j].path, es[i].path)
  }

  ghost predicate DistinctPaths(es: seq<Entry>) {
    forall i, j :: 0 <= i < j < |es| ==> es[i].path != es[j].path
  }

  // ---------------------------------------------------------------- the manifest

  function Line(e: Entry): string {
    e.sha + "  " + e.path + "\n"
  }

  /** `"".join(...)` over the entries. */
  function Canon(es: seq<Entry>): string {
    if es == [] then "" else Line(es[0]) + Canon(es[1..])
  }

  lemma {:induction false} CanonAppend(es: seq<Entry>, e: Entry)
    ensures Canon(es + [e]) == Canon(es) + Line(e)
  {
    if es == [] {
      assert ([] + [e])[1..] == [];
      assert Line(e) + "" == Line(e);
    } else {
      assert (es + [e])[1..] == es[1..] + [e];
      CanonAppend(es[1..], e);
      assert Line(es[0]) + (Canon(es[1..]) + Line(e)) == Line(es[0]) + Canon(es[1..]) + Line(e);
    }
  }

  /** Each entry's path equals the next one's or comes before it. */
  ghost predicate InOrder(es: seq<Entry>) {
    forall i :: 0 <= i < |es| - 1 ==> es[i].path == es[i + 1].path || Before(es[i].path, es[i + 1].path)
  }

  lemma SortedInOrder(es: seq<Entry>)
    requires Sorted(es)
    ensures InOrder(es)
  {
    forall i | 0 <= i < |es| - 1 ensures es[i].path == es[i + 1].path || Before(es[i].path, es[i + 1].path) {
      LessTotal(es[i].path, es[i + 1].path);
      LessIff(es[i].path, es[i + 1].path);
    }
  }

  /** The entries of one path, in their order. */
  function OfPath(es: seq<Entry>, path: string): seq<Entry> {
    if es == [] then [] else (if es[0].path == path then [es[0]] else []) + OfPath(es[1..], path)
  }

  lemma {:induction false} OfPathConcat(a: seq<Entry>, b: seq<Entry>, path: string)
    ensures OfPath(a + b, path) == OfPath(a, path) + OfPath(b, path)
  {
    if a == [] {
      assert a + b == b;
    } else {
      assert (a + b)[0] == a[0] && (a + b)[1..] == a[1..] + b;
      OfPathConcat(a[1..], b, path);
    }
  }

  lemma {:induction false} NoneOfPath(es: seq<Entry>, path: string)
    requires forall i :: 0 <= i < |es| ==> es[i].path != path
    ensures OfPath(es, path) == []
  {
    if es != [] { NoneOfPath(es[1..], path); }
  }

  /** An entry that goes in before strictly greater paths stays behind its equals. */
  lemma InsertedLast(a: seq<Entry>, e: Entry, b: seq<Entry>, path: string)
    requires forall i :: 0 <= i < |b| ==> Less(e.path, b[i].path)
    ensures OfPath(a + [e] + b, path) == OfPath(a + b + [e], path)
  {
    OfPathConcat(a + [e], b, path);
    OfPathConcat(a, [e], path);
    OfPathConcat(a + b, [e], path);
    OfPathConcat(a, b, path);
    if e.path == path {
      LessIrreflexive(path);
      NoneOfPath(b, path);
    } else {
      NoneOfPath([e], path);
    }
    assert OfPath(a + [e] + b, path) == OfPath(a, path) + OfPath([e], path) + OfPath(b, path);
  }

  /** The same entries for each path, in the same order. */
  ghost predicate Stable(a: seq<Entry>, b: seq<Entry>) {
    forall path :: OfPath(a, path) == OfPath(b, path)
  }

  /** Where `e` goes in a sorted list: after every path that is not greater. */
  method Insert(es: seq<Entry>, e: Entry) returns (r: seq<Entry>)
    requires Sorted(es)
    ensures Sorted(r) && InOrder(r) && multiset(r) == multiset(es) + multiset{e} && Stable(r, es + [e])
  {
    var i := |es|;
    while i > 0 && Less(e.path, es[i - 1].path)
      invariant 0 <= i <= |es|
      invariant forall j :: i <= j < |es| ==> Less(e.path, es[j].path)
    {
      i := i - 1;
    }
    r := es[..i] + [e] + es[i..];
    assert es == es[..i] + es[i..];
    InsertedSorted(es, i, e);
    SortedInOrder(r);
    forall path ensures OfPath(r, path) == OfPath(es + [e], path) { InsertedLast(es[..i], e, es[i..], path); }
  }

  /** An entry that goes in between the paths not greater and the greater paths keeps the list sorted. */
  lemma InsertedSorted(es: seq<Entry>, i: nat, e: Entry)
    requires Sorted(es) && i <= |es| && (i > 0 ==> !Less(e.path, es[i - 1].path))
    requires forall j :: i <= j < |es| ==> Less(e.path, es[j].path)
    ensures Sorted(es[..i] + [e] + es[i..])
  {
    var r := es[..i] + [e] + es[i..];
    forall j, k | 0 <= j < k < |r| ensures !Less(r[k].path, r[j].path) {
      if k == i && j < i - 1 {
        NotLessTransitive(es[j].path, es[i - 1].path, e.path);
      } else if j == i && Less(r[k].path, e.path) {
        LessTransitive(e.path, r[k].path, e.path);
        LessIrreflexive(e.path);
      }
    }
  }

  /** `a <= b <= c` in the total order. */
  lemma NotLessTransitive(a: string, b: string, c: string)
    requires !Less(b, a) && !Less(c, b)
    ensures !Less(c, a)
  {
    LessTotal(a, b);
    LessTotal(b, c);
    if Less(c, a) && Less(a, b) { LessTransitive(c, a, b); }
  }

  /** What `main` makes of a walk: the entries sorted by path, and their canonical text. */
  ghost predicate ManifestOf(walk: seq<Entry>, entries: seq<Entry>, canon: string) {
    Sorted(entries) && multiset(entries) == multiset(walk) && canon == Canon(entries)
  }

  /** The loop of `main` that collects the walk, the sort, and the join. */
  method BuildManifest(walk: seq<Entry>) returns (entries: seq<Entry>, canon: string)
    ensures ManifestOf(walk, entries, canon) && InOrder(entries) && Stable(entries, walk)
  {
    entries := [];
    var i := 0;
    while i < |walk|
      invariant 0 <= i <= |walk| && Sorted(entries)
      invariant multiset(entries) == multiset(walk[..i]) && Stable(entries, walk[..i])
    {
      var before := entries;
      entries := Insert(before, walk[i]);
      assert walk[..i + 1] == walk[..i] + [walk[i]];
      forall path ensures OfPath(entries, path) == OfPath(walk[..i + 1], path) {
        OfPathConcat(before, [walk[i]], path);
        OfPathConcat(walk[..i], [walk[i]], path);
      }
      i := i + 1;
    }
    assert walk[..i] == walk;
    SortedInOrder(entries);
    canon := "";
    i := 0;
    while i < |entries|
      invariant 0 <= i <= |entries| && canon == Canon(entries[..i])
    {
      CanonAppend(entries[..i], entries[i]);
      assert entries[..i + 1] == entries[..i] + [entries[i]];
      canon := canon + Line(entries[i]);
      i := i + 1;
    }
    assert entries[..i] == entries;
  }

  // ---------------------------------------------------------------- canonicality

  lemma DistinctByMultiset(a: seq<Entry>, b: seq<Entry>)
    requires multiset(a) == multiset(b) && DistinctPaths(a)
    ensures DistinctPaths(b)
  {
    forall i, j | 0 <= i < j < |b| ensures b[i].path != b[j].path {
      OnceInMultiset(a, b[i]);
      assert b[i] == b[j] ==> multiset(b)[b[i]] >= 2 by {
        if b[i] == b[j] { TwiceInMultiset(b, i, j); }
      }
      assert b[i] in multiset(b) && b[j] in multiset(b);
      var k, l :| 0 <= k < |a| && a[k] == b[i] && 0 <= l < |a| && a[l] == b[j];
      assert k != l && (k < l || l < k);
    }
  }

  lemma TwiceInMultiset(b: seq<Entry>, i: nat, j: nat)
    requires i < j < |b| && b[i] == b[j]
    ensures multiset(b)[b[i]] >= 2
  {
    assert b == b[..j] + [b[j]] + b[j + 1..];
    assert b[..j][i] == b[i];
  }

  lemma {:induction false} OnceInMultiset(a: seq<Entry>, e: Entry)
    requires DistinctPaths(a)
    ensures multiset(a)[e] <= 1
  {
    if a != [] {
      assert a == [a[0]] + a[1..];
      OnceInMultiset(a[1..], e);
      assert forall k :: 0 <= k < |a[1..]| ==> a[1..][k] == a[k + 1];
      assert a[0] !in a[1..];
    }
  }

  /** The least path comes first. */
  lemma SameFirst(a: seq<Entry>, b: seq<Entry>)
    requires Sorted(a) && Sorted(b) && multiset(a) == multiset(b) && DistinctPaths(a) && |a| > 0 && |b| > 0
    ensures a[0] == b[0]
  {
    assert a[0] in multiset(b) && b[0] in multiset(a);
    var i :| 0 <= i < |b| && b[i] == a[0];
    var j :| 0 <= j < |a| && a[j] == b[0];
    assert j > 0 ==> a[0].path != a[j].path;
    LessTotal(a[0].path, b[0].path);
  }

  lemma TailMultiset(a: seq<Entry>)
    requires |a| > 0
    ensures multiset(a[1..]) == multiset(a) - multiset{a[0]}
  {
    assert a == [a[0]] + a[1..];
  }

  /** A sorted permutation of entries with distinct paths is unique. */
  lemma {:induction false} SortedUnique(a: seq<Entry>, b: seq<Entry>)
    requires Sorted(a) && Sorted(b) && multiset(a) == multiset(b) && DistinctPaths(a)
    ensures a == b
    decreases |a|
  {
    assert |multiset(a)| == |a| && |multiset(b)| == |b|;
    if a != [] {
      SameFirst(a, b);
      TailMultiset(a);
      TailMultiset(b);
      SortedUnique(a[1..], b[1..]);
      assert a == [a[0]] + a[1..] && b == [b[0]] + b[1..];
    }
  }

  /** Manifest canonicality: the digest pre-image does not depend on the order in which the directory
      walk yields the files. */
  lemma OrderDoesNotMatter(walk: seq<Entry>, walk': seq<Entry>, entries: seq<Entry>, canon: string,
                           entries': seq<Entry>, canon': string)
    requires DistinctPaths(walk) && multiset(walk) == multiset(walk')
    requires ManifestOf(walk, entries, canon) && ManifestOf(walk', entries', canon')
    ensures entries == entries' && canon == canon'
  {
    DistinctByMultiset(walk, entries);
    SortedUnique(entries, entries');
  }

  // ---------------------------------------------------------------- reading a manifest back

  /** 64 characters of the digest alphabet. */
  ghost predicate Digest(alphabet: char -> bool, s: string) {
    |s| == 64 && forall i :: 0 <= i < 64 ==> alphabet(s[i])
  }

  /** Entries as the program makes them: the second field is a digest. */
  ghost predicate Digested(alphabet: char -> bool, es: seq<Entry>) {
    forall i :: 0 <= i < |es| ==> Digest(alphabet, es[i].sha)
  }

  /** How a manifest line starts: a digest and two spaces. */
  ghost predicate LineStart(alphabet: char -> bool, s: string) {
    |s| >= 66 && Digest(alphabet, s[..64]) && s[64] == ' ' && s[65] == ' '
  }

  ghost predicate ImitatesAt(alphabet: char -> bool, path: string, i: nat) {
    i < |path| && path[i] == '\n' && LineStart(alphabet, path[i + 1..])
  }

  /** The path holds a newline and, after it, the start of a line. */
  ghost predicate Imitates(alphabet: char -> bool, path: string) {
    exists i :: ImitatesAt(alphabet, path, i)
  }

  ghost predicate NoneImitates(alphabet: char -> bool, es: seq<Entry>) {
    forall i :: 0 <= i < |es| ==> !Imitates(alphabet, es[i].path)
  }

  lemma {:induction false} CanonConcat(a: seq<Entry>, b: seq<Entry>)
    ensures Canon(a + b) == Canon(a) + Canon(b)
  {
    if a == [] {
      assert a + b == b;
    } else {
      assert (a + b)[0] == a[0] && (a + b)[1..] == a[1..] + b;
      CanonConcat(a[1..], b);
      assert Line(a[0]) + (Canon(a[1..]) + Canon(b)) == Line(a[0]) + Canon(a[1..]) + Canon(b);
    }
  }

  /** What follows a line is nothing or another line. */
  lemma CanonStart(alphabet: char -> bool, es: seq<Entry>)
    requires Digested(alphabet, es)
    ensures Canon(es) == "" || LineStart(alphabet, Canon(es))
  {
    if es != [] {
      var line := Line(es[0]);
      assert line[..64] == es[0].sha && line[64] == ' ' && line[65] == ' ';
      assert Canon(es)[..64] == line[..64] && Canon(es)[64] == line[64] && Canon(es)[65] == line[65];
    }
  }

  /** A newline inside a path that imitates nothing does not look like the end of its line. */
  lemma NoLineInside(alphabet: char -> bool, path: string, rest: string, i: nat)
    requires !alphabet('\n') && !Imitates(alphabet, path) && i < |path| && path[i] == '\n'
    ensures var t := (path + "\n" + rest)[i + 1..]; t != "" && !LineStart(alphabet, t)
  {
    var t := (path + "\n" + rest)[i + 1..];
    var n := |path| - i - 1;
    assert t == path[i + 1..] + "\n" + rest && t[n] == '\n';
    assert !ImitatesAt(alphabet, path, i);
    if n < 64 {
      assert |t| >= 64 ==> t[..64][n] == '\n';
    } else if n >= 66 {
      assert t[..64] == path[i + 1..][..64] && t[64] == path[i + 1..][64] && t[65] == path[i + 1..][65];
    }
  }

  /** A path that imitates nothing ends at the first newline with a line or nothing after it. */
  lemma NotLonger(alphabet: char -> bool, p: string, r: string, q: string, t: string)
    requires !alphabet('\n') && !Imitates(alphabet, q)
    requires r == "" || LineStart(alphabet, r)
    requires p + "\n" + r == q + "\n" + t
    ensures |q| <= |p|
  {
    if |p| < |q| {
      assert q[|p|] == (q + "\n" + t)[|p|] == (p + "\n" + r)[|p|] == '\n';
      assert (p + "\n" + r)[|p| + 1..] == r;
      NoLineInside(alphabet, q, t, |p|);
    }
  }

  lemma SameLine(alphabet: char -> bool, a: Entry, r: string, b: Entry, t: string)
    requires !alphabet('\n') && !Imitates(alphabet, a.path) && !Imitates(alphabet, b.path)
    requires |a.sha| == |b.sha| && Line(a) + r == Line(b) + t
    requires (r == "" || LineStart(alphabet, r)) && (t == "" || LineStart(alphabet, t))
    ensures a == b && r == t
  {
    var x, y := a.path + "\n" + r, b.path + "\n" + t;
    assert Line(a) + r == a.sha + "  " + x && Line(b) + t == b.sha + "  " + y;
    SplitEqual(a.sha + "  ", x, b.sha + "  ", y);
    SplitEqual(a.sha, "  ", b.sha, "  ");
    NotLonger(alphabet, a.path, r, b.path, t);
    NotLonger(alphabet, b.path, t, a.path, r);
    SplitEqual(a.path + "\n", r, b.path + "\n", t);
    SplitEqual(a.path, "\n", b.path, "\n");
  }

  /** The pre-image determines the files.  Whatever the digest alphabet (hexadecimal in the program),
      if no path imitates a line then equal canonical texts come from equal entries. */
  lemma {:induction false} CanonInjective(alphabet: char -> bool, a: seq<Entry>, b: seq<Entry>)
    requires !alphabet('\n') && Digested(alphabet, a) && Digested(alphabet, b)
    requires NoneImitates(alphabet, a) && NoneImitates(alphabet, b)
    requires Canon(a) == Canon(b)
    ensures a == b
    decreases |a|
  {
    assert a != [] ==> |Canon(a)| >= |Line(a[0])| > 0;
    assert b != [] ==> |Canon(b)| >= |Line(b[0])| > 0;
    if a != [] && b != [] {
      CanonStart(alphabet, a[1..]);
      CanonStart(alphabet, b[1..]);
      SameLine(alphabet, a[0], Canon(a[1..]), b[0], Canon(b[1..]));
      CanonInjective(alphabet, a[1..], b[1..]);
      assert a == [a[0]] + a[1..] && b == [b[0]] + b[1..];
    }
  }

  /** A line with an imitating path is two lines. */
  lemma TwoLines(alphabet: char -> bool, e: Entry, i: nat) returns (x: Entry, y: Entry)
    requires ImitatesAt(alphabet, e.path, i)
    ensures x.sha == e.sha && Digest(alphabet, y.sha) && Line(x) + Line(y) == Line(e)
  {
    var tail := e.path[i + 1..];
    x, y := Entry(e.path[..i], e.sha), Entry(tail[66..], tail[..64]);
    assert tail == y.sha + "  " + y.path;
    assert e.path == x.path + "\n" + tail;
    assert Line(e) == e.sha + "  " + (x.path + "\n" + (y.sha + "  " + y.path)) + "\n";
  }

  /** Every list with an imitating path shares its canonical text with a second list of digested
      entries, one entry longer; whether that one is a manifest is another matter (`SharedText`). */
  lemma ImitationAmbiguous(alphabet: char -> bool, es: seq<Entry>, k: nat) returns (fs: seq<Entry>)
    requires Digested(alphabet, es) && k < |es| && Imitates(alphabet, es[k].path)
    ensures Digested(alphabet, fs) && |fs| == |es| + 1 && Canon(fs) == Canon(es)
  {
    var i :| ImitatesAt(alphabet, es[k].path, i);
    var x, y := TwoLines(alphabet, es[k], i);
    fs := es[..k] + [x, y] + es[k + 1..];
    CanonOne(es[k]);
    CanonTwo(x, y);
    SameMiddle(es[..k], [x, y], [es[k]], es[k + 1..]);
    assert es == es[..k] + [es[k]] + es[k + 1..];
  }

  lemma SameMiddle(a: seq<Entry>, b: seq<Entry>, b': seq<Entry>, c: seq<Entry>)
    requires Canon(b) == Canon(b')
    ensures Canon(a + b + c) == Canon(a + b' + c)
  {
    CanonThree(a, b, c);
    CanonThree(a, b', c);
  }

  lemma CanonThree(a: seq<Entry>, b: seq<Entry>, c: seq<Entry>)
    ensures Canon(a + b + c) == Canon(a) + Canon(b) + Canon(c)
  {
    CanonConcat(a, b);
    CanonConcat(a + b, c);
  }

  lemma CanonOne(e: Entry)
    ensures Canon([e]) == Line(e)
  {
    assert [e][1..] == [] && Line(e) + "" == Line(e);
  }

  lemma CanonTwo(x: Entry, y: Entry)
    ensures Canon([x, y]) == Line(x) + Line(y)
  {
    CanonOne(y);
    assert [x, y][1..] == [y];
  }

  /** Every canonical text has exactly one reading without imitation (by `CanonInjective`), and it is
      the list itself exactly when no path of the list imitates a line. */
  lemma {:induction false} Reading(alphabet: char -> bool, es: seq<Entry>) returns (fs: seq<Entry>)
    requires !alphabet('\n') && Digested(alphabet, es)
    ensures Digested(alphabet, fs) && NoneImitates(alphabet, fs) && Canon(fs) == Canon(es)
    ensures fs == es <==> NoneImitates(alphabet, es)
    ensures |fs| >= |es|
    decreases |Canon(es)| - |es|
  {
    if NoneImitates(alphabet, es) {
      fs := es;
    } else {
      var k :| 0 <= k < |es| && Imitates(alphabet, es[k].path);
      var more := ImitationAmbiguous(alphabet, es, k);
      LinesCount(more);
      fs := Reading(alphabet, more);
    }
  }

  lemma {:induction false} LinesCount(es: seq<Entry>)
    ensures |Canon(es)| >= |es|
  {
    if es != [] { LinesCount(es[1..]); }
  }

  // ---------------------------------------------------------------- manifests that share a text

  /** What `main` emits for files with distinct paths. */
  ghost predicate IsManifest(alphabet: char -> bool, es: seq<Entry>) {
    Sorted(es) && DistinctPaths(es) && Digested(alphabet, es)
  }

  lemma TextOfTwo(x: string, y: string, s: string, d: string)
    ensures Canon([Entry(x + "\n" + d + "  " + y, s)]) == Canon([Entry(x, s), Entry(y, d)])
  {
    var one, two := [Entry(x + "\n" + d + "  " + y, s)], [Entry(x, s), Entry(y, d)];
    CanonOne(one[0]);
    CanonTwo(two[0], two[1]);
    assert Line(one[0]) == s + "  " + (x + "\n" + (d + "  " + y)) + "\n" == Line(two[0]) + Line(two[1]);
  }

  /** Files in order with distinct paths are their own manifest. */
  lemma OwnManifest(es: seq<Entry>, e: seq<Entry>, c: string)
    requires Sorted(es) && DistinctPaths(es) && ManifestOf(es, e, c)
    ensures e == es && c == Canon(es)
  {
    SortedUnique(es, e);
  }

  /** Two walks of files, one text: whenever `x` sorts before `y`, the file `x`, newline, digest, two
      spaces, `y` has the manifest text of the two files `x` and `y`. */
  lemma TwoWalksOneText(alphabet: char -> bool, x: string, y: string, s: string, d: string)
    requires Digest(alphabet, s) && Digest(alphabet, d) && Less(x, y)
    ensures var one, two := [Entry(x + "\n" + d + "  " + y, s)], [Entry(x, s), Entry(y, d)];
            && IsManifest(alphabet, one) && IsManifest(alphabet, two)
            && forall e, c, e', c' :: ManifestOf(one, e, c) && ManifestOf(two, e', c') ==> e != e' && c == c'
  {
    var one, two := [Entry(x + "\n" + d + "  " + y, s)], [Entry(x, s), Entry(y, d)];
    LessIrreflexive(x);
    if Less(y, x) { LessTransitive(x, y, x); }
    TextOfTwo(x, y, s, d);
    forall e, c, e', c' | ManifestOf(one, e, c) && ManifestOf(two, e', c') ensures e != e' && c == c' {
      OwnManifest(one, e, c);
      OwnManifest(two, e', c');
      assert |one| != |two|;
    }
  }

  /** The walks of `TwoWalksOneText`, built. */
  method BuildBoth(x: string, y: string, s: string, d: string) returns (e: seq<Entry>, e': seq<Entry>, canon: string)
    requires |s| == |d| == 64 && Less(x, y)
    ensures ManifestOf([Entry(x + "\n" + d + "  " + y, s)], e, canon)
    ensures ManifestOf([Entry(x, s), Entry(y, d)], e', canon)
    ensures e != e'
  {
    TwoWalksOneText(_ => true, x, y, s, d);
    var c: string;
    e, canon := BuildManifest([Entry(x + "\n" + d + "  " + y, s)]);
    e', c := BuildManifest([Entry(x, s), Entry(y, d)]);
  }

  /** Consecutive lines read as one entry: the first line's digest, and everything after it as a path. */
  function Merged(rs: seq<Entry>): Entry
    requires rs != [] && |rs[0].sha| == 64
  {
    var text := Canon(rs);
    assert |text| >= |Line(rs[0])| >= 67;
    Entry(text[66..|text| - 1], rs[0].sha)
  }

  /** `fs` groups the lines of `rs`, consecutive lines read as one entry. */
  ghost predicate Groups(fs: seq<Entry>, rs: seq<Entry>)
    decreases |fs|
  {
    if fs == [] then rs == []
    else exists n: nat :: 0 < n <= |rs| && FirstGroup(fs[0], rs[..n]) && Groups(fs[1..], rs[n..])
  }

  ghost predicate FirstGroup(f: Entry, rs: seq<Entry>) {
    rs != [] && |rs[0].sha| == 64 && f == Merged(rs)
  }

  lemma {:induction false} EndsLine(rs: seq<Entry>)
    requires rs != []
    ensures Canon(rs) != "" && Canon(rs)[|Canon(rs)| - 1] == '\n'
  {
    var line, rest := Line(rs[0]), Canon(rs[1..]);
    assert Canon(rs) == line + rest && line[|line| - 1] == '\n';
    if rs[1..] == [] {
      assert rest == "" && line + rest == line;
    } else {
      EndsLine(rs[1..]);
    }
  }

  /** A merged entry prints as the lines it merges, and is the only entry with that digest that does. */
  lemma MergedLine(rs: seq<Entry>, f: Entry)
    requires rs != [] && |rs[0].sha| == 64
    ensures f == Merged(rs) <==> |f.sha| == 64 && Line(f) == Canon(rs)
  {
    var text := Canon(rs);
    EndsLine(rs);
    assert Line(rs[0])[..64] == rs[0].sha && Line(rs[0])[64..66] == "  ";
    assert text[..64] == Line(rs[0])[..64] && text[64..66] == Line(rs[0])[64..66];
    assert text == text[..64] + text[64..66] + text[66..|text| - 1] + [text[|text| - 1]];
    if |f.sha| == 64 && Line(f) == text {
      assert Line(f)[..64] == f.sha && Line(f)[66..|text| - 1] == f.path;
    }
  }

  lemma CutCanon(rs: seq<Entry>, n: nat)
    requires n <= |rs|
    ensures Canon(rs) == Canon(rs[..n]) + Canon(rs[n..])
  {
    assert rs == rs[..n] + rs[n..];
    CanonParts(rs, rs[..n], rs[n..]);
  }

  lemma CanonParts(rs: seq<Entry>, a: seq<Entry>, b: seq<Entry>)
    requires rs == a + b
    ensures Canon(rs) == Canon(a) + Canon(b)
  {
    CanonConcat(a, b);
  }

  lemma {:induction false} GroupsShare(fs: seq<Entry>, rs: seq<Entry>)
    requires Groups(fs, rs)
    ensures Canon(fs) == Canon(rs)
    decreases |fs|
  {
    if fs != [] {
      var n: nat :| 0 < n <= |rs| && FirstGroup(fs[0], rs[..n]) && Groups(fs[1..], rs[n..]);
      GroupText(fs[0], rs[..n]);
      CutCanon(rs, n);
      GroupsShare(fs[1..], rs[n..]);
    }
  }

  lemma GroupText(f: Entry, rs: seq<Entry>)
    requires FirstGroup(f, rs)
    ensures Line(f) == Canon(rs)
  {
    MergedLine(rs, f);
  }

  lemma {:induction false} SharesGroups(alphabet: char -> bool, fs: seq<Entry>, rs: seq<Entry>)
    requires !alphabet('\n') && Digested(alphabet, fs) && Digested(alphabet, rs) && NoneImitates(alphabet, rs)
    requires Canon(fs) == Canon(rs)
    ensures Groups(fs, rs)
    decreases |fs|
  {
    LinesCount(rs);
    if fs != [] {
      var head := Reading(alphabet, [fs[0]]);
      var tail := Reading(alphabet, fs[1..]);
      CanonOne(fs[0]);
      CanonConcat(head, tail);
      CanonInjective(alphabet, head + tail, rs);
      var n := |head|;
      assert rs[..n] == head && rs[n..] == tail;
      MergedLine(head, fs[0]);
      SharesGroups(alphabet, fs[1..], tail);
    }
  }

  /** The texts of a manifest, exactly: a digested list has the canonical text of `es` exactly when it
      groups the lines of the imitation-free reading `rs` of that text. */
  lemma SharedText(alphabet: char -> bool, es: seq<Entry>, rs: seq<Entry>, fs: seq<Entry>)
    requires !alphabet('\n') && Digested(alphabet, es) && Digested(alphabet, rs) && Digested(alphabet, fs)
    requires NoneImitates(alphabet, rs) && Canon(rs) == Canon(es)
    ensures Canon(fs) == Canon(es) <==> Groups(fs, rs)
  {
    if Canon(fs) == Canon(es) { SharesGroups(alphabet, fs, rs); }
    if Groups(fs, rs) { GroupsShare(fs, rs); }
  }

  /** When a manifest shares its text with another one whose paths imitate nothing: exactly when one of
      its own paths imitates a line and its imitation-free reading is in order, with distinct paths. */
  lemma SharesWithPlainManifest(alphabet: char -> bool, es: seq<Entry>, rs: seq<Entry>)
    requires !alphabet('\n') && IsManifest(alphabet, es)
    requires Digested(alphabet, rs) && NoneImitates(alphabet, rs) && Canon(rs) == Canon(es)
    ensures (exists fs :: fs != es && IsManifest(alphabet, fs) && NoneImitates(alphabet, fs) && Canon(fs) == Canon(es))
       <==> !NoneImitates(alphabet, es) && Sorted(rs) && DistinctPaths(rs)
  {
    forall fs | IsManifest(alphabet, fs) && NoneImitates(alphabet, fs) && Canon(fs) == Canon(es) ensures fs == rs {
      CanonInjective(alphabet, fs, rs);
    }
    if NoneImitates(alphabet, es) { CanonInjective(alphabet, es, rs); }
  }
}
