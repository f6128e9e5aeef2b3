/**
 * The regular expressions of the discovery and run code, hand-coded as string
 * scans. Each `...At` function says whether the expression matches starting at a
 * given index, following the backtracking of the source's greedy quantifiers;
 * `FindFirst` / `FindLast` then pick the match `RegExp.exec` reports.
 */
module Patterns {
  import opened Base
  import opened Text

  /** The least index in `[from, to)` where `f` yields a value: `exec` without the `g` flag. */
  function FindFirst<T>(f: nat -> Option<T>, from: nat, to: nat): (r: Option<(nat, T)>)
    decreases to - from
    ensures r.Some? ==> from <= r.value.0 < to && f(r.value.0) == Some(r.value.1)
    ensures r.Some? ==> (forall k :: from <= k < r.value.0 ==> f(k).None?)
    ensures r.None? ==> (forall k :: from <= k < to ==> f(k).None?)
  {
    if from >= to then None
    else match f(from)
      case Some(v) => Some((from, v))
      case None => FindFirst(f, from + 1, to)
  }

  /** The greatest index in `[from, to)` where `f` yields a value: what a greedy `.*` settles on. */
  function FindLast<T>(f: nat -> Option<T>, from: nat, to: nat): (r: Option<(nat, T)>)
    decreases to - from
    ensures r.Some? ==> from <= r.value.0 < to && f(r.value.0) == Some(r.value.1)
    ensures r.Some? ==> (forall k :: r.value.0 < k < to ==> f(k).None?)
    ensures r.None? ==> (forall k :: from <= k < to ==> f(k).None?)
  {
    if from >= to then None
    else match f(to - 1)
      case Some(v) => Some((to - 1, v))
      case None => FindLast(f, from, to - 1)
  }

  /** The end of the maximal run of characters satisfying `p` that starts at `i`. */
  function SkipWhile(s: string, i: nat, p: char -> bool): (j: nat)
    requires i <= |s|
    ensures i <= j <= |s|
    ensures forall k :: i <= k < j ==> p(s[k])
    ensures j == |s| || !p(s[j])
    decreases |s| - i
  {
    if i == |s| || !p(s[i]) then i else SkipWhile(s, i + 1, p)
  }

  /** A run satisfying `p` that no further character continues is the one `SkipWhile` finds. */
  lemma SkipExact(s: string, i: nat, j: nat, p: char -> bool)
    requires i <= j <= |s| && (forall k :: i <= k < j ==> p(s[k])) && (j == |s| || !p(s[j]))
    ensures SkipWhile(s, i, p) == j
  {
  }

  function SkipSpaces(s: string, i: nat): (j: nat)
    requires i <= |s|
    ensures i <= j <= |s|
    ensures forall k :: i <= k < j ==> IsSpace(s[k])
    ensures j == |s| || !IsSpace(s[j])
  {
    SkipWhile(s, i, IsSpace)
  }

  function SkipNonSpaces(s: string, i: nat): (j: nat)
    requires i <= |s|
    ensures i <= j <= |s|
    ensures forall k :: i <= k < j ==> !IsSpace(s[k])
    ensures j == |s| || IsSpace(s[j])
  {
    SkipWhile(s, i, c => !IsSpace(c))
  }

  /** A whitespace run followed by a non-space character is the one `SkipSpaces` finds. */
  lemma SpacesEndAt(s: string, i: nat, j: nat)
    requires i <= j < |s| && (forall k :: i <= k < j ==> IsSpace(s[k])) && !IsSpace(s[j])
    ensures SkipSpaces(s, i) == j
  {
  }

  /** A non-space run followed by whitespace is the one `SkipNonSpaces` finds. */
  lemma NonSpacesEndAt(s: string, i: nat, j: nat)
    requires i <= j < |s| && (forall k :: i <= k < j ==> !IsSpace(s[k])) && IsSpace(s[j])
    ensures SkipNonSpaces(s, i) == j
  {
  }

  predicate IsDigit(c: char) {
    '0' <= c <= '9'
  }

  lemma DigitNotSpace(c: char)
    requires IsDigit(c)
    ensures !IsSpace(c)
  {
  }

  /** `s[i..j]` is whitespace only: what `\s*` may consume. */
  predicate SpaceRun(s: string, i: nat, j: nat) {
    i <= j <= |s| && forall k :: i <= k < j ==> IsSpace(s[k])
  }

  /** `s[i..j]` holds no whitespace: what `[^\s]+` may consume. */
  predicate NonSpaceRun(s: string, i: nat, j: nat) {
    i <= j <= |s| && forall k :: i <= k < j ==> !IsSpace(s[k])
  }

  /** `s[i..j]` is digits only: what `\d+` may consume. */
  predicate DigitRun(s: string, i: nat, j: nat) {
    i <= j <= |s| && forall k :: i <= k < j ==> IsDigit(s[k])
  }

  /** `w` occurs in `s` at index `i`. */
  predicate HasAt(s: string, i: nat, w: string) {
    i + |w| <= |s| && s[i..i + |w|] == w
  }

  /** ASCII upper-casing: with the `i` flag and no `u` flag, this is the only folding that can reach an ASCII letter. */
  function Upper(c: char): char {
    if 'a' <= c <= 'z' then (c as int - 32) as char else c
  }

  /** `w` occurs in `s` at index `i`, ignoring case. */
  predicate HasAtIgnoreCase(s: string, i: nat, w: string) {
    i + |w| <= |s| && forall k :: 0 <= k < |w| ==> Upper(s[i + k]) == Upper(w[k])
  }

  // ---------------------------------------------------------------------------
  // `-params=` and `-testcases=` (src/extension.ts:143-161): \s*KEY([^\s]+)

  /** An occurrence of `key` at `o` followed by a non-empty non-space run, which is the captured value. */
  function FlagAt(line: string, key: string, o: nat): (r: Option<string>)
    ensures r.Some? <==> HasAt(line, o, key) && o + |key| < |line| && !IsSpace(line[o + |key|])
    ensures r.Some? ==> |r.value| > 0 && o + |key| + |r.value| <= |line|
    ensures r.Some? ==> line[o + |key|..o + |key| + |r.value|] == r.value
    ensures r.Some? ==> forall k :: 0 <= k < |r.value| ==> !IsSpace(r.value[k])
    ensures r.Some? ==> o + |key| + |r.value| == |line| || IsSpace(line[o + |key| + |r.value|])
  {
    if HasAt(line, o, key) then
      var e := SkipNonSpaces(line, o + |key|);
      if e > o + |key| then Some(line[o + |key|..e]) else None
    else None
  }

  /** The expression tried at index `i`: the greedy `\s*` must run up to the key. */
  function FlagMatchAt(line: string, key: string, i: nat): Option<string> {
    if i <= |line| then FlagAt(line, key, SkipSpaces(line, i)) else None
  }

  function FlagMatcher(line: string, key: string): (f: nat -> Option<string>)
    ensures forall i :: f(i) == FlagMatchAt(line, key, i)
  {
    (i: nat) => FlagMatchAt(line, key, i)
  }

  function OccurrenceMatcher(line: string, key: string): (f: nat -> Option<string>)
    ensures forall o :: f(o) == FlagAt(line, key, o)
  {
    (o: nat) => FlagAt(line, key, o)
  }

  /** `match[1]` of `exec` on the line, if it matches at all. */
  function FindFlag(line: string, key: string): Option<string> {
    match FindFirst(FlagMatcher(line, key), 0, |line|)
    case None => None
    case Some((_, v)) => Some(v)
  }

  /** The occurrence of `key` that comes first among those followed by a value. */
  function FirstOccurrence(line: string, key: string): Option<(nat, string)> {
    FindFirst(o => FlagAt(line, key, o), 0, |line|)
  }

  /**
   * The leftmost regex match captures exactly the value after the leftmost
   * occurrence of the key that has a value: `\s*` never changes which one.
   */
  lemma {:induction false} FlagIsFirstOccurrence(line: string, key: string)
    requires |key| > 0 && !IsSpace(key[0])
    ensures FindFlag(line, key).None? <==> FirstOccurrence(line, key).None?
    ensures FindFlag(line, key).Some? ==> FindFlag(line, key).value == FirstOccurrence(line, key).value.1
  {
    var f, g := FlagMatcher(line, key), OccurrenceMatcher(line, key);
    var m, occ := FindFirst(f, 0, |line|), FindFirst(g, 0, |line|);
    if occ.Some? {
      var o' := occ.value.0;
      assert g(o') == FlagAt(line, key, o');
      KeyStartsNonSpace(line, key, o');
      assert f(o') == FlagAt(line, key, o');
    }
    if m.Some? {
      var i := m.value.0;
      var o := SkipSpaces(line, i);
      assert f(i) == FlagAt(line, key, o);
      assert g(o) == FlagAt(line, key, o);
      var o' := occ.value.0;
      assert g(o') == FlagAt(line, key, o');
      KeyStartsNonSpace(line, key, o');
      assert f(o') == FlagAt(line, key, o');
      assert i <= o' <= o;
      assert o' == o;
    }
  }

  lemma KeyStartsNonSpace(line: string, key: string, o: nat)
    requires |key| > 0 && !IsSpace(key[0]) && HasAt(line, o, key)
    ensures o < |line| && !IsSpace(line[o]) && SkipSpaces(line, o) == o
  {
    assert line[o] == line[o..o + |key|][0];
  }

  // ---------------------------------------------------------------------------
  // The target line (src/extension.ts:142): ^\s*\/\/.*\/([^\/]+)\/TARGET

  /** What the target-line expression captures: `match[0]` and `match[1]`. */
  datatype TargetMatch = TargetMatch(whole: string, name: string)

  /** The first index at or after `i` holding `c`, or `|s|`. */
  function IndexOfFrom(s: string, c: char, i: nat): (k: nat)
    requires i <= |s|
    ensures i <= k <= |s|
    ensures forall m :: i <= m < k ==> s[m] != c
    ensures k < |s| ==> s[k] == c
  {
    SkipWhile(s, i, x => x != c)
  }

  /** `/NAME/TARGET` at `j`, where NAME is free of `/` and runs up to the `/` at `k`. */
  predicate SegmentShape(line: string, target: string, j: nat, k: nat) {
    j + 1 < k < |line| && line[j] == '/' && line[k] == '/' &&
    (forall m :: j < m < k ==> line[m] != '/') && HasAt(line, k + 1, target)
  }

  /** `\/([^\/]+)\/TARGET` tried at `j`: returns the end of the match and the segment name. */
  function SegmentAt(line: string, target: string, j: nat): (r: Option<(nat, string)>)
    ensures forall k: nat :: SegmentShape(line, target, j, k) ==> r == Some((k + 1 + |target|, line[j + 1..k]))
    ensures r.Some? ==> SegmentShape(line, target, j, j + 1 + |r.value.1|)
    ensures r.Some? ==> j < |line| && line[j] == '/' && 0 < |r.value.1| && '/' !in r.value.1
    ensures r.Some? ==> r.value.0 == j + |r.value.1| + 2 + |target| <= |line|
    ensures r.Some? ==> line[j + 1..j + 1 + |r.value.1|] == r.value.1 && line[j + 1 + |r.value.1|] == '/'
    ensures r.Some? ==> HasAt(line, j + 2 + |r.value.1|, target)
  {
    if j < |line| && line[j] == '/' then
      var k := IndexOfFrom(line, '/', j + 1);
      if j + 1 < k < |line| && HasAt(line, k + 1, target) then
        var name := line[j + 1..k];
        assert '/' !in name by {
          forall m | 0 <= m < |name| ensures name[m] != '/' { assert name[m] == line[j + 1 + m]; }
        }
        assert SegmentShape(line, target, j, k);
        Some((k + 1 + |target|, name))
      else None
    else None
  }

  function SegmentMatcher(line: string, target: string): (f: nat -> Option<(nat, string)>)
    ensures forall j :: f(j) == SegmentAt(line, target, j)
  {
    (j: nat) => SegmentAt(line, target, j)
  }

  /** The index after `\s*\/\/`, if the line starts that way. */
  function CommentStart(line: string): (r: Option<nat>)
    ensures r.Some? ==> 2 <= r.value <= |line| && line[r.value - 2..r.value] == "//"
    ensures r.Some? ==> forall k :: 0 <= k < r.value - 2 ==> IsSpace(line[k])
    ensures forall p: nat :: SpaceRun(line, 0, p) && HasAt(line, p, "//") ==> r == Some(p + 2)
  {
    var p := SkipSpaces(line, 0);
    assert forall p': nat :: SpaceRun(line, 0, p') && HasAt(line, p', "//") ==> p' == p by {
      forall p': nat | SpaceRun(line, 0, p') && HasAt(line, p', "//") ensures p' == p {
        assert line[p'] == line[p'..p' + 2][0];
      }
    }
    if HasAt(line, p, "//") then
      assert forall k :: 0 <= k < p ==> IsSpace(line[k]) by {
        forall k | 0 <= k < p ensures IsSpace(line[k]) { assert IsSpace(line[k]); }
      }
      Some(p + 2)
    else None
  }

  /** The end of what `.*` can cover from `i`: the first line terminator, or the end of the line. */
  function LineEnd(s: string, i: nat): (j: nat)
    requires i <= |s|
    ensures i <= j <= |s|
    ensures forall k :: i <= k < j ==> !IsLineTerminator(s[k])
    ensures j == |s| || IsLineTerminator(s[j])
  {
    SkipWhile(s, i, c => !IsLineTerminator(c))
  }

  /**
   * The target-line expression. `.*` matches no line terminator and is greedy, so
   * the segment is the last one that can be reached from the comment start
   * without crossing a terminator.
   */
  function MatchTarget(line: string, target: string): (r: Option<TargetMatch>)
    ensures r.Some? ==> |r.value.whole| <= |line| && line[..|r.value.whole|] == r.value.whole
    ensures r.Some? ==> 0 < |r.value.name| && '/' !in r.value.name
    ensures forall j: nat :: Reachable(line, target, j) ==> r.Some?
  {
    var s := LastSegment(line, target);
    if s.Some? then Some(TargetMatch(line[..s.value.1.0], s.value.1.1)) else None
  }

  /**
   * A segment match at `j` that `^\s*\/\/.*` can lead up to: `j` is after the
   * comment start with no line terminator in between.
   */
  predicate Reachable(line: string, target: string, j: nat) {
    SegmentAt(line, target, j).Some? && CommentStart(line).Some? && CommentStart(line).value <= j &&
    forall k :: CommentStart(line).value <= k < j ==> !IsLineTerminator(line[k])
  }

  /** Where `.*` stops (the last `/` it can reach that starts a segment match) and that segment match. */
  function LastSegment(line: string, target: string): (r: Option<(nat, (nat, string))>)
    ensures r.Some? ==> Reachable(line, target, r.value.0)
    ensures r.Some? ==> SegmentAt(line, target, r.value.0) == Some(r.value.1)
    ensures forall j: nat :: Reachable(line, target, j) ==> r.Some? && j <= r.value.0
  {
    match CommentStart(line)
    case None => None
    case Some(p) =>
      var f := SegmentMatcher(line, target);
      var q := LineEnd(line, p);
      var r := FindLast(f, p, q + 1);
      assert forall j: nat :: Reachable(line, target, j) ==> p <= j <= q && f(j).Some? by {
        forall j: nat | Reachable(line, target, j) ensures p <= j <= q && f(j).Some? {
          assert f(j) == SegmentAt(line, target, j);
        }
      }
      if r.Some? then
        assert f(r.value.0) == SegmentAt(line, target, r.value.0);
        r
      else None
  }

  /** The text a segment match ends: `/NAME/TARGET`, right after the index it is tried at. */
  lemma SegmentForm(line: string, target: string, j: nat, e: nat, name: string)
    requires SegmentAt(line, target, j) == Some((e, name))
    ensures line[..e] == line[..j] + "/" + name + "/" + target
  {
    assert line[..e] == line[..j] + [line[j]] + line[j + 1..j + 1 + |name|] + [line[j + 1 + |name|]] + line[j + 2 + |name|..e];
  }

  /**
   * A target match ends at a segment match tried at a `/` that comes after the
   * comment start with no line terminator in between.
   */
  lemma MatchTargetSegment(line: string, target: string)
    requires MatchTarget(line, target).Some?
    ensures var m := MatchTarget(line, target).value;
            var j := |m.whole| - |target| - |m.name| - 2;
            Reachable(line, target, j) && SegmentAt(line, target, j) == Some((|m.whole|, m.name)) &&
            (forall j': nat :: Reachable(line, target, j') ==> j' <= j)
  {
    var seg := LastSegment(line, target).value;
    var j, e, name := seg.0, seg.1.0, seg.1.1;
    assert SegmentAt(line, target, j) == Some((e, name));
  }

  /** The whole match is the line up to `/NAME/TARGET`. */
  lemma MatchTargetText(line: string, target: string)
    requires MatchTarget(line, target).Some?
    ensures var m := MatchTarget(line, target).value;
            m.whole == line[..|m.whole| - |target| - |m.name| - 2] + "/" + m.name + "/" + target
  {
    var seg := LastSegment(line, target).value;
    var j, e, name := seg.0, seg.1.0, seg.1.1;
    assert SegmentAt(line, target, j) == Some((e, name));
    SegmentForm(line, target, j, e, name);
  }

  /**
   * No segment further along the line, before a line terminator, would also
   * match: the greedy `.*` backs off as little as it can.
   */
  lemma MatchTargetIsLast(line: string, target: string, j': nat)
    requires MatchTarget(line, target).Some? && CommentStart(line).Some?
    requires var m := MatchTarget(line, target).value;
             |m.whole| - |target| - |m.name| - 2 < j' < |line|
    requires forall k :: CommentStart(line).value <= k < j' ==> !IsLineTerminator(line[k])
    ensures SegmentAt(line, target, j').None?
  {
    var p := CommentStart(line).value;
    var q := LineEnd(line, p);
    var f := SegmentMatcher(line, target);
    var r := FindLast(f, p, q + 1);
    var j := r.value.0;
    assert f(j) == SegmentAt(line, target, j);
    if j' <= q {
      assert f(j') == SegmentAt(line, target, j');
    }
  }

  // ---------------------------------------------------------------------------
  // The bench line (src/extension.ts:163-173): \s+([^\s]+)\s+\+testcases=([^\s]+)

  /** What the bench expression captures: the bench file and the raw case list. */
  datatype BenchMatch = BenchMatch(file: string, cases: string)

  /**
   * The bench expression laid over `line[i..d]`: whitespace up to `a`, the file up
   * to `b`, whitespace up to `c`, `+testcases=`, and a case list up to `d`.
   */
  predicate BenchShape(line: string, i: nat, a: nat, b: nat, c: nat, d: nat) {
    i < a && SpaceRun(line, i, a) && a < b && NonSpaceRun(line, a, b) && b < c && SpaceRun(line, b, c) &&
    HasAt(line, c, "+testcases=") && c + 11 < d && NonSpaceRun(line, c + 11, d)
  }

  /** The greedy scan stops exactly at the boundaries of a laying of the bench expression. */
  lemma BenchScanAt(line: string, i: nat, a: nat, b: nat, c: nat, d: nat)
    requires BenchShape(line, i, a, b, c, d)
    ensures a == SkipSpaces(line, i) && b == SkipNonSpaces(line, a) && c == SkipSpaces(line, b)
    ensures d <= SkipNonSpaces(line, c + 11)
    ensures line[c + 11..d] <= line[c + 11..SkipNonSpaces(line, c + 11)]
    ensures BenchShape(line, i, a, b, c, SkipNonSpaces(line, c + 11))
  {
    assert line[c] == line[c..c + 11][0];
    SpacesEndAt(line, i, a);
    NonSpacesEndAt(line, a, b);
    SpacesEndAt(line, b, c);
    var e := SkipNonSpaces(line, c + 11);
    assert line[c + 11..e][..d - c - 11] == line[c + 11..d];
  }

  /**
   * `\s+([^\s]+)\s+\+testcases=([^\s]+)` tried at `i`. Each quantifier must run to the
   * end of its run, since the next token cannot start inside it; only the last one
   * is free, and being greedy it takes the whole run.
   */
  function BenchAt(line: string, i: nat): (r: Option<BenchMatch>)
    ensures r.Some? ==> i < |line| && IsSpace(line[i])
    ensures r.Some? ==> |r.value.file| > 0 && |r.value.cases| > 0
    ensures r.Some? ==> forall k :: 0 <= k < |r.value.file| ==> !IsSpace(r.value.file[k])
    ensures r.Some? ==> forall k :: 0 <= k < |r.value.cases| ==> !IsSpace(r.value.cases[k])
    ensures r.Some? ==> exists a: nat, b: nat, c: nat, d: nat ::
              (BenchShape(line, i, a, b, c, d) &&
               r.value == BenchMatch(line[a..b], line[c + 11..d]) && (d == |line| || IsSpace(line[d])))
  {
    if i < |line| then
      var a := SkipSpaces(line, i);
      var b := SkipNonSpaces(line, a);
      var c := SkipSpaces(line, b);
      if c + 11 <= |line| then
        var d := SkipNonSpaces(line, c + 11);
        if BenchShape(line, i, a, b, c, d) then
          var file, cases := line[a..b], line[c + 11..d];
          assert forall k :: 0 <= k < |file| ==> !IsSpace(file[k]) by {
            forall k | 0 <= k < |file| ensures !IsSpace(file[k]) { assert file[k] == line[a + k]; }
          }
          assert forall k :: 0 <= k < |cases| ==> !IsSpace(cases[k]) by {
            forall k | 0 <= k < |cases| ensures !IsSpace(cases[k]) { assert cases[k] == line[c + 11 + k]; }
          }
          Some(BenchMatch(file, cases))
        else None
      else None
    else None
  }

  /**
   * Wherever the bench expression can be laid over the line from `i`, it matches
   * there, capturing the file that laying covers and a case list that extends its
   * cases to the whole non-space run.
   */
  lemma BenchAtComplete(line: string, i: nat, a: nat, b: nat, c: nat, d: nat)
    requires BenchShape(line, i, a, b, c, d)
    ensures BenchAt(line, i).Some? && BenchAt(line, i).value.file == line[a..b]
    ensures line[c + 11..d] <= BenchAt(line, i).value.cases
  {
    BenchScanAt(line, i, a, b, c, d);
    var e := SkipNonSpaces(line, c + 11);
    assert i < |line| && c + 11 <= |line|;
    assert BenchShape(line, i, a, b, c, e);
    assert BenchAt(line, i) == Some(BenchMatch(line[a..b], line[c + 11..e]));
  }

  function BenchMatcher(line: string): (f: nat -> Option<BenchMatch>)
    ensures forall i :: f(i) == BenchAt(line, i)
  {
    (i: nat) => BenchAt(line, i)
  }

  /** `exec` of the bench expression on a line. */
  function FindBench(line: string): Option<BenchMatch> {
    match FindFirst(BenchMatcher(line), 0, |line|)
    case None => None
    case Some((_, m)) => Some(m)
  }

  /** The bench match found is the one at the first position where the expression matches, and there is none exactly when no position matches. */
  lemma FindBenchIsFirst(line: string)
    ensures FindBench(line).None? <==> forall i :: 0 <= i < |line| ==> BenchAt(line, i).None?
    ensures FindBench(line).Some? ==> exists i ::
              (0 <= i < |line| && BenchAt(line, i) == FindBench(line) && forall k :: 0 <= k < i ==> BenchAt(line, k).None?)
  {
    var f := BenchMatcher(line);
    var r := FindFirst(f, 0, |line|);
    if r.Some? {
      var i := r.value.0;
      assert forall k :: 0 <= k < i ==> BenchAt(line, k).None? by {
        forall k | 0 <= k < i ensures BenchAt(line, k).None? {
          assert f(k).None?;
        }
      }
      assert 0 <= i < |line| && BenchAt(line, i) == FindBench(line);
    } else {
      forall k | 0 <= k < |line| ensures BenchAt(line, k).None? {
        assert f(k).None?;
      }
    }
  }

  // ---------------------------------------------------------------------------
  // The failure headline (src/extension.ts:112-118): errors:\s*(\d+)\s*,\s*warnings:\s*(\d+), flag i

  /** `\s*(\d+)` laid over `s[i..b]`: whitespace up to `a`, then a non-empty digit run up to `b`. */
  predicate CountShape(s: string, i: nat, a: nat, b: nat) {
    SpaceRun(s, i, a) && a < b && DigitRun(s, a, b)
  }

  /**
   * The errors/warnings expression laid over `s[i..f]`: `errors:`, the error count
   * up to `b`, whitespace up to `c`, a comma, whitespace up to `d`, `warnings:`, and
   * the warning count up to `f`.
   */
  predicate MarkerShape(s: string, i: nat, a: nat, b: nat, c: nat, d: nat, e: nat, f: nat) {
    HasAtIgnoreCase(s, i, "errors:") && CountShape(s, i + 7, a, b) &&
    SpaceRun(s, b, c) && c < |s| && s[c] == ',' && SpaceRun(s, c + 1, d) &&
    HasAtIgnoreCase(s, d, "warnings:") && CountShape(s, d + 9, e, f)
  }

  /** The first letter of a word matched ignoring case is neither whitespace nor a digit. */
  lemma IgnoreCaseLetter(s: string, d: nat, w: string)
    requires HasAtIgnoreCase(s, d, w) && |w| > 0 && 'A' <= Upper(w[0]) <= 'Z'
    ensures d < |s| && !IsSpace(s[d]) && !IsDigit(s[d])
  {
    assert Upper(s[d + 0]) == Upper(w[0]);
  }

  /** The greedy scan of a count starts its digits where any laying does, and runs at least as far. */
  lemma CountScanAt(s: string, i: nat, a: nat, b: nat)
    requires CountShape(s, i, a, b)
    ensures a == SkipSpaces(s, i) && b <= SkipWhile(s, a, IsDigit)
    ensures CountShape(s, i, a, SkipWhile(s, a, IsDigit))
  {
    DigitNotSpace(s[a]);
    SpacesEndAt(s, i, a);
  }

  /**
   * The greedy scan stops exactly at the boundaries of a laying of the
   * errors/warnings expression, except the last, which it puts at the end of the
   * digit run; that is a laying too.
   */
  lemma MarkerScanAt(s: string, i: nat, a: nat, b: nat, c: nat, d: nat, e: nat, f: nat)
    requires MarkerShape(s, i, a, b, c, d, e, f)
    ensures a == SkipSpaces(s, i + 7) && b == SkipWhile(s, a, IsDigit) && c == SkipSpaces(s, b)
    ensures d == SkipSpaces(s, c + 1) && e == SkipSpaces(s, d + 9) && f <= SkipWhile(s, e, IsDigit)
    ensures MarkerShape(s, i, a, b, c, d, e, SkipWhile(s, e, IsDigit))
  {
    CountScanAt(s, i + 7, a, b);
    assert !IsDigit(s[b]) by {
      if b < c { assert IsSpace(s[b]); }
    }
    SpacesEndAt(s, b, c);
    IgnoreCaseLetter(s, d, "warnings:");
    SpacesEndAt(s, c + 1, d);
    CountScanAt(s, d + 9, e, f);
  }

  /**
   * The end of a match of the errors/warnings expression tried at `i`: the
   * quantifiers are forced to whole runs as in the bench expression, and the final
   * `\d+` takes the whole digit run.
   */
  function MarkerAt(s: string, i: nat): (r: Option<nat>)
    ensures r.Some? ==> i < r.value <= |s|
    ensures r.Some? ==> HasAtIgnoreCase(s, i, "errors:") && IsDigit(s[r.value - 1])
    ensures r.Some? ==> r.value == |s| || !IsDigit(s[r.value])
    ensures r.Some? ==> exists a: nat, b: nat, c: nat, d: nat, e: nat :: MarkerShape(s, i, a, b, c, d, e, r.value)
  {
    if HasAtIgnoreCase(s, i, "errors:") then
      var a := SkipSpaces(s, i + 7);
      var b := SkipWhile(s, a, IsDigit);
      var c := SkipSpaces(s, b);
      if a < b && c < |s| && s[c] == ',' then
        var d := SkipSpaces(s, c + 1);
        if HasAtIgnoreCase(s, d, "warnings:") then
          var e := SkipSpaces(s, d + 9);
          var f := SkipWhile(s, e, IsDigit);
          if e < f then
            assert MarkerShape(s, i, a, b, c, d, e, f);
            Some(f)
          else None
        else None
      else None
    else None
  }

  /** Wherever the expression can be laid over the text from `i`, it matches there, up to the whole last digit run. */
  lemma MarkerAtComplete(s: string, i: nat, a: nat, b: nat, c: nat, d: nat, e: nat, f: nat)
    requires MarkerShape(s, i, a, b, c, d, e, f)
    ensures MarkerAt(s, i) == Some(SkipWhile(s, e, IsDigit)) && f <= MarkerAt(s, i).value
  {
    MarkerScanAt(s, i, a, b, c, d, e, f);
    MarkerAtGreedy(s, i, a, b, c, d, e);
  }

  lemma MarkerAtGreedy(s: string, i: nat, a: nat, b: nat, c: nat, d: nat, e: nat)
    requires HasAtIgnoreCase(s, i, "errors:")
    requires a == SkipSpaces(s, i + 7) && b == SkipWhile(s, a, IsDigit) && c == SkipSpaces(s, b)
    requires a < b && c < |s| && s[c] == ',' && d == SkipSpaces(s, c + 1) && HasAtIgnoreCase(s, d, "warnings:")
    requires e == SkipSpaces(s, d + 9) && e < SkipWhile(s, e, IsDigit)
    ensures MarkerAt(s, i) == Some(SkipWhile(s, e, IsDigit))
  {
  }

  function MarkerMatcher(out: string): (f: nat -> Option<nat>)
    ensures forall i :: f(i) == MarkerAt(out, i)
  {
    (i: nat) => MarkerAt(out, i)
  }

  /**
   * The failure message: the text of the first marker, or the whole output when
   * there is none.
   */
  function Headline(out: string): (h: string)
    ensures (forall i :: 0 <= i < |out| ==> MarkerAt(out, i).None?) ==> h == out
  {
    match FindFirst(MarkerMatcher(out), 0, |out|)
    case None => out
    case Some((i, e)) => out[i..e]
  }

  /** With a marker in the output, the headline is the text of the leftmost one. */
  lemma HeadlineIsFirstMarker(out: string, i: nat)
    requires i < |out| && MarkerAt(out, i).Some?
    requires forall k :: 0 <= k < i ==> MarkerAt(out, k).None?
    ensures Headline(out) == out[i..MarkerAt(out, i).value]
  {
    var f := MarkerMatcher(out);
    var r := FindFirst(f, 0, |out|);
    assert f(i).Some?;
    var j := r.value.0;
    assert f(j).Some?;
    assert j == i;
  }

  // ---------------------------------------------------------------------------
  // The bench case marker (src/extension.ts:229): `TEST_CASE\s*\(\s*"NAME"\s*\)

  /** A text range as offsets: `[start, end)`. */
  datatype Range = Range(start: nat, end: nat)

  /**
   * The case-marker expression laid over `text[i..c + 1]`: `` `TEST_CASE ``, whitespace
   * up to the `(` at `a`, whitespace up to the quoted name at `b`, whitespace up to
   * the `)` at `c`.
   */
  predicate TestCaseShape(text: string, name: string, i: nat, a: nat, b: nat, c: nat) {
    HasAt(text, i, "`TEST_CASE") && SpaceRun(text, i + 10, a) && a < |text| && text[a] == '(' &&
    SpaceRun(text, a + 1, b) && HasAt(text, b, "\"" + name + "\"") &&
    SpaceRun(text, b + |name| + 2, c) && c < |text| && text[c] == ')'
  }

  /** The greedy scan stops exactly at the boundaries of a laying of the case-marker expression. */
  lemma TestCaseScanAt(text: string, name: string, i: nat, a: nat, b: nat, c: nat)
    requires TestCaseShape(text, name, i, a, b, c)
    ensures a == SkipSpaces(text, i + 10) && b == SkipSpaces(text, a + 1) && c == SkipSpaces(text, b + |name| + 2)
  {
    assert text[b] == text[b..b + |name| + 2][0];
    SpacesEndAt(text, i + 10, a);
    SpacesEndAt(text, a + 1, b);
    SpacesEndAt(text, b + |name| + 2, c);
  }

  /** `` `TEST_CASE\s*\(\s*"NAME"\s*\) `` tried at `i`: the end of the match. */
  function TestCaseAt(text: string, name: string, i: nat): (r: Option<nat>)
    ensures r.Some? ==> i < r.value <= |text| && HasAt(text, i, "`TEST_CASE") && text[r.value - 1] == ')'
    ensures r.Some? ==> exists a: nat, b: nat, c: nat :: TestCaseShape(text, name, i, a, b, c) && r.value == c + 1
  {
    if HasAt(text, i, "`TEST_CASE") then
      var a := SkipSpaces(text, i + 10);
      if a < |text| then
        var b := SkipSpaces(text, a + 1);
        if b + |name| + 2 <= |text| then
          var c := SkipSpaces(text, b + |name| + 2);
          if TestCaseShape(text, name, i, a, b, c) then Some(c + 1) else None
        else None
      else None
    else None
  }

  /** Wherever the case-marker expression can be laid over the text from `i`, it matches there, up to its `)`. */
  lemma TestCaseAtComplete(text: string, name: string, i: nat, a: nat, b: nat, c: nat)
    requires TestCaseShape(text, name, i, a, b, c)
    ensures TestCaseAt(text, name, i) == Some(c + 1)
  {
    TestCaseScanAt(text, name, i, a, b, c);
  }

  function TestCaseMatcher(text: string, name: string): (f: nat -> Option<nat>)
    ensures forall i :: f(i) == TestCaseAt(text, name, i)
  {
    (i: nat) => TestCaseAt(text, name, i)
  }

  /** The range of the first marker for `name`, absent when there is none. */
  function FindTestCase(text: string, name: string): (r: Option<Range>)
    ensures r.Some? ==> r.value.start < r.value.end <= |text| && TestCaseAt(text, name, r.value.start) == Some(r.value.end)
    ensures r.Some? ==> forall k :: 0 <= k < r.value.start ==> TestCaseAt(text, name, k).None?
    ensures r.None? <==> forall k :: 0 <= k < |text| ==> TestCaseAt(text, name, k).None?
  {
    match FindFirst(TestCaseMatcher(text, name), 0, |text|)
    case None => None
    case Some((i, e)) => Some(Range(i, e))
  }
}
