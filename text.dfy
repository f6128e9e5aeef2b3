/**
 * The JavaScript string operations the extension relies on: `\s`, `String.split`
 * with a one-character separator, `Array.join`, and the line-ending rewrite
 * `split(/\r\n|\r|\n/).join("\r\n")`.
 */
module Text {

  /** JavaScript's `\s` class: the ECMAScript white-space and line-terminator code points. */
  predicate IsSpace(c: char) {
    var n := c as int;
    (9 <= n <= 13) || n == 32 || n == 0xA0 || n == 0x1680 || (0x2000 <= n <= 0x200A) ||
    n == 0x2028 || n == 0x2029 || n == 0x202F || n == 0x205F || n == 0x3000 || n == 0xFEFF
  }

  /** Characters that JavaScript's `.` does not match. */
  predicate IsLineTerminator(c: char) {
    var n := c as int;
    n == 10 || n == 13 || n == 0x2028 || n == 0x2029
  }

  predicate IsBreakChar(c: char) {
    c == '\r' || c == '\n'
  }

  /** `Array.prototype.join(sep)`: the empty array joins to the empty string. */
  function Join(ps: seq<string>, sep: string): string
    decreases |ps|
  {
    if |ps| == 0 then ""
    else if |ps| == 1 then ps[0]
    else ps[0] + sep + Join(ps[1..], sep)
  }

  lemma JoinCons(x: string, y: string, tail: seq<string>, sep: string)
    ensures Join([x + y] + tail, sep) == x + Join([y] + tail, sep)
  {
    var a, b := [x + y] + tail, [y] + tail;
    assert a[1..] == tail && b[1..] == tail;
  }

  lemma JoinFirst(x: string, tail: seq<string>, sep: string)
    requires |tail| > 0
    ensures Join([x] + tail, sep) == x + sep + Join(tail, sep)
  {
    assert ([x] + tail)[1..] == tail;
  }

  lemma Join2(a: string, b: string, sep: string)
    ensures Join([a, b], sep) == a + sep + b
  {
    assert [a, b][1..] == [b];
  }

  lemma Join3(a: string, b: string, c: string, sep: string)
    ensures Join([a, b, c], sep) == a + sep + b + sep + c
  {
    assert [a, b, c][1..] == [b, c];
    Join2(b, c, sep);
  }

  lemma Join4(a: string, b: string, c: string, d: string, sep: string)
    ensures Join([a, b, c, d], sep) == a + sep + b + sep + c + sep + d
  {
    assert [a, b, c, d][1..] == [b, c, d];
    Join3(b, c, d, sep);
  }

  /**
   * `s.split(c)` for a one-character separator: every occurrence splits, empty
   * pieces are kept, and the result is never empty.
   */
  function Split(s: string, c: char): (r: seq<string>)
    ensures |r| >= 1
    ensures forall i :: 0 <= i < |r| ==> c !in r[i]
    ensures Join(r, [c]) == s
    decreases |s|
  {
    if |s| == 0 then [""]
    else
      var rest := Split(s[1..], c);
      if s[0] == c then
        JoinFirst("", rest, [c]);
        [""] + rest
      else
        assert rest == [rest[0]] + rest[1..];
        JoinCons([s[0]], rest[0], rest[1..], [c]);
        [[s[0]] + rest[0]] + rest[1..]
  }

  /** Splitting a join of separator-free pieces gives the pieces back. */
  lemma {:induction false} SplitJoin(ps: seq<string>, c: char)
    requires |ps| >= 1
    requires forall i :: 0 <= i < |ps| ==> c !in ps[i]
    ensures Split(Join(ps, [c]), c) == ps
    decreases |ps|, |ps[0]|
  {
    if |ps[0]| > 0 {
      var x := ps[0];
      var tail := [x[1..]] + ps[1..];
      assert x == [x[0]] + x[1..];
      assert ps == [[x[0]] + x[1..]] + ps[1..];
      JoinCons([x[0]], x[1..], ps[1..], [c]);
      assert tail[1..] == ps[1..];
      SplitJoin(tail, c);
    } else if |ps| > 1 {
      assert ps == [""] + ps[1..];
      JoinFirst("", ps[1..], [c]);
      SplitJoin(ps[1..], c);
    }
  }

  /**
   * `s.split(/\r\n|\r|\n/)`: at each position the alternatives are tried in order,
   * so a CR immediately followed by LF is one separator.
   */
  function SplitLines(s: string): (r: seq<string>)
    ensures |r| >= 1
    ensures forall i :: 0 <= i < |r| ==> forall k :: 0 <= k < |r[i]| ==> !IsBreakChar(r[i][k])
    decreases |s|
  {
    if |s| == 0 then [""]
    else if s[0] == '\r' && |s| > 1 && s[1] == '\n' then [""] + SplitLines(s[2..])
    else if IsBreakChar(s[0]) then [""] + SplitLines(s[1..])
    else
      var rest := SplitLines(s[1..]);
      [[s[0]] + rest[0]] + rest[1..]
  }

  /** `split(/\r\n|\r|\n/).join("\r\n")`, used on every captured output (src/extension.ts:109, 123). */
  function NormalizeLineEndings(s: string): string {
    Join(SplitLines(s), "\r\n")
  }

  /** Every CR is followed by LF and every LF is preceded by CR. */
  predicate NoBareBreaks(t: string) {
    forall i :: 0 <= i < |t| ==>
      (t[i] == '\r' ==> i + 1 < |t| && t[i + 1] == '\n') &&
      (t[i] == '\n' ==> i > 0 && t[i - 1] == '\r')
  }

  predicate BreakFree(p: string) {
    forall k :: 0 <= k < |p| ==> !IsBreakChar(p[k])
  }

  predicate AllBreakFree(ps: seq<string>) {
    forall i :: 0 <= i < |ps| ==> BreakFree(ps[i])
  }

  lemma {:induction false} JoinCrlfNoBare(ps: seq<string>)
    requires AllBreakFree(ps)
    ensures NoBareBreaks(Join(ps, "\r\n"))
    ensures |Join(ps, "\r\n")| > 0 ==> Join(ps, "\r\n")[0] != '\n'
    decreases |ps|
  {
    if |ps| > 1 {
      var t := Join(ps[1..], "\r\n");
      JoinCrlfNoBare(ps[1..]);
      assert BreakFree(ps[0]);
      assert Join(ps, "\r\n") == ps[0] + "\r\n" + t;
      CrlfConcat(ps[0], t);
    } else if |ps| == 1 {
      assert BreakFree(ps[0]);
    }
  }

  /** A break-free line, CRLF, and text without bare breaks that does not start with LF. */
  lemma CrlfConcat(a: string, t: string)
    requires BreakFree(a) && NoBareBreaks(t) && (|t| > 0 ==> t[0] != '\n')
    ensures NoBareBreaks(a + "\r\n" + t)
    ensures (a + "\r\n" + t)[0] != '\n'
  {
    var u := a + "\r\n" + t;
    forall i | 0 <= i < |u|
      ensures (u[i] == '\r' ==> i + 1 < |u| && u[i + 1] == '\n') &&
              (u[i] == '\n' ==> i > 0 && u[i - 1] == '\r')
    {
      if i < |a| {
        assert u[i] == a[i];
      } else if i == |a| {
      } else if i == |a| + 1 {
      } else {
        assert u[i] == t[i - |a| - 2];
        if i + 1 < |u| { assert u[i + 1] == t[i - |a| - 1]; }
        if i - 1 > |a| + 1 { assert u[i - 1] == t[i - |a| - 3]; }
      }
    }
    if |a| > 0 {
      assert u[0] == a[0];
    }
  }

  /** The normalised text never holds a bare CR or a bare LF. */
  lemma NormalizeHasNoBareBreaks(s: string)
    ensures NoBareBreaks(NormalizeLineEndings(s))
  {
    JoinCrlfNoBare(SplitLines(s));
  }

  lemma {:induction false} SplitLinesCons(c: char, s: string)
    requires !IsBreakChar(c)
    ensures SplitLines([c] + s) == [[c] + SplitLines(s)[0]] + SplitLines(s)[1..]
  {
    assert ([c] + s)[1..] == s;
  }

  /** A line-break separator: what `split(/\r\n|\r|\n/)` consumes in one step. */
  predicate IsLineBreak(sep: string) {
    sep == "\r\n" || sep == "\r" || sep == "\n"
  }

  lemma {:induction false} JoinAvoids(ps: seq<string>, sep: string, c: char)
    requires c !in sep
    requires forall i :: 0 <= i < |ps| ==> c !in ps[i]
    ensures c !in Join(ps, sep)
    decreases |ps|
  {
    if |ps| > 1 {
      JoinAvoids(ps[1..], sep, c);
    }
  }

  lemma SplitLinesAfterBreak(sep: string, t: string)
    requires IsLineBreak(sep)
    requires sep == "\r" && |t| > 0 ==> t[0] != '\n'
    ensures SplitLines(sep + t) == [""] + SplitLines(t)
  {
    if sep == "\r\n" {
      assert (sep + t)[2..] == t;
    } else {
      assert (sep + t)[1..] == t;
    }
  }

  lemma DropFirstChar(x: string, ps: seq<string>)
    requires |x| > 0 && BreakFree(x) && AllBreakFree(ps)
    ensures AllBreakFree([x[1..]] + ps)
  {
    var tail := [x[1..]] + ps;
    forall i | 0 <= i < |tail| ensures BreakFree(tail[i]) {
      if i == 0 {
        forall k | 0 <= k < |x[1..]| ensures !IsBreakChar(x[1..][k]) { assert x[1..][k] == x[k + 1]; }
      } else {
        assert tail[i] == ps[i - 1];
      }
    }
  }

  lemma DropFirstLine(ps: seq<string>)
    requires |ps| > 0 && AllBreakFree(ps)
    ensures AllBreakFree(ps[1..])
    ensures forall i :: 0 <= i < |ps[1..]| ==> '\n' !in ps[1..][i]
  {
    forall i | 0 <= i < |ps[1..]| ensures BreakFree(ps[1..][i]) && '\n' !in ps[1..][i] {
      assert ps[1..][i] == ps[i + 1];
      assert BreakFree(ps[i + 1]);
    }
  }

  /** Splitting a join of break-free lines on any one line-break form gives the lines back. */
  lemma {:induction false} SplitLinesJoin(ps: seq<string>, sep: string)
    requires |ps| >= 1
    requires AllBreakFree(ps)
    requires IsLineBreak(sep)
    ensures SplitLines(Join(ps, sep)) == ps
    decreases |ps|, |ps[0]|
  {
    var x := ps[0];
    if |x| > 0 {
      var tail := [x[1..]] + ps[1..];
      DropFirstLine(ps);
      DropFirstChar(x, ps[1..]);
      assert x == [x[0]] + x[1..];
      assert ps == [[x[0]] + x[1..]] + ps[1..];
      assert !IsBreakChar(x[0]);
      JoinCons([x[0]], x[1..], ps[1..], sep);
      assert tail[1..] == ps[1..];
      SplitLinesJoin(tail, sep);
      SplitLinesCons(x[0], Join(tail, sep));
    } else if |ps| > 1 {
      var t := Join(ps[1..], sep);
      DropFirstLine(ps);
      SplitLinesJoin(ps[1..], sep);
      JoinFirst("", ps[1..], sep);
      if sep == "\r" {
        JoinAvoids(ps[1..], sep, '\n');
        if |t| > 0 { assert t[0] in t; }
      }
      SplitLinesAfterBreak(sep, t);
      assert ps == [""] + ps[1..];
    }
  }

  /** Normalising already-normalised text changes nothing. */
  lemma NormalizeIdempotent(s: string)
    ensures NormalizeLineEndings(NormalizeLineEndings(s)) == NormalizeLineEndings(s)
  {
    var ps := SplitLines(s);
    SplitLinesJoin(ps, "\r\n");
  }

  /**
   * The separators `split(/\r\n|\r|\n/)` consumes, in order: one between each pair of
   * consecutive lines that SplitLines returns.
   */
  function Breaks(s: string): (r: seq<string>)
    ensures forall i :: 0 <= i < |r| ==> IsLineBreak(r[i])
    decreases |s|
  {
    if |s| == 0 then []
    else if s[0] == '\r' && |s| > 1 && s[1] == '\n' then ["\r\n"] + Breaks(s[2..])
    else if IsBreakChar(s[0]) then [[s[0]]] + Breaks(s[1..])
    else Breaks(s[1..])
  }

  /** Lines with the separators put back between them. */
  function Interleave(ls: seq<string>, bs: seq<string>): string
    requires |ls| == |bs| + 1
  {
    ls[0] + Separated(ls[1..], bs)
  }

  /** Each line preceded by its separator. */
  function Separated(ls: seq<string>, bs: seq<string>): string
    requires |ls| == |bs|
    decreases |bs|
  {
    if |bs| == 0 then "" else bs[0] + ls[0] + Separated(ls[1..], bs[1..])
  }

  /**
   * The alternation prefers `\r\n`: a lone CR separator is never directly followed
   * by an LF, which would have made the two one separator.
   */
  predicate CrlfPreferred(ls: seq<string>, bs: seq<string>)
    requires |ls| == |bs| + 1
  {
    forall i :: 0 <= i < |bs| - 1 && bs[i] == "\r" && ls[i + 1] == "" ==> bs[i + 1] != "\n"
  }

  /** A decomposition of a text into break-free lines and line-break separators. */
  predicate LineDecomposition(ls: seq<string>, bs: seq<string>) {
    |ls| == |bs| + 1 && AllBreakFree(ls) &&
    (forall i :: 0 <= i < |bs| ==> IsLineBreak(bs[i])) && CrlfPreferred(ls, bs)
  }

  lemma InterleaveCons(c: char, x: string, tail: seq<string>, bs: seq<string>)
    requires |tail| == |bs|
    ensures Interleave([[c] + x] + tail, bs) == [c] + Interleave([x] + tail, bs)
  {
    var a, b := [[c] + x] + tail, [x] + tail;
    assert a[1..] == tail && b[1..] == tail;
  }

  lemma InterleaveBreak(bs: seq<string>, ls: seq<string>)
    requires |bs| > 0 && |ls| == |bs|
    ensures Interleave([""] + ls, bs) == bs[0] + Interleave(ls, bs[1..])
  {
    assert ([""] + ls)[1..] == ls;
  }

  /** Prepending a separator and an empty line keeps a decomposition. */
  lemma BreakStep(sep: string, ls: seq<string>, bs: seq<string>)
    requires LineDecomposition(ls, bs) && IsLineBreak(sep)
    requires sep == "\r" && |Interleave(ls, bs)| > 0 ==> Interleave(ls, bs)[0] != '\n'
    ensures LineDecomposition([""] + ls, [sep] + bs)
    ensures Interleave([""] + ls, [sep] + bs) == sep + Interleave(ls, bs)
  {
    var ls', bs' := [""] + ls, [sep] + bs;
    assert ls'[1..] == ls && bs'[1..] == bs;
    forall i | 0 <= i < |ls'| ensures BreakFree(ls'[i]) {
      if i > 0 { assert ls'[i] == ls[i - 1]; }
    }
    forall i | 0 <= i < |bs'| ensures IsLineBreak(bs'[i]) {
      if i > 0 { assert bs'[i] == bs[i - 1]; }
    }
    forall i | 0 <= i < |bs'| - 1 && bs'[i] == "\r" && ls'[i + 1] == "" ensures bs'[i + 1] != "\n" {
      if i == 0 {
        assert |bs| > 0 && IsLineBreak(bs[0]);
        InterleaveHead(ls, bs);
      } else {
        assert bs'[i] == bs[i - 1] && ls'[i + 1] == ls[i] && bs'[i + 1] == bs[i];
      }
    }
  }

  /** Prepending a character that is not a break to the first line keeps a decomposition. */
  lemma CharStep(c: char, ls: seq<string>, bs: seq<string>)
    requires LineDecomposition(ls, bs) && !IsBreakChar(c)
    ensures LineDecomposition([[c] + ls[0]] + ls[1..], bs)
    ensures Interleave([[c] + ls[0]] + ls[1..], bs) == [c] + Interleave(ls, bs)
  {
    var ls' := [[c] + ls[0]] + ls[1..];
    assert ls == [ls[0]] + ls[1..];
    InterleaveCons(c, ls[0], ls[1..], bs);
    forall i | 0 <= i < |ls'| ensures BreakFree(ls'[i]) {
      if i == 0 {
        assert BreakFree(ls[0]);
        forall k | 0 <= k < |ls'[0]| ensures !IsBreakChar(ls'[0][k]) {
          if k > 0 { assert ls'[0][k] == ls[0][k - 1]; }
        }
      } else {
        assert ls'[i] == ls[i];
      }
    }
    forall i | 0 <= i < |bs| - 1 && bs[i] == "\r" && ls'[i + 1] == "" ensures bs[i + 1] != "\n" {
      assert ls'[i + 1] == ls[i + 1];
    }
  }

  /** SplitLines and Breaks together decompose their input and put it back exactly. */
  lemma {:induction false} SplitLinesBreaks(s: string)
    ensures LineDecomposition(SplitLines(s), Breaks(s))
    ensures Interleave(SplitLines(s), Breaks(s)) == s
    decreases |s|
  {
    if |s| == 0 {
    } else if s[0] == '\r' && |s| > 1 && s[1] == '\n' {
      SplitLinesBreaks(s[2..]);
      BreakStep("\r\n", SplitLines(s[2..]), Breaks(s[2..]));
      assert s == "\r\n" + s[2..];
    } else if IsBreakChar(s[0]) {
      SplitLinesBreaks(s[1..]);
      BreakStep([s[0]], SplitLines(s[1..]), Breaks(s[1..]));
      assert s == [s[0]] + s[1..];
    } else {
      SplitLinesBreaks(s[1..]);
      CharStep(s[0], SplitLines(s[1..]), Breaks(s[1..]));
      assert s == [s[0]] + s[1..];
    }
  }

  /** Conversely, SplitLines recovers the lines of every decomposition. */
  lemma {:induction false} SplitLinesUnique(ls: seq<string>, bs: seq<string>)
    requires LineDecomposition(ls, bs)
    ensures SplitLines(Interleave(ls, bs)) == ls
    decreases |bs|, |ls[0]|
  {
    var x := ls[0];
    if |x| > 0 {
      var tail := [x[1..]] + ls[1..];
      assert x == [x[0]] + x[1..];
      assert ls == [[x[0]] + x[1..]] + ls[1..];
      assert BreakFree(ls[0]);
      InterleaveCons(x[0], x[1..], ls[1..], bs);
      forall i | 0 <= i < |tail| ensures BreakFree(tail[i]) {
        if i == 0 {
          forall k | 0 <= k < |x[1..]| ensures !IsBreakChar(x[1..][k]) { assert x[1..][k] == x[k + 1]; }
        } else {
          assert tail[i] == ls[i];
        }
      }
      forall i | 1 <= i < |tail| ensures tail[i] == ls[i] {}
      SplitLinesUnique(tail, bs);
      assert tail[1..] == ls[1..];
      SplitLinesCons(x[0], Interleave(tail, bs));
    } else if |bs| > 0 {
      var ls', bs' := ls[1..], bs[1..];
      var t := Interleave(ls', bs');
      assert ls == [""] + ls';
      InterleaveBreak(bs, ls');
      assert forall i :: 0 <= i < |ls'| ==> ls'[i] == ls[i + 1];
      assert forall i :: 0 <= i < |bs'| ==> bs'[i] == bs[i + 1];
      assert LineDecomposition(ls', bs');
      SplitLinesUnique(ls', bs');
      if bs[0] == "\r" && |t| > 0 {
        InterleaveHead(ls', bs');
        if ls'[0] == "" {
          assert bs'[0] == bs[1];
        } else {
          assert BreakFree(ls'[0]);
        }
      }
      SplitLinesAfterBreak(bs[0], t);
    }
  }

  /** The first character of an interleaving. */
  lemma InterleaveHead(ls: seq<string>, bs: seq<string>)
    requires |ls| == |bs| + 1 && (forall i :: 0 <= i < |bs| ==> IsLineBreak(bs[i]))
    requires |Interleave(ls, bs)| > 0
    ensures |ls[0]| > 0 ==> Interleave(ls, bs)[0] == ls[0][0]
    ensures |ls[0]| == 0 ==> |bs| > 0 && |bs[0]| > 0 && Interleave(ls, bs)[0] == bs[0][0]
  {
    if |bs| > 0 {
      assert IsLineBreak(bs[0]);
    }
  }
}
