/**
 * What findForbiddenRemoteExecCalls of scripts/verify-no-remote-exec.ts reports, said with the
 * places at which patterns match: in the searched text of a line, in its code without literals,
 * and in the text joined across lines.
 */
module RemoteReports {
  import opened Common
  import opened Text
  import opened RemoteExec

  /** The pattern matches somewhere in the text. */
  ghost predicate Matches(p: Pattern, s: string) {
    exists i: nat :: i <= |s| && MatchAt(p, s, i).Some?
  }

  /** Pattern `q` is the first of the list to match. */
  ghost predicate FirstOf(ps: seq<Pattern>, s: string, q: nat) {
    q < |ps| && Matches(ps[q], s) && forall r :: 0 <= r < q ==> !Matches(ps[r], s)
  }

  ghost predicate NoneOf(ps: seq<Pattern>, s: string) {
    forall r :: 0 <= r < |ps| ==> !Matches(ps[r], s)
  }

  /** The text joined across lines, a blank behind each line. */
  function Whole(lines: seq<string>): string { Joined(ImportLines(lines), |lines|) }

  /** Where line `k` starts in it. */
  function Start(lines: seq<string>, k: nat): nat
    requires k <= |lines|
  {
    |Joined(ImportLines(lines), k)|
  }

  /** Offset `h` of the joined text is on line `k`; the end of the text is on the last. */
  predicate OnLine(lines: seq<string>, h: nat, k: nat) {
    k < |lines| && Start(lines, k) <= h && (k + 1 < |lines| ==> h < Start(lines, k + 1))
  }

  /** The findings of the scan, by `FindForbiddenRemoteExecCalls`. */
  function Findings(rules: Rules, lines: seq<string>): seq<Finding> {
    Report(Blames(rules, lines), lines, |lines|)
  }

  // ----- the pieces of the scan, by matches -----

  lemma TestsMeans(p: Pattern, s: string)
    ensures Tests(p, s) <==> Matches(p, s)
  {
    if i: nat :| i <= |s| && MatchAt(p, s, i).Some? { assert Exec(p, s, 0).Some?; }
  }

  lemma {:induction false} FirstMatchingMeans(ps: seq<Pattern>, s: string) returns (q: nat)
    ensures FirstMatching(ps, s).None? ==> NoneOf(ps, s)
    ensures FirstMatching(ps, s).Some? ==> FirstOf(ps, s, q) && FirstMatching(ps, s).value == ps[q].reason
    decreases |ps|
  {
    q := 0;
    if ps != [] {
      TestsMeans(ps[0], s);
      if !Tests(ps[0], s) {
        q := FirstMatchingMeans(ps[1..], s);
        q := q + 1;
        forall r | 0 <= r < |ps| && (FirstMatching(ps, s).None? || r < q) ensures !Matches(ps[r], s) {
          if r > 0 { assert ps[r] == ps[1..][r - 1]; }
        }
      }
    }
  }

  lemma FirstIsUnique(ps: seq<Pattern>, s: string, q: nat, r: nat)
    requires FirstOf(ps, s, q) && FirstOf(ps, s, r)
    ensures q == r
  {
  }

  lemma FirstMatchingIs(ps: seq<Pattern>, s: string, q: nat)
    requires FirstOf(ps, s, q)
    ensures FirstMatching(ps, s) == Some(ps[q].reason)
  {
    var r := FirstMatchingMeans(ps, s);
    if FirstMatching(ps, s).Some? { FirstIsUnique(ps, s, q, r); }
  }

  lemma NoneMatches(ps: seq<Pattern>, s: string)
    requires NoneOf(ps, s)
    ensures FirstMatching(ps, s).None?
  {
    var r := FirstMatchingMeans(ps, s);
  }

  lemma FindingIffBlamed(rules: Rules, lines: seq<string>, k: nat, reason: string)
    requires k < |lines|
    ensures Finding(k + 1, Trim(lines[k]), reason) in Findings(rules, lines) <==> Blame(rules, lines, k) == Some(reason)
  {
    hide Blame;
    ReportIsRight(Blames(rules, lines), lines, |lines|);
    assert Agrees(Finding(k + 1, Trim(lines[k]), reason), Blames(rules, lines), lines)
      <==> Blame(rules, lines, k) == Some(reason);
  }

  lemma FindingsAgree(rules: Rules, lines: seq<string>, f: Finding)
    requires f in Findings(rules, lines)
    ensures 1 <= f.line <= |lines| && f.text == Trim(lines[f.line - 1])
    ensures Blame(rules, lines, f.line - 1) == Some(f.reason)
  {
    hide Blame;
    ReportIsRight(Blames(rules, lines), lines, |lines|);
    assert Agrees(f, Blames(rules, lines), lines);
  }

  // ----- phases 1 and 2: a match in the line itself -----

  /** A line whose searched text an import pattern matches is reported, for the first such pattern. */
  lemma ImportIsReported(rules: Rules, lines: seq<string>, k: nat, q: nat)
    requires k < |lines| && Trim(ImportLine(lines, k)) != "" && FirstOf(rules.imports, ImportLine(lines, k), q)
    ensures Finding(k + 1, Trim(lines[k]), rules.imports[q].reason) in Findings(rules, lines)
  {
    hide Trim, ImportLine, FirstMatching;
    FirstMatchingIs(rules.imports, ImportLine(lines, k), q);
    FindingIffBlamed(rules, lines, k, rules.imports[q].reason);
  }

  /**
   * A line that no import pattern matches, but a code-generation pattern does with its literals
   * taken out, is reported, for the first such pattern.
   */
  lemma CodeGenIsReported(rules: Rules, lines: seq<string>, k: nat, q: nat)
    requires k < |lines| && Trim(ImportLine(lines, k)) != "" && NoneOf(rules.imports, ImportLine(lines, k))
    requires FirstOf(rules.codeGen, CodeOnly(rules, ImportLine(lines, k)), q)
    ensures Finding(k + 1, Trim(lines[k]), rules.codeGen[q].reason) in Findings(rules, lines)
  {
    hide Trim, ImportLine, FirstMatching;
    NoneMatches(rules.imports, ImportLine(lines, k));
    FirstMatchingIs(rules.codeGen, CodeOnly(rules, ImportLine(lines, k)), q);
    FindingIffBlamed(rules, lines, k, rules.codeGen[q].reason);
  }

  // ----- phase 3: a match across lines -----

  lemma StartsMean(lines: seq<string>)
    requires lines != []
    ensures var starts := StartsOf(ImportLines(lines));
      |starts| == |lines| && starts[0] == 0 && forall k: nat :: k < |lines| ==> starts[k] == Start(lines, k)
  {
    assert |Joined(ImportLines(lines), 0)| == 0;
  }

  lemma LineOfMeans(lines: seq<string>, h: nat)
    requires lines != []
    ensures var starts := StartsOf(ImportLines(lines));
      starts != [] && starts[0] == 0 && OnLine(lines, h, LineOf(starts, h))
  {
    StartsMean(lines);
    hide Start;
    var starts := StartsOf(ImportLines(lines));
    var k := LineOf(starts, h);
    assert k + 1 < |lines| ==> h < starts[k + 1];
  }

  lemma {:induction false} HitsMatch(p: Pattern, s: string, from: nat, j: nat)
    requires j < |Hits(p, s, from)|
    ensures from <= Hits(p, s, from)[j] <= |s| && MatchAt(p, s, Hits(p, s, from)[j]).Some?
    decreases j
  {
    var i := Exec(p, s, from).value;
    if j > 0 { HitsMatch(p, s, NextIndex(p, s, i), j - 1); }
  }

  /** Every match starts at a hit or inside the match of one. */
  lemma {:induction false} HitCovers(p: Pattern, s: string, from: nat, i: nat) returns (j: nat)
    requires from <= i <= |s| && MatchAt(p, s, i).Some?
    ensures j < |Hits(p, s, from)|
    ensures var h := Hits(p, s, from)[j]; h <= i && MatchAt(p, s, h).Some? && (h == i || i < h + MatchAt(p, s, h).value)
    decreases i - from
  {
    var h := Exec(p, s, from).value;
    var next := NextIndex(p, s, h);
    if next <= i {
      j := HitCovers(p, s, next, i);
      j := j + 1;
    } else {
      j := 0;
    }
  }

  /**
   * Wherever an import pattern matches in the joined text, the match, or an earlier one of that
   * pattern that overlaps it, starts on a line that is reported.
   */
  lemma EveryMatchIsCovered(rules: Rules, lines: seq<string>, p: Pattern, i: nat) returns (h: nat, k: nat, f: Finding)
    requires lines != [] && p in rules.imports && i <= |Whole(lines)| && MatchAt(p, Whole(lines), i).Some?
    ensures h <= i && MatchAt(p, Whole(lines), h).Some? && (h == i || i < h + MatchAt(p, Whole(lines), h).value)
    ensures OnLine(lines, h, k) && f in Findings(rules, lines) && f.line == k + 1
  {
    var joined := Whole(lines);
    var j := HitCovers(p, joined, 0, i);
    StartsMean(lines);
    LineOfMeans(lines, Hits(p, joined, 0)[j]);
    var starts := StartsOf(ImportLines(lines));
    h := Hits(p, joined, 0)[j];
    k := LineOf(starts, h);
    hide OnLine, Start;
    assert Hit(starts, Hits(p, joined, 0), k);
    CrossingFound(starts, joined, rules.imports, p, k);
    assert Blame(rules, lines, k).Some?;
    FindingIffBlamed(rules, lines, k, Blame(rules, lines, k).value);
    f := Finding(k + 1, Trim(lines[k]), Blame(rules, lines, k).value);
  }

  lemma {:induction false} CrossingMeans(starts: seq<nat>, joined: string, ps: seq<Pattern>, k: nat)
    returns (q: nat, h: nat)
    requires starts != [] && starts[0] == 0 && Crossing(starts, joined, ps, k).Some?
    ensures q < |ps| && Crossing(starts, joined, ps, k).value == ps[q].reason
    ensures h <= |joined| && MatchAt(ps[q], joined, h).Some? && LineOf(starts, h) == k
    decreases |ps|
  {
    if Hit(starts, Hits(ps[0], joined, 0), k) {
      var j :| 0 <= j < |Hits(ps[0], joined, 0)| && LineOf(starts, Hits(ps[0], joined, 0)[j]) == k;
      HitsMatch(ps[0], joined, 0, j);
      q, h := 0, Hits(ps[0], joined, 0)[j];
    } else {
      q, h := CrossingMeans(starts, joined, ps[1..], k);
      q := q + 1;
    }
  }

  // ----- every finding has its match -----

  /** The reason is that of the first import pattern to match the searched text of the line. */
  ghost predicate FromImports(rules: Rules, code: string, reason: string) {
    exists q: nat :: FirstOf(rules.imports, code, q) && reason == rules.imports[q].reason
  }

  /** No import pattern matches, and it is that of the first code-generation pattern to match. */
  ghost predicate FromCodeGen(rules: Rules, code: string, reason: string) {
    && NoneOf(rules.imports, code)
    && exists q: nat :: FirstOf(rules.codeGen, CodeOnly(rules, code), q) && reason == rules.codeGen[q].reason
  }

  /** It is that of an import pattern with a match in the joined text that starts on line `k`. */
  ghost predicate FromCrossing(rules: Rules, lines: seq<string>, k: nat, reason: string) {
    exists q: nat, h: nat :: CrossesAt(rules, lines, q, h, k) && reason == rules.imports[q].reason
  }

  ghost predicate CrossesAt(rules: Rules, lines: seq<string>, q: nat, h: nat, k: nat) {
    && q < |rules.imports| && h <= |Whole(lines)| && MatchAt(rules.imports[q], Whole(lines), h).Some?
    && OnLine(lines, h, k)
  }

  lemma VerdictMeans(rules: Rules, code: string)
    ensures Verdict(rules, code).Some? ==>
      FromImports(rules, code, Verdict(rules, code).value) || FromCodeGen(rules, code, Verdict(rules, code).value)
  {
    hide FirstMatching, FirstOf, NoneOf, Trim;
    var q := FirstMatchingMeans(rules.imports, code);
    var r := FirstMatchingMeans(rules.codeGen, CodeOnly(rules, code));
  }

  lemma CrossingIsFounded(rules: Rules, lines: seq<string>, k: nat, reason: string)
    requires k < |lines| && Verdict(rules, ImportLine(lines, k)).None? && Blame(rules, lines, k) == Some(reason)
    ensures FromCrossing(rules, lines, k, reason)
  {
    StartsMean(lines);
    hide ImportLine, Verdict, OnLine, Start;
    var q, h := CrossingMeans(StartsOf(ImportLines(lines)), Whole(lines), rules.imports, k);
    LineOfMeans(lines, h);
    assert CrossesAt(rules, lines, q, h, k);
  }

  /** Every finding names its line's text, and its reason is that of a pattern with a match on that line. */
  lemma FindingsAreFounded(rules: Rules, lines: seq<string>, f: Finding)
    requires f in Findings(rules, lines)
    ensures 1 <= f.line <= |lines| && f.text == Trim(lines[f.line - 1])
    ensures var k := f.line - 1;
      || FromImports(rules, ImportLine(lines, k), f.reason)
      || FromCodeGen(rules, ImportLine(lines, k), f.reason)
      || FromCrossing(rules, lines, k, f.reason)
  {
    FindingsAgree(rules, lines, f);
    hide Trim, ImportLine, Findings, FromImports, FromCodeGen, FromCrossing, Crossing, Verdict;
    var k := f.line - 1;
    VerdictMeans(rules, ImportLine(lines, k));
    if Verdict(rules, ImportLine(lines, k)).None? { CrossingIsFounded(rules, lines, k, f.reason); }
  }
}
