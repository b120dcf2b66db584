/**
 * `alternationIsAmbiguous` of scripts/verify-no-redos-patterns.ts, and what its answer means for
 * a repeated alternation `(a|b|...)*`.
 */
module Alternation {
  import opened Common

  // ----- String.prototype.split("|") -----

  function Split(s: string): (alts: seq<string>)
    ensures |alts| >= 1
  {
    if s == "" then [""]
    else if s[0] == '|' then [""] + Split(s[1..])
    else
      var rest := Split(s[1..]);
      [[s[0]] + rest[0]] + rest[1..]
  }

  function Join(alts: seq<string>): string
    requires alts != []
  {
    if |alts| == 1 then alts[0] else alts[0] + "|" + Join(alts[1..])
  }

  /** The alternatives are the pieces between the bars. */
  lemma {:induction false} SplitIsRight(s: string)
    ensures Join(Split(s)) == s
    ensures forall i :: 0 <= i < |Split(s)| ==> '|' !in Split(s)[i]
    ensures |Split(s)| == 1 <==> '|' !in s
  {
    if s != "" {
      SplitIsRight(s[1..]);
      var rest := Split(s[1..]);
      if s[0] == '|' {
        assert Split(s)[1..] == rest;
      } else if |rest| > 1 {
        assert Split(s)[1..] == rest[1..];
        assert Join(Split(s)) == [s[0]] + rest[0] + "|" + Join(rest[1..]);
      }
    }
  }

  // ----- the test -----

  /** Alternative `i` starts alternative `j`; equal alternatives start each other. */
  predicate Overlap(alts: seq<string>, i: nat, j: nat)
    requires i < |alts| && j < |alts|
  {
    i != j && alts[i] != "" && alts[j] != "" && alts[i] <= alts[j]
  }

  ghost predicate Ambiguous(alts: seq<string>) {
    exists i: nat, j: nat :: i < |alts| && j < |alts| && Overlap(alts, i, j)
  }

  method AlternationIsAmbiguous(group: string) returns (ambiguous: bool)
    ensures ambiguous <==> Ambiguous(Split(group))
  {
    SplitIsRight(group);
    if '|' !in group { return false; }
    var alts := Split(group);
    if |alts| < 2 { return false; }
    var i := 0;
    while i < |alts|
      invariant 0 <= i <= |alts|
      invariant forall k: nat, l: nat :: k < i && l < |alts| ==> !Overlap(alts, k, l)
    {
      var j := 0;
      while j < |alts|
        invariant 0 <= j <= |alts|
        invariant forall l: nat :: l < j ==> !Overlap(alts, i, l)
      {
        if i == j { j := j + 1; continue; }
        var a, b := alts[i], alts[j];
        if |a| == 0 || |b| == 0 { j := j + 1; continue; }
        if a == b {
          assert Overlap(alts, i, j);
          return true;
        }
        if a <= b {
          assert Overlap(alts, i, j);
          return true;
        }
        j := j + 1;
      }
      i := i + 1;
    }
    return false;
  }

  // ----- what it means at one position -----

  /** The engine can take non-empty alternative `i` at the start of `s`. */
  predicate CanTake(alts: seq<string>, i: nat, s: string) {
    i < |alts| && alts[i] != "" && alts[i] <= s
  }

  /** Ambiguous exactly when some text lets the engine choose between two alternatives. */
  lemma AmbiguousIffTwoChoices(alts: seq<string>)
    ensures Ambiguous(alts) <==>
      exists s, i: nat, j: nat :: i != j && CanTake(alts, i, s) && CanTake(alts, j, s)
  {
    if Ambiguous(alts) {
      var i: nat, j: nat :| i < |alts| && j < |alts| && Overlap(alts, i, j);
      assert CanTake(alts, i, alts[j]) && CanTake(alts, j, alts[j]);
    }
    if s, i: nat, j: nat :| i != j && CanTake(alts, i, s) && CanTake(alts, j, s) {
      if |alts[i]| <= |alts[j]| {
        assert alts[i] == s[..|alts[i]|] && alts[j] == s[..|alts[j]|];
        assert Overlap(alts, i, j);
      } else {
        assert alts[i] == s[..|alts[i]|] && alts[j] == s[..|alts[j]|];
        assert Overlap(alts, j, i);
      }
    }
  }

  // ----- what it means under repetition -----

  /** A sequence of non-empty alternatives, by index. */
  predicate Choices(alts: seq<string>, f: seq<nat>) {
    forall k :: 0 <= k < |f| ==> f[k] < |alts| && alts[f[k]] != ""
  }

  function Text(alts: seq<string>, f: seq<nat>): string
    requires Choices(alts, f)
  {
    if f == [] then "" else alts[f[0]] + Text(alts, f[1..])
  }

  /** Without ambiguity a shorter parse is the beginning of every longer one. */
  lemma {:induction false} ParsesAgree(alts: seq<string>, f: seq<nat>, g: seq<nat>)
    requires !Ambiguous(alts) && Choices(alts, f) && Choices(alts, g)
    requires Text(alts, f) <= Text(alts, g)
    ensures f <= g
  {
    if f != [] {
      var s := Text(alts, g);
      assert |s| >= |Text(alts, f)| >= |alts[f[0]]| > 0 && g != [];
      assert CanTake(alts, f[0], s) && CanTake(alts, g[0], s);
      AmbiguousIffTwoChoices(alts);
      var n := |alts[f[0]]|;
      assert Text(alts, f)[n..] == Text(alts, f[1..]) && s[n..] == Text(alts, g[1..]);
      assert Text(alts, f)[n..] == s[..|Text(alts, f)|][n..];
      assert Text(alts, f[1..]) <= Text(alts, g[1..]);
      ParsesAgree(alts, f[1..], g[1..]);
    }
  }

  /** A group that is not flagged parses every text in at most one way. */
  lemma UnflaggedParsesUniquely(group: string, f: seq<nat>, g: seq<nat>)
    requires var alts := Split(group);
      !Ambiguous(alts) && Choices(alts, f) && Choices(alts, g) && Text(alts, f) == Text(alts, g)
    ensures f == g
  {
    ParsesAgree(Split(group), f, g);
    ParsesAgree(Split(group), g, f);
  }

  // ----- exactly when a repeated group is ambiguous -----

  /** The repeated group parses some text in two ways. */
  ghost predicate ParsesTwice(alts: seq<string>) {
    exists f, g :: TwoParses(alts, f, g)
  }

  ghost predicate TwoParses(alts: seq<string>, f: seq<nat>, g: seq<nat>) {
    Choices(alts, f) && Choices(alts, g) && f != g && Text(alts, f) == Text(alts, g)
  }

  /** `w` is what dangles when one alternative is laid on another that it starts. */
  ghost predicate Dangles(alts: seq<string>, w: string) {
    exists i: nat, j: nat :: i < |alts| && j < |alts| && Overlap(alts, i, j) && alts[j] == alts[i] + w
  }

  /** Laying a further alternative on the dangling `w` leaves `w'` to dangle, on either side. */
  predicate Lays(alts: seq<string>, i: nat, w: string, w': string) {
    i < |alts| && alts[i] != "" && w != "" && (alts[i] == w + w' || w == alts[i] + w')
  }

  /** `ws` leads from `w`, alternative by alternative, to nothing dangling. */
  ghost predicate Closes(alts: seq<string>, w: string, ws: seq<string>)
    decreases |ws|
  {
    if ws == [] then w == ""
    else (exists i: nat :: Lays(alts, i, w, ws[0])) && Closes(alts, ws[0], ws[1..])
  }

  /** A suffix of two overlapping alternatives can be closed. */
  ghost predicate Closable(alts: seq<string>) {
    exists w, ws :: Dangles(alts, w) && Closes(alts, w, ws)
  }

  lemma TextOfCons(alts: seq<string>, i: nat, f: seq<nat>)
    requires Choices(alts, f) && i < |alts| && alts[i] != ""
    ensures Choices(alts, [i] + f) && Text(alts, [i] + f) == alts[i] + Text(alts, f)
  {
    assert ([i] + f)[1..] == f;
  }

  /** A closing chain is read backwards as two parses, one of them behind `w`. */
  lemma {:induction false} ClosedByParses(alts: seq<string>, w: string, ws: seq<string>)
    returns (f: seq<nat>, g: seq<nat>)
    requires Closes(alts, w, ws)
    ensures Choices(alts, f) && Choices(alts, g) && w + Text(alts, f) == Text(alts, g)
    decreases |ws|
  {
    if ws == [] {
      f, g := [], [];
    } else {
      var w' := ws[0];
      var i: nat :| Lays(alts, i, w, w');
      f, g := ClosedByParses(alts, w', ws[1..]);
      if alts[i] == w + w' {
        TextOfCons(alts, i, f);
        assert w + (w' + Text(alts, f)) == alts[i] + Text(alts, f);
        f, g := g, [i] + f;
      } else {
        TextOfCons(alts, i, g);
        assert w + Text(alts, f) == alts[i] + (w' + Text(alts, f));
        g := [i] + g;
      }
    }
  }

  /** Parses that differ by a dangling front lay a chain that closes it. */
  lemma {:induction false} ParsesClose(alts: seq<string>, w: string, f: seq<nat>, g: seq<nat>)
    returns (ws: seq<string>)
    requires Choices(alts, f) && Choices(alts, g) && w + Text(alts, f) == Text(alts, g)
    ensures Closes(alts, w, ws)
    decreases |f| + |g|
  {
    if w == "" { return []; }
    var s, a := Text(alts, g), alts[g[0]];
    var w', rest;
    if |a| < |w| {
      w' := w[|a|..];
      assert a == s[..|a|] == w[..|a|];
      assert w' + Text(alts, f) == s[|a|..] == Text(alts, g[1..]);
      rest := ParsesClose(alts, w', f, g[1..]);
    } else {
      w' := a[|w|..];
      assert w == s[..|w|] == a[..|w|];
      assert w' + Text(alts, g[1..]) == s[|w|..] == Text(alts, f);
      rest := ParsesClose(alts, w', g[1..], f);
    }
    assert Lays(alts, g[0], w, w');
    ws := [w'] + rest;
    assert ws[1..] == rest;
  }

  /** Two different parses, after what they share, start with overlapping alternatives. */
  lemma {:induction false} FirstDifference(alts: seq<string>, f: seq<nat>, g: seq<nat>)
    requires TwoParses(alts, f, g)
    ensures Closable(alts)
  {
    assert f != [] && g != [];
    var s, a, b := Text(alts, f), alts[f[0]], alts[g[0]];
    assert s == a + Text(alts, f[1..]) == b + Text(alts, g[1..]);
    if f[0] == g[0] {
      assert Text(alts, f[1..]) == s[|a|..] == Text(alts, g[1..]);
      assert f == [f[0]] + f[1..] && g == [g[0]] + g[1..];
      FirstDifference(alts, f[1..], g[1..]);
    } else if |a| <= |b| {
      DifferentFronts(alts, f, g);
    } else {
      DifferentFronts(alts, g, f);
    }
  }

  lemma DifferentFronts(alts: seq<string>, f: seq<nat>, g: seq<nat>)
    requires TwoParses(alts, f, g) && f != [] && g != [] && f[0] != g[0] && |alts[f[0]]| <= |alts[g[0]]|
    ensures Closable(alts)
  {
    var s, a, b := Text(alts, f), alts[f[0]], alts[g[0]];
    assert a == s[..|a|] == b[..|a|];
    var w := b[|a|..];
    assert b == a + w && Overlap(alts, f[0], g[0]);
    assert w + Text(alts, g[1..]) == s[|a|..] == Text(alts, f[1..]);
    var ws := ParsesClose(alts, w, g[1..], f[1..]);
  }

  /**
   * The exact condition (the Sardinas-Patterson criterion): a repeated group parses some text in two
   * ways if and only if what dangles between two overlapping alternatives can be closed.
   */
  lemma ParsesTwiceIffClosable(alts: seq<string>)
    ensures ParsesTwice(alts) <==> Closable(alts)
  {
    if Closable(alts) {
      var w, ws :| Dangles(alts, w) && Closes(alts, w, ws);
      var i: nat, j: nat :| i < |alts| && j < |alts| && Overlap(alts, i, j) && alts[j] == alts[i] + w;
      var f, g := ClosedByParses(alts, w, ws);
      TextOfCons(alts, j, f);
      TextOfCons(alts, i, g);
      assert alts[j] + Text(alts, f) == alts[i] + (w + Text(alts, f));
      assert ([j] + f)[0] != ([i] + g)[0];
      assert TwoParses(alts, [j] + f, [i] + g);
    }
    if ParsesTwice(alts) {
      var f, g :| TwoParses(alts, f, g);
      FirstDifference(alts, f, g);
    }
  }

  // ----- a bound on the chains -----

  function Suffixes(alts: seq<string>): set<string> {
    set i: nat, k: nat | i < |alts| && k <= |alts[i]| :: alts[i][k..]
  }

  /** A chain that dangles only suffixes of alternatives, none of them twice. */
  ghost predicate ShortChain(alts: seq<string>, w: string, ws: seq<string>) {
    && Closes(alts, w, ws) && NoDuplicates([w] + ws) && |ws| < |Suffixes(alts)|
    && (forall v :: v in [w] + ws ==> v in Suffixes(alts))
  }

  lemma DanglesIsSuffix(alts: seq<string>, w: string)
    requires Dangles(alts, w)
    ensures w in Suffixes(alts)
  {
    var i: nat, j: nat :| i < |alts| && j < |alts| && Overlap(alts, i, j) && alts[j] == alts[i] + w;
    assert w == alts[j][|alts[i]|..];
  }

  lemma LaysSuffix(alts: seq<string>, i: nat, w: string, w': string)
    requires Lays(alts, i, w, w') && w in Suffixes(alts)
    ensures w' in Suffixes(alts)
  {
    if alts[i] == w + w' {
      assert w' == alts[i][|w|..];
    } else {
      var j: nat, k: nat :| j < |alts| && k <= |alts[j]| && w == alts[j][k..];
      assert w' == w[|alts[i]|..] == alts[j][k + |alts[i]|..];
    }
  }

  /** What follows a link of a chain closes that link. */
  lemma {:induction false} ClosesFrom(alts: seq<string>, w: string, ws: seq<string>, p: nat)
    requires Closes(alts, w, ws) && p < |ws|
    ensures Closes(alts, ws[p], ws[p + 1..])
    decreases p
  {
    if p > 0 {
      ClosesFrom(alts, ws[0], ws[1..], p - 1);
      assert ws[1..][p..] == ws[p + 1..];
    }
  }

  /** Cutting what lies between two occurrences of a suffix leaves a chain without repeats. */
  lemma {:induction false} Shorten(alts: seq<string>, w: string, ws: seq<string>) returns (short: seq<string>)
    requires Closes(alts, w, ws) && w in Suffixes(alts)
    ensures Closes(alts, w, short) && NoDuplicates([w] + short)
    ensures forall v :: v in [w] + short ==> v in Suffixes(alts)
    decreases |ws|
  {
    if ws == [] { return []; }
    var i: nat :| Lays(alts, i, w, ws[0]);
    LaysSuffix(alts, i, w, ws[0]);
    var rest := Shorten(alts, ws[0], ws[1..]);
    var chain := [ws[0]] + rest;
    assert chain[1..] == rest && Closes(alts, w, chain);
    if w in chain {
      var p :| 0 <= p < |chain| && chain[p] == w;
      ClosesFrom(alts, w, chain, p);
      short := chain[p + 1..];
      assert [w] + short == chain[p..];
    } else {
      short := chain;
    }
  }

  lemma {:induction false} NoMoreThan(s: seq<string>, all: set<string>)
    requires NoDuplicates(s) && forall v :: v in s ==> v in all
    ensures |s| <= |all|
  {
    if s != [] {
      NoMoreThan(s[1..], all - {s[0]});
    }
  }

  /** So chains of distinct suffixes are enough, and there are finitely many of them. */
  lemma ParsesTwiceIffShortChain(alts: seq<string>)
    ensures ParsesTwice(alts) <==> exists w, ws :: Dangles(alts, w) && ShortChain(alts, w, ws)
  {
    ParsesTwiceIffClosable(alts);
    if Closable(alts) {
      var w, ws :| Dangles(alts, w) && Closes(alts, w, ws);
      DanglesIsSuffix(alts, w);
      var short := Shorten(alts, w, ws);
      NoMoreThan([w] + short, Suffixes(alts));
      assert ShortChain(alts, w, short);
    }
  }

  /** So a group with two equal alternatives, which the test flags first, parses twice. */
  lemma EqualAlternativesParseTwice(alts: seq<string>, i: nat, j: nat)
    requires i < |alts| && j < |alts| && Overlap(alts, i, j) && alts[i] == alts[j]
    ensures ParsesTwice(alts)
  {
    assert alts[j] == alts[i] + "";
    assert Dangles(alts, "") && Closes(alts, "", []);
    ParsesTwiceIffClosable(alts);
  }

  /**
   * The test is a heuristic in the other direction: `a|ab` is flagged, because two alternatives
   * start "ab", yet a repeated `a|ab` parses every text in at most one way: "b" dangles and
   * nothing can be laid on it.
   */
  lemma FlaggedMayStillBeUnique()
    ensures Ambiguous(Split("a|ab")) && !ParsesTwice(Split("a|ab"))
  {
    var alts := Split("a|ab");
    SplitLetter('b', "");
    assert ['b'] + "" == "b" && Split("b") == ["b"];
    SplitLetter('a', "b");
    assert ['a'] + "b" == "ab" && Split("ab") == ["ab"];
    assert "|ab"[1..] == "ab" && Split("|ab") == [""] + ["ab"];
    SplitLetter('a', "|ab");
    assert ['a'] + "|ab" == "a|ab" && ['a'] + "" == "a" && ([""] + ["ab"])[1..] == ["ab"];
    assert alts == ["a"] + ["ab"] == ["a", "ab"];
    assert Overlap(alts, 0, 1);
    forall w, ws | Dangles(alts, w) ensures !Closes(alts, w, ws) {
      assert "ab" == "a" + w ==> w == "ab"[1..] == "b";
      assert w == "b";
    }
    ParsesTwiceIffClosable(alts);
  }

  lemma SplitLetter(c: char, t: string)
    requires c != '|'
    ensures Split([c] + t) == [[c] + Split(t)[0]] + Split(t)[1..]
  {
    assert ([c] + t)[1..] == t;
  }
}
