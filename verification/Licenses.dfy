/** `isLicenseAllowed` and `extractLicenseString` of scripts/verify-dep-licenses.ts. */
module Licenses {
  import opened Common
  import opened Text

  type AllowList = set<string>

  // ----- the separators `/\s+OR\s+/i` and `/\s+AND\s+/i` -----

  /** Behind the spaces from `i` on. */
  function Skip(s: string, i: nat): (j: nat)
    requires i <= |s|
    ensures i <= j <= |s|
    ensures j < |s| ==> !IsSpace(s[j])
    ensures forall k :: i <= k < j ==> IsSpace(s[k])
    decreases |s| - i
  {
    if i < |s| && IsSpace(s[i]) then Skip(s, i + 1) else i
  }

  /** `word` stands at `i`, in any case. */
  predicate WordAt(s: string, i: nat, word: string) {
    i + |word| <= |s| && EqualIgnoreCase(s[i..i + |word|], word)
  }

  /** The end of the separator that starts at `i`, if one does. */
  function SepEnd(s: string, i: nat, word: string): (r: Option<nat>)
    requires i <= |s|
    ensures r.Some? ==> i < r.value <= |s|
  {
    var j := Skip(s, i);
    if j > i && WordAt(s, j, word) && j + |word| < |s| && IsSpace(s[j + |word|])
    then Some(Skip(s, j + |word|)) else None
  }

  /** The leftmost separator from `i` on: where it starts. */
  function FindSep(s: string, i: nat, word: string): (r: Option<nat>)
    requires i <= |s|
    ensures r.Some? ==> i <= r.value <= |s| && SepEnd(s, r.value, word).Some?
    ensures forall k: nat :: i <= k <= |s| && SepEnd(s, k, word).Some? ==> r.Some? && r.value <= k
    decreases |s| - i
  {
    if SepEnd(s, i, word).Some? then Some(i) else if i == |s| then None else FindSep(s, i + 1, word)
  }

  /** `split`: the pieces between the separators; each search starts behind the last one. */
  function Split(s: string, word: string): (r: seq<string>)
    ensures r != []
    ensures forall b :: b in r ==> |b| <= |s|
    ensures |r| > 1 <==> FindSep(s, 0, word).Some?
    ensures |r| > 1 ==> forall b :: b in r ==> |b| < |s|
    decreases |s|
  {
    match FindSep(s, 0, word)
    case None => [s]
    case Some(i) => [s[..i]] + Split(s[SepEnd(s, i, word).value..], word)
  }

  // ----- isLicenseAllowed -----

  /** `/^SEE\s+LICENSE/i`. */
  predicate SeeLicense(s: string) {
    WordAt(s, 0, "SEE") && 3 < Skip(s, 3) && WordAt(s, Skip(s, 3), "LICENSE")
  }

  predicate Enclosed(s: string) { |s| >= 2 && s[0] == '(' && s[|s| - 1] == ')' }

  /** One trailing plus sign is dropped. */
  function StripPlus(s: string): (r: string)
    ensures |r| <= |s|
  {
    if s != "" && s[|s| - 1] == '+' then s[..|s| - 1] else s
  }

  /** It ends on every text, nested and unbalanced ones included: each branch is shorter. */
  predicate IsLicenseAllowed(expression: string, allowed: AllowList)
    decreases |expression|, 1
  {
    var expr := Trim(expression);
    if expr == "" || expr == "NOASSERTION" || expr == "UNLICENSED" then false
    else if SeeLicense(expr) then false
    else InnerAllowed(if Enclosed(expr) then Trim(expr[1..|expr| - 1]) else expr, allowed)
  }

  /** The part behind the parentheses (lines 126-136). */
  predicate InnerAllowed(inner: string, allowed: AllowList)
    decreases |inner|, 0
  {
    if FindSep(inner, 0, "OR").Some? then
      exists b :: b in Split(inner, "OR") && IsLicenseAllowed(b, allowed)
    else if FindSep(inner, 0, "AND").Some? then
      forall b :: b in Split(inner, "AND") ==> IsLicenseAllowed(b, allowed)
    else Trim(StripPlus(inner)) in allowed
  }

  /** A larger allow-list never turns an accepted text into a rejected one. */
  lemma {:induction false} Monotone(expression: string, allowed: AllowList, more: AllowList)
    requires allowed <= more && IsLicenseAllowed(expression, allowed)
    ensures IsLicenseAllowed(expression, more)
    decreases |expression|, 1
  {
    hide Trim, SeeLicense, InnerAllowed;
    var expr := Trim(expression);
    InnerMonotone(if Enclosed(expr) then Trim(expr[1..|expr| - 1]) else expr, allowed, more);
  }

  lemma {:induction false} InnerMonotone(inner: string, allowed: AllowList, more: AllowList)
    requires allowed <= more && InnerAllowed(inner, allowed)
    ensures InnerAllowed(inner, more)
    decreases |inner|, 0
  {
    hide FindSep, Split, IsLicenseAllowed, Trim;
    if FindSep(inner, 0, "OR").Some? {
      var b :| b in Split(inner, "OR") && IsLicenseAllowed(b, allowed);
      Monotone(b, allowed, more);
    } else if FindSep(inner, 0, "AND").Some? {
      forall b | b in Split(inner, "AND") ensures IsLicenseAllowed(b, more) {
        Monotone(b, allowed, more);
      }
    }
  }

  // ----- flat expressions: ids with AND and OR between them -----

  /** A connective and the id behind it, with the spaces around the connective. */
  datatype Step = Step(before: string, word: string, after: string, id: string)

  datatype Chain = Chain(first: string, steps: seq<Step>)

  predicate Spaces(g: string) { g != "" && forall c :: c in g ==> IsSpace(c) }

  predicate NoSpace(t: string) { t != "" && forall c :: c in t ==> !IsSpace(c) }

  predicate IsOr(word: string) { EqualIgnoreCase(word, "OR") }

  predicate IsAnd(word: string) { EqualIgnoreCase(word, "AND") }

  /** The connectives, written out. */
  lemma Connectives(word: string)
    ensures IsOr(word) <==> word in {"OR", "Or", "oR", "or"}
    ensures IsAnd(word) <==> word in {"AND", "AnD", "ANd", "And", "aND", "aNd", "anD", "and"}
  {
    if |word| == 2 {
      assert word == [word[0], word[1]];
      SameLetter(word[0], 'O');
      SameLetter(word[1], 'R');
    } else if |word| == 3 {
      assert word == [word[0], word[1], word[2]];
      SameLetter(word[0], 'A');
      SameLetter(word[1], 'N');
      SameLetter(word[2], 'D');
    }
  }

  /** Letters are compared without their case, and nothing else is. */
  lemma SameLetter(c: char, d: char)
    ensures LowerCase(c) == LowerCase(d) <==>
      || c == d || ('A' <= c <= 'Z' && d as int == c as int + 32) || ('A' <= d <= 'Z' && c as int == d as int + 32)
  {
  }

  /** An id: no spaces, and not itself a connective. */
  predicate IsToken(t: string) { NoSpace(t) && !IsOr(t) && !IsAnd(t) }

  predicate StepOk(st: Step) {
    Spaces(st.before) && Spaces(st.after) && (IsOr(st.word) || IsAnd(st.word)) && IsToken(st.id)
  }

  predicate ChainOk(c: Chain) { IsToken(c.first) && forall st :: st in c.steps ==> StepOk(st) }

  function Tail(steps: seq<Step>): string {
    if steps == [] then ""
    else steps[0].before + (steps[0].word + (steps[0].after + (steps[0].id + Tail(steps[1..]))))
  }

  function TextOf(c: Chain): string { c.first + Tail(c.steps) }

  function Ids(c: Chain): seq<string> { [c.first] + IdsOf(c.steps) }

  function IdsOf(steps: seq<Step>): seq<string> {
    if steps == [] then [] else [steps[0].id] + IdsOf(steps[1..])
  }

  /** The chain behind the first connective. */
  function Next(c: Chain): (r: Chain)
    requires c.steps != []
    ensures ChainOk(c) ==> ChainOk(r) && StepOk(c.steps[0])
  {
    assert c.steps[0] in c.steps && forall st :: st in c.steps[1..] ==> st in c.steps;
    Chain(c.steps[0].id, c.steps[1..])
  }

  /** The syntax tree: the AND-chains between the ORs, so AND binds tighter. */
  function Pieces(c: Chain): (ps: seq<Chain>)
    ensures ps != [] && ps[0].first == c.first
    decreases |c.steps|
  {
    if c.steps == [] then [c]
    else
      var ps := Pieces(Next(c));
      if IsOr(c.steps[0].word) then [Chain(c.first, [])] + ps
      else [Chain(c.first, [c.steps[0]] + ps[0].steps)] + ps[1..]
  }

  /** The meaning of the tree: some branch has every id on the list. */
  predicate BranchAllowed(p: Chain, allowed: AllowList) {
    forall id :: id in Ids(p) ==> StripPlus(id) in allowed
  }

  predicate TreeAllowed(c: Chain, allowed: AllowList) {
    exists p :: p in Pieces(c) && BranchAllowed(p, allowed)
  }

  // ----- finding separators in printed chains -----

  lemma {:induction false} SkipIs(s: string, i: nat, j: nat)
    requires i <= j <= |s| && (forall k :: i <= k < j ==> IsSpace(s[k])) && (j < |s| ==> !IsSpace(s[j]))
    ensures Skip(s, i) == j
    decreases j - i
  {
    if i < j { SkipIs(s, i + 1, j); }
  }

  lemma SkipBehind(p: string, s: string, i: nat)
    requires i <= |s|
    ensures Skip(p + s, |p| + i) == |p| + Skip(s, i)
  {
    SkipIs(p + s, |p| + i, |p| + Skip(s, i));
  }

  lemma SliceBehind(p: string, s: string, i: nat, j: nat)
    requires i <= j <= |s|
    ensures (p + s)[|p| + i..|p| + j] == s[i..j]
  {
  }

  lemma SepEndBehind(p: string, s: string, i: nat, word: string)
    requires i <= |s|
    ensures SepEnd(p + s, |p| + i, word) == match SepEnd(s, i, word) case Some(e) => Some(|p| + e) case None => None
  {
    var j := Skip(s, i);
    SkipBehind(p, s, i);
    if j + |word| <= |s| {
      SliceBehind(p, s, j, j + |word|);
      SkipBehind(p, s, j + |word|);
    }
  }

  /** A search goes on behind a text in which no separator starts. */
  lemma FindSepBehind(p: string, s: string, word: string)
    requires forall i: nat :: i < |p| ==> SepEnd(p + s, i, word).None?
    ensures FindSep(p + s, 0, word) == match FindSep(s, 0, word) case Some(i) => Some(|p| + i) case None => None
  {
    hide SepEnd;
    match FindSep(s, 0, word)
    case Some(i) =>
      SepEndBehind(p, s, i, word);
      var k := FindSep(p + s, 0, word).value;
      SepEndBehind(p, s, k - |p|, word);
    case None =>
      if FindSep(p + s, 0, word).Some? {
        SepEndBehind(p, s, FindSep(p + s, 0, word).value - |p|, word);
      }
  }

  lemma SplitStep(s: string, word: string, i: nat, e: nat, rest: string)
    requires FindSep(s, 0, word) == Some(i) && SepEnd(s, i, word) == Some(e) && rest == s[e..]
    ensures Split(s, word) == [s[..i]] + Split(rest, word)
  {
  }

  lemma SplitNone(s: string, word: string)
    requires FindSep(s, 0, word).None?
    ensures Split(s, word) == [s]
  {
  }

  lemma Prefixed<T>(p: seq<T>, a: seq<T>, more: seq<seq<T>>)
    ensures [p + ([a] + more)[0]] + ([a] + more)[1..] == [p + a] + more
  {
  }

  /** Then splitting only touches what is behind it. */
  lemma SplitBehind(p: string, s: string, word: string)
    requires forall i: nat :: i < |p| ==> SepEnd(p + s, i, word).None?
    ensures Split(p + s, word) == [p + Split(s, word)[0]] + Split(s, word)[1..]
  {
    hide Split, SepEnd, FindSep;
    FindSepBehind(p, s, word);
    match FindSep(s, 0, word)
    case Some(i) => SplitBehindAt(p, s, word, i);
    case None =>
      SplitNone(s, word);
      SplitNone(p + s, word);
  }

  lemma SplitBehindAt(p: string, s: string, word: string, i: nat)
    requires FindSep(s, 0, word) == Some(i) && FindSep(p + s, 0, word) == Some(|p| + i)
    ensures Split(p + s, word) == [p + Split(s, word)[0]] + Split(s, word)[1..]
  {
    hide Split, SepEnd, FindSep;
    var e := SepEnd(s, i, word).value;
    SepEndBehind(p, s, i, word);
    SplitStep(s, word, i, e, s[e..]);
    SplitQ(p + s, p, s, word, i, e);
    Prefixed(p, s[..i], Split(s[e..], word));
  }

  lemma SplitQ(q: string, p: string, s: string, word: string, i: nat, e: nat)
    requires q == p + s && i <= |s| && e <= |s|
    requires FindSep(q, 0, word) == Some(|p| + i) && SepEnd(q, |p| + i, word) == Some(|p| + e)
    ensures Split(q, word) == [p + s[..i]] + Split(s[e..], word)
  {
    hide Split, SepEnd, FindSep;
    assert q[|p| + e..] == s[e..] && q[..|p| + i] == p + s[..i];
    SplitStep(q, word, |p| + i, |p| + e, s[e..]);
  }

  /** What may stand behind a token: the end or a space. */
  predicate Ends(rest: string) { rest == "" || IsSpace(rest[0]) }

  lemma NoSepInToken(t: string, rest: string, word: string, i: nat)
    requires NoSpace(t) && i < |t|
    ensures SepEnd(t + rest, i, word).None?
  {
    assert (t + rest)[i] == t[i];
    SkipIs(t + rest, i, i);
  }

  /** Spaces and a token that is not the connective hold no separator. */
  lemma NoSepInStep(g: string, t: string, rest: string, word: string, i: nat)
    requires Spaces(g) && NoSpace(t) && Ends(rest) && (word == "OR" || word == "AND")
    requires !(EqualIgnoreCase(t, word) && rest != "")
    requires i < |g| + |t|
    ensures SepEnd(g + (t + rest), i, word).None?
  {
    var s := g + (t + rest);
    assert forall k :: 0 <= k < |t| ==> s[|g| + k] == t[k];
    if i >= |g| {
      assert s[i] == t[i - |g|];
      SkipIs(s, i, i);
    } else {
      SkipIs(s, i, |g|);
      NotTheWord(s, |g|, t, rest, word);
    }
  }

  lemma NotTheWord(s: string, i: nat, t: string, rest: string, word: string)
    requires i <= |s| && s[i..] == t + rest && NoSpace(t) && Ends(rest) && (word == "OR" || word == "AND")
    requires !(EqualIgnoreCase(t, word) && rest != "")
    ensures !(WordAt(s, i, word) && i + |word| < |s| && IsSpace(s[i + |word|]))
  {
    var n := |word|;
    assert |s| == i + |t| + |rest|;
    assert forall k :: 0 <= k < |t| + |rest| ==> s[i + k] == (t + rest)[k];
    if |t| > n {
      assert s[i + n] == t[n];
    } else if |t| < n && rest != "" {
      SpaceIsNoLetter(rest[0]);
      assert s[i + |t|] == (t + rest)[|t|] == rest[0];
      assert i + n <= |s| ==> s[i..i + n][|t|] == s[i + |t|];
    } else if |t| == n {
      assert s[i..i + n] == t;
    }
  }

  lemma SpaceIsNoLetter(c: char)
    requires IsSpace(c)
    ensures LowerCase(c) == c && !('a' <= c <= 'z')
  {
  }

  // ----- splitting printed chains -----

  lemma TextStartsWithToken(c: Chain)
    requires ChainOk(c)
    ensures TextOf(c) != "" && !IsSpace(TextOf(c)[0])
  {
    assert TextOf(c)[0] == c.first[0];
  }

  lemma TailEnds(steps: seq<Step>)
    requires forall st :: st in steps ==> StepOk(st)
    ensures Ends(Tail(steps))
  {
    if steps != [] { assert steps[0] in steps && Tail(steps)[0] == steps[0].before[0]; }
  }

  /** The text up to the next id, and the text from it on. */
  function Lead(c: Chain): string
    requires c.steps != []
  {
    c.first + (c.steps[0].before + (c.steps[0].word + c.steps[0].after))
  }

  lemma TextCons(c: Chain)
    requires c.steps != []
    ensures TextOf(c) == Lead(c) + TextOf(Next(c))
    ensures TextOf(c) == c.first + (c.steps[0].before + (c.steps[0].word + (c.steps[0].after + TextOf(Next(c)))))
  {
    var st := c.steps[0];
    var t := TextOf(Next(c));
    Assoc(c.first, st.before, st.word, st.after, t);
  }

  lemma Assoc(a: string, b: string, c: string, d: string, e: string)
    ensures (a + (b + (c + d))) + e == a + (b + (c + (d + e)))
  {
  }

  /** The connective of the first step is not `word`: no separator starts before the next id. */
  lemma NoSepInLead(c: Chain, word: string, i: nat)
    requires ChainOk(c) && c.steps != [] && (word == "OR" || word == "AND")
    requires !EqualIgnoreCase(c.steps[0].word, word) && i < |Lead(c)|
    ensures SepEnd(TextOf(c), i, word).None?
  {
    hide SepEnd, TextOf;
    var st, next := c.steps[0], Next(c);
    var t := TextOf(next);
    TextCons(c);
    var n := |c.first|;
    var m := n + |st.before| + |st.word|;
    if i < n {
      NoSepInToken(c.first, st.before + (st.word + (st.after + t)), word, i);
    } else if i < m {
      SepEndBehind(c.first, st.before + (st.word + (st.after + t)), i - n, word);
      assert (st.after + t)[0] == st.after[0];
      ConnectiveIsToken(st.word);
      NoSepInStep(st.before, st.word, st.after + t, word, i - n);
    } else {
      NoSepInAfter(c.first + (st.before + st.word), st.after, next, word, i - m);
      Assoc3(c.first, st.before, st.word, st.after + t);
    }
  }

  lemma Assoc3(a: string, b: string, c: string, d: string)
    ensures (a + (b + c)) + d == a + (b + (c + d))
  {
  }

  lemma ConnectiveIsToken(w: string)
    requires IsOr(w) || IsAnd(w)
    ensures NoSpace(w)
  {
    forall c | c in w ensures !IsSpace(c) {
      if IsSpace(c) { SpaceIsNoLetter(c); }
    }
  }

  lemma NoSepInAfter(p: string, g: string, c: Chain, word: string, i: nat)
    requires Spaces(g) && ChainOk(c) && i < |g| && (word == "OR" || word == "AND")
    ensures SepEnd(p + (g + TextOf(c)), |p| + i, word).None?
  {
    TailEnds(c.steps);
    NoSepInStep(g, c.first, Tail(c.steps), word, i);
    SepEndBehind(p, g + TextOf(c), i, word);
  }

  lemma SplitKeeps(c: Chain, word: string)
    requires ChainOk(c) && c.steps != [] && (word == "OR" || word == "AND") && !EqualIgnoreCase(c.steps[0].word, word)
    ensures Split(TextOf(c), word) == [Lead(c) + Split(TextOf(Next(c)), word)[0]] + Split(TextOf(Next(c)), word)[1..]
  {
    TextCons(c);
    forall i: nat | i < |Lead(c)| ensures SepEnd(Lead(c) + TextOf(Next(c)), i, word).None? {
      NoSepInLead(c, word, i);
    }
    SplitBehind(Lead(c), TextOf(Next(c)), word);
  }

  lemma SepShape(g: string, w: string, g': string, rest: string)
    requires Spaces(g) && Spaces(g') && NoSpace(w) && rest != "" && !IsSpace(rest[0])
    ensures var s, n := g + (w + (g' + rest)), |g| + |w|;
      && Skip(s, 0) == |g| && s[|g|..n] == w && IsSpace(s[n])
      && Skip(s, n) == n + |g'| && s[n + |g'|..] == rest
  {
    var s, n := g + (w + (g' + rest)), |g| + |w|;
    assert s[|g|] == w[0] && s[n] == g'[0] && s[n + |g'|] == rest[0];
    SkipIs(s, 0, |g|);
    assert forall k :: n <= k < n + |g'| ==> s[k] == g'[k - n];
    SkipIs(s, n, n + |g'|);
  }

  /** A separator: spaces, the word in any case, spaces. */
  lemma SepIsFound(g: string, w: string, g': string, rest: string, word: string)
    requires Spaces(g) && Spaces(g') && EqualIgnoreCase(w, word) && NoSpace(w) && rest != "" && !IsSpace(rest[0])
    ensures SepEnd(g + (w + (g' + rest)), 0, word) == Some(|g| + |w| + |g'|)
    ensures (g + (w + (g' + rest)))[|g| + |w| + |g'|..] == rest
  {
    assert |w| == |word|;
    hide Skip, EqualIgnoreCase, IsSpace;
    SepShape(g, w, g', rest);
  }

  lemma SplitCuts(c: Chain, word: string)
    requires ChainOk(c) && c.steps != [] && EqualIgnoreCase(c.steps[0].word, word)
    ensures Split(TextOf(c), word) == [c.first] + Split(TextOf(Next(c)), word)
  {
    hide SepEnd, FindSep, Split, TextOf;
    var st, t := c.steps[0], TextOf(Next(c));
    var s := st.before + (st.word + (st.after + t));
    TextCons(c);
    TextStartsWithToken(Next(c));
    ConnectiveIsToken(st.word);
    SepIsFound(st.before, st.word, st.after, t, word);
    forall i: nat | i < |c.first| ensures SepEnd(c.first + s, i, word).None? {
      NoSepInToken(c.first, s, word, i);
    }
    FindSepBehind(c.first, s, word);
    SepEndBehind(c.first, s, 0, word);
    var e := |st.before| + |st.word| + |st.after|;
    assert (c.first + s)[|c.first| + e..] == s[e..];
    assert (c.first + s)[..|c.first|] == c.first;
    SplitStep(TextOf(c), word, |c.first|, |c.first| + e, t);
  }

  function Texts(cs: seq<Chain>): seq<string> {
    if cs == [] then [] else [TextOf(cs[0])] + Texts(cs[1..])
  }

  /** Splitting at OR gives the branches of the tree. */
  lemma {:induction false} OrSplit(c: Chain)
    requires ChainOk(c)
    ensures Split(TextOf(c), "OR") == Texts(Pieces(c))
    decreases |c.steps|
  {
    if c.steps == [] {
      TokenIsWhole(c.first, "OR");
      assert c.first + "" == c.first;
      assert Pieces(c) == [c] && Texts([c]) == [TextOf(c)];
    } else {
      OrSplit(Next(c));
      var ps := Pieces(Next(c));
      if IsOr(c.steps[0].word) {
        SplitCuts(c, "OR");
        assert TextOf(Chain(c.first, [])) == c.first;
        assert ([Chain(c.first, [])] + ps)[1..] == ps;
      } else {
        SplitKeeps(c, "OR");
        var p := Chain(c.first, [c.steps[0]] + ps[0].steps);
        TextCons(p);
        assert Next(p) == ps[0];
        assert ([p] + ps[1..])[1..] == ps[1..];
      }
    }
  }

  lemma TokenIsWhole(t: string, word: string)
    requires NoSpace(t)
    ensures Split(t, word) == [t] && FindSep(t, 0, word).None?
  {
    assert t + "" == t;
    forall i: nat | i < |t| ensures SepEnd(t, i, word).None? { NoSepInToken(t, "", word, i); }
    SkipIs(t, |t|, |t|);
  }

  predicate AllAnd(c: Chain) { forall st :: st in c.steps ==> !IsOr(st.word) }

  /** Splitting an AND-chain gives its ids. */
  lemma {:induction false} AndSplit(c: Chain)
    requires ChainOk(c) && AllAnd(c)
    ensures Split(TextOf(c), "AND") == Ids(c)
    decreases |c.steps|
  {
    if c.steps == [] {
      TokenIsWhole(c.first, "AND");
      assert c.first + "" == c.first;
    } else {
      assert c.steps[0] in c.steps && StepOk(c.steps[0]);
      AndSplit(Next(c));
      SplitCuts(c, "AND");
    }
  }

  // ----- what the evaluator makes of printed chains -----

  /** Names as they stand in the real list: no spaces or parentheses, and none of the words for "no license". */
  predicate Sane(allowed: AllowList) {
    forall a :: a in allowed ==> NoSpace(a) && Plain(a) && a != "NOASSERTION" && a != "UNLICENSED"
  }

  predicate Plain(t: string) { '(' !in t && ')' !in t }

  predicate PlainChain(c: Chain) { ChainOk(c) && forall id :: id in Ids(c) ==> Plain(id) }

  lemma LeafInner(t: string, allowed: AllowList)
    requires NoSpace(t)
    ensures InnerAllowed(t, allowed) <==> StripPlus(t) in allowed
  {
    TokenIsWhole(t, "OR");
    TokenIsWhole(t, "AND");
    TrimKeeps(StripPlus(t));
  }

  lemma LeafAllowed(t: string, allowed: AllowList)
    requires NoSpace(t) && !Enclosed(t) && Sane(allowed)
    ensures IsLicenseAllowed(t, allowed) <==> StripPlus(t) in allowed
  {
    TrimKeeps(t);
    LeafInner(t, allowed);
    if |t| >= 3 { SkipIs(t, 3, 3); }
  }

  lemma {:induction false} TextEndsWithToken(c: Chain)
    requires ChainOk(c)
    ensures TextOf(c) != "" && !IsSpace(TextOf(c)[|TextOf(c)| - 1])
    decreases |c.steps|
  {
    if c.steps != [] {
      TextEndsWithToken(Next(c));
      TextCons(c);
    } else {
      assert c.first + "" == c.first;
    }
  }

  lemma TextIsTrim(c: Chain)
    requires ChainOk(c)
    ensures Trim(TextOf(c)) == TextOf(c)
  {
    TextStartsWithToken(c);
    TextEndsWithToken(c);
    TrimKeeps(TextOf(c));
  }

  /** A connective is not the word LICENSE, so a chain is never a "SEE LICENSE". */
  lemma NotSeeLicense(c: Chain)
    requires ChainOk(c)
    ensures !SeeLicense(TextOf(c))
  {
    var s := TextOf(c);
    if c.steps == [] {
      assert s == c.first;
      if |s| >= 3 { SkipIs(s, 3, 3); }
    } else if |s| >= 3 {
      var st := c.steps[0];
      assert st in c.steps;
      var t := TextOf(Next(c));
      TextCons(c);
      SeeIsShort(c.first, st.before, st.word, st.after + t);
    }
  }

  lemma SeeIsShort(t: string, g: string, w: string, rest: string)
    requires NoSpace(t) && Spaces(g) && (IsOr(w) || IsAnd(w))
    ensures !SeeLicense(t + (g + (w + rest)))
  {
    var s := t + (g + (w + rest));
    if |t| < 3 {
      assert s[|t|] == g[0];
      SpaceIsNoLetter(g[0]);
      assert |s| >= 3 ==> s[0..3][|t|] == s[|t|];
    } else if |t| > 3 {
      assert s[3] == t[3];
      SkipIs(s, 3, 3);
    } else {
      ConnectiveIsToken(w);
      assert s[3 + |g|] == w[0];
      assert forall k :: 3 <= k < 3 + |g| ==> s[k] == g[k - 3];
      SkipIs(s, 3, 3 + |g|);
      assert 3 + |g| + 7 <= |s| ==> s[3 + |g|..3 + |g| + 7][0] == w[0];
      assert LowerCase(w[0]) == 'o' || LowerCase(w[0]) == 'a';
    }
  }

  lemma SpaceIn(s: string, k: nat)
    requires k < |s| && IsSpace(s[k])
    ensures s != "NOASSERTION" && s != "UNLICENSED"
  {
    assert s[k] in s;
    assert forall x :: x in "NOASSERTION" ==> !IsSpace(x);
    assert forall x :: x in "UNLICENSED" ==> !IsSpace(x);
  }

  lemma HasSpace(c: Chain)
    requires ChainOk(c) && c.steps != []
    ensures TextOf(c) != "NOASSERTION" && TextOf(c) != "UNLICENSED"
  {
    TextCons(c);
    hide TextOf;
    var st := c.steps[0];
    assert st in c.steps && StepOk(st) && st.before[0] in st.before;
    assert TextOf(c)[|c.first|] == st.before[0];
    SpaceIn(TextOf(c), |c.first|);
  }

  lemma ChainIsInner(c: Chain, allowed: AllowList)
    requires ChainOk(c) && c.steps != [] && !Enclosed(TextOf(c))
    ensures IsLicenseAllowed(TextOf(c), allowed) <==> InnerAllowed(TextOf(c), allowed)
  {
    hide InnerAllowed, SeeLicense, Trim, ChainOk, TextOf, Enclosed;
    TextIsTrim(c);
    TextStartsWithToken(c);
    NotSeeLicense(c);
    HasSpace(c);
  }

  lemma {:induction false} PieceOk(c: Chain, p: Chain)
    requires ChainOk(c) && p in Pieces(c)
    ensures ChainOk(p) && AllAnd(p) && forall id :: id in Ids(p) ==> id in Ids(c)
    decreases |c.steps|
  {
    if c.steps != [] {
      var ps := Pieces(Next(c));
      assert Ids(c) == [c.first] + Ids(Next(c));
      if IsOr(c.steps[0].word) {
        if p in ps { PieceOk(Next(c), p); }
      } else if p in ps[1..] {
        PieceOk(Next(c), p);
      } else {
        var q := ps[0];
        PieceOk(Next(c), q);
        assert p == Chain(c.first, [c.steps[0]] + q.steps);
        assert Next(p) == q && Ids(p) == [c.first] + Ids(q);
        assert forall st :: st in p.steps ==> st == c.steps[0] || st in q.steps;
      }
    }
  }

  lemma {:induction false} TextsHas(cs: seq<Chain>, b: string)
    ensures b in Texts(cs) <==> exists p :: p in cs && TextOf(p) == b
  {
    if cs != [] {
      TextsHas(cs[1..], b);
      assert cs == [cs[0]] + cs[1..];
    }
  }

  lemma {:induction false} TextsLength(cs: seq<Chain>)
    ensures |Texts(cs)| == |cs|
  {
    if cs != [] { TextsLength(cs[1..]); }
  }

  /** A printed chain with an OR is allowed when one of its branches is. */
  lemma OrMeans(c: Chain, allowed: AllowList)
    requires ChainOk(c) && |Pieces(c)| > 1
    ensures InnerAllowed(TextOf(c), allowed) <==> exists p :: p in Pieces(c) && IsLicenseAllowed(TextOf(p), allowed)
  {
    OrSplit(c);
    TextsLength(Pieces(c));
    hide Split, FindSep, IsLicenseAllowed, TextOf, Pieces;
    var t, ps := TextOf(c), Pieces(c);
    forall b ensures b in Split(t, "OR") <==> exists p :: p in ps && TextOf(p) == b { TextsHas(ps, b); }
    if InnerAllowed(t, allowed) {
      var b :| b in Split(t, "OR") && IsLicenseAllowed(b, allowed);
    }
  }

  /** Without an OR it is allowed when all its ids are. */
  lemma AndMeans(c: Chain, allowed: AllowList)
    requires ChainOk(c) && AllAnd(c) && c.steps != []
    ensures InnerAllowed(TextOf(c), allowed) <==> forall id :: id in Ids(c) ==> IsLicenseAllowed(id, allowed)
  {
    OrSplit(c);
    AndSplit(c);
    OnePiece(c);
    TextsLength(Pieces(c));
    hide Split, FindSep, IsLicenseAllowed, TextOf, Pieces;
  }

  lemma {:induction false} OnePiece(c: Chain)
    requires AllAnd(c)
    ensures Pieces(c) == [c]
    decreases |c.steps|
  {
    if c.steps != [] {
      OnePiece(Next(c));
      assert c.steps == [c.steps[0]] + c.steps[1..];
    }
  }

  lemma PlainIsOpen(c: Chain)
    requires PlainChain(c)
    ensures !Enclosed(TextOf(c))
  {
    assert c.first in Ids(c) && c.first[0] in c.first && TextOf(c)[0] == c.first[0];
  }

  lemma BranchMeans(p: Chain, allowed: AllowList)
    requires PlainChain(p) && AllAnd(p) && Sane(allowed)
    ensures IsLicenseAllowed(TextOf(p), allowed) <==> BranchAllowed(p, allowed)
    ensures InnerAllowed(TextOf(p), allowed) <==> BranchAllowed(p, allowed)
  {
    PlainIsOpen(p);
    if p.steps == [] {
      assert TextOf(p) == p.first && Ids(p) == [p.first];
      LeafAllowed(p.first, allowed);
      LeafInner(p.first, allowed);
    } else {
      ChainIsInner(p, allowed);
      AndMeans(p, allowed);
      IdsAreLeaves(p, allowed);
    }
  }

  lemma IdsAreLeaves(p: Chain, allowed: AllowList)
    requires PlainChain(p) && Sane(allowed)
    ensures (forall id :: id in Ids(p) ==> IsLicenseAllowed(id, allowed)) <==> BranchAllowed(p, allowed)
  {
    hide IsLicenseAllowed;
    forall id | id in Ids(p) ensures IsLicenseAllowed(id, allowed) <==> StripPlus(id) in allowed {
      IdIsToken(p, id);
      assert id[0] in id;
      LeafAllowed(id, allowed);
    }
  }

  lemma {:induction false} IdIsToken(c: Chain, id: string)
    requires ChainOk(c) && id in Ids(c)
    ensures IsToken(id)
    decreases |c.steps|
  {
    if id != c.first {
      assert c.steps != [];
      assert Ids(c)[1..] == Ids(Next(c));
      IdIsToken(Next(c), id);
    }
  }

  /** On flat expressions the evaluator computes the meaning of the tree. */
  lemma TreeMeans(c: Chain, allowed: AllowList)
    requires PlainChain(c) && Sane(allowed)
    ensures InnerAllowed(TextOf(c), allowed) <==> TreeAllowed(c, allowed)
    ensures IsLicenseAllowed(TextOf(c), allowed) <==> TreeAllowed(c, allowed)
  {
    forall p | p in Pieces(c) ensures IsLicenseAllowed(TextOf(p), allowed) <==> BranchAllowed(p, allowed) {
      PieceOk(c, p);
      BranchMeans(p, allowed);
    }
    if |Pieces(c)| > 1 {
      assert c.steps != [];
      PlainIsOpen(c);
      OrMeans(c, allowed);
      ChainIsInner(c, allowed);
    } else {
      SinglePiece(c);
      BranchMeans(c, allowed);
    }
  }

  lemma {:induction false} SinglePiece(c: Chain)
    requires |Pieces(c)| == 1
    ensures Pieces(c) == [c] && AllAnd(c)
    decreases |c.steps|
  {
    if c.steps != [] {
      SinglePiece(Next(c));
      assert c.steps == [c.steps[0]] + c.steps[1..];
    }
  }

  // ----- around an expression: spaces, and one pair of parentheses -----

  predicate Blank(g: string) { forall c :: c in g ==> IsSpace(c) }

  lemma {:induction false} TrimStartOf(l: string, x: string)
    requires Blank(l) && x != "" && !IsSpace(x[0])
    ensures TrimStart(l + x) == x
  {
    if l == "" {
      assert l + x == x;
    } else {
      assert (l + x)[1..] == l[1..] + x && (l + x)[0] == l[0];
      TrimStartOf(l[1..], x);
    }
  }

  lemma {:induction false} TrimEndOf(x: string, r: string)
    requires Blank(r) && x != "" && !IsSpace(x[|x| - 1])
    ensures TrimEnd(x + r) == x
    decreases |r|
  {
    if r == "" {
      assert x + r == x;
    } else {
      var n := |r| - 1;
      assert (x + r)[..|x| + n] == x + r[..n] && (x + r)[|x| + n] == r[n];
      TrimEndOf(x, r[..n]);
    }
  }

  lemma TrimAround(l: string, x: string, r: string)
    requires Blank(l) && Blank(r) && x != "" && !IsSpace(x[0]) && !IsSpace(x[|x| - 1])
    ensures Trim(l + (x + r)) == x
  {
    assert (x + r)[0] == x[0];
    TrimStartOf(l, x + r);
    TrimEndOf(x, r);
  }

  lemma TrimAroundChain(l: string, c: Chain, r: string)
    requires Blank(l) && Blank(r) && ChainOk(c)
    ensures Trim(l + (TextOf(c) + r)) == TextOf(c)
  {
    TextStartsWithToken(c);
    TextEndsWithToken(c);
    TrimAround(l, TextOf(c), r);
  }

  function InParens(s: string): string { "(" + (s + ")") }

  lemma SameTrim(s: string, t: string, allowed: AllowList)
    requires Trim(s) == Trim(t)
    ensures IsLicenseAllowed(s, allowed) <==> IsLicenseAllowed(t, allowed)
  {
    hide InnerAllowed, SeeLicense, Trim;
  }

  /** Spaces around a flat expression make no difference. */
  lemma FlatIsTree(l: string, c: Chain, r: string, allowed: AllowList)
    requires Blank(l) && Blank(r) && PlainChain(c) && Sane(allowed)
    ensures IsLicenseAllowed(l + (TextOf(c) + r), allowed) <==> TreeAllowed(c, allowed)
  {
    hide IsLicenseAllowed, TreeAllowed, TextOf, Trim;
    TrimAroundChain(l, c, r);
    TextIsTrim(c);
    SameTrim(l + (TextOf(c) + r), TextOf(c), allowed);
    TreeMeans(c, allowed);
  }

  /** One pair of parentheses is taken off. */
  lemma ParensComeOff(inner: string, allowed: AllowList)
    ensures Trim(InParens(inner)) == InParens(inner)
    ensures IsLicenseAllowed(InParens(inner), allowed) <==> InnerAllowed(Trim(inner), allowed)
  {
    var x := InParens(inner);
    TrimKeeps(x);
    ParensOpen(inner);
    hide InnerAllowed, SeeLicense, Trim, Enclosed;
  }

  /** Nor does one outer pair of parentheses, with spaces inside and outside of it. */
  lemma FlatInParensIsTree(l: string, l': string, c: Chain, r': string, r: string, allowed: AllowList)
    requires Blank(l) && Blank(l') && Blank(r') && Blank(r) && PlainChain(c) && Sane(allowed)
    ensures IsLicenseAllowed(l + (InParens(l' + (TextOf(c) + r')) + r), allowed) <==> TreeAllowed(c, allowed)
  {
    hide IsLicenseAllowed, InnerAllowed, TreeAllowed, TextOf, Trim;
    var inner := l' + (TextOf(c) + r');
    TrimAround(l, InParens(inner), r);
    ParensComeOff(inner, allowed);
    SameTrim(l + (InParens(inner) + r), InParens(inner), allowed);
    TrimAroundChain(l', c, r');
    TreeMeans(c, allowed);
  }

  lemma ParensOpen(inner: string)
    ensures var x := InParens(inner);
      Enclosed(x) && x[1..|x| - 1] == inner && !SeeLicense(x) && x != "NOASSERTION" && x != "UNLICENSED"
  {
    var x := InParens(inner);
    assert x[0] == '(';
    assert |x| >= 3 ==> x[0..3][0] == '(' && LowerCase('(') != LowerCase('S');
    assert x[1..|x| - 1] == inner;
  }

  // ----- texts written out -----

  /** Whatever is allowed, these texts are not, with any spaces around them. */
  lemma NeverAllowed(l: string, t: string, r: string, allowed: AllowList)
    requires Blank(l) && Blank(r)
    requires t == "" || t == "NOASSERTION" || t == "UNLICENSED"
    ensures !IsLicenseAllowed(l + (t + r), allowed)
  {
    hide InnerAllowed, SeeLicense;
    if t == "" {
      assert t + r == r;
      TrimBlank(l + r);
    } else {
      TrimAround(l, t, r);
    }
  }

  lemma {:induction false} TrimBlank(g: string)
    requires Blank(g)
    ensures Trim(g) == ""
  {
    if g != "" {
      assert g[0] in g;
      TrimBlank(g[1..]);
    }
  }

  /** Nor is a text that starts with SEE and LICENSE, in any case, with spaces between them. */
  lemma SeeLicenseIsNotAllowed(see: string, g: string, license: string, rest: string, allowed: AllowList)
    requires EqualIgnoreCase(see, "SEE") && Spaces(g) && EqualIgnoreCase(license, "LICENSE")
    requires var s := see + (g + (license + rest)); !IsSpace(s[|s| - 1])
    ensures !IsLicenseAllowed(see + (g + (license + rest)), allowed)
  {
    var s := see + (g + (license + rest));
    assert LowerCase(s[0]) == 's';
    TrimKeeps(s);
    assert s[0..3] == see && LowerCase(license[0]) == 'l';
    SkipIs(s, 3, 3 + |g|);
    assert s[3 + |g|..3 + |g| + 7] == license;
  }

  /** A bare id, or the id with one plus sign behind it, is allowed when the id is on the list. */
  lemma PlusIsDropped(id: string, allowed: AllowList)
    requires IsToken(id) && Plain(id) && Sane(allowed) && id[|id| - 1] != '+'
    ensures IsLicenseAllowed(id, allowed) <==> id in allowed
    ensures IsLicenseAllowed(id + "+", allowed) <==> id in allowed
  {
    hide IsLicenseAllowed;
    var plus := id + "+";
    assert plus[|plus| - 1] == '+' && plus[..|plus| - 1] == id;
    PlusIsPlain(id);
    NotEnclosed(id);
    NotEnclosed(plus);
    LeafAllowed(id, allowed);
    LeafAllowed(plus, allowed);
  }

  lemma PlusIsPlain(id: string)
    requires IsToken(id) && Plain(id)
    ensures IsToken(id + "+") && Plain(id + "+")
  {
    assert LowerCase('+') == '+';
    assert (id + "+")[|id|] == '+';
  }

  lemma NotEnclosed(t: string)
    requires Plain(t)
    ensures !Enclosed(t)
  {
  }
}
