/**
 * `findLineCommentStart` and `findForbiddenRemoteExecCalls` of scripts/verify-no-remote-exec.ts.
 *
 * A pattern is an abstract matcher, so the theorems hold for every list of patterns.
 */
module RemoteExec {
  import opened Common
  import opened Text

  // ----- findLineCommentStart -----

  predicate IsQuote(c: char) { c == '\'' || c == '"' || c == '`' }

  /** The state in front of a character: the open quote, and whether the character is escaped. */
  datatype Quoting = Quoting(open: Option<char>, escaped: bool)

  /** A backslash takes the next character with it, in a literal or not; a quote ends its own kind only. */
  function After(q: Quoting, c: char, more: bool): Quoting {
    if q.escaped then q.(escaped := false)
    else if c == '\\' && more then q.(escaped := true)
    else if q.open == Some(c) then Quoting(None, false)
    else if q.open.None? && IsQuote(c) then Quoting(Some(c), false)
    else q
  }

  /** The state in front of `k` in a text that starts with `open` as the open quote. */
  function StateFrom(s: string, open: Option<char>, k: nat): Quoting
    requires k <= |s|
  {
    if k == 0 then Quoting(open, false) else After(StateFrom(s, open, k - 1), s[k - 1], k < |s|)
  }

  function StateAt(s: string, k: nat): Quoting
    requires k <= |s|
  {
    StateFrom(s, None, k)
  }

  /** Two slashes at `k`, outside of literals, the first not escaped. */
  predicate CommentAt(s: string, k: nat) {
    k + 1 < |s| && s[k] == '/' && s[k + 1] == '/' && StateAt(s, k) == Quoting(None, false)
  }

  method FindLineCommentStart(s: string) returns (r: int)
    ensures r == -1 || 0 <= r < |s|
    ensures r >= 0 ==> CommentAt(s, r)
    ensures forall k: nat :: CommentAt(s, k) ==> 0 <= r <= k
  {
    var inSingle, inDouble, inBacktick := false, false, false;
    var i := 0;
    while i < |s|
      invariant 0 <= i <= |s|
      invariant !(inSingle && inDouble) && !(inSingle && inBacktick) && !(inDouble && inBacktick)
      invariant StateAt(s, i) == Quoting(OpenQuote(inSingle, inDouble, inBacktick), false)
      invariant forall k: nat :: k < i ==> !CommentAt(s, k)
    {
      var c := s[i];
      if c == '\\' && i + 1 < |s| {
        i := i + 1;
        assert StateAt(s, i).escaped;
        i := i + 1;
        continue;
      }
      if inSingle {
        if c == '\'' { inSingle := false; }
        i := i + 1;
        continue;
      }
      if inDouble {
        if c == '"' { inDouble := false; }
        i := i + 1;
        continue;
      }
      if inBacktick {
        if c == '`' { inBacktick := false; }
        i := i + 1;
        continue;
      }
      if c == '\'' { inSingle := true; i := i + 1; continue; }
      if c == '"' { inDouble := true; i := i + 1; continue; }
      if c == '`' { inBacktick := true; i := i + 1; continue; }
      if c == '/' && i + 1 < |s| && s[i + 1] == '/' { return i; }
      i := i + 1;
    }
    return -1;
  }

  function OpenQuote(inSingle: bool, inDouble: bool, inBacktick: bool): Option<char> {
    if inSingle then Some('\'') else if inDouble then Some('"') else if inBacktick then Some('`') else None
  }

  /** Inside a literal nothing is a comment, up to its closing quote and whatever stands in it. */
  lemma {:induction false} LiteralHidesSlashes(s: string, k: nat, q: char, body: string)
    requires IsQuote(q) && BodyOk(q, body, true)
    requires k + |body| < |s| && s[k..k + |body|] == body
    requires StateAt(s, k) == Quoting(Some(q), false)
    ensures StateAt(s, k + |body|) == Quoting(Some(q), false)
    ensures forall i :: k <= i <= k + |body| ==> !CommentAt(s, i)
    decreases |body|
  {
    if body != "" {
      var n := if body[0] == '\\' then 2 else 1;
      assert forall i :: 0 <= i < |body| ==> s[k + i] == body[i];
      assert s[k + n..k + |body|] == body[n..];
      assert After(StateAt(s, k), s[k], true) == StateAt(s, k + 1);
      assert n == 2 ==> StateAt(s, k + 2) == After(StateAt(s, k + 1), s[k + 1], true);
      LiteralHidesSlashes(s, k + n, q, body[n..]);
    }
  }

  // ----- lines -----

  /** `split(/\r?\n/)`, with the separators it drops. */
  function SplitLines(s: string): (r: (seq<string>, seq<string>))
    ensures |r.0| == |r.1| + 1
    decreases |s|
  {
    match Find(s, "\n")
    case None => ([s], [])
    case Some(k) =>
      var (lines, ends) := SplitLines(s[k + 1..]);
      if k > 0 && s[k - 1] == '\r' then ([s[..k - 1]] + lines, ["\r\n"] + ends)
      else ([s[..k]] + lines, ["\n"] + ends)
  }

  function Lines(s: string): (lines: seq<string>)
    ensures |lines| >= 1
  {
    SplitLines(s).0
  }

  function Glued(lines: seq<string>, ends: seq<string>): string
    requires |lines| == |ends| + 1
  {
    if ends == [] then lines[0] else lines[0] + ends[0] + Glued(lines[1..], ends[1..])
  }

  /** A separator is as long as it can be. */
  predicate EndOk(line: string, end: string) {
    end == "\r\n" || (end == "\n" && !(line != "" && line[|line| - 1] == '\r'))
  }

  /** The lines hold no line feed, and with the line ends in between they are the text. */
  ghost predicate IsSplit(s: string, lines: seq<string>, ends: seq<string>) {
    && |lines| == |ends| + 1 && Glued(lines, ends) == s
    && (forall l :: l in lines ==> '\n' !in l)
    && (forall i :: 0 <= i < |ends| ==> EndOk(lines[i], ends[i]))
  }

  lemma {:induction false} LinesAreTheText(s: string)
    ensures IsSplit(s, SplitLines(s).0, SplitLines(s).1)
    decreases |s|
  {
    match Find(s, "\n")
    case None => NoBreak(s, |s|);
    case Some(k) =>
      var (lines, ends) := SplitLines(s);
      var (lines', ends') := SplitLines(s[k + 1..]);
      LinesAreTheText(s[k + 1..]);
      FirstLine(s, k);
      assert lines == [lines[0]] + lines' && ends == [ends[0]] + ends';
      assert s == s[..k + 1] + s[k + 1..];
      SplitCons(lines[0], ends[0], s[k + 1..], lines', ends');
  }

  lemma SplitCons(line: string, end: string, s: string, lines: seq<string>, ends: seq<string>)
    requires IsSplit(s, lines, ends) && '\n' !in line && EndOk(line, end)
    ensures IsSplit(line + end + s, [line] + lines, [end] + ends)
  {
    hide EndOk;
    assert ([line] + lines)[1..] == lines && ([end] + ends)[1..] == ends;
  }

  lemma NoBreak(s: string, k: nat)
    requires k <= |s| && (Find(s, "\n").None? || k <= Find(s, "\n").value)
    ensures '\n' !in s[..k]
  {
    forall i | 0 <= i < k ensures s[i] != '\n' {
      NotBefore(s, "\n", i);
      assert s[i..i + 1] == [s[i]];
    }
  }

  lemma FirstLine(s: string, k: nat)
    requires Find(s, "\n") == Some(k)
    ensures var (lines, ends) := SplitLines(s);
      ends != [] && lines[0] + ends[0] == s[..k + 1] && '\n' !in lines[0] && EndOk(lines[0], ends[0])
  {
    NoBreak(s, k);
    FirstIsAt(s, "\n");
    assert s[k..k + 1] == "\n" && s[..k + 1] == s[..k] + s[k..k + 1];
    if k > 0 && s[k - 1] == '\r' {
      assert s[..k] == s[..k - 1] + "\r" && s[..k - 1] <= s[..k];
      assert "\r" + "\n" == "\r\n";
    }
  }

  // ----- rules and findings -----

  /** `reason`, and how long a match at a given index of a text is, if there is one. */
  datatype Pattern = Pattern(reason: string, matches: (string, nat) -> Option<nat>)

  /** `codeOnly` is line 234: block comments, line comment and string literals taken out. */
  datatype Rules = Rules(imports: seq<Pattern>, codeGen: seq<Pattern>, codeOnly: string -> string)

  datatype Finding = Finding(line: nat, text: string, reason: string)

  function MatchAt(p: Pattern, s: string, i: nat): Option<nat> { (p.matches)(s, i) }

  function CodeOnly(rules: Rules, s: string): string { (rules.codeOnly)(s) }

  /** `exec` with a last index: the leftmost match from there on; None resets the index. */
  function Exec(p: Pattern, s: string, from: nat): (r: Option<nat>)
    ensures r.Some? ==> from <= r.value <= |s| && MatchAt(p, s, r.value).Some?
    ensures forall i: nat :: from <= i <= |s| && MatchAt(p, s, i).Some? ==> r.Some? && r.value <= i
    decreases |s| + 1 - from
  {
    if from > |s| then None
    else if MatchAt(p, s, from).Some? then Some(from)
    else Exec(p, s, from + 1)
  }

  predicate Tests(p: Pattern, s: string) { Exec(p, s, 0).Some? }

  function FirstMatching(ps: seq<Pattern>, s: string): Option<string> {
    if ps == [] then None else if Tests(ps[0], s) then Some(ps[0].reason) else FirstMatching(ps[1..], s)
  }

  // ----- phases 1 and 2: line by line -----

  /** A line without its comments, and whether a block comment is open behind it. */
  function StripLine(line: string, inBlock: bool): (string, bool) {
    if !inBlock then StripOpen(line)
    else match Find(line, "*/") case Some(end) => StripOpen(line[end + 2..]) case None => ("", true)
  }

  function LastOf(s: string, d: string): Option<nat> { FindLast(s, d, |s|) }

  function StripOpen(working: string): (string, bool) {
    var open := LastOf(working, "/*");
    var close := LastOf(working, "*/");
    if open.Some? && (close.None? || close.value < open.value) then (UpToComment(working[..open.value]), true)
    else (UpToComment(working), false)
  }

  /** Up to the first line comment that `findLineCommentStart` finds. */
  function UpToComment(s: string): string { s[..CommentStart(s, 0)] }

  function CommentStart(s: string, k: nat): (r: nat)
    requires k <= |s|
    ensures k <= r <= |s|
    ensures r < |s| ==> CommentAt(s, r)
    ensures forall i: nat :: k <= i < r ==> !CommentAt(s, i)
    decreases |s| - k
  {
    if k == |s| || CommentAt(s, k) then k else CommentStart(s, k + 1)
  }

  /** Whether a block comment is open in front of line `i`. */
  function InBlock(lines: seq<string>, i: nat): bool
    requires i <= |lines|
  {
    if i == 0 then false else StripLine(lines[i - 1], InBlock(lines, i - 1)).1
  }

  /** The text of line `i` that is searched: nothing if only space is left. */
  function ImportLine(lines: seq<string>, i: nat): string
    requires i < |lines|
  {
    var code := StripLine(lines[i], InBlock(lines, i)).0;
    if Trim(code) == "" then "" else code
  }

  /** The reason for which a line is reported by itself, if it is. */
  function Verdict(rules: Rules, code: string): Option<string> {
    if Trim(code) == "" then None
    else
      match FirstMatching(rules.imports, code)
      case Some(reason) => Some(reason)
      case None => FirstMatching(rules.codeGen, CodeOnly(rules, code))
  }

  /** Reasons by line: what the findings say at a point of the program. */
  type Marks = seq<Option<string>>

  /** `out` has one finding for each marked line and no other. */
  ghost predicate Shows(out: seq<Finding>, marks: Marks, lines: seq<string>) {
    && |marks| == |lines|
    && (forall i, j :: 0 <= i < j < |out| ==> out[i].line != out[j].line)
    && (forall f :: f in out ==> Agrees(f, marks, lines))
    && (forall k :: 0 <= k < |marks| && marks[k].Some? ==> FindingFor(marks, lines, k) in out)
  }

  predicate Agrees(f: Finding, marks: Marks, lines: seq<string>)
    requires |marks| == |lines|
  {
    1 <= f.line <= |lines| && marks[f.line - 1] == Some(f.reason) && f.text == Trim(lines[f.line - 1])
  }

  function FindingFor(marks: Marks, lines: seq<string>, k: nat): Finding
    requires k < |marks| == |lines| && marks[k].Some?
  {
    Finding(k + 1, Trim(lines[k]), marks[k].value)
  }

  /** The marks after the first `i` lines of phases 1 and 2. */
  function LineMarks(rules: Rules, lines: seq<string>, i: nat): (marks: Marks)
    requires i <= |lines|
    ensures |marks| == |lines|
    ensures forall k :: 0 <= k < |lines| ==>
      marks[k] == if k < i then Verdict(rules, ImportLine(lines, k)) else None
  {
    seq(|lines|, k requires 0 <= k < |lines| => if k < i then Verdict(rules, ImportLine(lines, k)) else None)
  }

  /** A new finding for a line not marked yet. */
  lemma MarkLine(out: seq<Finding>, marks: Marks, lines: seq<string>, k: nat, reason: string)
    requires Shows(out, marks, lines) && k < |lines| && marks[k].None?
    ensures Shows(out + [Finding(k + 1, Trim(lines[k]), reason)], marks[k := Some(reason)], lines)
  {
    var f := Finding(k + 1, Trim(lines[k]), reason);
    var marks' := marks[k := Some(reason)];
    forall g | g in out ensures Agrees(g, marks', lines) && g.line != f.line {
      assert Agrees(g, marks, lines);
    }
    forall j | 0 <= j < |marks'| && marks'[j].Some? ensures FindingFor(marks', lines, j) in out + [f] {
      if j != k { assert FindingFor(marks, lines, j) in out; }
    }
  }

  /** Phases 1 and 2 (lines 196-241). */
  method ScanLines(rules: Rules, lines: seq<string>) returns (importLines: array<string>, out: seq<Finding>)
    ensures fresh(importLines) && importLines.Length == |lines|
    ensures forall k :: 0 <= k < |lines| ==> importLines[k] == ImportLine(lines, k)
    ensures Shows(out, LineMarks(rules, lines, |lines|), lines)
  {
    hide StripLine, Verdict, Shows, LineMarks, ImportLine, InBlock, Trim;
    NothingYet(rules, lines);
    importLines := new string[|lines|](_ => "");
    out := [];
    var inBlockComment := false;
    var i := 0;
    while i < |lines|
      invariant 0 <= i <= |lines|
      invariant inBlockComment == InBlock(lines, i)
      invariant forall k :: 0 <= k < i ==> importLines[k] == ImportLine(lines, k)
      invariant forall k :: i <= k < |lines| ==> importLines[k] == ""
      invariant Shows(out, LineMarks(rules, lines, i), lines)
    {
      LineStep(lines, i);
      var noComments;
      noComments, inBlockComment := StripComments(lines[i], inBlockComment);
      if Trim(noComments) != "" { importLines[i] := noComments; }
      out := LineFinding(rules, lines, i, ImportLine(lines, i), out);
      i := i + 1;
    }
  }

  /** What line `i` adds to the findings. */
  method LineFinding(rules: Rules, lines: seq<string>, i: nat, noComments: string, out: seq<Finding>)
    returns (out': seq<Finding>)
    requires i < |lines| && noComments == ImportLine(lines, i)
    requires Shows(out, LineMarks(rules, lines, i), lines)
    ensures Shows(out', LineMarks(rules, lines, i + 1), lines)
  {
    hide Shows;
    out' := out;
    NextMarks(rules, lines, i);
    if Trim(noComments) != "" {
      var reason := Judge(rules, noComments);
      if reason.Some? {
        MarkLine(out, LineMarks(rules, lines, i), lines, i, reason.value);
        out' := out + [Finding(i + 1, Trim(lines[i]), reason.value)];
      }
    }
    if Verdict(rules, noComments).None? {
      assert LineMarks(rules, lines, i + 1) == LineMarks(rules, lines, i);
    }
  }

  lemma NothingYet(rules: Rules, lines: seq<string>)
    ensures Shows([], LineMarks(rules, lines, 0), lines) && !InBlock(lines, 0)
  {
  }

  lemma LineStep(lines: seq<string>, i: nat)
    requires i < |lines|
    ensures var (code, inBlock) := StripLine(lines[i], InBlock(lines, i));
      InBlock(lines, i + 1) == inBlock && ImportLine(lines, i) == if Trim(code) == "" then "" else code
  {
  }

  lemma NextMarks(rules: Rules, lines: seq<string>, i: nat)
    requires i < |lines|
    ensures LineMarks(rules, lines, i + 1) == LineMarks(rules, lines, i)[i := Verdict(rules, ImportLine(lines, i))]
  {
  }

  /** Lines 200-217: the comments of one line. */
  method StripComments(raw: string, wasInBlock: bool) returns (noComments: string, inBlock: bool)
    ensures (noComments, inBlock) == StripLine(raw, wasInBlock)
  {
    var working := raw;
    if wasInBlock {
      var end := Find(working, "*/");
      if end.None? { return "", true; }
      working := working[end.value + 2..];
    }
    inBlock := false;
    ghost var open := working;
    var blockOpen, blockClose := LastOf(working, "/*"), LastOf(working, "*/");
    if blockOpen.Some? && (blockClose.None? || blockClose.value < blockOpen.value) {
      working := working[..blockOpen.value];
      inBlock := true;
    }
    assert StripOpen(open) == (UpToComment(working), inBlock);
    noComments := CutComment(working);
  }

  /** Lines 216-217. */
  method CutComment(working: string) returns (noComments: string)
    ensures noComments == UpToComment(working)
  {
    var lineCommentIndex := FindLineCommentStart(working);
    noComments := if lineCommentIndex >= 0 then working[..lineCommentIndex] else working;
    assert working[..|working|] == working;
  }

  /** Lines 221-240: import patterns first, then code generation with literals taken out. */
  method Judge(rules: Rules, noComments: string) returns (reason: Option<string>)
    requires Trim(noComments) != ""
    ensures reason == Verdict(rules, noComments)
  {
    reason := FirstTest(rules.imports, noComments);
    if reason.None? {
      reason := FirstTest(rules.codeGen, CodeOnly(rules, noComments));
    }
  }

  method FirstTest(ps: seq<Pattern>, s: string) returns (reason: Option<string>)
    ensures reason == FirstMatching(ps, s)
  {
    var i := 0;
    assert ps[0..] == ps;
    while i < |ps|
      invariant 0 <= i <= |ps|
      invariant FirstMatching(ps[i..], s) == FirstMatching(ps, s)
    {
      assert ps[i..][1..] == ps[i + 1..];
      if Tests(ps[i], s) { return Some(ps[i].reason); }
      i := i + 1;
    }
    return None;
  }

  // ----- offsets and lines -----

  /** The first `n` searched lines, each with a blank behind it. */
  function Joined(parts: seq<string>, n: nat): string
    requires n <= |parts|
  {
    if n == 0 then "" else Joined(parts, n - 1) + (parts[n - 1] + " ")
  }

  /** `starts` holds the offset of each line in the joined text. */
  ghost predicate AreStarts(starts: seq<nat>, parts: seq<string>) {
    |starts| == |parts| > 0 && forall i :: 0 <= i < |parts| ==> starts[i] == |Joined(parts, i)|
  }

  /** The last line that starts at or before an offset. */
  function LineOf(starts: seq<nat>, index: nat): (k: nat)
    requires starts != [] && starts[0] == 0
    ensures k < |starts| && starts[k] <= index
    ensures forall i :: k < i < |starts| ==> index < starts[i]
  {
    if starts[|starts| - 1] <= index then |starts| - 1 else LineOf(starts[..|starts| - 1], index)
  }

  lemma {:induction false} StartsIncrease(starts: seq<nat>, parts: seq<string>, i: nat, j: nat)
    requires AreStarts(starts, parts) && i < j < |starts|
    ensures starts[i] + |parts[i]| + 1 <= starts[j]
    decreases j
  {
    assert Joined(parts, i + 1) == Joined(parts, i) + (parts[i] + " ");
    if i + 1 < j {
      StartsIncrease(starts, parts, i, j - 1);
      assert Joined(parts, j) == Joined(parts, j - 1) + (parts[j - 1] + " ");
    }
  }

  lemma {:induction false} JoinedGrows(parts: seq<string>, m: nat, n: nat)
    requires m <= n <= |parts|
    ensures Joined(parts, m) <= Joined(parts, n)
  {
    if m < n { JoinedGrows(parts, m, n - 1); }
  }

  /** An offset of the joined text lies in the segment of one line, the one `LineOf` gives. */
  lemma OffsetIsOnItsLine(starts: seq<nat>, parts: seq<string>, index: nat)
    requires AreStarts(starts, parts) && index < |Joined(parts, |parts|)|
    ensures starts[0] == 0
    ensures var k := LineOf(starts, index);
      && starts[k] <= index <= starts[k] + |parts[k]|
      && Joined(parts, |parts|)[index] == (parts[k] + " ")[index - starts[k]]
    ensures forall j :: 0 <= j < |parts| && starts[j] <= index <= starts[j] + |parts[j]| ==> j == LineOf(starts, index)
  {
    assert starts[0] == |Joined(parts, 0)| == 0;
    var k := LineOf(starts, index);
    assert Joined(parts, k + 1) == Joined(parts, k) + (parts[k] + " ");
    JoinedGrows(parts, k + 1, |parts|);
    assert k + 1 < |parts| ==> index < starts[k + 1] == |Joined(parts, k + 1)|;
    assert Joined(parts, |parts|)[index] == Joined(parts, k + 1)[index];
    forall j | 0 <= j < |parts| && starts[j] <= index <= starts[j] + |parts[j]| ensures j == k {
      if j < k { StartsIncrease(starts, parts, j, k); }
    }
  }

  /** The binary search `lineAt` (lines 253-262). */
  method LineAt(starts: seq<nat>, parts: seq<string>, index: nat) returns (lo: nat)
    requires AreStarts(starts, parts) && starts[0] == 0
    ensures lo == LineOf(starts, index)
  {
    lo := 0;
    var hi := |starts| - 1;
    while lo < hi
      invariant 0 <= lo <= hi < |starts| && starts[lo] <= index
      invariant forall i :: hi < i < |starts| ==> index < starts[i]
    {
      var mid := (lo + hi + 1) / 2;
      if starts[mid] <= index {
        lo := mid;
      } else {
        hi := mid - 1;
        forall i | hi < i < |starts| ensures index < starts[i] {
          if mid < i { StartsIncrease(starts, parts, mid, i); }
        }
      }
    }
  }

  lemma JoinedNext(parts: seq<string>, i: nat)
    requires i < |parts|
    ensures Joined(parts, 0) == "" && Joined(parts, i + 1) == Joined(parts, i) + (parts[i] + " ")
  {
  }

  /** Lines 247-252. */
  method Offsets(importLines: array<string>) returns (starts: seq<nat>, joined: string)
    requires importLines.Length > 0
    ensures AreStarts(starts, importLines[..]) && starts[0] == 0
    ensures joined == Joined(importLines[..], importLines.Length)
  {
    hide Joined;
    ghost var parts := importLines[..];
    JoinedNext(parts, 0);
    starts, joined := [], "";
    var i := 0;
    while i < importLines.Length
      invariant 0 <= i <= importLines.Length && |starts| == i
      invariant joined == Joined(parts, i)
      invariant forall k :: 0 <= k < i ==> starts[k] == |Joined(parts, k)|
    {
      JoinedNext(parts, i);
      starts := starts + [|joined|];
      joined := joined + (importLines[i] + " ");
      i := i + 1;
    }
  }

  // ----- phase 3: across lines -----

  /** The offsets at which a global `exec` loop stops: an empty match moves on by one. */
  function Hits(p: Pattern, s: string, from: nat): seq<nat>
    decreases if from <= |s| then |s| + 1 - from else 0
  {
    match Exec(p, s, from)
    case None => []
    case Some(i) => [i] + Hits(p, s, NextIndex(p, s, i))
  }

  function NextIndex(p: Pattern, s: string, i: nat): (n: nat)
    requires MatchAt(p, s, i).Some?
    ensures n > i
  {
    var length := MatchAt(p, s, i).value;
    if length == 0 then i + 1 else i + length
  }

  /** A reason for line `k`, unless it has one. */
  function Mark(marks: Marks, k: nat, reason: string): (r: Marks)
    requires k < |marks|
    ensures |r| == |marks|
  {
    if marks[k].None? then marks[k := Some(reason)] else marks
  }

  function MarkHits(marks: Marks, starts: seq<nat>, hits: seq<nat>, reason: string): (r: Marks)
    requires |marks| == |starts| > 0 && starts[0] == 0
    ensures |r| == |marks|
    decreases |hits|
  {
    if hits == [] then marks else MarkHits(Mark(marks, LineOf(starts, hits[0]), reason), starts, hits[1..], reason)
  }

  function MarkAll(marks: Marks, starts: seq<nat>, joined: string, ps: seq<Pattern>): (r: Marks)
    requires |marks| == |starts| > 0 && starts[0] == 0
    ensures |r| == |marks|
    decreases |ps|
  {
    if ps == [] then marks
    else MarkAll(MarkHits(marks, starts, Hits(ps[0], joined, 0), ps[0].reason), starts, joined, ps[1..])
  }

  predicate Hit(starts: seq<nat>, hits: seq<nat>, k: nat)
    requires starts != [] && starts[0] == 0
  {
    exists i :: 0 <= i < |hits| && LineOf(starts, hits[i]) == k
  }

  /** The reason of the first pattern with a match that starts on line `k`. */
  function Crossing(starts: seq<nat>, joined: string, ps: seq<Pattern>, k: nat): Option<string>
    requires starts != [] && starts[0] == 0
  {
    if ps == [] then None
    else if Hit(starts, Hits(ps[0], joined, 0), k) then Some(ps[0].reason)
    else Crossing(starts, joined, ps[1..], k)
  }

  lemma {:induction false} MarkHitsAt(marks: Marks, starts: seq<nat>, hits: seq<nat>, reason: string, k: nat)
    requires |marks| == |starts| > 0 && starts[0] == 0 && k < |marks|
    ensures MarkHits(marks, starts, hits, reason)[k] ==
      if marks[k].Some? then marks[k] else if Hit(starts, hits, k) then Some(reason) else None
    decreases |hits|
  {
    if hits != [] {
      MarkHitsAt(Mark(marks, LineOf(starts, hits[0]), reason), starts, hits[1..], reason, k);
      if Hit(starts, hits[1..], k) {
        var i :| 0 <= i < |hits[1..]| && LineOf(starts, hits[1..][i]) == k;
        assert hits[i + 1] == hits[1..][i];
      }
      if i :| 0 <= i < |hits| && LineOf(starts, hits[i]) == k {
        assert i > 0 ==> hits[i] == hits[1..][i - 1];
      }
    }
  }

  lemma {:induction false} MarkAllAt(marks: Marks, starts: seq<nat>, joined: string, ps: seq<Pattern>, k: nat)
    requires |marks| == |starts| > 0 && starts[0] == 0 && k < |marks|
    ensures MarkAll(marks, starts, joined, ps)[k] ==
      if marks[k].Some? then marks[k] else Crossing(starts, joined, ps, k)
    decreases |ps|
  {
    if ps != [] {
      var hits := Hits(ps[0], joined, 0);
      MarkHitsAt(marks, starts, hits, ps[0].reason, k);
      MarkAllAt(MarkHits(marks, starts, hits, ps[0].reason), starts, joined, ps[1..], k);
    }
  }

  /** The loop over the import patterns (lines 263-273). */
  method Rescan(rules: Rules, lines: seq<string>, parts: seq<string>, starts: seq<nat>, joined: string,
                before: seq<Finding>, ghost marks: Marks)
    returns (out: seq<Finding>)
    requires AreStarts(starts, parts) && starts[0] == 0 && |parts| == |lines|
    requires Shows(before, marks, lines)
    ensures Shows(out, MarkAll(marks, starts, joined, rules.imports), lines)
  {
    out := before;
    var flagged := set f | f in before :: f.line;
    ghost var now := marks;
    var q := 0;
    assert rules.imports[0..] == rules.imports;
    while q < |rules.imports|
      invariant 0 <= q <= |rules.imports| && |now| == |lines|
      invariant MarkAll(now, starts, joined, rules.imports[q..]) == MarkAll(marks, starts, joined, rules.imports)
      invariant Shows(out, now, lines) && flagged == set f | f in out :: f.line
    {
      assert rules.imports[q..][1..] == rules.imports[q + 1..];
      out, flagged, now := RescanOne(rules.imports[q], lines, parts, starts, joined, out, flagged, now);
      q := q + 1;
    }
  }

  /** The `exec` loop of one pattern; it ends because the index grows with every match. */
  method RescanOne(p: Pattern, lines: seq<string>, parts: seq<string>, starts: seq<nat>, joined: string,
                   before: seq<Finding>, flaggedBefore: set<nat>, ghost marks: Marks)
    returns (out: seq<Finding>, flagged: set<nat>, ghost now: Marks)
    requires AreStarts(starts, parts) && |starts| == |lines| == |marks| > 0 && starts[0] == 0
    requires Shows(before, marks, lines) && flaggedBefore == set f | f in before :: f.line
    ensures now == MarkHits(marks, starts, Hits(p, joined, 0), p.reason)
    ensures Shows(out, now, lines) && flagged == set f | f in out :: f.line
  {
    hide Shows, Mark, AreStarts;
    out, flagged, now := before, flaggedBefore, marks;
    var lastIndex := 0;
    var m := Exec(p, joined, lastIndex);
    while m.Some?
      invariant m == Exec(p, joined, lastIndex) && |now| == |lines|
      invariant MarkHits(now, starts, Hits(p, joined, lastIndex), p.reason) ==
          MarkHits(marks, starts, Hits(p, joined, 0), p.reason)
      invariant Shows(out, now, lines) && flagged == set f | f in out :: f.line
      decreases if lastIndex <= |joined| then |joined| + 1 - lastIndex else 0
    {
      var line := LineAt(starts, parts, m.value);
      assert Hits(p, joined, lastIndex)[1..] == Hits(p, joined, NextIndex(p, joined, m.value));
      out, flagged, now := Flag(line, p.reason, lines, out, flagged, now);
      lastIndex := m.value + MatchAt(p, joined, m.value).value;
      if MatchAt(p, joined, m.value).value == 0 { lastIndex := lastIndex + 1; }
      m := Exec(p, joined, lastIndex);
    }
  }

  /** Lines 267-270. */
  method Flag(line: nat, reason: string, lines: seq<string>, before: seq<Finding>, flaggedBefore: set<nat>,
              ghost marks: Marks)
    returns (out: seq<Finding>, flagged: set<nat>, ghost now: Marks)
    requires line < |lines| && Shows(before, marks, lines) && flaggedBefore == set f | f in before :: f.line
    ensures |now| == |lines| && now == Mark(marks, line, reason)
    ensures Shows(out, now, lines) && flagged == set f | f in out :: f.line
  {
    out, flagged, now := before, flaggedBefore, Mark(marks, line, reason);
    FlaggedIffMarked(before, marks, lines, line);
    if line + 1 !in flagged {
      MarkLine(before, marks, lines, line, reason);
      flagged := flagged + {line + 1};
      out := out + [Finding(line + 1, Trim(lines[line]), reason)];
    }
  }

  lemma FlaggedIffMarked(out: seq<Finding>, marks: Marks, lines: seq<string>, k: nat)
    requires Shows(out, marks, lines) && k < |lines|
    ensures marks[k].Some? <==> k + 1 in set f | f in out :: f.line
  {
    if marks[k].Some? { assert FindingFor(marks, lines, k) in out; }
    if f :| f in out && f.line == k + 1 { assert Agrees(f, marks, lines); }
  }

  // ----- the report -----

  /** The findings by line number. */
  function Report(marks: Marks, lines: seq<string>, n: nat): (r: seq<Finding>)
    requires n <= |marks| == |lines|
  {
    if n == 0 then []
    else Report(marks, lines, n - 1) + (if marks[n - 1].Some? then [FindingFor(marks, lines, n - 1)] else [])
  }

  ghost predicate Increasing(out: seq<Finding>) {
    forall i, j :: 0 <= i < j < |out| ==> out[i].line < out[j].line
  }

  lemma {:induction false} ReportIsRight(marks: Marks, lines: seq<string>, n: nat)
    requires n <= |marks| == |lines|
    ensures Increasing(Report(marks, lines, n))
    ensures forall f :: f in Report(marks, lines, n) <==> Agrees(f, marks, lines) && f.line <= n
  {
    if n > 0 {
      ReportIsRight(marks, lines, n - 1);
      ReportGrows(Report(marks, lines, n - 1), marks, lines, n);
    }
  }

  lemma ReportGrows(r: seq<Finding>, marks: Marks, lines: seq<string>, n: nat)
    requires 0 < n <= |marks| == |lines|
    requires Increasing(r) && forall f :: f in r <==> Agrees(f, marks, lines) && f.line <= n - 1
    ensures var r' := r + (if marks[n - 1].Some? then [FindingFor(marks, lines, n - 1)] else []);
      Increasing(r') && forall f :: f in r' <==> Agrees(f, marks, lines) && f.line <= n
  {
    var r' := r + (if marks[n - 1].Some? then [FindingFor(marks, lines, n - 1)] else []);
    forall i | 0 <= i < |r| ensures r[i].line < n { assert r[i] in r; }
    forall f ensures f in r' <==> Agrees(f, marks, lines) && f.line <= n {
      if Agrees(f, marks, lines) && f.line == n { assert f == FindingFor(marks, lines, n - 1); }
    }
  }

  /** A marked line is reported, and only such a line. */
  lemma MarkedIffReported(marks: Marks, lines: seq<string>, k: nat)
    requires k < |marks| == |lines|
    ensures marks[k].Some? <==> exists f :: f in Report(marks, lines, |lines|) && f.line == k + 1
  {
    ReportIsRight(marks, lines, |lines|);
    if marks[k].Some? { assert Agrees(FindingFor(marks, lines, k), marks, lines); }
    if f :| f in Report(marks, lines, |lines|) && f.line == k + 1 { assert Agrees(f, marks, lines); }
  }

  /** `out.sort((a, b) => a.line - b.line)`: stable insertion. */
  function Insert(f: Finding, s: seq<Finding>): (r: seq<Finding>)
    ensures forall g :: g in r <==> g == f || g in s
  {
    if s == [] then [f] else if f.line < s[0].line then [f] + s else [s[0]] + Insert(f, s[1..])
  }

  function SortByLine(s: seq<Finding>): (r: seq<Finding>)
    ensures forall g :: g in r <==> g in s
  {
    if s == [] then []
    else
      var n := |s| - 1;
      assert s == s[..n] + [s[n]];
      Insert(s[n], SortByLine(s[..n]))
  }

  lemma {:induction false} InsertKeepsOrder(f: Finding, s: seq<Finding>)
    requires Increasing(s) && forall g :: g in s ==> g.line != f.line
    ensures Increasing(Insert(f, s))
    decreases |s|
  {
    if s != [] && !(f.line < s[0].line) {
      forall g | g in s[1..] ensures g in s && s[0].line < g.line {}
      InsertKeepsOrder(f, s[1..]);
      var t := Insert(f, s[1..]);
      forall i | 0 <= i < |t| ensures s[0].line < t[i].line { assert t[i] in t; }
    }
  }

  lemma {:induction false} SortOrders(s: seq<Finding>)
    requires forall i, j :: 0 <= i < j < |s| ==> s[i].line != s[j].line
    ensures Increasing(SortByLine(s))
    decreases |s|
  {
    if s != [] {
      var n := |s| - 1;
      SortOrders(s[..n]);
      InsertKeepsOrder(s[n], SortByLine(s[..n]));
    }
  }

  /** Two lists in order with the same findings are the same list. */
  lemma {:induction false} OrderedIsUnique(s: seq<Finding>, t: seq<Finding>)
    requires Increasing(s) && Increasing(t) && forall f :: f in s <==> f in t
    ensures s == t
    decreases |s|
  {
    assert s != [] ==> s[0] in t;
    assert t != [] ==> t[0] in s;
    if s != [] {
      assert s[0] == t[0];
      forall f ensures f in s[1..] <==> f in t[1..] {
        assert f in s[1..] <==> f in s && f.line != s[0].line;
        assert f in t[1..] <==> f in t && f.line != t[0].line;
      }
      OrderedIsUnique(s[1..], t[1..]);
    }
  }

  lemma SortedIsReport(out: seq<Finding>, marks: Marks, lines: seq<string>)
    requires Shows(out, marks, lines)
    ensures SortByLine(out) == Report(marks, lines, |lines|)
  {
    SortOrders(out);
    ReportIsRight(marks, lines, |lines|);
    forall f ensures f in SortByLine(out) <==> f in Report(marks, lines, |lines|) {
      if Agrees(f, marks, lines) { assert f == FindingFor(marks, lines, f.line - 1); }
    }
    OrderedIsUnique(SortByLine(out), Report(marks, lines, |lines|));
  }

  // ----- the whole scan -----

  function ImportLines(lines: seq<string>): seq<string> {
    seq(|lines|, k requires 0 <= k < |lines| => ImportLine(lines, k))
  }

  function StartsOf(parts: seq<string>): (starts: seq<nat>)
    ensures |starts| == |parts| && forall i :: 0 <= i < |parts| ==> starts[i] == |Joined(parts, i)|
  {
    seq(|parts|, i requires 0 <= i < |parts| => |Joined(parts, i)|)
  }

  /** Why line `k` is reported: by itself, or because an import pattern's match starts there. */
  function Blame(rules: Rules, lines: seq<string>, k: nat): Option<string>
    requires k < |lines|
  {
    var parts := ImportLines(lines);
    match Verdict(rules, ImportLine(lines, k))
    case Some(reason) => Some(reason)
    case None =>
      assert Joined(parts, 0) == "";
      Crossing(StartsOf(parts), Joined(parts, |parts|), rules.imports, k)
  }

  function Blames(rules: Rules, lines: seq<string>): (marks: Marks)
    ensures |marks| == |lines|
  {
    seq(|lines|, k requires 0 <= k < |lines| => Blame(rules, lines, k))
  }

  /** Three passes, a set of lines and a sort come to one finding for each line to blame, by line. */
  method FindForbiddenRemoteExecCalls(rules: Rules, source: string) returns (out: seq<Finding>)
    ensures out == Report(Blames(rules, Lines(source)), Lines(source), |Lines(source)|)
  {
    var lines := Lines(source);
    var importLines, found := ScanLines(rules, lines);
    assert importLines[..] == ImportLines(lines);
    var starts, joined := Offsets(importLines);
    out := Rescan(rules, lines, importLines[..], starts, joined, found, LineMarks(rules, lines, |lines|));
    ghost var marks := MarkAll(LineMarks(rules, lines, |lines|), starts, joined, rules.imports);
    assert starts == StartsOf(ImportLines(lines));
    MarksAreBlames(rules, lines);
    SortedIsReport(out, marks, lines);
    out := SortByLine(out);
  }

  lemma MarksAreBlames(rules: Rules, lines: seq<string>)
    requires lines != []
    ensures var parts := ImportLines(lines);
      |parts| == |lines| && StartsOf(parts)[0] == 0
      && MarkAll(LineMarks(rules, lines, |lines|), StartsOf(parts), Joined(parts, |parts|), rules.imports) ==
          Blames(rules, lines)
  {
    var parts := ImportLines(lines);
    assert |Joined(parts, 0)| == 0;
    forall k | 0 <= k < |lines|
      ensures MarkAll(LineMarks(rules, lines, |lines|), StartsOf(parts), Joined(parts, |parts|), rules.imports)[k]
           == Blames(rules, lines)[k]
    {
      MarkAllAt(LineMarks(rules, lines, |lines|), StartsOf(parts), Joined(parts, |parts|), rules.imports, k);
    }
  }

  // ----- what the report promises -----

  lemma ReportedOnce(rules: Rules, lines: seq<string>)
    ensures Increasing(Report(Blames(rules, lines), lines, |lines|))
    ensures forall k: nat :: k < |lines| ==>
      (Blame(rules, lines, k).Some? <==>
          exists f :: f in Report(Blames(rules, lines), lines, |lines|) && f.line == k + 1)
  {
    hide Blame, Report;
    var marks := Blames(rules, lines);
    ReportIsRight(marks, lines, |lines|);
    forall k: nat | k < |lines|
      ensures Blame(rules, lines, k).Some? <==> exists f :: f in Report(marks, lines, |lines|) && f.line == k + 1
    {
      MarkedIffReported(marks, lines, k);
    }
  }

  lemma {:induction false} CrossingFound(starts: seq<nat>, joined: string, ps: seq<Pattern>, p: Pattern, k: nat)
    requires starts != [] && starts[0] == 0 && p in ps && Hit(starts, Hits(p, joined, 0), k)
    ensures Crossing(starts, joined, ps, k).Some?
    decreases |ps|
  {
    if p != ps[0] { CrossingFound(starts, joined, ps[1..], p, k); }
  }

  /** If an import pattern matches anywhere in the joined text, the line of its leftmost match is reported. */
  lemma LeftmostMatchIsReported(rules: Rules, lines: seq<string>, p: Pattern, i: nat)
    requires lines != [] && p in rules.imports
    requires var parts := ImportLines(lines);
      i <= |Joined(parts, |parts|)| && MatchAt(p, Joined(parts, |parts|), i).Some?
    ensures var parts := ImportLines(lines);
      var first := Exec(p, Joined(parts, |parts|), 0);
      && first.Some? && first.value <= i && StartsOf(parts)[0] == 0
      && Blame(rules, lines, LineOf(StartsOf(parts), first.value)).Some?
  {
    var parts := ImportLines(lines);
    var starts, joined := StartsOf(parts), Joined(parts, |parts|);
    assert |Joined(parts, 0)| == 0;
    var hits := Hits(p, joined, 0);
    var k := LineOf(starts, hits[0]);
    assert Hit(starts, hits, k);
    CrossingFound(starts, joined, rules.imports, p, k);
  }
}