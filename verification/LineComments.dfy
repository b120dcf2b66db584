/**
 * When the comment stripping of scripts/verify-no-remote-exec.ts (lines 198-217) takes out exactly
 * the comments: a reference that reads a source from left to right, carrying an open literal or
 * block comment from line to line, and the exact condition on the lines for the scanner, which
 * carries only a block comment and looks for its last mark in a line, to agree.
 */
module LineComments {
  import opened Common
  import opened Text
  import opened RemoteExec

  // ----- the reference -----

  /** Where a line starts, or a text: in code, in a block comment, or inside of a literal. */
  datatype Mode = Code | InComment | InLiteral(quote: char)

  /** A comment opens at `k`: outside of literals, the slash not escaped. */
  predicate OpenerAt(s: string, open: Option<char>, k: nat) {
    && k + 1 < |s| && s[k] == '/' && (s[k + 1] == '/' || s[k + 1] == '*')
    && StateFrom(s, open, k) == Quoting(None, false)
  }

  /** The first place from `k` on where a comment opens, or the length. */
  function Opener(s: string, open: Option<char>, k: nat): (r: nat)
    requires k <= |s|
    ensures k <= r <= |s|
    ensures r < |s| ==> OpenerAt(s, open, r)
    ensures forall i: nat :: k <= i < r ==> !OpenerAt(s, open, i)
    decreases |s| - k
  {
    if k == |s| || OpenerAt(s, open, k) then k else Opener(s, open, k + 1)
  }

  function FirstOpener(s: string, open: Option<char>): (r: nat)
    ensures r <= |s|
  {
    Opener(s, open, 0)
  }

  /** The first comment of the text is a block comment. */
  predicate BlockFirst(s: string, open: Option<char>) {
    var k := FirstOpener(s, open);
    k < |s| && s[k + 1] == '*'
  }

  /** The text ends with a backslash that escapes the line end. */
  predicate Continued(s: string, open: Option<char>) {
    s != "" && s[|s| - 1] == '\\' && !StateFrom(s, open, |s| - 1).escaped
  }

  /** Where the next line starts if no comment opens: a template goes on, a quoted literal only when continued. */
  function NextMode(s: string, open: Option<char>): Mode {
    var q := StateFrom(s, open, |s|).open;
    if q.Some? && (q.value == '`' || Continued(s, open)) then InLiteral(q.value) else Code
  }

  /** The code of a text that starts outside of comments, a block comment standing for a space. */
  function CodeFrom(s: string, open: Option<char>): (string, Mode)
    decreases |s|
  {
    var k := FirstOpener(s, open);
    if k == |s| then (s, NextMode(s, open))
    else if !BlockFirst(s, open) then (s[..k], Code)
    else
      match Find(s[k + 2..], "*/")
      case None => (s[..k], InComment)
      case Some(n) => var (code, mode) := CodeFrom(s[k + 2..][n + 2..], None); (s[..k] + " " + code, mode)
  }

  /** The code of a line, and where the next line starts. */
  function CodeOfLine(line: string, mode: Mode): (string, Mode) {
    match mode
    case Code => CodeFrom(line, None)
    case InLiteral(quote) => CodeFrom(line, Some(quote))
    case InComment =>
      match Find(line, "*/") case Some(end) => CodeFrom(line[end + 2..], None) case None => ("", InComment)
  }

  /** Where line `i` of a source starts. */
  function ModeAt(lines: seq<string>, i: nat): Mode
    requires i <= |lines|
  {
    if i == 0 then Code else CodeOfLine(lines[i - 1], ModeAt(lines, i - 1)).1
  }

  // ----- the condition -----

  /** The scanner takes the last block opener of the text for open. */
  predicate Cuts(s: string) {
    var (open, close) := (LastOf(s, "/*"), LastOf(s, "*/"));
    open.Some? && (close.None? || close.value < open.value)
  }

  /** No two slashes count as a line comment for a reader who starts outside of literals. */
  predicate NoLineComment(s: string, k: nat) { forall i: nat :: i < k ==> !CommentAt(s, i) }

  /**
   * If the last block opener is behind every closer, it is the first comment, and nothing in front
   * of it looks like a line comment from outside of literals. If it is not, the first comment is no
   * block comment, and from outside of literals it is the first to look like a line comment.
   */
  predicate Clear(s: string, open: Option<char>) {
    var k := FirstOpener(s, open);
    if Cuts(s) then Some(k) == LastOf(s, "/*") && NoLineComment(s[..k], k)
    else !BlockFirst(s, open) && NoLineComment(s, k) && (k < |s| ==> CommentAt(s, k))
  }

  predicate ClearLine(line: string, mode: Mode) {
    match mode
    case Code => Clear(line, None)
    case InLiteral(quote) => Clear(line, Some(quote))
    case InComment => match Find(line, "*/") case Some(end) => Clear(line[end + 2..], None) case None => true
  }

  // ----- the scanner agrees exactly under the condition -----

  /** The scanner keeps the same text, and a block comment is open behind it for both. */
  predicate Same(scanned: (string, bool), read: (string, Mode)) {
    scanned.0 == read.0 && scanned.1 == read.1.InComment?
  }

  /** The scanner cuts at the last block opener, or not, and then at the first line comment. */
  function Kept(s: string): nat { if Cuts(s) then LastOf(s, "/*").value else |s| }

  lemma StripOpenIs(s: string)
    ensures Kept(s) <= |s| && StripOpen(s) == (UpToComment(s[..Kept(s)]), Cuts(s)) && StripOpen(s).0 <= s
  {
    assert s[..|s|] == s;
  }

  lemma UpToCommentIs(s: string, k: nat)
    requires k <= |s|
    ensures UpToComment(s) <= s
    ensures |UpToComment(s)| == k <==> NoLineComment(s, k) && (k < |s| ==> CommentAt(s, k))
  {
    var r := CommentStart(s, 0);
    if r < k { assert CommentAt(s, r); }
  }

  lemma ClosedBlockIsCode(s: string, open: Option<char>)
    requires BlockFirst(s, open) && Find(s[FirstOpener(s, open) + 2..], "*/").Some?
    ensures var k := FirstOpener(s, open); k < |CodeFrom(s, open).0| && CodeFrom(s, open).0[k] == ' '
    ensures !Clear(s, open)
  {
    var k := FirstOpener(s, open);
    hide Opener, Find, StateFrom;
    FirstIsAt(s[k + 2..], "*/");
    assert At(s, "*/", k + 2 + Find(s[k + 2..], "*/").value);
  }

  /** A block comment that is closed again: the scanner keeps its slash or has cut in front of it. */
  lemma ClosedBlock(s: string, open: Option<char>)
    requires BlockFirst(s, open) && Find(s[FirstOpener(s, open) + 2..], "*/").Some?
    ensures !Same(StripOpen(s), CodeFrom(s, open)) && !Clear(s, open)
  {
    hide CodeFrom, StripOpen, Find, StateFrom, Clear;
    StripOpenIs(s);
    ClosedBlockIsCode(s, open);
    var out, k := StripOpen(s).0, FirstOpener(s, open);
    assert k < |out| ==> out[k] == s[k] == '/';
  }

  /** A block comment that stays open. */
  lemma OpenBlock(s: string, open: Option<char>)
    requires BlockFirst(s, open) && Find(s[FirstOpener(s, open) + 2..], "*/").None?
    ensures Same(StripOpen(s), CodeFrom(s, open)) <==> Clear(s, open)
  {
    var k, n := FirstOpener(s, open), Kept(s);
    assert CodeFrom(s, open) == (s[..k], InComment);
    hide CodeFrom, StripOpen, UpToComment, Find, StateFrom;
    StripOpenIs(s);
    assert At(s, "/*", k);
    if Cuts(s) {
      UpToCommentIs(s[..n], k);
      assert k < n ==> !CommentAt(s[..n], k);
    }
  }

  /** The first comment is a line comment, or there is none. */
  lemma NoBlockFirst(s: string, open: Option<char>)
    requires !BlockFirst(s, open)
    ensures Same(StripOpen(s), CodeFrom(s, open)) <==> Clear(s, open)
  {
    var k := FirstOpener(s, open);
    assert s[..|s|] == s;
    assert CodeFrom(s, open).0 == s[..k] && !CodeFrom(s, open).1.InComment?;
    assert Cuts(s) && Some(k) == LastOf(s, "/*") ==> At(s, "/*", k) && BlockFirst(s, open);
    hide CodeFrom, StripOpen, UpToComment, StateFrom;
    StripOpenIs(s);
    UpToCommentIs(s, k);
  }

  /** For a text that starts outside of comments. */
  lemma StripOpenIff(s: string, open: Option<char>)
    ensures Same(StripOpen(s), CodeFrom(s, open)) <==> Clear(s, open)
  {
    hide StripOpen, CodeFrom, Clear;
    if !BlockFirst(s, open) {
      NoBlockFirst(s, open);
    } else if Find(s[FirstOpener(s, open) + 2..], "*/").None? {
      OpenBlock(s, open);
    } else {
      ClosedBlock(s, open);
    }
  }

  /** For a line, wherever it starts. */
  lemma StripLineIff(line: string, mode: Mode)
    ensures Same(StripLine(line, mode.InComment?), CodeOfLine(line, mode)) <==> ClearLine(line, mode)
  {
    hide StripOpen, CodeFrom, Clear;
    match mode
    case Code => StripOpenIff(line, None);
    case InLiteral(quote) => StripOpenIff(line, Some(quote));
    case InComment => if Find(line, "*/").Some? { StripOpenIff(line[Find(line, "*/").value + 2..], None); }
  }

  /** Outside of literals the condition is about block comments only. */
  lemma ClearOutside(s: string)
    ensures Clear(s, None) <==>
      if Cuts(s) then Some(FirstOpener(s, None)) == LastOf(s, "/*") else !BlockFirst(s, None)
  {
    var k := FirstOpener(s, None);
    forall i: nat | i < k ensures !CommentAt(s, i) && !CommentAt(s[..k], i) {
      assert !OpenerAt(s, None, i);
      if i + 1 < k { StateOfPrefix(s, k, i); }
    }
  }

  lemma {:induction false} StateOfPrefix(s: string, n: nat, k: nat)
    requires k < n <= |s|
    ensures StateAt(s[..n], k) == StateAt(s, k)
  {
    if k > 0 { StateOfPrefix(s, n, k - 1); }
  }

  // ----- whole sources -----

  /** The scanner and the reference see line `i` alike. */
  predicate SameLine(lines: seq<string>, i: nat)
    requires i < |lines|
  {
    Same(StripLine(lines[i], InBlock(lines, i)), CodeOfLine(lines[i], ModeAt(lines, i)))
  }

  predicate ClearAt(lines: seq<string>, i: nat)
    requires i < |lines|
  {
    ClearLine(lines[i], ModeAt(lines, i))
  }

  /** As long as lines are clear, the scanner knows whether a block comment is open. */
  lemma {:induction false} SameBlocks(lines: seq<string>, i: nat)
    requires i <= |lines| && forall k :: 0 <= k < i ==> ClearAt(lines, k)
    ensures InBlock(lines, i) == ModeAt(lines, i).InComment?
  {
    hide StripLine, CodeOfLine, ClearLine;
    if i > 0 {
      SameBlocks(lines, i - 1);
      assert ClearAt(lines, i - 1);
      StripLineIff(lines[i - 1], ModeAt(lines, i - 1));
    }
  }

  /** For a source: the scanner takes out exactly the comments if and only if every line is clear. */
  lemma SourceIff(lines: seq<string>)
    ensures (forall i :: 0 <= i < |lines| ==> SameLine(lines, i))
       <==> (forall i :: 0 <= i < |lines| ==> ClearAt(lines, i))
  {
    hide StripLine, CodeOfLine, ClearLine;
    if forall i :: 0 <= i < |lines| ==> SameLine(lines, i) {
      forall i | 0 <= i < |lines| ensures ClearAt(lines, i) {
        assert SameLine(lines, i) && (i > 0 ==> SameLine(lines, i - 1));
        StripLineIff(lines[i], ModeAt(lines, i));
      }
    }
    if forall i :: 0 <= i < |lines| ==> ClearAt(lines, i) {
      forall i | 0 <= i < |lines| ensures SameLine(lines, i) {
        SameBlocks(lines, i);
        assert ClearAt(lines, i);
        StripLineIff(lines[i], ModeAt(lines, i));
      }
    }
  }

  // ----- lines that are not clear -----

  lemma {:induction false} SameQuote(s: string, open: Option<char>, k: nat)
    requires k <= |s|
    requires forall i :: 0 <= i < k ==> s[i] != '\\' && (if open.None? then !IsQuote(s[i]) else s[i] != open.value)
    ensures StateFrom(s, open, k) == Quoting(open, false)
  {
    if k > 0 { SameQuote(s, open, k - 1); }
  }

  lemma AllCode(s: string, open: Option<char>)
    requires FirstOpener(s, open) == |s|
    ensures CodeFrom(s, open) == (s, NextMode(s, open))
  {
  }

  lemma KeptUpTo(s: string, k: nat)
    requires LastOf(s, "/*") == Some(k) && LastOf(s, "*/").None? && NoLineComment(s[..k], k)
    ensures StripOpen(s) == (s[..k], true)
  {
    hide StripOpen, UpToComment;
    StripOpenIs(s);
    UpToCommentIs(s[..k], k);
    var out := UpToComment(s[..k]);
    assert Kept(s) == k && |out| == k && out == s[..k][..k] == s[..k];
  }

  lemma KeptWhole(s: string, k: nat)
    requires k <= |s| && !Cuts(s) && NoLineComment(s, k) && (k < |s| ==> CommentAt(s, k))
    ensures StripOpen(s) == (s[..k], false)
  {
    hide StripOpen, UpToComment;
    StripOpenIs(s);
    assert s[..|s|] == s;
    UpToCommentIs(s, k);
    assert UpToComment(s) == s[..k];
  }

  lemma StartsAt(s: string, d: string, k: nat)
    requires At(s, d, k) && d != ""
    ensures s[k] == d[0]
  {
    assert s[k..k + |d|][0] == s[k];
  }

  /** A mark whose first character stands at one place only. */
  lemma OnlyAt(s: string, d: string, k: nat)
    requires d != "" && At(s, d, k) && forall i :: 0 <= i < |s| && s[i] == d[0] ==> i <= k
    ensures LastOf(s, d) == Some(k)
  {
    if LastOf(s, d) != Some(k) { StartsAt(s, d, LastOf(s, d).value); }
  }

  lemma Nowhere(s: string, d: string)
    requires d != "" && forall i :: 0 <= i < |s| && s[i] == d[0] ==> !At(s, d, i)
    ensures LastOf(s, d).None?
  {
    if LastOf(s, d).Some? { StartsAt(s, d, LastOf(s, d).value); }
  }

  /**
   * A block opener inside a literal: the line has no comment, yet what follows the opener is dropped
   * and a block comment taken for open.
   */
  lemma LiteralOpensBlock(a: string, b: string)
    requires forall c :: c in a ==> c != '/' && c != '\\' && !IsQuote(c)
    requires '/' !in b
    ensures var s := a + "\"/*" + b;
      CodeFrom(s, None).0 == s && StripOpen(s) == (a + "\"", true)
  {
    hide LastOf, StripOpen, CodeFrom, Opener, UpToComment;
    var s, k := a + "\"/*" + b, |a| + 1;
    assert forall i :: 0 <= i < |a| ==> s[i] == a[i] && a[i] in a;
    SameQuote(s, None, |a|);
    OnlySlash(a, b);
    assert FirstOpener(s, None) == |s|;
    OnlyAt(s, "/*", k);
    Nowhere(s, "*/");
    assert s[..k] == a + "\"";
    AllCode(s, None);
    KeptUpTo(s, k);
  }

  lemma OnlySlash(a: string, b: string)
    requires '/' !in a && '/' !in b && StateAt(a + "\"/*" + b, |a|) == Quoting(None, false)
    ensures var s, k := a + "\"/*" + b, |a| + 1;
      At(s, "/*", k) && !OpenerAt(s, None, k) && forall i :: 0 <= i < |s| && s[i] == '/' ==> i == k
    ensures forall i: nat :: !At(a + "\"/*" + b, "*/", i)
  {
    var s, k := a + "\"/*" + b, |a| + 1;
    assert s[|a|] == '"' && s[k] == '/' && s[k + 1] == '*';
    assert StateAt(s, k) == Quoting(Some('"'), false);
    forall i: nat ensures !At(s, "*/", i) {
      assert i + 2 <= |s| ==> s[i..i + 2] == [s[i], s[i + 1]];
    }
  }

  /**
   * A line that starts in a template and begins with two slashes: it is all literal text, and the
   * scanner keeps nothing of it.
   */
  lemma TemplateLinesAreLost(a: string, b: string)
    requires forall c :: c in a ==> c != '/' && c != '\\' && !IsQuote(c)
    requires '/' !in b && '`' !in b && '\\' !in b && !Starts(b, "*")
    ensures var lines := [a + "`", "//" + b, "`;"];
      && ModeAt(lines, 1) == InLiteral('`') && CodeOfLine(lines[1], ModeAt(lines, 1)).0 == lines[1]
      && !InBlock(lines, 1) && StripLine(lines[1], false) == ("", false) && !ClearAt(lines, 1)
  {
    var lines := [a + "`", "//" + b, "`;"];
    TemplateStarts(a);
    assert ModeAt(lines, 0) == Code && !InBlock(lines, 0);
    assert ModeAt(lines, 1) == CodeOfLine(lines[0], Code).1 && InBlock(lines, 1) == StripLine(lines[0], false).1;
    TextInTemplate(b);
    assert lines[1] == "//" + b;
    StripLineIff(lines[1], InLiteral('`'));
  }

  lemma TemplateStarts(a: string)
    requires forall c :: c in a ==> c != '/' && c != '\\' && !IsQuote(c)
    ensures var s := a + "`"; CodeFrom(s, None) == (s, InLiteral('`')) && !StripOpen(s).1
  {
    var s := a + "`";
    assert forall i :: 0 <= i < |a| ==> s[i] == a[i] && a[i] in a;
    SameQuote(s, None, |a|);
    assert StateFrom(s, None, |s|) == Quoting(Some('`'), false);
    assert FirstOpener(s, None) == |s|;
    Nowhere(s, "/*");
  }

  lemma TextInTemplate(b: string)
    requires '/' !in b && '`' !in b && '\\' !in b && !Starts(b, "*")
    ensures var s := "//" + b; CodeFrom(s, Some('`')).0 == s && StripOpen(s) == ("", false)
  {
    var s := "//" + b;
    forall k: nat | k <= |s| ensures StateFrom(s, Some('`'), k) == Quoting(Some('`'), false) {
      SameQuote(s, Some('`'), k);
    }
    assert FirstOpener(s, Some('`')) == |s|;
    AllCode(s, Some('`'));
    assert s[0..2] == "//" && (b != "" ==> s[1..3] == ['/', b[0]] && b[..1] == [b[0]]);
    assert forall i :: 2 <= i < |s| ==> s[i] == b[i - 2];
    Nowhere(s, "/*");
    KeptWhole(s, 0);
  }

  /** A block comment that opens outside of literals and is closed in its line is kept as far as its closing star. */
  lemma ClosedBlockStays(s: string)
    requires BlockFirst(s, None) && Find(s[FirstOpener(s, None) + 2..], "*/").Some?
    ensures var k := FirstOpener(s, None);
      var close := k + 2 + Find(s[k + 2..], "*/").value;
      (forall i :: k <= i < close ==> !CommentAt(s, i)) ==> s[..close + 1] <= StripOpen(s).0
  {
    var k := FirstOpener(s, None);
    var close := k + 2 + Find(s[k + 2..], "*/").value;
    hide StripOpen, Find, Opener, UpToComment, StateFrom;
    FirstIsAt(s[k + 2..], "*/");
    assert At(s, "*/", close);
    StripOpenIs(s);
    var n := Kept(s);
    if forall i :: k <= i < close ==> !CommentAt(s, i) { FirstCommentOfPrefix(s, n, close); }
  }

  lemma FirstCommentOfPrefix(s: string, n: nat, close: nat)
    requires close < n <= |s| && At(s, "*/", close) && FirstOpener(s, None) <= close
    requires forall i :: FirstOpener(s, None) <= i < close ==> !CommentAt(s, i)
    ensures close < |UpToComment(s[..n])|
  {
    var r := CommentStart(s[..n], 0);
    if r < n { StateOfPrefix(s, n, r); }
    assert r < n ==> CommentAt(s, r) && OpenerAt(s, None, r);
  }

  /** A block comment inside a line stays in the code. */
  lemma CommentInLineStays()
    ensures var s := "a /* x */ b"; CodeFrom(s, None) == ("a   b", Code) && StripOpen(s) == (s, false)
  {
    var s := "a /* x */ b";
    hide StripOpen, CodeFrom;
    SameQuote(s, None, |s|);
    SameQuote(s, None, 2);
    assert OpenerAt(s, None, 2) && FirstOpener(s, None) == 2;
    CodeOfTail(s);
    assert At(s, "*/", 7) && s[8..10] == "/ ";
    if LastOf(s, "/*").Some? { StartsAt(s, "/*", LastOf(s, "/*").value); }
    KeptWhole(s, |s|);
    assert s[..|s|] == s;
  }

  lemma CodeOfTail(s: string)
    requires s == "a /* x */ b" && FirstOpener(s, None) == 2
    ensures CodeFrom(s, None) == ("a   b", Code)
  {
    assert s[4..] == " x " + "*/" + " b";
    FindPast(" x ", "*/", " b");
    assert BlockFirst(s, None) && Find(s[4..], "*/") == Some(3);
    var rest := s[4..][5..];
    assert rest == " b" && s[..2] == "a ";
    SameQuote(rest, None, 2);
    assert FirstOpener(rest, None) == 2;
    AllCode(rest, None);
    assert CodeFrom(rest, None) == (" b", Code);
    assert s[..2] + " " + " b" == "a   b";
  }
}
