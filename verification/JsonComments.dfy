/**
 * `stripJsonComments` of scripts/verify-no-agent-config-autorun.ts.
 *
 * The reference is a token grammar of JSONC text. `Lex` splits any text into tokens, the
 * well-formed token lists are exactly the ones it returns, and the stripper is shown to print
 * the tokens that are not comments.
 */
module JsonComments {
  import opened Common
  import opened Text

  datatype Token =
    | Plain(c: char)
    | Str(quote: char, body: string, closed: bool)
    | Line(text: string)
    | Block(text: string, closed: bool)

  predicate IsQuote(c: char) { c == '"' || c == '\'' }

  predicate IsComment(t: Token) { t.Line? || t.Block? }

  function TokenText(t: Token): string {
    match t
    case Plain(c) => [c]
    case Str(q, body, closed) => [q] + body + (if closed then [q] else "")
    case Line(text) => "//" + text
    case Block(text, closed) => "/*" + text + (if closed then "*/" else "")
  }

  function Print(ts: seq<Token>): string {
    if ts == [] then "" else TokenText(ts[0]) + Print(ts[1..])
  }

  /** The tokens that are not comments. */
  function Code(ts: seq<Token>): seq<Token> {
    if ts == [] then [] else (if IsComment(ts[0]) then [] else [ts[0]]) + Code(ts[1..])
  }

  // ----- the grammar -----

  predicate NoBlockEnd(text: string) {
    forall i :: 0 <= i < |text| - 1 ==> !(text[i] == '*' && text[i + 1] == '/')
  }

  predicate TokenOk(t: Token) {
    match t
    case Plain(c) => !IsQuote(c)
    case Str(q, body, closed) => IsQuote(q) && BodyOk(q, body, closed)
    case Line(text) => '\n' !in text
    case Block(text, _) => NoBlockEnd(text)
  }

  /**
   * Which token may follow which: after a bare `/` neither `/`, nor `*`, nor a comment; after a
   * line comment only a line break; after an unclosed string or block comment nothing.
   */
  predicate MayFollow(t: Token, next: Token) {
    match t
    case Plain(c) => c == '/' ==> !IsComment(next) && next != Plain('/') && next != Plain('*')
    case Str(_, _, closed) => closed
    case Line(_) => next == Plain('\n')
    case Block(_, closed) => closed
  }

  predicate WellFormed(ts: seq<Token>) {
    (forall i :: 0 <= i < |ts| ==> TokenOk(ts[i]))
    && (forall i :: 0 <= i < |ts| - 1 ==> MayFollow(ts[i], ts[i + 1]))
  }

  // ----- the lexer -----

  /** Length of the string body at the start of `s`, up to the closing quote or the end. */
  function BodyLength(q: char, s: string): (n: nat)
    ensures n <= |s|
  {
    if s == "" || s[0] == q then 0
    else if s[0] == '\\' then (if |s| == 1 then 1 else 2 + BodyLength(q, s[2..]))
    else 1 + BodyLength(q, s[1..])
  }

  /** Length up to the line break or the end. */
  function LineLength(s: string): (n: nat)
    ensures n <= |s|
  {
    if s == "" || s[0] == '\n' then 0 else 1 + LineLength(s[1..])
  }

  /** Length up to the block end or the end of the text. */
  function BlockLength(s: string): (n: nat)
    ensures n <= |s|
    ensures n < |s| ==> n + 1 < |s| && s[n] == '*' && s[n + 1] == '/'
  {
    if s == "" then 0
    else if |s| >= 2 && s[0] == '*' && s[1] == '/' then 0
    else 1 + BlockLength(s[1..])
  }

  /** The first token of a text, and how many characters it takes. */
  function FirstToken(s: string): (r: (Token, nat))
    requires s != ""
    ensures 1 <= r.1 <= |s|
  {
    if IsQuote(s[0]) then
      var n := BodyLength(s[0], s[1..]);
      var closed := 1 + n < |s|;
      (Str(s[0], s[1..1 + n], closed), 1 + n + (if closed then 1 else 0))
    else if |s| >= 2 && s[0] == '/' && s[1] == '/' then
      var n := LineLength(s[2..]);
      (Line(s[2..2 + n]), 2 + n)
    else if |s| >= 2 && s[0] == '/' && s[1] == '*' then
      var n := BlockLength(s[2..]);
      var closed := 2 + n < |s|;
      (Block(s[2..2 + n], closed), 2 + n + (if closed then 2 else 0))
    else (Plain(s[0]), 1)
  }

  function Lex(s: string): seq<Token>
    decreases |s|
  {
    if s == "" then []
    else
      var (t, n) := FirstToken(s);
      [t] + Lex(s[n..])
  }

  /** What the stripper is for: the text without its comments. */
  function Stripped(s: string): string {
    Print(Code(Lex(s)))
  }

  // ----- every text is the print of its tokens, and they are well formed -----

  lemma {:induction false} BodyLengthOk(q: char, s: string)
    requires IsQuote(q)
    ensures var n := BodyLength(q, s);
      BodyOk(q, s[..n], n < |s|) && (n < |s| ==> s[n] == q)
    decreases |s|
  {
    var n := BodyLength(q, s);
    if s == "" || s[0] == q {
    } else if s[0] == '\\' {
      if |s| > 1 {
        BodyLengthOk(q, s[2..]);
        assert s[..n][2..] == s[2..][..n - 2];
      }
    } else {
      BodyLengthOk(q, s[1..]);
      assert s[..n][1..] == s[1..][..n - 1];
    }
  }

  lemma {:induction false} LineLengthOk(s: string)
    ensures var n := LineLength(s); '\n' !in s[..n] && (n < |s| ==> s[n] == '\n')
  {
    if s != "" && s[0] != '\n' {
      LineLengthOk(s[1..]);
      var n := LineLength(s);
      assert s[..n] == [s[0]] + s[1..][..n - 1];
    }
  }

  lemma {:induction false} BlockLengthOk(s: string)
    ensures NoBlockEnd(s[..BlockLength(s)])
    ensures forall i :: 0 <= i < BlockLength(s) && i + 1 < |s| ==> !(s[i] == '*' && s[i + 1] == '/')
  {
    if s != "" && !(|s| >= 2 && s[0] == '*' && s[1] == '/') {
      BlockLengthOk(s[1..]);
      var n := BlockLength(s);
      forall i | 0 <= i < n && i + 1 < |s| ensures !(s[i] == '*' && s[i + 1] == '/') {
        if i > 0 { assert s[i] == s[1..][i - 1] && s[i + 1] == s[1..][i]; }
      }
    }
  }

  lemma FirstStringOk(s: string)
    requires s != "" && IsQuote(s[0])
    ensures FirstTokenFits(s)
  {
    hide BodyLength, BodyOk;
    var n := BodyLength(s[0], s[1..]);
    BodyLengthOk(s[0], s[1..]);
    assert s[1..][..n] == s[1..1 + n];
    if 1 + n < |s| {
      assert TokenText(FirstToken(s).0) == s[..2 + n];
    } else {
      assert TokenText(FirstToken(s).0) == s;
    }
  }

  lemma FirstLineOk(s: string)
    requires |s| >= 2 && s[0] == '/' && s[1] == '/'
    ensures FirstTokenFits(s)
  {
    hide LineLength;
    var n := LineLength(s[2..]);
    LineLengthOk(s[2..]);
    assert s[2..][..n] == s[2..2 + n];
    assert TokenText(FirstToken(s).0) == s[..2 + n];
  }

  lemma FirstBlockOk(s: string)
    requires |s| >= 2 && s[0] == '/' && s[1] == '*'
    ensures FirstTokenFits(s)
  {
    hide BlockLength, NoBlockEnd;
    var n := BlockLength(s[2..]);
    BlockLengthOk(s[2..]);
    assert s[2..][..n] == s[2..2 + n];
    Enclosed(s, 2, n);
    if 2 + n < |s| {
      assert s[2 + n..4 + n] == "*/";
      assert TokenText(FirstToken(s).0) == s[..4 + n];
    } else {
      assert TokenText(FirstToken(s).0) == s;
    }
  }

  /** A text with a piece of `n` characters at `k`, put together again. */
  lemma Enclosed(s: string, k: nat, n: nat)
    requires k + n <= |s|
    ensures s[..k] + s[k..k + n] == s[..k + n]
    ensures k + n + 2 <= |s| ==> s[..k] + s[k..k + n] + s[k + n..k + n + 2] == s[..k + n + 2]
  {
  }

  /** The first token is fine, prints as the start of the text, and may be followed by the next. */
  ghost predicate FirstTokenFits(s: string)
    requires s != ""
  {
    var (t, n) := FirstToken(s);
    && TokenOk(t) && TokenText(t) == s[..n]
    && (n < |s| ==> MayFollow(t, FirstToken(s[n..]).0))
  }

  lemma FirstTokenOk(s: string)
    requires s != ""
    ensures FirstTokenFits(s)
  {
    if IsQuote(s[0]) {
      FirstStringOk(s);
    } else if |s| >= 2 && s[0] == '/' && s[1] == '/' {
      FirstLineOk(s);
    } else if |s| >= 2 && s[0] == '/' && s[1] == '*' {
      FirstBlockOk(s);
    }
  }

  lemma ConsWellFormed(t: Token, ts: seq<Token>)
    requires TokenOk(t) && WellFormed(ts) && (ts != [] ==> MayFollow(t, ts[0]))
    ensures WellFormed([t] + ts)
  {
    forall i | 0 <= i < |[t] + ts| - 1 ensures MayFollow(([t] + ts)[i], ([t] + ts)[i + 1]) {
      if i > 0 { assert MayFollow(ts[i - 1], ts[i]); }
    }
  }

  lemma TailWellFormed(ts: seq<Token>)
    requires ts != [] && WellFormed(ts)
    ensures WellFormed(ts[1..])
  {
    forall i | 0 <= i < |ts[1..]| - 1 ensures MayFollow(ts[1..][i], ts[1..][i + 1]) {
      assert MayFollow(ts[i + 1], ts[i + 2]);
    }
  }

  lemma PrintCons(t: Token, ts: seq<Token>)
    ensures Print([t] + ts) == TokenText(t) + Print(ts)
    ensures Code([t] + ts) == (if IsComment(t) then [] else [t]) + Code(ts)
  {
    assert ([t] + ts)[1..] == ts;
  }

  lemma {:induction false} LexIsFaithful(s: string)
    ensures WellFormed(Lex(s)) && Print(Lex(s)) == s
    decreases |s|
  {
    hide FirstToken, FirstTokenFits, Lex, WellFormed, Print;
    if s == "" {
      LexNothing();
    } else {
      LexIsFaithful(s[FirstToken(s).1..]);
      FirstTokenOk(s);
      LexStep(s);
    }
  }

  lemma LexNothing()
    ensures Lex("") == [] && WellFormed([]) && Print([]) == ""
  {
  }

  lemma LexStep(s: string)
    requires s != "" && FirstTokenFits(s)
    requires var rest := s[FirstToken(s).1..]; WellFormed(Lex(rest)) && Print(Lex(rest)) == rest
    ensures WellFormed(Lex(s)) && Print(Lex(s)) == s
  {
    hide FirstToken, FirstTokenFits, TokenText, TokenOk, MayFollow, Lex, WellFormed, Print;
    var (t, n) := FirstToken(s);
    LexCons(s);
    ConsWellFormed(t, Lex(s[n..]));
    PrintCons(t, Lex(s[n..]));
    assert s[..n] + s[n..] == s;
  }

  lemma LexCons(s: string)
    requires s != "" && FirstTokenFits(s)
    ensures var (t, n) := FirstToken(s);
      && Lex(s) == [t] + Lex(s[n..]) && TokenOk(t) && TokenText(t) == s[..n]
      && (Lex(s[n..]) != [] ==> MayFollow(t, Lex(s[n..])[0]))
  {
    hide FirstToken, TokenText, TokenOk, MayFollow;
    LexStartsWith(s[FirstToken(s).1..]);
  }

  lemma LexStartsWith(s: string)
    ensures s == "" <==> Lex(s) == []
    ensures s != "" ==> Lex(s)[0] == FirstToken(s).0
  {
  }

  // ----- a well-formed token list is read back from its print -----

  lemma {:induction false} BodyRead(q: char, body: string, rest: string, closed: bool)
    requires q != '\\' && BodyOk(q, body, closed)
    requires (if closed then rest != "" && rest[0] == q else rest == "")
    ensures BodyLength(q, body + rest) == |body|
  {
    if body == "" {
      assert body + rest == rest;
    } else if body[0] == '\\' {
      if |body| > 1 {
        BodyRead(q, body[2..], rest, closed);
        assert (body + rest)[2..] == body[2..] + rest;
      } else {
        assert body + rest == body;
      }
    } else {
      BodyRead(q, body[1..], rest, closed);
      assert (body + rest)[1..] == body[1..] + rest;
    }
  }

  lemma {:induction false} LineRead(text: string, rest: string)
    requires '\n' !in text && (rest != "" ==> rest[0] == '\n')
    ensures LineLength(text + rest) == |text|
  {
    if text == "" {
      assert text + rest == rest;
    } else {
      LineRead(text[1..], rest);
      assert (text + rest)[1..] == text[1..] + rest;
    }
  }

  lemma {:induction false} BlockRead(text: string, rest: string)
    requires NoBlockEnd(text) && (rest == "" || (|rest| >= 2 && rest[0] == '*' && rest[1] == '/'))
    ensures BlockLength(text + rest) == |text|
  {
    if text == "" {
      assert text + rest == rest;
    } else {
      forall i | 0 <= i < |text[1..]| - 1 ensures !(text[1..][i] == '*' && text[1..][i + 1] == '/') {
        assert text[1..][i] == text[i + 1];
      }
      BlockRead(text[1..], rest);
      assert (text + rest)[1..] == text[1..] + rest;
      if |text| == 1 && rest != "" { assert (text + rest)[1] == '*'; }
    }
  }

  /** The first character a non-empty list prints. */
  lemma FirstChar(ts: seq<Token>)
    requires ts != []
    ensures Print(ts) != ""
    ensures Print(ts)[0] == match ts[0] { case Plain(c) => c case Str(q, _, _) => q case _ => '/' }
  {
  }

  lemma StrRead(q: char, body: string, closed: bool, rest: string)
    requires TokenOk(Str(q, body, closed)) && (!closed ==> rest == "")
    ensures FirstToken(TokenText(Str(q, body, closed)) + rest) ==
        (Str(q, body, closed), |TokenText(Str(q, body, closed))|)
  {
    hide BodyLength, BodyOk;
    var after := (if closed then [q] else "") + rest;
    var s := TokenText(Str(q, body, closed)) + rest;
    assert s[1..] == body + after;
    BodyRead(q, body, after, closed);
    assert s[1..1 + |body|] == body;
  }

  lemma LineTokenRead(text: string, rest: string)
    requires TokenOk(Line(text)) && (rest != "" ==> rest[0] == '\n')
    ensures FirstToken(TokenText(Line(text)) + rest) == (Line(text), |TokenText(Line(text))|)
  {
    hide LineLength;
    var s := TokenText(Line(text)) + rest;
    assert s[2..] == text + rest;
    LineRead(text, rest);
    assert s[2..2 + |text|] == text;
  }

  lemma BlockTokenRead(text: string, closed: bool, rest: string)
    requires TokenOk(Block(text, closed)) && (!closed ==> rest == "")
    ensures FirstToken(TokenText(Block(text, closed)) + rest) == (Block(text, closed), |TokenText(Block(text, closed))|)
  {
    hide BlockLength, NoBlockEnd;
    var after := (if closed then "*/" else "") + rest;
    var s := TokenText(Block(text, closed)) + rest;
    assert s[2..] == text + after;
    BlockRead(text, after);
    assert s[2..2 + |text|] == text;
  }

  lemma TokenRead(ts: seq<Token>)
    requires ts != [] && WellFormed(ts)
    ensures Print(ts) != "" && FirstToken(Print(ts)) == (ts[0], |TokenText(ts[0])|)
  {
    var rest := Print(ts[1..]);
    if |ts| > 1 {
      FirstChar(ts[1..]);
      assert MayFollow(ts[0], ts[1]);
    }
    match ts[0]
    case Plain(c) =>
    case Str(q, body, closed) => StrRead(q, body, closed, rest);
    case Line(text) => LineTokenRead(text, rest);
    case Block(text, closed) => BlockTokenRead(text, closed, rest);
  }

  /** Tokens and texts correspond one to one. */
  lemma {:induction false} LexUndoesPrint(ts: seq<Token>)
    requires WellFormed(ts)
    ensures Lex(Print(ts)) == ts
  {
    if ts != [] {
      TokenRead(ts);
      TailWellFormed(ts);
      LexUndoesPrint(ts[1..]);
      assert Print(ts)[|TokenText(ts[0])|..] == Print(ts[1..]);
    }
  }

  // ----- removing comments glues nothing together -----

  lemma {:induction false} CodeIsWellFormed(ts: seq<Token>)
    requires WellFormed(ts)
    ensures WellFormed(Code(ts))
    ensures ts != [] && !IsComment(ts[0]) ==> Code(ts) != [] && Code(ts)[0] == ts[0]
    ensures forall t :: t in Code(ts) ==> !IsComment(t)
  {
    if ts != [] {
      var code := Code(ts[1..]);
      TailWellFormed(ts);
      CodeIsWellFormed(ts[1..]);
      if !IsComment(ts[0]) {
        if code != [] {
          assert MayFollow(ts[0], ts[1]);
          FollowSkipsComments(ts[0], ts[1], code[0]);
        }
        ConsWellFormed(ts[0], code);
      }
    }
  }

  /** Only a bare slash restricts its neighbour, and a comment may not stand there anyway. */
  lemma FollowSkipsComments(t: Token, next: Token, later: Token)
    requires !IsComment(t) && MayFollow(t, next) && (!IsComment(next) ==> later == next)
    ensures MayFollow(t, later)
  {
  }

  lemma {:induction false} CodeOfCode(ts: seq<Token>)
    requires forall t :: t in ts ==> !IsComment(t)
    ensures Code(ts) == ts
  {
    if ts != [] { CodeOfCode(ts[1..]); }
  }

  /** What is left lexes to the same tokens without the comments. */
  lemma LexOfStripped(s: string)
    ensures Lex(Stripped(s)) == Code(Lex(s))
    ensures forall t :: t in Lex(Stripped(s)) ==> !IsComment(t)
  {
    LexIsFaithful(s);
    CodeIsWellFormed(Lex(s));
    LexUndoesPrint(Code(Lex(s)));
  }

  /** Stripping twice is stripping once, for every text. */
  lemma Idempotent(s: string)
    ensures Stripped(Stripped(s)) == Stripped(s)
  {
    LexOfStripped(s);
    CodeOfCode(Code(Lex(s)));
  }

  /** A text is left alone exactly when it has no comment token. */
  lemma UnchangedIffNoComment(s: string)
    ensures Stripped(s) == s <==> forall t :: t in Lex(s) ==> !IsComment(t)
  {
    LexIsFaithful(s);
    LexOfStripped(s);
    if forall t :: t in Lex(s) ==> !IsComment(t) { CodeOfCode(Lex(s)); }
  }

  /**
   * Round trip: print any well-formed list, comments included, and the stripper gives the print
   * of the list without them, with every string token verbatim.
   */
  lemma RoundTrip(ts: seq<Token>)
    requires WellFormed(ts)
    ensures Stripped(Print(ts)) == Print(Code(ts))
  {
    LexUndoesPrint(ts);
  }

  // ----- character by character: what is kept and what is taken out -----

  lemma StrippedCons(s: string)
    requires s != ""
    ensures var (t, n) := FirstToken(s);
      Stripped(s) == if IsComment(t) then Stripped(s[n..]) else s[..n] + Stripped(s[n..])
  {
    var (t, n) := FirstToken(s);
    FirstTokenOk(s);
    PrintCons(t, Lex(s[n..]));
    PrintCons(t, Code(Lex(s[n..])));
    assert [] + Code(Lex(s[n..])) == Code(Lex(s[n..]));
  }

  lemma AfterFirst(s: string, t: Token, n: nat, rest: string)
    requires s != "" && FirstToken(s) == (t, n) && n <= |s| && s[n..] == rest
    ensures Stripped(s) == (if IsComment(t) then "" else TokenText(t)) + Stripped(rest)
  {
    hide FirstToken;
    StrippedCons(s);
  }

  /** A string in either quotes is kept, up to its first bare closing quote or the end of the text. */
  lemma StringIsKept(q: char, body: string, rest: string)
    requires q == '"' || q == '\''
    ensures BodyOk(q, body, true) ==> Stripped([q] + body + [q] + rest) == [q] + body + [q] + Stripped(rest)
    ensures BodyOk(q, body, false) ==> Stripped([q] + body) == [q] + body
  {
    hide Stripped, FirstToken;
    assert Stripped("") == "" by { NothingToStrip(); }
    if BodyOk(q, body, true) {
      var s := [q] + body + [q] + rest;
      StrRead(q, body, true, rest);
      assert s == TokenText(Str(q, body, true)) + rest && s[|body| + 2..] == rest;
      AfterFirst(s, Str(q, body, true), |body| + 2, rest);
    }
    if BodyOk(q, body, false) {
      var s := [q] + body;
      StrRead(q, body, false, "");
      assert s == TokenText(Str(q, body, false)) + "" && s[|body| + 1..] == "";
      AfterFirst(s, Str(q, body, false), |body| + 1, "");
    }
  }

  lemma NothingToStrip()
    ensures Stripped("") == ""
  {
  }

  /** Outside of strings every other character is kept, a slash too unless a comment opens there. */
  lemma CharacterIsKept(c: char, rest: string)
    requires c != '"' && c != '\'' && (c == '/' ==> rest == "" || (rest[0] != '/' && rest[0] != '*'))
    ensures Stripped([c] + rest) == [c] + Stripped(rest)
  {
    hide Stripped;
    var s := [c] + rest;
    assert s[1..] == rest;
    AfterFirst(s, Plain(c), 1, rest);
  }

  /** A line comment is taken out up to its line break, which stays. */
  lemma LineCommentGoes(text: string, rest: string)
    requires '\n' !in text
    ensures Stripped("//" + text + "\n" + rest) == "\n" + Stripped(rest)
    ensures Stripped("//" + text) == ""
  {
    hide Stripped, FirstToken;
    NothingToStrip();
    var s, after := "//" + text + "\n" + rest, "\n" + rest;
    LineTokenRead(text, after);
    assert s == TokenText(Line(text)) + after && s[|text| + 2..] == after;
    AfterFirst(s, Line(text), |text| + 2, after);
    CharacterIsKept('\n', rest);
    LineTokenRead(text, "");
    assert TokenText(Line(text)) + "" == "//" + text && ("//" + text)[|text| + 2..] == "";
    AfterFirst("//" + text, Line(text), |text| + 2, "");
  }

  /** A block comment is taken out up to its first end mark, and with all that follows if it has none. */
  lemma BlockCommentGoes(text: string, rest: string)
    requires forall i :: 0 <= i < |text| - 1 ==> !(text[i] == '*' && text[i + 1] == '/')
    ensures Stripped("/" + "*" + text + "*" + "/" + rest) == Stripped(rest)
    ensures Stripped("/" + "*" + text) == ""
  {
    hide Stripped, FirstToken;
    NothingToStrip();
    var s := "/" + "*" + text + "*" + "/" + rest;
    BlockTokenRead(text, true, rest);
    assert s == TokenText(Block(text, true)) + rest && s[|text| + 4..] == rest;
    AfterFirst(s, Block(text, true), |text| + 4, rest);
    BlockTokenRead(text, false, "");
    var u := "/" + "*" + text;
    assert u == TokenText(Block(text, false)) + "" && u[|text| + 2..] == "";
    AfterFirst(u, Block(text, false), |text| + 2, "");
  }

  // ----- the loop -----

  datatype Mode = InCode | InString(quote: char) | InLine | InBlock

  /** Where a string, past its closing quote, and a block comment, past its end mark, are over. */
  function StringEnd(q: char, s: string): (n: nat)
    ensures n <= |s|
  {
    var n := BodyLength(q, s);
    if n < |s| then n + 1 else n
  }

  function BlockEnd(s: string): (n: nat)
    ensures n <= |s|
  {
    var n := BlockLength(s);
    if n < |s| then n + 2 else n
  }

  /** What the stripper still has to output for the text `s` when it stands in the given mode. */
  function StrippedFrom(mode: Mode, s: string): string {
    match mode
    case InCode => Stripped(s)
    case InString(q) => s[..StringEnd(q, s)] + Stripped(s[StringEnd(q, s)..])
    case InLine => Stripped(s[LineLength(s)..])
    case InBlock => Stripped(s[BlockEnd(s)..])
  }

  /** Cutting at `k` is cutting at `j` and then at `k - j`. */
  lemma Cut(s: string, j: nat, k: nat)
    requires j <= k <= |s|
    ensures s[..k] == s[..j] + s[j..][..k - j] && s[k..] == s[j..][k - j..]
  {
  }

  lemma QuoteLength(s: string)
    requires s != "" && IsQuote(s[0])
    ensures FirstToken(s).0.Str? && FirstToken(s).1 == 1 + StringEnd(s[0], s[1..])
  {
  }

  /** The first `1 + k` characters and what follows, as the quote and the rest. */
  lemma Unquote(s: string, k: nat, after: string)
    requires 1 + k <= |s|
    ensures s[..1 + k] + after == [s[0]] + (s[1..][..k] + after) && s[1 + k..] == s[1..][k..]
  {
  }

  lemma QuoteStep(s: string)
    requires s != "" && IsQuote(s[0])
    ensures Stripped(s) == [s[0]] + StrippedFrom(InString(s[0]), s[1..])
  {
    hide Stripped, BodyLength;
    var k := StringEnd(s[0], s[1..]);
    QuoteLength(s);
    StrippedCons(s);
    Unquote(s, k, Stripped(s[1 + k..]));
  }

  lemma CommentStep(s: string)
    requires |s| >= 2 && s[0] == '/' && (s[1] == '/' || s[1] == '*')
    ensures Stripped(s) == StrippedFrom(if s[1] == '/' then InLine else InBlock, s[2..])
  {
    hide Stripped, LineLength, BlockLength;
    StrippedCons(s);
    Cut(s, 2, FirstToken(s).1);
  }

  lemma CodeStep(s: string)
    requires s != ""
    ensures var t := FirstToken(s).0;
      Stripped(s) ==
      if t.Str? then [s[0]] + StrippedFrom(InString(s[0]), s[1..])
      else if t.Line? then StrippedFrom(InLine, s[2..])
      else if t.Block? then StrippedFrom(InBlock, s[2..])
      else [s[0]] + Stripped(s[1..])
  {
    hide Stripped, StrippedFrom;
    if IsQuote(s[0]) {
      QuoteStep(s);
    } else if |s| >= 2 && s[0] == '/' && (s[1] == '/' || s[1] == '*') {
      CommentStep(s);
    } else {
      StrippedCons(s);
      assert s[..1] == [s[0]];
    }
  }

  lemma LineStep(s: string)
    requires s != ""
    ensures StrippedFrom(InLine, s) == if s[0] == '\n' then [s[0]] + Stripped(s[1..]) else StrippedFrom(InLine, s[1..])
  {
    hide Stripped;
    if s[0] == '\n' {
      BreakStep(s);
    } else {
      Cut(s, 1, LineLength(s));
    }
  }

  lemma BreakStep(s: string)
    requires s != "" && s[0] == '\n'
    ensures Stripped(s[LineLength(s)..]) == [s[0]] + Stripped(s[1..])
  {
    assert s[0..] == s && s[..1] == [s[0]];
    assert FirstToken(s) == (Plain('\n'), 1);
    StrippedCons(s);
  }

  lemma BlockStep(s: string)
    requires s != ""
    ensures StrippedFrom(InBlock, s) ==
      if |s| >= 2 && s[0] == '*' && s[1] == '/' then Stripped(s[2..]) else StrippedFrom(InBlock, s[1..])
  {
    hide Stripped;
    if !(|s| >= 2 && s[0] == '*' && s[1] == '/') { Cut(s, 1, BlockEnd(s)); }
  }

  lemma StringStep(q: char, s: string)
    requires s != "" && IsQuote(q)
    ensures StrippedFrom(InString(q), s) ==
      if s[0] == '\\' then (if |s| == 1 then s + Stripped("") else s[..2] + StrippedFrom(InString(q), s[2..]))
      else if s[0] == q then [s[0]] + Stripped(s[1..])
      else [s[0]] + StrippedFrom(InString(q), s[1..])
  {
    hide Stripped;
    var k := StringEnd(q, s);
    assert s[..1] == [s[0]];
    if s[0] == '\\' {
      if |s| > 1 {
        StringSplit(q, s, 2);
      } else {
        assert s[1..] == "" && s[..1] == s;
      }
    } else if s[0] != q {
      StringSplit(q, s, 1);
    }
  }

  lemma StringSplit(q: char, s: string, j: nat)
    requires j <= |s| && StringEnd(q, s) == j + StringEnd(q, s[j..])
    ensures StrippedFrom(InString(q), s) == s[..j] + StrippedFrom(InString(q), s[j..])
  {
    hide Stripped, StringEnd;
    var k := StringEnd(q, s);
    Cut(s, j, k);
    Regroup(s[..j], s[j..][..k - j], Stripped(s[k..]));
  }

  function ModeOf(inString: bool, stringChar: char, inLine: bool, inBlock: bool): Mode {
    if inLine then InLine else if inBlock then InBlock else if inString then InString(stringChar) else InCode
  }

  /** The four-flag loop prints exactly the tokens that are not comments. */
  method StripJsonComments(input: string) returns (out: string)
    ensures out == Stripped(input)
  {
    hide Standing, Stripped;
    out := "";
    var inString, stringChar := false, '"';
    var inLine, inBlock := false, false;
    var i := 0;
    ghost var mode := InCode;
    Started(input);
    while i < |input|
      invariant 0 <= i <= |input|
      invariant !(inString && inLine) && !(inString && inBlock) && !(inLine && inBlock) && IsQuote(stringChar)
      invariant mode == ModeOf(inString, stringChar, inLine, inBlock)
      invariant Standing(input, out, mode, i)
    {
      var c := input[i];
      ghost var out', i' := out, i;
      out', i', mode := Move(input, out, mode, i);
      Appended(out, c, Peek(input, i + 1));
      if inLine {
        if c == '\n' {
          inLine := false;
          out := out + [c];
        }
        i := i + 1;
        continue;
      }
      if inBlock {
        if c == '*' && i + 1 < |input| && input[i + 1] == '/' {
          inBlock := false;
          i := i + 1;
        }
        i := i + 1;
        continue;
      }
      if inString {
        out := out + [c];
        if c == '\\' {
          if i + 1 < |input| {
            out := out + [input[i + 1]];
            i := i + 1;
          }
          i := i + 1;
          continue;
        }
        if c == stringChar { inString := false; }
        i := i + 1;
        continue;
      }
      if c == '"' || c == '\'' {
        inString := true;
        stringChar := c;
        out := out + [c];
        i := i + 1;
        continue;
      }
      if c == '/' && i + 1 < |input| && input[i + 1] == '/' {
        inLine := true;
        i := i + 2;
        continue;
      }
      if c == '/' && i + 1 < |input| && input[i + 1] == '*' {
        inBlock := true;
        i := i + 2;
        continue;
      }
      out := out + [c];
      i := i + 1;
    }
    Finished(input, out, mode);
  }

  lemma Started(input: string)
    ensures Standing(input, "", InCode, 0)
  {
    assert input[0..] == input;
  }

  /** At position `i` the output so far and the output to come make up the stripped text. */
  ghost predicate Standing(input: string, out: string, mode: Mode, i: nat) {
    i <= |input| && Stripped(input) == out + StrippedFrom(mode, input[i..])
  }

  function Peek(s: string, k: nat): Option<char> {
    if k < |s| then Some(s[k]) else None
  }

  /** One turn of the loop at `c` with `next` behind it: output, characters used, next mode. */
  function Turn(mode: Mode, c: char, next: Option<char>): (string, nat, Mode) {
    match mode
    case InLine => if c == '\n' then ([c], 1, InCode) else ("", 1, InLine)
    case InBlock => if c == '*' && next == Some('/') then ("", 2, InCode) else ("", 1, InBlock)
    case InString(q) =>
      if c == '\\' then (if next.Some? then ([c, next.value], 2, mode) else ([c], 1, mode))
      else ([c], 1, if c == q then InCode else mode)
    case InCode =>
      if IsQuote(c) then ([c], 1, InString(c))
      else if c == '/' && next == Some('/') then ("", 2, InLine)
      else if c == '/' && next == Some('*') then ("", 2, InBlock)
      else ([c], 1, InCode)
  }

  lemma StringTurn(q: char, s: string)
    requires s != "" && IsQuote(q)
    ensures var (more, n, mode') := Turn(InString(q), s[0], Peek(s, 1));
      n <= |s| && StrippedFrom(InString(q), s) == more + StrippedFrom(mode', s[n..])
  {
    hide Stripped, StringEnd;
    StringStep(q, s);
    if |s| == 1 && s[0] == '\\' {
      assert s[1..] == "" && s == [s[0]];
    } else if s[0] == '\\' {
      assert s[..2] == [s[0], s[1]];
    }
  }

  lemma TurnIsRight(mode: Mode, s: string)
    requires s != "" && (mode.InString? ==> IsQuote(mode.quote))
    ensures var (more, n, mode') := Turn(mode, s[0], Peek(s, 1));
      n <= |s| && StrippedFrom(mode, s) == more + StrippedFrom(mode', s[n..])
  {
    hide Stripped;
    match mode
    case InCode => CodeStep(s);
    case InLine => LineStep(s);
    case InBlock => BlockStep(s);
    case InString(q) => StringTurn(q, s);
  }

  lemma Move(input: string, out: string, mode: Mode, i: nat) returns (out': string, i': nat, mode': Mode)
    requires i < |input| && Standing(input, out, mode, i) && (mode.InString? ==> IsQuote(mode.quote))
    ensures var (more, n, m) := Turn(mode, input[i], Peek(input, i + 1));
      out' == out + more && i' == i + n && mode' == m
    ensures Standing(input, out', mode', i')
  {
    hide Stripped, StrippedFrom, Turn;
    var rest := input[i..];
    assert Peek(rest, 1) == Peek(input, i + 1);
    var (more, n, m) := Turn(mode, rest[0], Peek(rest, 1));
    out', i', mode' := out + more, i + n, m;
    TurnIsRight(mode, rest);
    Cut(input, i, i + n);
    Regroup(out, more, StrippedFrom(m, rest[n..]));
  }

  /** The ways the loop writes what it appends. */
  lemma Appended(out: string, c: char, next: Option<char>)
    ensures out + "" == out
    ensures next.Some? ==> out + [c] + [next.value] == out + [c, next.value]
  {
  }

  lemma Finished(input: string, out: string, mode: Mode)
    requires Standing(input, out, mode, |input|)
    ensures out == Stripped(input)
  {
    assert input[|input|..] == "";
    assert StrippedFrom(mode, "") == "";
    assert out + "" == out;
  }
}
