/**
 * The session-map key of examples/agent-loop.ts: `JSON.stringify([owner, id])`.
 *
 * A JavaScript string is a sequence of UTF-16 code units. `QuoteBody` follows the
 * QuoteJSONString operation of ECMA-262 (section 25.5.2.2): short escapes, `\u00xx`
 * for the other control units, `\udxxx` for a lone surrogate, and everything else
 * as it is. `ReadBody` reads a JSON string body back (section 7 of RFC 8259).
 */
module SessionKey {
  import opened Common

  newtype CodeUnit = x: int | 0 <= x < 0x10000

  type JsString = seq<CodeUnit>

  const QUOTE: CodeUnit := 0x22
  const BACKSLASH: CodeUnit := 0x5C
  const COMMA: CodeUnit := 0x2C
  const OPEN_BRACKET: CodeUnit := 0x5B
  const CLOSE_BRACKET: CodeUnit := 0x5D
  const LETTER_U: CodeUnit := 0x75

  predicate HighSurrogate(c: CodeUnit) { 0xD800 <= c <= 0xDBFF }

  predicate LowSurrogate(c: CodeUnit) { 0xDC00 <= c <= 0xDFFF }

  function HexDigit(d: CodeUnit): CodeUnit
    requires d < 16
  {
    if d < 10 then 0x30 + d else 0x61 + (d - 10)
  }

  function UnicodeEscape(c: CodeUnit): JsString {
    [BACKSLASH, LETTER_U, HexDigit(c / 4096), HexDigit(c / 256 % 16), HexDigit(c / 16 % 16), HexDigit(c % 16)]
  }

  /** The letter after the backslash for the units that have a short escape. */
  function ShortEscape(c: CodeUnit): Option<CodeUnit> {
    if c == QUOTE then Some(QUOTE)
    else if c == BACKSLASH then Some(BACKSLASH)
    else if c == 0x08 then Some(0x62)
    else if c == 0x09 then Some(0x74)
    else if c == 0x0A then Some(0x6E)
    else if c == 0x0C then Some(0x66)
    else if c == 0x0D then Some(0x72)
    else None
  }

  function QuoteBody(s: JsString): JsString {
    if s == [] then []
    else if |s| >= 2 && HighSurrogate(s[0]) && LowSurrogate(s[1]) then [s[0], s[1]] + QuoteBody(s[2..])
    else QuoteUnit(s[0]) + QuoteBody(s[1..])
  }

  /** One unit that is not the first half of a surrogate pair. */
  function QuoteUnit(c: CodeUnit): JsString {
    match ShortEscape(c)
    case Some(letter) => [BACKSLASH, letter]
    case None => if c < 0x20 || HighSurrogate(c) || LowSurrogate(c) then UnicodeEscape(c) else [c]
  }

  function Quote(s: JsString): JsString {
    [QUOTE] + QuoteBody(s) + [QUOTE]
  }

  /** `keyOf(owner, id)`. */
  function KeyOf(owner: JsString, id: JsString): JsString {
    [OPEN_BRACKET] + Quote(owner) + [COMMA] + Quote(id) + [CLOSE_BRACKET]
  }

  function HexValue(c: CodeUnit): Option<CodeUnit> {
    if 0x30 <= c <= 0x39 then Some(c - 0x30)
    else if 0x61 <= c <= 0x66 then Some(c - 0x61 + 10)
    else if 0x41 <= c <= 0x46 then Some(c - 0x41 + 10)
    else None
  }

  function ShortEscapeValue(letter: CodeUnit): Option<CodeUnit> {
    if letter == QUOTE || letter == BACKSLASH || letter == 0x2F then Some(letter)
    else if letter == 0x62 then Some(0x08)
    else if letter == 0x74 then Some(0x09)
    else if letter == 0x6E then Some(0x0A)
    else if letter == 0x66 then Some(0x0C)
    else if letter == 0x72 then Some(0x0D)
    else None
  }

  /** Reads a string body up to its closing quote: the value and what follows the quote. */
  function ReadBody(t: JsString): Option<(JsString, JsString)> {
    if t == [] then None
    else if t[0] == QUOTE then Some(([], t[1..]))
    else if t[0] != BACKSLASH then Prepend(t[0], ReadBody(t[1..]))
    else if |t| < 2 then None
    else if t[1] == LETTER_U then
      if |t| < 6 then None
      else
        match (HexValue(t[2]), HexValue(t[3]), HexValue(t[4]), HexValue(t[5]))
        case (Some(a), Some(b), Some(c), Some(d)) =>
          Prepend(FromNibbles(a, b, c, d), ReadBody(t[6..]))
        case _ => None
    else
      match ShortEscapeValue(t[1])
      case Some(c) => Prepend(c, ReadBody(t[2..]))
      case None => None
  }

  function FromNibbles(a: CodeUnit, b: CodeUnit, c: CodeUnit, d: CodeUnit): CodeUnit {
    ((a as int * 4096 + b as int * 256 + c as int * 16 + d as int) % 0x10000) as CodeUnit
  }

  function Prepend(c: CodeUnit, r: Option<(JsString, JsString)>): Option<(JsString, JsString)> {
    match r
    case Some((body, rest)) => Some(([c] + body, rest))
    case None => None
  }

  lemma HexRoundTrip(d: CodeUnit)
    requires d < 16
    ensures HexValue(HexDigit(d)) == Some(d)
  {
  }

  lemma Nibbles(c: CodeUnit)
    ensures FromNibbles(c / 4096, c / 256 % 16, c / 16 % 16, c % 16) == c
  {
    var n := c as int;
    assert n / 256 == n / 4096 * 16 + n / 256 % 16;
    assert n / 16 == n / 256 * 16 + n / 16 % 16;
    assert n == n / 16 * 16 + n % 16;
  }

  lemma EscapeReads(c: CodeUnit, t: JsString)
    ensures ReadBody(UnicodeEscape(c) + t) == Prepend(c, ReadBody(t))
  {
    var u := UnicodeEscape(c) + t;
    HexRoundTrip(c / 4096);
    HexRoundTrip(c / 256 % 16);
    HexRoundTrip(c / 16 % 16);
    HexRoundTrip(c % 16);
    Nibbles(c);
    assert u[6..] == t;
  }

  lemma PlainReads(c: CodeUnit, t: JsString)
    requires c != QUOTE && c != BACKSLASH
    ensures ReadBody([c] + t) == Prepend(c, ReadBody(t))
  {
    assert ([c] + t)[1..] == t;
  }

  lemma ShortReads(c: CodeUnit, t: JsString)
    requires ShortEscape(c).Some?
    ensures ReadBody([BACKSLASH, ShortEscape(c).value] + t) == Prepend(c, ReadBody(t))
  {
    assert ([BACKSLASH, ShortEscape(c).value] + t)[2..] == t;
  }

  lemma QuoteUnitReads(c: CodeUnit, t: JsString)
    ensures ReadBody(QuoteUnit(c) + t) == Prepend(c, ReadBody(t))
  {
    if ShortEscape(c).Some? {
      ShortReads(c, t);
    } else if c < 0x20 || HighSurrogate(c) || LowSurrogate(c) {
      EscapeReads(c, t);
    } else {
      PlainReads(c, t);
    }
  }

  lemma PairReads(h: CodeUnit, l: CodeUnit, t: JsString)
    requires HighSurrogate(h) && LowSurrogate(l)
    ensures ReadBody([h, l] + t) == Prepend(h, Prepend(l, ReadBody(t)))
  {
    assert [h, l] + t == [h] + ([l] + t);
    PlainReads(l, t);
    PlainReads(h, [l] + t);
  }

  /** Reading undoes quoting, whatever follows the closing quote. */
  lemma {:induction false} ReadUndoesQuote(s: JsString, rest: JsString)
    ensures ReadBody(QuoteBody(s) + ([QUOTE] + rest)) == Some((s, rest))
  {
    if s == [] {
      assert QuoteBody(s) + ([QUOTE] + rest) == [QUOTE] + rest;
      assert ([QUOTE] + rest)[1..] == rest;
    } else if |s| >= 2 && HighSurrogate(s[0]) && LowSurrogate(s[1]) {
      ReadUndoesQuote(s[2..], rest);
      Regroup([s[0], s[1]], QuoteBody(s[2..]), [QUOTE] + rest);
      PairReads(s[0], s[1], QuoteBody(s[2..]) + ([QUOTE] + rest));
      assert s == [s[0]] + ([s[1]] + s[2..]);
    } else {
      ReadUndoesQuote(s[1..], rest);
      Regroup(QuoteUnit(s[0]), QuoteBody(s[1..]), [QUOTE] + rest);
      QuoteUnitReads(s[0], QuoteBody(s[1..]) + ([QUOTE] + rest));
      assert s == [s[0]] + s[1..];
    }
  }

  /** An (owner, id) pair can be read back from its key, so no two pairs share one. */
  lemma KeyOfInjective(owner: JsString, id: JsString, owner': JsString, id': JsString)
    ensures KeyOf(owner, id) == KeyOf(owner', id') ==> owner == owner' && id == id'
  {
    KeyReads(owner, id);
    KeyReads(owner', id');
  }

  /** Units that need no escape. */
  predicate Plain(s: JsString) {
    forall c :: c in s ==> c >= 0x20 && c != 0x22 && c != 0x5C && !(0xD800 <= c <= 0xDFFF)
  }

  lemma {:induction false} PlainIsKept(s: JsString)
    requires Plain(s)
    ensures QuoteBody(s) == s
  {
    hide QuoteUnit, HighSurrogate, LowSurrogate;
    if s != [] {
      assert s[0] in s && forall c :: c in s[1..] ==> c in s;
      PlainUnit(s[0]);
      PlainIsKept(s[1..]);
      assert s == [s[0]] + s[1..];
    }
  }

  lemma PlainUnit(c: CodeUnit)
    requires c >= 0x20 && c != 0x22 && c != 0x5C && !(0xD800 <= c <= 0xDFFF)
    ensures QuoteUnit(c) == [c] && !HighSurrogate(c)
  {
  }

  /** The key of plain texts, written out: the array of the two, owner first. */
  lemma PlainKey(owner: JsString, id: JsString)
    requires Plain(owner) && Plain(id)
    ensures KeyOf(owner, id) == [0x5B, 0x22] + owner + [0x22, 0x2C, 0x22] + id + [0x22, 0x5D]
  {
    PlainIsKept(owner);
    PlainIsKept(id);
  }

  /** The two halves of a key, as the reader sees them. */
  lemma KeyReads(owner: JsString, id: JsString)
    ensures |KeyOf(owner, id)| > 2
    ensures ReadBody(KeyOf(owner, id)[2..]) == Some((owner, KeyRest(id)))
    ensures |KeyRest(id)| > 2 && ReadBody(KeyRest(id)[2..]) == Some((id, [CLOSE_BRACKET]))
  {
    var rest := KeyRest(id);
    assert KeyOf(owner, id)[2..] == QuoteBody(owner) + ([QUOTE] + rest);
    ReadUndoesQuote(owner, rest);
    assert rest[2..] == QuoteBody(id) + ([QUOTE] + [CLOSE_BRACKET]);
    ReadUndoesQuote(id, [CLOSE_BRACKET]);
  }

  function KeyRest(id: JsString): JsString {
    [COMMA, QUOTE] + QuoteBody(id) + [QUOTE, CLOSE_BRACKET]
  }
}
