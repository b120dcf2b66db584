/**
 * `scanFileForInvisibleUnicode` of scripts/verify-no-invisible-unicode.ts.
 *
 * The text is the sequence of code points that `for (const ch of source)` yields.
 */
module InvisibleUnicode {
  import opened Common

  type CodePoint = x: nat | x <= 0x10FFFF

  const NEWLINE: CodePoint := 0x0A
  const BOM: CodePoint := 0xFEFF

  datatype Class = MisplacedBom | TagCharacter | ZeroWidth | BidiOverride | PuaBmp | PuaA | PuaB

  // The three entries of FORBIDDEN_CLASSES and the three of PUA_RANGES.
  predicate InClass(c: Class, cp: CodePoint) {
    match c
    case MisplacedBom => cp == BOM
    case TagCharacter => 0xE0000 <= cp <= 0xE007F
    case ZeroWidth => cp == 0x200B || cp == 0x200C || cp == 0x200D || cp == 0x2060
    case BidiOverride => 0x202A <= cp <= 0x202E || 0x2066 <= cp <= 0x2069
    case PuaBmp => 0xE000 <= cp <= 0xF8FF
    case PuaA => 0xF0000 <= cp <= 0xFFFFD
    case PuaB => 0x100000 <= cp <= 0x10FFFD
  }

  predicate IsPua(c: Class) { c == PuaBmp || c == PuaA || c == PuaB }

  /** Code point `k` is forbidden for the reason `c`. */
  predicate ForbiddenAs(text: seq<CodePoint>, scanPua: bool, k: nat, c: Class)
    requires k < |text|
  {
    InClass(c, text[k]) && (IsPua(c) ==> scanPua) && (c == MisplacedBom ==> k != 0)
  }

  ghost predicate Forbidden(text: seq<CodePoint>, scanPua: bool, k: nat)
    requires k < |text|
  {
    exists c :: ForbiddenAs(text, scanPua, k, c)
  }

  /** The classes are disjoint, so a position is forbidden for one reason. */
  lemma OneReason(c: Class, c': Class, cp: CodePoint)
    requires InClass(c, cp) && InClass(c', cp)
    ensures c == c' && cp != NEWLINE
  {
  }

  // ----- lines and columns -----

  /** The line of position `k`: line breaks before it, counted from 1. */
  function LineOf(text: seq<CodePoint>, k: nat): (line: nat)
    requires k <= |text|
    ensures line >= 1
  {
    if k == 0 then 1 else LineOf(text, k - 1) + (if text[k - 1] == NEWLINE then 1 else 0)
  }

  /** The column of position `k`: its distance from the line break before it, from 1. */
  function ColumnOf(text: seq<CodePoint>, k: nat): (column: nat)
    requires k <= |text|
    ensures column >= 1
  {
    if k == 0 || text[k - 1] == NEWLINE then 1 else ColumnOf(text, k - 1) + 1
  }

  /** The line is one more than the number of line feeds in front of the position. */
  lemma {:induction false} LineCountsBreaks(text: seq<CodePoint>, k: nat)
    requires k <= |text|
    ensures LineOf(text, k) == 1 + multiset(text[..k])[0x0A]
  {
    if k > 0 {
      LineCountsBreaks(text, k - 1);
      assert text[..k] == text[..k - 1] + [text[k - 1]];
    }
  }

  /** The column counts the code points of the line up to and with the position. */
  lemma {:induction false} ColumnCountsFromBreak(text: seq<CodePoint>, k: nat)
    requires k <= |text|
    ensures var c := ColumnOf(text, k);
      c <= k + 1 && (c == k + 1 || text[k - c] == 0x0A) && forall i :: k - c < i < k ==> text[i] != 0x0A
  {
    if k > 0 && text[k - 1] != NEWLINE { ColumnCountsFromBreak(text, k - 1); }
  }

  /** The forbidden code points, in order. */
  predicate IsForbidden(cp: CodePoint, scanPua: bool, first: bool) {
    || 0x200B <= cp <= 0x200D || 0x202A <= cp <= 0x202E || cp == 0x2060 || 0x2066 <= cp <= 0x2069
    || (cp == 0xFEFF && !first)
    || 0xE0000 <= cp <= 0xE007F
    || (scanPua && (0xE000 <= cp <= 0xF8FF || 0xF0000 <= cp <= 0xFFFFD || 0x100000 <= cp <= 0x10FFFD))
  }

  /** The class of a forbidden code point, in the order of the code points. */
  function ClassOf(cp: CodePoint): Class {
    if cp <= 0x200D || cp == 0x2060 then ZeroWidth
    else if cp <= 0x2069 then BidiOverride
    else if cp <= 0xF8FF then PuaBmp
    else if cp == 0xFEFF then MisplacedBom
    else if cp <= 0xE007F then TagCharacter
    else if cp <= 0xFFFFD then PuaA
    else PuaB
  }

  lemma ForbiddenMeans(text: seq<CodePoint>, scanPua: bool, k: nat)
    requires k < |text|
    ensures Forbidden(text, scanPua, k) <==> IsForbidden(text[k], scanPua, k == 0)
    ensures forall c :: ForbiddenAs(text, scanPua, k, c) ==> c == ClassOf(text[k])
  {
    if IsForbidden(text[k], scanPua, k == 0) { assert ForbiddenAs(text, scanPua, k, ClassOf(text[k])); }
  }

  predicate Before(line: nat, column: nat, line': nat, column': nat) {
    line < line' || (line == line' && column < column')
  }

  /** Positions and (line, column) pairs are in the same order, so a pair names one position. */
  lemma {:induction false} PositionsInOrder(text: seq<CodePoint>, k: nat, l: nat)
    requires k < l <= |text|
    ensures Before(LineOf(text, k), ColumnOf(text, k), LineOf(text, l), ColumnOf(text, l))
    decreases l
  {
    if k < l - 1 { PositionsInOrder(text, k, l - 1); }
  }

  lemma PairNamesPosition(text: seq<CodePoint>, k: nat, l: nat)
    requires k <= |text| && l <= |text|
    requires LineOf(text, k) == LineOf(text, l) && ColumnOf(text, k) == ColumnOf(text, l)
    ensures k == l
  {
    if k < l { PositionsInOrder(text, k, l); }
    if l < k { PositionsInOrder(text, l, k); }
  }

  // ----- the scanner -----

  datatype Finding = Finding(line: nat, column: nat, codePoint: CodePoint, detail: Class)

  function FindingAt(text: seq<CodePoint>, k: nat, c: Class): Finding
    requires k < |text|
  {
    Finding(LineOf(text, k), ColumnOf(text, k), text[k], c)
  }

  /** `f` is the finding for position `k`. */
  predicate Explains(text: seq<CodePoint>, scanPua: bool, k: nat, f: Finding) {
    k < |text| && ForbiddenAs(text, scanPua, k, f.detail) && f == FindingAt(text, k, f.detail)
  }

  /** `out` holds one finding for each forbidden position before `n`; `at` lists these in order. */
  ghost predicate Reports(out: seq<Finding>, at: seq<nat>, text: seq<CodePoint>, scanPua: bool, n: nat)
    requires n <= |text|
  {
    && |out| == |at|
    && (forall i :: 0 <= i < |at| ==> at[i] < n && Explains(text, scanPua, at[i], out[i]))
    && (forall i, j :: 0 <= i < j < |at| ==> at[i] < at[j])
    && (forall k: nat :: k < n && Forbidden(text, scanPua, k) ==> k in at)
  }

  /** Such a report is in strictly increasing (line, column) order. */
  lemma ReportsInOrder(out: seq<Finding>, at: seq<nat>, text: seq<CodePoint>, scanPua: bool)
    requires Reports(out, at, text, scanPua, |text|)
    ensures forall i, j :: 0 <= i < j < |out| ==> Before(out[i].line, out[i].column, out[j].line, out[j].column)
  {
    forall i, j | 0 <= i < j < |out| ensures Before(out[i].line, out[i].column, out[j].line, out[j].column) {
      PositionsInOrder(text, at[i], at[j]);
    }
  }

  /** Two reports of the same text are the same findings. */
  lemma {:induction false} ReportsUnique(out: seq<Finding>, at: seq<nat>, out': seq<Finding>, at': seq<nat>,
                                         text: seq<CodePoint>, scanPua: bool, n: nat)
    requires n <= |text| && Reports(out, at, text, scanPua, n) && Reports(out', at', text, scanPua, n)
    ensures out == out' && at == at'
    decreases n
  {
    assert |at| > 0 ==> at[0] < n;
    assert |at'| > 0 ==> at'[0] < n;
    if n > 0 {
      var k := n - 1;
      if Forbidden(text, scanPua, k) {
        var f := LastReported(out, at, text, scanPua, n);
        var f' := LastReported(out', at', text, scanPua, n);
        OneReason(f.detail, f'.detail, text[k]);
        assert f == f';
        ReportsUnique(out[..|at| - 1], at[..|at| - 1], out'[..|at'| - 1], at'[..|at'| - 1], text, scanPua, k);
      } else {
        NotReported(out, at, text, scanPua, n);
        NotReported(out', at', text, scanPua, n);
        ReportsUnique(out, at, out', at', text, scanPua, k);
      }
    }
  }

  lemma LastReported(out: seq<Finding>, at: seq<nat>, text: seq<CodePoint>, scanPua: bool, n: nat) returns (f: Finding)
    requires 0 < n <= |text| && Reports(out, at, text, scanPua, n) && Forbidden(text, scanPua, n - 1)
    ensures at != [] && at == at[..|at| - 1] + [n - 1] && out == out[..|at| - 1] + [f]
    ensures Explains(text, scanPua, n - 1, f)
    ensures Reports(out[..|at| - 1], at[..|at| - 1], text, scanPua, n - 1)
  {
    assert n - 1 in at;
    var m := |at| - 1;
    f := out[m];
    forall k: nat | k < n - 1 && Forbidden(text, scanPua, k) ensures k in at[..m] {
      assert k in at;
    }
  }

  lemma NotReported(out: seq<Finding>, at: seq<nat>, text: seq<CodePoint>, scanPua: bool, n: nat)
    requires 0 < n <= |text| && Reports(out, at, text, scanPua, n) && !Forbidden(text, scanPua, n - 1)
    ensures Reports(out, at, text, scanPua, n - 1)
  {
    forall i | 0 <= i < |at| ensures at[i] < n - 1 {
      assert ForbiddenAs(text, scanPua, at[i], out[i].detail);
    }
  }

  /** UTF-16 length of a code point: `ch.length`. */
  function Units(cp: CodePoint): nat { if cp >= 0x10000 then 2 else 1 }

  /** The first entry of FORBIDDEN_CLASSES whose test holds. */
  function FirstClass(cp: CodePoint): Option<Class> {
    if InClass(TagCharacter, cp) then Some(TagCharacter)
    else if InClass(ZeroWidth, cp) then Some(ZeroWidth)
    else if InClass(BidiOverride, cp) then Some(BidiOverride)
    else None
  }

  /** The first entry of PUA_RANGES that contains the code point. */
  function FirstPua(cp: CodePoint): Option<Class> {
    if InClass(PuaBmp, cp) then Some(PuaBmp)
    else if InClass(PuaA, cp) then Some(PuaA)
    else if InClass(PuaB, cp) then Some(PuaB)
    else None
  }

  /** Exactly the forbidden positions, one finding each, in text order. */
  method ScanFileForInvisibleUnicode(text: seq<CodePoint>, scanPua: bool)
    returns (out: seq<Finding>, ghost at: seq<nat>)
    ensures Reports(out, at, text, scanPua, |text|)
    ensures forall i, j :: 0 <= i < j < |out| ==> Before(out[i].line, out[i].column, out[j].line, out[j].column)
  {
    hide Reports, InClass, FirstClass, FirstPua, Before;
    out, at := [], [];
    NothingReported(text, scanPua);
    var line, column, offset := 1, 0, 0;
    var k := 0;
    while k < |text|
      invariant 0 <= k <= |text|
      invariant line == LineOf(text, k)
      invariant column + 1 == ColumnOf(text, k)
      invariant offset >= k && (k == 0 ==> offset == 0)
      invariant Reports(out, at, text, scanPua, k)
    {
      var cp := text[k];
      column := column + 1;
      at := Positions(out, at, text, scanPua, k);
      assert out + [] == out;
      if cp == NEWLINE {
        line := line + 1;
        column := 0;
        offset := offset + Units(cp);
        k := k + 1;
        continue;
      }
      if cp == BOM && offset != 0 {
        out := out + [Finding(line, column, cp, MisplacedBom)];
        offset := offset + Units(cp);
        k := k + 1;
        continue;
      }
      ghost var before := out;
      var class_ := FirstClass(cp);
      if class_.Some? {
        out := out + [Finding(line, column, cp, class_.value)];
      }
      if scanPua {
        var range := FirstPua(cp);
        if range.Some? {
          out := out + [Finding(line, column, cp, range.value)];
        }
      }
      assert out == before + Added(text, scanPua, k);
      offset := offset + Units(cp);
      k := k + 1;
    }
    ReportsInOrder(out, at, text, scanPua);
  }

  lemma NothingReported(text: seq<CodePoint>, scanPua: bool)
    ensures Reports([], [], text, scanPua, 0)
  {
  }

  /** What one turn of the loop adds to the report. */
  function Added(text: seq<CodePoint>, scanPua: bool, k: nat): seq<Finding>
    requires k < |text|
  {
    var cp := text[k];
    if cp == NEWLINE then []
    else if cp == BOM && k != 0 then [FindingAt(text, k, MisplacedBom)]
    else
      (match FirstClass(cp) { case Some(c) => [FindingAt(text, k, c)] case None => [] })
      + (if scanPua then match FirstPua(cp) { case Some(c) => [FindingAt(text, k, c)] case None => [] } else [])
  }

  /** One finding for a forbidden position, none for another. */
  lemma AddedIsRight(text: seq<CodePoint>, scanPua: bool, k: nat)
    requires k < |text|
    ensures |Added(text, scanPua, k)| == if Forbidden(text, scanPua, k) then 1 else 0
    ensures Forbidden(text, scanPua, k) ==> Explains(text, scanPua, k, Added(text, scanPua, k)[0])
  {
    var cp := text[k];
    if c :| ForbiddenAs(text, scanPua, k, c) {
      if FirstClass(cp).Some? { OneReason(c, FirstClass(cp).value, cp); }
      if FirstPua(cp).Some? { OneReason(c, FirstPua(cp).value, cp); }
      if cp == BOM { OneReason(c, MisplacedBom, cp); }
    }
    if FirstClass(cp).Some? { assert ForbiddenAs(text, scanPua, k, FirstClass(cp).value); }
    if scanPua && FirstPua(cp).Some? { assert ForbiddenAs(text, scanPua, k, FirstPua(cp).value); }
    if cp == BOM && k != 0 { assert ForbiddenAs(text, scanPua, k, MisplacedBom); }
  }

  lemma Positions(out: seq<Finding>, at: seq<nat>, text: seq<CodePoint>, scanPua: bool, k: nat) returns (at': seq<nat>)
    requires k < |text| && Reports(out, at, text, scanPua, k)
    ensures Reports(out + Added(text, scanPua, k), at', text, scanPua, k + 1)
  {
    AddedIsRight(text, scanPua, k);
    at' := if Forbidden(text, scanPua, k) then at + [k] else at;
  }
}
