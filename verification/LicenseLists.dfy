/** `extractLicenseString` of scripts/verify-dep-licenses.ts, and what becomes of legacy lists. */
module LicenseLists {
  import opened Common
  import opened Text
  import opened Licenses

  // ----- extractLicenseString -----

  /** A field: absent or of another type, a string, or an object with or without a string `type`. */
  datatype Field = Other | Str(s: string) | Obj(kind: Option<string>)

  /** The trimmed name in a field, unless it is blank. */
  function NameIn(f: Field): Option<string> {
    match f
    case Str(s) => if Trim(s) != "" then Some(Trim(s)) else None
    case Obj(Some(t)) => if Trim(t) != "" then Some(Trim(t)) else None
    case _ => None
  }

  function Names(fs: seq<Field>): seq<string> {
    if fs == [] then []
    else Names(fs[..|fs| - 1]) + (match NameIn(fs[|fs| - 1]) case Some(n) => [n] case None => [])
  }

  /** `join(" OR ")`. */
  function JoinOr(parts: seq<string>): string {
    if parts == [] then "" else if |parts| == 1 then parts[0] else parts[0] + (" OR " + JoinOr(parts[1..]))
  }

  function Extracted(license: Field, licenses: Option<seq<Field>>): string {
    match NameIn(license)
    case Some(n) => n
    case None =>
      if licenses.Some? && Names(licenses.value) != [] then InParens(JoinOr(Names(licenses.value))) else "NOASSERTION"
  }

  /** `licenses` is None when it is not an array. */
  method ExtractLicenseString(license: Field, licenses: Option<seq<Field>>) returns (r: string)
    ensures r == Extracted(license, licenses)
  {
    if license.Str? && Trim(license.s) != "" { return Trim(license.s); }
    if license.Obj? && license.kind.Some? && Trim(license.kind.value) != "" { return Trim(license.kind.value); }
    if licenses.Some? && |licenses.value| > 0 {
      var fs := licenses.value;
      var parts := [];
      var i := 0;
      while i < |fs|
        invariant 0 <= i <= |fs|
        invariant parts == Names(fs[..i])
      {
        var entry := fs[i];
        assert fs[..i + 1][..i] == fs[..i];
        if entry.Str? && Trim(entry.s) != "" {
          parts := parts + [Trim(entry.s)];
        } else if entry.Obj? && entry.kind.Some? && Trim(entry.kind.value) != "" {
          parts := parts + [Trim(entry.kind.value)];
        }
        i := i + 1;
      }
      assert fs[..i] == fs;
      if |parts| > 0 { return InParens(JoinOr(parts)); }
    }
    return "NOASSERTION";
  }

  // ----- what is extracted, written out -----

  /** A name with spaces around it, as a string or as the `type` of an object, is used without them. */
  lemma NameIsTrimmed(l: string, t: string, r: string, licenses: Option<seq<Field>>)
    requires Blank(l) && Blank(r) && t != "" && !IsSpace(t[0]) && !IsSpace(t[|t| - 1])
    ensures Extracted(Str(l + (t + r)), licenses) == t
    ensures Extracted(Obj(Some(l + (t + r))), licenses) == t
  {
    TrimAround(l, t, r);
  }

  /** A field of another type, or whose text is blank, gives no name. */
  predicate Nameless(f: Field) {
    match f
    case Other => true
    case Obj(None) => true
    case Str(s) => Blank(s)
    case Obj(Some(s)) => Blank(s)
  }

  lemma NamelessMeans(f: Field)
    requires Nameless(f)
    ensures NameIn(f).None?
  {
    match f
    case Str(s) => TrimBlank(s);
    case Obj(Some(s)) => TrimBlank(s);
    case _ =>
  }

  lemma {:induction false} NamesOfAppend(a: seq<Field>, b: seq<Field>)
    ensures Names(a + b) == Names(a) + Names(b)
    decreases |b|
  {
    hide NameIn;
    if b == [] {
      assert a + b == a;
    } else {
      var n := |b| - 1;
      NamesOfAppend(a, b[..n]);
      assert (a + b)[..|a| + n] == a + b[..n];
    }
  }

  lemma NamesOfOne(f: Field)
    ensures Names([f]) == match NameIn(f) case Some(n) => [n] case None => []
  {
    assert [f][..0] == [];
  }

  /** In a list an object counts as the string that is its `type`, and a nameless entry not at all. */
  lemma EntriesCount(a: seq<Field>, t: string, f: Field, b: seq<Field>)
    requires Nameless(f)
    ensures Names(a + ([Obj(Some(t))] + b)) == Names(a + ([Str(t)] + b))
    ensures Names(a + ([f] + b)) == Names(a + b)
  {
    forall g: Field ensures Names(a + ([g] + b)) == Names(a) + (Names([g]) + Names(b)) {
      NamesOfAppend([g], b);
      NamesOfAppend(a, [g] + b);
    }
    NamesOfAppend(a, b);
    NamesOfOne(f);
    NamesOfOne(Str(t));
    NamesOfOne(Obj(Some(t)));
    NamelessMeans(f);
    assert [] + Names(b) == Names(b);
  }

  /** Without a name in `license` the names of the list are joined in parentheses, if it has any. */
  lemma ListIsJoined(license: Field, fs: seq<Field>)
    requires Nameless(license)
    ensures Names(fs) == [] ==> Extracted(license, Some(fs)) == "NOASSERTION"
    ensures |Names(fs)| == 1 ==> Extracted(license, Some(fs)) == "(" + (Names(fs)[0] + ")")
    ensures |Names(fs)| == 2 ==>
      Extracted(license, Some(fs)) == "(" + ((Names(fs)[0] + (" OR " + Names(fs)[1])) + ")")
    ensures Extracted(license, None) == "NOASSERTION"
  {
    NamelessMeans(license);
    var names := Names(fs);
    if |names| == 2 { assert names[1..] == [names[1]] && JoinOr(names) == names[0] + (" OR " + JoinOr(names[1..])); }
  }

  // ----- legacy lists -----

  /** An entry of a legacy list: a flat expression, bare or in parentheses. */
  datatype Entry = Entry(chain: Chain, parens: bool)

  function EntryText(e: Entry): string { if e.parens then InParens(TextOf(e.chain)) else TextOf(e.chain) }

  function EntryTexts(es: seq<Entry>): seq<string> {
    if es == [] then [] else [EntryText(es[0])] + EntryTexts(es[1..])
  }

  lemma EntryMeans(e: Entry, allowed: AllowList)
    requires PlainChain(e.chain) && Sane(allowed)
    ensures IsLicenseAllowed(EntryText(e), allowed) <==> TreeAllowed(e.chain, allowed)
  {
    hide IsLicenseAllowed, InnerAllowed, TreeAllowed, TextOf, Trim;
    TreeMeans(e.chain, allowed);
    if e.parens {
      ParensComeOff(TextOf(e.chain), allowed);
      TextIsTrim(e.chain);
    }
  }

  // ----- a parenthesised entry, read as a chain whose outer tokens hold the parentheses -----

  function Open(c: Chain): Chain { Chain("(" + c.first, c.steps) }

  function Close(c: Chain): Chain {
    if c.steps == [] then Chain(c.first + ")", [])
    else
      var n := |c.steps| - 1;
      Chain(c.first, c.steps[..n] + [c.steps[n].(id := c.steps[n].id + ")")])
  }

  function Wrapped(e: Entry): Chain { if e.parens then Open(Close(e.chain)) else e.chain }

  lemma {:induction false} TailSnoc(steps: seq<Step>, st: Step)
    ensures Tail(steps + [st]) == Tail(steps) + (st.before + (st.word + (st.after + st.id)))
  {
    if steps == [] {
      assert [] + [st] == [st] && st.id + Tail([]) == st.id;
    } else {
      var all := steps + [st];
      assert all[0] == steps[0] && all[1..] == steps[1..] + [st];
      TailSnoc(steps[1..], st);
      Assoc5(steps[0].before, steps[0].word, steps[0].after, steps[0].id, Tail(steps[1..]),
             st.before + (st.word + (st.after + st.id)));
    }
  }

  lemma Assoc5(a: string, b: string, c: string, d: string, e: string, f: string)
    ensures (a + (b + (c + (d + e)))) + f == a + (b + (c + (d + (e + f))))
  {
  }

  lemma WrappedText(e: Entry)
    ensures TextOf(Wrapped(e)) == EntryText(e)
  {
    var c := e.chain;
    if e.parens {
      if c.steps != [] {
        var n := |c.steps| - 1;
        var st := c.steps[n];
        assert c.steps == c.steps[..n] + [st];
        TailSnoc(c.steps[..n], st);
        TailSnoc(c.steps[..n], st.(id := st.id + ")"));
        Assoc6(c.first, Tail(c.steps[..n]), st.before, st.word, st.after, st.id);
      } else {
        assert TextOf(c) == c.first;
      }
    }
  }

  lemma Assoc6(t: string, a: string, b: string, c: string, d: string, e: string)
    ensures ("(" + t) + (a + (b + (c + (d + (e + ")"))))) == "(" + ((t + (a + (b + (c + (d + e))))) + ")")
  {
  }

  lemma ParenToken(t: string)
    requires NoSpace(t)
    ensures IsToken("(" + t) && IsToken(t + ")") && (IsToken(t) ==> IsToken("(" + t + ")"))
  {
    assert ("(" + t)[0] == '(' && (t + ")")[|t|] == ')' && ("(" + t + ")")[0] == '(';
    assert LowerCase('(') == '(' && LowerCase(')') == ')';
  }

  lemma OpenOk(c: Chain)
    requires ChainOk(c)
    ensures ChainOk(Open(c))
  {
    ParenToken(c.first);
  }

  lemma CloseOk(c: Chain)
    requires ChainOk(c)
    ensures ChainOk(Close(c))
  {
    if c.steps == [] {
      ParenToken(c.first);
    } else {
      var n := |c.steps| - 1;
      assert c.steps[n] in c.steps;
      ParenToken(c.steps[n].id);
      assert forall st :: st in c.steps[..n] ==> st in c.steps;
    }
  }

  lemma WrappedOk(e: Entry)
    requires ChainOk(e.chain)
    ensures ChainOk(Wrapped(e))
  {
    if e.parens {
      CloseOk(e.chain);
      OpenOk(Close(e.chain));
    }
  }

  /** A parenthesis at the front belongs to the first branch, one at the end to the last. */
  lemma PiecesOfOpen(c: Chain)
    ensures Pieces(Open(c)) == [Open(Pieces(c)[0])] + Pieces(c)[1..]
  {
    if c.steps != [] { assert Next(Open(c)) == Next(c); }
  }

  lemma {:induction false} PiecesOfClose(c: Chain)
    ensures Pieces(Close(c)) == CloseLast(Pieces(c))
    decreases |c.steps|
  {
    if |Pieces(c)| == 1 {
      SinglePiece(c);
      CloseKeepsAnd(c);
      OnePiece(Close(c));
    } else {
      hide Close, IsOr, Pieces, AllAnd;
      OneIsSingle(c);
      PiecesOfClose(Next(c));
      PiecesOfCloseCons(c);
    }
  }

  lemma OneIsSingle(c: Chain)
    requires |Pieces(c)| != 1
    ensures c.steps != []
  {
  }

  /** The last piece, closed. */
  function CloseLast(ps: seq<Chain>): seq<Chain>
    requires ps != []
  {
    ps[..|ps| - 1] + [Close(ps[|ps| - 1])]
  }

  lemma PiecesOfCloseCons(c: Chain)
    requires c.steps != [] && |Pieces(c)| != 1 && Pieces(Close(Next(c))) == CloseLast(Pieces(Next(c)))
    ensures Pieces(Close(c)) == CloseLast(Pieces(c))
  {
    hide Close, IsOr, Pieces, CloseLast;
    CloseNext(c);
    PiecesCons(c);
    PiecesCons(Close(c));
    if IsOr(c.steps[0].word) {
      CloseBehind(Chain(c.first, []), Pieces(Next(c)));
    } else {
      if |c.steps| == 1 { OneStepIsOnePiece(c); }
      CloseBehindFirst(Chain(c.first, [c.steps[0]] + Pieces(Next(c))[0].steps), Pieces(Next(c)));
    }
  }

  lemma CloseBehind(front: Chain, ps: seq<Chain>)
    requires ps != []
    ensures CloseLast([front] + ps) == [front] + CloseLast(ps)
  {
    hide Close;
    LastBehind(front, ps, Close(ps[|ps| - 1]));
  }

  lemma CloseBehindFirst(front: Chain, ps: seq<Chain>)
    requires |ps| > 1
    ensures CloseLast([front] + ps[1..]) == [front] + CloseLast(ps)[1..] && CloseLast(ps)[0] == ps[0]
  {
    hide Close;
    FirstAndLast(front, ps, Close(ps[|ps| - 1]));
  }

  lemma FirstAndLast<T>(first: T, ps: seq<T>, last: T)
    requires |ps| > 1
    ensures var all := [first] + ps[1..];
      all[..|all| - 1] + [last] == [first] + (ps[..|ps| - 1] + [last])[1..] && all[|all| - 1] == ps[|ps| - 1]
  {
  }

  lemma PiecesCons(c: Chain)
    requires c.steps != []
    ensures var ps := Pieces(Next(c));
      Pieces(c) == if IsOr(c.steps[0].word) then [Chain(c.first, [])] + ps
                   else [Chain(c.first, [c.steps[0]] + ps[0].steps)] + ps[1..]
  {
  }

  lemma OneStepIsOnePiece(c: Chain)
    requires |c.steps| == 1
    ensures |Pieces(Next(c))| == 1
  {
  }

  lemma LastBehind<T>(front: T, ps: seq<T>, last: T)
    requires ps != []
    ensures var all := [front] + ps; all[..|all| - 1] + [last] == [front] + (ps[..|ps| - 1] + [last])
  {
  }

  lemma CloseKeepsAnd(c: Chain)
    requires AllAnd(c)
    ensures AllAnd(Close(c))
  {
    if c.steps != [] {
      var n := |c.steps| - 1;
      assert c.steps[n] in c.steps && forall st :: st in c.steps[..n] ==> st in c.steps;
    }
  }

  lemma CloseNext(c: Chain)
    requires c.steps != []
    ensures Close(c).steps != [] && Close(c).first == c.first && Close(c).steps[0].word == c.steps[0].word
    ensures Next(Close(c)) == Close(Next(c))
    ensures |c.steps| > 1 ==> Close(c).steps[0] == c.steps[0]
    ensures |c.steps| == 1 ==> Close(c).steps[0] == c.steps[0].(id := c.steps[0].id + ")")
  {
    var n := |c.steps| - 1;
    if n > 0 { assert Close(c).steps[1..] == c.steps[1..][..n - 1] + [c.steps[n].(id := c.steps[n].id + ")")]; }
  }

  // ----- the joined list -----

  /** Two chains with an OR between them. */
  function Append(c: Chain, d: Chain): Chain {
    Chain(c.first, c.steps + [Step(" ", "OR", " ", d.first)] + d.steps)
  }

  lemma {:induction false} TailAppend(a: seq<Step>, b: seq<Step>)
    ensures Tail(a + b) == Tail(a) + Tail(b)
  {
    if a == [] {
      assert a + b == b && "" + Tail(b) == Tail(b);
    } else {
      assert (a + b)[0] == a[0] && (a + b)[1..] == a[1..] + b;
      TailAppend(a[1..], b);
      Assoc5(a[0].before, a[0].word, a[0].after, a[0].id, Tail(a[1..]), Tail(b));
    }
  }

  lemma AppendText(c: Chain, d: Chain)
    ensures TextOf(Append(c, d)) == TextOf(c) + (" OR " + TextOf(d))
  {
    var st := Step(" ", "OR", " ", d.first);
    TailAppend(c.steps + [st], d.steps);
    TailSnoc(c.steps, st);
    assert " " + ("OR" + (" " + d.first)) == " OR " + d.first;
    Assoc4(c.first, Tail(c.steps), " OR ", d.first, Tail(d.steps));
  }

  lemma Assoc4(a: string, b: string, c: string, d: string, e: string)
    ensures a + ((b + (c + d)) + e) == (a + b) + (c + (d + e))
  {
  }

  lemma AppendOk(c: Chain, d: Chain)
    requires ChainOk(c) && ChainOk(d)
    ensures ChainOk(Append(c, d))
  {
  }

  lemma {:induction false} PiecesOfAppend(c: Chain, d: Chain)
    ensures Pieces(Append(c, d)) == Pieces(c) + Pieces(d)
    decreases |c.steps|
  {
    hide IsOr, Pieces;
    var a := Append(c, d);
    PiecesCons(a);
    if c.steps == [] {
      OrIsOr();
      OnlyPiece(c.first);
      assert a.steps[1..] == d.steps && Next(a) == d;
    } else {
      PiecesCons(c);
      assert a.steps[0] == c.steps[0] && Next(a) == Append(Next(c), d);
      PiecesOfAppend(Next(c), d);
    }
  }

  lemma OrIsOr()
    ensures IsOr("OR")
  {
  }

  function Chained(es: seq<Entry>): Chain
    requires es != []
  {
    if |es| == 1 then Wrapped(es[0]) else Append(Wrapped(es[0]), Chained(es[1..]))
  }

  lemma {:induction false} ChainedText(es: seq<Entry>)
    requires es != [] && forall e :: e in es ==> ChainOk(e.chain)
    ensures TextOf(Chained(es)) == JoinOr(EntryTexts(es)) && ChainOk(Chained(es))
  {
    WrappedText(es[0]);
    WrappedOk(es[0]);
    if |es| > 1 {
      ChainedText(es[1..]);
      AppendText(Wrapped(es[0]), Chained(es[1..]));
      AppendOk(Wrapped(es[0]), Chained(es[1..]));
      assert EntryTexts(es)[1..] == EntryTexts(es[1..]);
    } else {
      assert es[1..] == [];
    }
  }

  /** Some branch of the chain is accepted by itself. */
  predicate AnyPiece(ps: seq<Chain>, allowed: AllowList) {
    exists p :: p in ps && IsLicenseAllowed(TextOf(p), allowed)
  }

  lemma {:induction false} AnyEntry(es: seq<Entry>, allowed: AllowList)
    requires es != []
    ensures AnyPiece(Pieces(Chained(es)), allowed) <==> exists e :: e in es && AnyPiece(Pieces(Wrapped(e)), allowed)
  {
    hide IsLicenseAllowed, TextOf, Wrapped, Pieces;
    assert es == [es[0]] + es[1..];
    if |es| > 1 {
      AnyEntry(es[1..], allowed);
      PiecesOfAppend(Wrapped(es[0]), Chained(es[1..]));
    }
  }

  // ----- what an entry contributes -----

  /**
   * A bare entry counts as it is. A parenthesised one with a single branch counts unless it is
   * alone in the list; with more branches, its first and last branch do not count.
   */
  predicate Contributes(e: Entry, alone: bool, allowed: AllowList) {
    var ps := Pieces(e.chain);
    if !e.parens then TreeAllowed(e.chain, allowed)
    else if |ps| == 1 then !alone && TreeAllowed(e.chain, allowed)
    else exists p :: p in ps[1..|ps| - 1] && BranchAllowed(p, allowed)
  }

  /** An id that is not on the list spoils its branch. */
  lemma BadId(p: Chain, id: string, allowed: AllowList)
    requires ChainOk(p) && AllAnd(p) && id in Ids(p) && Sane(allowed)
    requires !Enclosed(id) && StripPlus(id) !in allowed
    ensures !InnerAllowed(TextOf(p), allowed)
    ensures !Enclosed(TextOf(p)) ==> !IsLicenseAllowed(TextOf(p), allowed)
  {
    hide IsLicenseAllowed, InnerAllowed, Trim;
    IdIsToken(p, id);
    LeafAllowed(id, allowed);
    if p.steps == [] {
      assert TextOf(p) == p.first && Ids(p) == [p.first];
      LeafInner(id, allowed);
    } else {
      AndMeans(p, allowed);
      if !Enclosed(TextOf(p)) { ChainIsInner(p, allowed); }
    }
  }

  /** A branch that has only the opening, or only the closing parenthesis, is never accepted. */
  lemma HalfOpen(p: Chain, allowed: AllowList)
    requires PlainChain(p) && AllAnd(p) && Sane(allowed)
    ensures !IsLicenseAllowed(TextOf(Open(p)), allowed)
  {
    hide IsLicenseAllowed, InnerAllowed;
    OpenOk(p);
    var id := "(" + p.first;
    assert id in Ids(Open(p)) && id[0] == '(' && p.first in Ids(p);
    LastIsPlain(p);
    assert TextOf(Open(p)) == "(" + TextOf(p);
    NotOnTheList(id, '(', 0, allowed);
    assert id[|id| - 1] == p.first[|p.first| - 1];
    BadId(Open(p), id, allowed);
  }

  lemma NotOnTheList(id: string, paren: char, k: nat, allowed: AllowList)
    requires Sane(allowed) && k < |id| && id[k] == paren && (paren == '(' || paren == ')')
    ensures StripPlus(id) !in allowed
  {
    var t := StripPlus(id);
    assert t[k] == paren && t[k] in t;
  }

  lemma {:induction false} LastIsPlain(p: Chain)
    requires PlainChain(p)
    ensures TextOf(p) != "" && TextOf(p)[|TextOf(p)| - 1] != ')'
    decreases |p.steps|
  {
    if p.steps == [] {
      assert TextOf(p) == p.first && p.first in Ids(p) && p.first[|p.first| - 1] in p.first;
    } else {
      assert Ids(p)[1..] == Ids(Next(p));
      LastIsPlain(Next(p));
      TextCons(p);
    }
  }

  lemma HalfClosed(p: Chain, allowed: AllowList)
    requires PlainChain(p) && AllAnd(p) && Sane(allowed)
    ensures !IsLicenseAllowed(TextOf(Close(p)), allowed)
  {
    hide IsLicenseAllowed, InnerAllowed;
    CloseOk(p);
    var id := LastClosed(p);
    NotOnTheList(id, ')', |id| - 1, allowed);
    assert Close(p).first[0] == p.first[0] && p.first in Ids(p) && p.first[0] in p.first;
    assert TextOf(Close(p))[0] == p.first[0];
    BadId(Close(p), id, allowed);
  }

  /** The last id of a closed chain ends in the parenthesis and does not begin with one. */
  lemma {:induction false} LastClosed(p: Chain) returns (id: string)
    requires PlainChain(p) && AllAnd(p)
    ensures id in Ids(Close(p)) && id != "" && id[|id| - 1] == ')' && id[0] != '(' && AllAnd(Close(p))
    decreases |p.steps|
  {
    if p.steps == [] {
      id := p.first + ")";
      assert p.first in Ids(p) && p.first[0] in p.first && id[0] == p.first[0];
    } else {
      assert Ids(p)[1..] == Ids(Next(p));
      id := LastClosed(Next(p));
      CloseNext(p);
      assert Ids(Close(p))[1..] == Ids(Next(Close(p)));
      assert forall st :: st in Close(p).steps ==> st == Close(p).steps[0] || st in Next(Close(p)).steps;
      assert p.steps[0] in p.steps;
    }
  }

  lemma WrappedPieces(c: Chain)
    ensures var ps := Pieces(c);
      Pieces(Open(Close(c))) ==
      if |ps| == 1 then [Open(Close(c))] else [Open(ps[0])] + ps[1..|ps| - 1] + [Close(ps[|ps| - 1])]
  {
    hide Open, Close, Pieces;
    PiecesOfClose(c);
    PiecesOfOpen(Close(c));
    if |Pieces(c)| == 1 {
      SinglePiece(c);
    } else {
      FrontReplaced(Pieces(c), Close(Pieces(c)[|Pieces(c)| - 1]));
    }
  }

  lemma FrontReplaced<T>(ps: seq<T>, last: T)
    requires |ps| >= 2
    ensures var qs := ps[..|ps| - 1] + [last];
      qs[0] == ps[0] && qs[1..] == ps[1..|ps| - 1] + [last]
  {
  }

  /** In a longer list: the branches of an entry that are accepted. */
  lemma EntryPieces(e: Entry, allowed: AllowList)
    requires PlainChain(e.chain) && Sane(allowed)
    ensures AnyPiece(Pieces(Wrapped(e)), allowed) <==> Contributes(e, false, allowed)
  {
    hide IsLicenseAllowed, BranchAllowed, TextOf, Pieces, Open, Close;
    var ps := Pieces(e.chain);
    var n := |ps|;
    forall p | p in ps
      ensures PlainChain(p) && AllAnd(p) && (IsLicenseAllowed(TextOf(p), allowed) <==> BranchAllowed(p, allowed))
    {
      PieceOk(e.chain, p);
      BranchMeans(p, allowed);
    }
    if e.parens {
      WrappedPieces(e.chain);
      if n == 1 {
        WrappedText(e);
        EntryMeans(e, allowed);
      } else {
        HalfOpen(ps[0], allowed);
        HalfClosed(ps[n - 1], allowed);
      }
    }
  }

  /** Alone in the list a parenthesised entry gets a second pair, of which only one comes off. */
  lemma AloneInParens(e: Entry, allowed: AllowList)
    requires PlainChain(e.chain) && Sane(allowed) && e.parens
    ensures InnerAllowed(TextOf(Wrapped(e)), allowed) <==> Contributes(e, true, allowed)
  {
    var c, w := e.chain, Wrapped(e);
    WrappedOk(e);
    WrappedPieces(c);
    if |Pieces(c)| == 1 {
      SinglePiece(c);
      DoubleParens(c, allowed);
    } else {
      OrMeans(w, allowed);
      EntryPieces(e, allowed);
    }
  }

  lemma DoubleParens(c: Chain, allowed: AllowList)
    requires PlainChain(c) && AllAnd(c) && Sane(allowed)
    ensures !InnerAllowed(TextOf(Open(Close(c))), allowed)
  {
    var w := Open(Close(c));
    hide InnerAllowed, IsLicenseAllowed;
    CloseOk(c);
    OpenOk(Close(c));
    var id := w.first;
    NotOnTheList(id, '(', 0, allowed);
    assert c.first in Ids(c);
    if c.steps == [] {
      assert TextOf(w) == id;
      LeafInner(id, allowed);
    } else {
      var last := LastClosed(c);
      assert id in Ids(w) && id[|id| - 1] == c.first[|c.first| - 1] && c.first[|c.first| - 1] in c.first;
      BadId(w, id, allowed);
    }
  }

  /** The text that is evaluated for a legacy list. */
  lemma ListIsChained(fs: seq<Field>, es: seq<Entry>, allowed: AllowList)
    requires es != [] && (forall e :: e in es ==> PlainChain(e.chain))
    requires Names(fs) == EntryTexts(es)
    ensures ChainOk(Chained(es))
    ensures IsLicenseAllowed(Extracted(Other, Some(fs)), allowed) <==> InnerAllowed(TextOf(Chained(es)), allowed)
  {
    hide IsLicenseAllowed, InnerAllowed, Wrapped, TextOf, Trim, Chained;
    ChainedText(es);
    ParensComeOff(TextOf(Chained(es)), allowed);
    TextIsTrim(Chained(es));
  }

  lemma AloneMeans(e: Entry, allowed: AllowList)
    requires PlainChain(e.chain) && Sane(allowed)
    ensures InnerAllowed(TextOf(Wrapped(e)), allowed) <==> Contributes(e, true, allowed)
  {
    hide IsLicenseAllowed, InnerAllowed, TextOf;
    if e.parens { AloneInParens(e, allowed); } else { TreeMeans(e.chain, allowed); }
  }

  lemma ManyBranches(es: seq<Entry>)
    requires |es| > 1
    ensures |Pieces(Chained(es))| > 1
  {
    PiecesOfAppend(Wrapped(es[0]), Chained(es[1..]));
  }

  lemma ManyMean(es: seq<Entry>, allowed: AllowList)
    requires |es| > 1 && (forall e :: e in es ==> PlainChain(e.chain)) && Sane(allowed) && ChainOk(Chained(es))
    ensures InnerAllowed(TextOf(Chained(es)), allowed) <==> exists e :: e in es && Contributes(e, false, allowed)
  {
    hide IsLicenseAllowed, InnerAllowed, Contributes, Wrapped, TextOf, Pieces, Chained;
    ManyBranches(es);
    OrMeans(Chained(es), allowed);
    AnyEntry(es, allowed);
    forall e | e in es ensures AnyPiece(Pieces(Wrapped(e)), allowed) <==> Contributes(e, false, allowed) {
      EntryPieces(e, allowed);
    }
  }

  /** Exactly when the string made of a legacy list is allowed, for entries bare or parenthesised. */
  lemma JoinedExactly(fs: seq<Field>, es: seq<Entry>, allowed: AllowList)
    requires es != [] && (forall e :: e in es ==> PlainChain(e.chain)) && Sane(allowed)
    requires Names(fs) == EntryTexts(es)
    ensures IsLicenseAllowed(Extracted(Other, Some(fs)), allowed) <==>
        exists e :: e in es && Contributes(e, |es| == 1, allowed)
  {
    hide IsLicenseAllowed, InnerAllowed, Contributes, Wrapped, TextOf, Extracted, Pieces, EntryTexts, Names, PlainChain;
    ListIsChained(fs, es, allowed);
    if |es| == 1 {
      var e := es[0];
      AloneMeans(e, allowed);
      assert e in es && forall f :: f in es ==> f == e;
      assert Chained(es) == Wrapped(e);
    } else {
      ManyMean(es, allowed);
    }
  }

  /**
   * For bare entries, and for parenthesised entries without an OR in a list of two or more, the
   * joined string is allowed exactly when some entry is.
   */
  lemma JoinedLaw(fs: seq<Field>, es: seq<Entry>, allowed: AllowList)
    requires es != [] && (forall e :: e in es ==> PlainChain(e.chain)) && Sane(allowed)
    requires Names(fs) == EntryTexts(es)
    requires forall e :: e in es ==> !e.parens || (|Pieces(e.chain)| == 1 && |es| > 1)
    ensures IsLicenseAllowed(Extracted(Other, Some(fs)), allowed) <==>
        exists e :: e in es && IsLicenseAllowed(EntryText(e), allowed)
  {
    hide IsLicenseAllowed, TreeAllowed, EntryText, Extracted;
    JoinedExactly(fs, es, allowed);
    forall e | e in es ensures IsLicenseAllowed(EntryText(e), allowed) <==> Contributes(e, |es| == 1, allowed) {
      EntryMeans(e, allowed);
    }
  }

  /** A parenthesised entry alone in the list, with at most two branches, is rejected whatever is allowed. */
  lemma AloneIsLost(fs: seq<Field>, e: Entry, allowed: AllowList)
    requires PlainChain(e.chain) && Sane(allowed) && e.parens && |Pieces(e.chain)| <= 2
    requires Names(fs) == [EntryText(e)]
    ensures !IsLicenseAllowed(Extracted(Other, Some(fs)), allowed)
  {
    hide IsLicenseAllowed, EntryText, Extracted;
    assert EntryTexts([e]) == [EntryText(e)];
    JoinedExactly(fs, [e], allowed);
  }

  /** So `licenses: ["(MIT OR ISC)"]` is rejected, though `license: "(MIT OR ISC)"` is allowed. */
  lemma ParenthesesAreLost()
    ensures IsLicenseAllowed("(MIT OR ISC)", {"MIT", "ISC"})
    ensures !IsLicenseAllowed(Extracted(Other, Some([Str("(MIT OR ISC)")])), {"MIT", "ISC"})
  {
    hide IsLicenseAllowed, Extracted;
    var c := Chain("MIT", [Step(" ", "OR", " ", "ISC")]);
    var e := Entry(c, true);
    MitOrIsc(c);
    assert EntryText(e) == "(MIT OR ISC)";
    EntryMeans(e, {"MIT", "ISC"});
    assert Chain("MIT", []) in Pieces(c) && BranchAllowed(Chain("MIT", []), {"MIT", "ISC"});
    TrimKeeps("(MIT OR ISC)");
    assert Names([Str("(MIT OR ISC)")]) == [EntryText(e)];
    AloneIsLost([Str("(MIT OR ISC)")], e, {"MIT", "ISC"});
  }

  lemma MitOrIsc(c: Chain)
    requires c == Chain("MIT", [Step(" ", "OR", " ", "ISC")])
    ensures PlainChain(c) && Sane({"MIT", "ISC"}) && Pieces(c) == [Chain("MIT", []), Chain("ISC", [])]
    ensures TextOf(c) == "MIT OR ISC"
  {
    hide PlainChain, Sane, Pieces;
    MitOrIscIsPlain(c);
    assert Next(c) == Chain("ISC", []);
    PiecesCons(c);
    OnlyPiece("ISC");
  }

  lemma OnlyPiece(id: string)
    ensures Pieces(Chain(id, [])) == [Chain(id, [])]
  {
  }

  lemma MitOrIscIsPlain(c: Chain)
    requires c == Chain("MIT", [Step(" ", "OR", " ", "ISC")])
    ensures PlainChain(c) && Sane({"MIT", "ISC"})
  {
    ShortIds();
    assert StepOk(c.steps[0]);
    hide IsToken, Plain, StepOk;
    assert Ids(c) == ["MIT", "ISC"];
    assert forall id :: id in Ids(c) ==> id == "MIT" || id == "ISC";
  }

  lemma ShortIds()
    ensures IsToken("MIT") && Plain("MIT") && IsToken("ISC") && Plain("ISC")
  {
    assert |"MIT"| != |"OR"| && |"ISC"| != |"OR"|;
    assert LowerCase('M') != LowerCase('A') && LowerCase('I') != LowerCase('A');
    assert "MIT"[0] == 'M' && "ISC"[0] == 'I';
  }
}
