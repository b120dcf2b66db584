/** Searching and trimming, as JavaScript strings do it. */
module Text {
  import opened Common

  function Starts(s: string, d: string): bool { |s| >= |d| && s[..|d|] == d }

  /** The first place where `d` occurs in `s`. */
  function Find(s: string, d: string): (r: Option<nat>)
    ensures r.Some? ==> r.value + |d| <= |s|
    decreases |s|
  {
    if Starts(s, d) then Some(0)
    else if s == "" then None
    else match Find(s[1..], d) case Some(k) => Some(k + 1) case None => None
  }

  /** `d` occurs in `s` at `k`. */
  predicate At(s: string, d: string, k: nat) { k + |d| <= |s| && s[k..k + |d|] == d }

  lemma {:induction false} FindIs(s: string, d: string, k: nat)
    requires At(s, d, k) && forall i: nat :: i < k ==> !At(s, d, i)
    ensures Find(s, d) == Some(k)
    decreases |s|
  {
    assert At(s, d, 0) <==> Starts(s, d);
    if k > 0 {
      assert !At(s, d, 0);
      forall i: nat | i < k - 1 ensures !At(s[1..], d, i) {
        assert !At(s, d, i + 1);
        assert i + 1 + |d| <= |s| ==> s[1..][i..i + |d|] == s[i + 1..i + 1 + |d|];
      }
      assert s[1..][k - 1..k - 1 + |d|] == s[k..k + |d|];
      FindIs(s[1..], d, k - 1);
    }
  }

  /** A text without the first character of `d` is passed over. */
  lemma FindPast(a: string, d: string, rest: string)
    requires d != "" && d[0] !in a
    ensures Find(a + d + rest, d) == Some(|a|)
  {
    var s := a + d + rest;
    assert s[|a|..|a| + |d|] == d;
    forall i: nat | i < |a| ensures !At(s, d, i) {
      assert i + |d| <= |s| ==> s[i..i + |d|][0] == a[i];
    }
    FindIs(s, d, |a|);
  }

  lemma {:induction false} FindSound(s: string, d: string)
    ensures match Find(s, d)
            case Some(k) => At(s, d, k) && forall i: nat :: i < k ==> !At(s, d, i)
            case None => forall i: nat :: !At(s, d, i)
    decreases |s|
  {
    assert At(s, d, 0) <==> Starts(s, d);
    if !Starts(s, d) && s != "" {
      FindSound(s[1..], d);
      forall i: nat | i > 0 && i + |d| <= |s| ensures At(s, d, i) <==> At(s[1..], d, i - 1) {
        assert s[1..][i - 1..i - 1 + |d|] == s[i..i + |d|];
      }
    }
  }

  /** Nothing is found earlier than the first place, which is one. */
  lemma NotBefore(s: string, d: string, i: nat)
    requires Find(s, d).None? || i < Find(s, d).value
    ensures !At(s, d, i)
  {
    FindSound(s, d);
  }

  lemma MustBeFound(s: string, d: string, i: nat)
    requires At(s, d, i)
    ensures Find(s, d).Some?
  {
    FindSound(s, d);
  }

  lemma FirstIsAt(s: string, d: string)
    requires Find(s, d).Some?
    ensures At(s, d, Find(s, d).value)
  {
    FindSound(s, d);
  }

  /** The last place where `d` occurs in `s` at or before `k`; `lastIndexOf`. */
  function FindLast(s: string, d: string, k: nat): (r: Option<nat>)
    ensures r.Some? ==> r.value <= k && At(s, d, r.value)
    ensures forall i: nat :: i <= k && At(s, d, i) ==> r.Some? && i <= r.value
  {
    if At(s, d, k) then Some(k) else if k == 0 then None else FindLast(s, d, k - 1)
  }

  /** White space of `trim` and of `\s`. */
  predicate IsSpace(c: char) {
    var n := c as int;
    || 0x09 <= n <= 0x0D || n == 0x20 || n == 0xA0 || n == 0x1680 || 0x2000 <= n <= 0x200A
    || n == 0x2028 || n == 0x2029 || n == 0x202F || n == 0x205F || n == 0x3000 || n == 0xFEFF
  }

  function TrimStart(s: string): (r: string)
    ensures |r| <= |s|
    ensures r != "" ==> !IsSpace(r[0])
  {
    if s != "" && IsSpace(s[0]) then TrimStart(s[1..]) else s
  }

  function TrimEnd(s: string): (r: string)
    ensures r <= s
    ensures r != "" ==> !IsSpace(r[|r| - 1])
  {
    if s != "" && IsSpace(s[|s| - 1]) then TrimEnd(s[..|s| - 1]) else s
  }

  function Trim(s: string): (r: string)
    ensures |r| <= |s|
  {
    TrimEnd(TrimStart(s))
  }

  /** Without space at either end there is nothing to trim. */
  lemma TrimKeeps(s: string)
    requires s != "" ==> !IsSpace(s[0]) && !IsSpace(s[|s| - 1])
    ensures Trim(s) == s
  {
  }

  function LowerCase(c: char): char {
    if 'A' <= c <= 'Z' then (c as int + 32) as char else c
  }

  predicate EqualIgnoreCase(a: string, b: string) {
    |a| == |b| && forall i :: 0 <= i < |a| ==> LowerCase(a[i]) == LowerCase(b[i])
  }

  /** The body of a literal: escapes take the next character with them; a bare quote ends it. */
  predicate BodyOk(q: char, body: string, closed: bool) {
    if body == "" then true
    else if body[0] == '\\' then (if |body| == 1 then !closed else BodyOk(q, body[2..], closed))
    else body[0] != q && BodyOk(q, body[1..], closed)
  }
}
