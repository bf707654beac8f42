/** The string operations the analysis code relies on, over sequences of characters. */
module Text {

  /** The characters that `str.strip` removes and that the pattern \s matches. */
  predicate IsSpace(c: char) {
    || '\U{0009}' <= c <= '\U{000D}' || '\U{001C}' <= c <= '\U{0020}'
    || c == '\U{0085}' || c == '\U{00A0}' || c == '\U{1680}' || '\U{2000}' <= c <= '\U{200A}'
    || c == '\U{2028}' || c == '\U{2029}' || c == '\U{202F}' || c == '\U{205F}' || c == '\U{3000}'
  }

  function StripLeft(s: string): string {
    if s != [] && IsSpace(s[0]) then StripLeft(s[1..]) else s
  }

  function StripRight(s: string): string {
    if s != [] && IsSpace(s[|s| - 1]) then StripRight(s[..|s| - 1]) else s
  }

  function Strip(s: string): string {
    StripRight(StripLeft(s))
  }

  /** The text without any whitespace. */
  function Compact(s: string): string {
    if s == [] then []
    else Compact(s[..|s| - 1]) + if IsSpace(s[|s| - 1]) then [] else [s[|s| - 1]]
  }

  predicate OccursAt(hay: string, needle: string, i: nat) {
    i + |needle| <= |hay| && hay[i..i + |needle|] == needle
  }

  predicate Contains(hay: string, needle: string) {
    exists i :: 0 <= i <= |hay| && OccursAt(hay, needle, i)
  }

  lemma ContainsMeans(hay: string, needle: string)
    ensures Contains(hay, needle) <==> exists before, after :: hay == before + needle + after
  {
    if Contains(hay, needle) {
      var i :| 0 <= i <= |hay| && OccursAt(hay, needle, i);
      assert hay == hay[..i] + needle + hay[i + |needle|..];
    }
    if before, after :| hay == before + needle + after {
      assert hay[|before|..|before| + |needle|] == needle;
      assert OccursAt(hay, needle, |before|);
    }
  }

  /** The first position at or after `i`, or -1. */
  function FindFrom(hay: string, needle: string, i: nat): int
    decreases |hay| - i
  {
    if i > |hay| then -1 else if OccursAt(hay, needle, i) then i else FindFrom(hay, needle, i + 1)
  }

  function Find(hay: string, needle: string): int { FindFrom(hay, needle, 0) }

  lemma {:induction false} FindFromFirst(hay: string, needle: string, i: nat)
    ensures var f := FindFrom(hay, needle, i);
      if f < 0 then forall j: nat :: i <= j <= |hay| ==> !OccursAt(hay, needle, j)
      else i <= f && OccursAt(hay, needle, f) && forall j: nat :: i <= j < f ==> !OccursAt(hay, needle, j)
    decreases |hay| - i
  {
    if i <= |hay| && !OccursAt(hay, needle, i) {
      FindFromFirst(hay, needle, i + 1);
    }
  }

  lemma FindIsFirst(hay: string, needle: string)
    requires Contains(hay, needle)
    ensures var f := Find(hay, needle);
      0 <= f && OccursAt(hay, needle, f) && forall j: nat :: j < f ==> !OccursAt(hay, needle, j)
  {
    FindFromFirst(hay, needle, 0);
  }

  // ----- Stripping -----

  predicate Spaces(s: string) { forall i :: 0 <= i < |s| ==> IsSpace(s[i]) }

  predicate Trimmed(s: string) { s == [] || (!IsSpace(s[0]) && !IsSpace(s[|s| - 1])) }

  lemma TailCut(s: string, k: nat)
    requires s != [] && k <= |s| - 1
    ensures s[1..][k..] == s[k + 1..] && s[..k + 1] == [s[0]] + s[1..][..k]
  {}

  lemma {:induction false} StripLeftCut(s: string) returns (n: nat)
    ensures n <= |s| && StripLeft(s) == s[n..] && Spaces(s[..n])
    ensures StripLeft(s) == [] || !IsSpace(StripLeft(s)[0])
  {
    n := 0;
    if s != [] && IsSpace(s[0]) {
      n := StripLeftCut(s[1..]);
      TailCut(s, n);
      n := n + 1;
    }
  }

  lemma {:induction false} StripRightCut(s: string) returns (n: nat)
    ensures n <= |s| && StripRight(s) == s[..n] && Spaces(s[n..])
    ensures StripRight(s) == [] || !IsSpace(StripRight(s)[|StripRight(s)| - 1])
  {
    if s != [] && IsSpace(s[|s| - 1]) {
      n := StripRightCut(s[..|s| - 1]);
      assert s[..|s| - 1][..n] == s[..n] && s[n..] == s[..|s| - 1][n..] + [s[|s| - 1]];
    } else {
      n := |s|;
    }
  }

  /** `Strip` cuts away whitespace at both ends and nothing else. */
  lemma StripCut(s: string) returns (i: nat, j: nat)
    ensures i <= j <= |s| && Strip(s) == s[i..j] && Spaces(s[..i]) && Spaces(s[j..]) && Trimmed(Strip(s))
  {
    i := StripLeftCut(s);
    var n := StripRightCut(s[i..]);
    j := i + n;
    assert s[i..][..n] == s[i..j] && s[i..][n..] == s[j..];
  }

  lemma TrimmedStays(s: string)
    requires Trimmed(s)
    ensures Strip(s) == s
  {}

  lemma StripIdempotent(s: string)
    ensures Strip(Strip(s)) == Strip(s)
  {
    var i, j := StripCut(s);
    TrimmedStays(Strip(s));
  }

  /** Stripping never makes a text longer; it shortens every text it changes. */
  lemma StripShortens(s: string)
    ensures |Strip(s)| <= |s| && (|Strip(s)| == |s| ==> Strip(s) == s)
  {
    var i, j := StripCut(s);
  }

  lemma StripBlank(s: string)
    ensures Strip(s) == "" <==> Spaces(s)
  {
    var i, j := StripCut(s);
    if i < j {
      assert s[i..j][0] == s[i];
    } else {
      assert s == s[..i] + s[j..];
    }
  }

  lemma ContainsSelf(s: string)
    ensures Contains(s, s)
  {
    assert OccursAt(s, s, 0);
  }

  // ----- Compacting -----

  lemma {:induction false} CompactAppend(s: string, t: string)
    ensures Compact(s + t) == Compact(s) + Compact(t)
  {
    if t == [] {
      assert s + t == s;
    } else {
      CompactAppend(s, t[..|t| - 1]);
      assert (s + t)[..|s + t| - 1] == s + t[..|t| - 1];
    }
  }

  lemma {:induction false} CompactSpaces(s: string)
    requires Spaces(s)
    ensures Compact(s) == []
  {
    if s != [] {
      CompactSpaces(s[..|s| - 1]);
    }
  }

  lemma CompactStrip(s: string)
    ensures Compact(Strip(s)) == Compact(s)
  {
    var i, j := StripCut(s);
    assert s == s[..i] + s[i..j] + s[j..];
    CompactAppend(s[..i] + s[i..j], s[j..]);
    CompactAppend(s[..i], s[i..j]);
    CompactSpaces(s[..i]);
    CompactSpaces(s[j..]);
  }

  /** Only a blank text has nothing left without its whitespace. */
  lemma CompactBlank(s: string)
    ensures Compact(s) == "" <==> Strip(s) == ""
  {
    CompactStrip(s);
    var i, j := StripCut(s);
    var t := Strip(s);
    if t != "" {
      assert t == t[..|t| - 1] + [t[|t| - 1]];
    }
  }

  // ----- Numbers in print -----

  function Digit(n: nat): char
    requires n < 10
  {
    "0123456789"[n]
  }

  function Natural(n: nat): string {
    if n < 10 then [Digit(n)] else Natural(n / 10) + [Digit(n % 10)]
  }

  function Decimal(n: int): string { if n < 0 then "-" + Natural(-n) else Natural(n) }

  predicate Digits(s: string) { s != "" && forall i :: 0 <= i < |s| ==> '0' <= s[i] <= '9' }

  /** The number a run of digits stands for. */
  function Reading(s: string): nat
    requires forall i :: 0 <= i < |s| ==> '0' <= s[i] <= '9'
  {
    if s == "" then 0 else 10 * Reading(s[..|s| - 1]) + (s[|s| - 1] as int - '0' as int)
  }

  lemma DigitReads(n: nat)
    requires n < 10
    ensures Digit(n) as int == '0' as int + n
  {}

  lemma {:induction false} NaturalReads(n: nat)
    ensures Digits(Natural(n)) && Reading(Natural(n)) == n
    ensures n > 0 ==> Natural(n)[0] != '0'
    ensures n == 0 ==> Natural(n) == "0"
  {
    DigitReads(n % 10);
    if n >= 10 {
      NaturalReads(n / 10);
      assert Natural(n)[..|Natural(n)| - 1] == Natural(n / 10);
    } else {
      assert Natural(n)[..0] == "";
    }
  }

  /** Printed integers read back: digits without leading zeros, after a minus sign for negative ones. */
  lemma DecimalReads(n: int)
    ensures n >= 0 ==> Digits(Decimal(n)) && Reading(Decimal(n)) == n && (n > 0 ==> Decimal(n)[0] != '0')
    ensures n < 0 ==> Decimal(n)[0] == '-' && Digits(Decimal(n)[1..]) && Reading(Decimal(n)[1..]) == -n
                      && Decimal(n)[1] != '0'
  {
    if n < 0 {
      NaturalReads(-n);
      assert Decimal(n)[1..] == Natural(-n);
    } else {
      NaturalReads(n);
    }
  }
}
