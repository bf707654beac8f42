/** The block of curated references in the analysis prompt, cut to a character budget. */
module CorpusBudget {
  import opened Sorting
  import opened Text

  const MAX_CORPUS_REFERENCE_ITEMS := 8
  const MAX_CORPUS_REFERENCE_CONTENT_LENGTH := 1200
  const MAX_CORPUS_REFERENCES_LENGTH := 6000

  datatype Reference = Reference(category: string, title: string, content: string, rank: int)

  function Header(x: Reference): string {
    x.category + " rank=" + Decimal(x.rank) + "\n- 제목: " + x.title + "\n- 내용:\n"
  }

  function Take(s: string, n: nat): string { if n < |s| then s[..n] else s }

  function Rank(): Reference -> int { (x: Reference) => x.rank }

  function FirstEight(refs: seq<Reference>): seq<Reference> {
    var sorted := SortBy(refs, Rank());
    if |sorted| <= MAX_CORPUS_REFERENCE_ITEMS then sorted else sorted[..MAX_CORPUS_REFERENCE_ITEMS]
  }

  function Joined(parts: seq<string>): string {
    if |parts| == 0 then ""
    else if |parts| == 1 then parts[0]
    else Joined(parts[..|parts| - 1]) + "\n\n" + parts[|parts| - 1]
  }

  lemma JoinedAppend(parts: seq<string>, part: string)
    ensures |Joined(parts + [part])| == |Joined(parts)| + (if parts == [] then 0 else 2) + |part|
  {
    assert (parts + [part])[..|parts|] == parts;
  }

  function Separator(parts: seq<string>): nat { if parts == [] then 0 else 2 }

  /** The room left for the next reference, its separator already taken off. */
  function Room(parts: seq<string>): int {
    MAX_CORPUS_REFERENCES_LENGTH - |Joined(parts)| - Separator(parts)
  }

  /** A reference with its category, rank and title, and the first `n` characters of its content. */
  ghost predicate Shows(part: string, x: Reference, n: nat) {
    && n <= |x.content|
    && part == x.category + " rank=" + Decimal(x.rank) + "\n- 제목: " + x.title + "\n- 내용:\n" + x.content[..n]
  }

  /** How much of a content is shown when nothing is cut for the sake of the budget. */
  ghost function Limit(x: Reference): nat { if |x.content| < 1200 then |x.content| else 1200 }

  ghost predicate AllFull(parts: seq<string>, refs: seq<Reference>, n: nat)
    requires n <= |parts| && n <= |refs|
  {
    forall i :: 0 <= i < n ==> Shows(parts[i], refs[i], Limit(refs[i]))
  }

  /** A reference that may be cut, but only if that uses up the budget. */
  ghost predicate CutOnlyIf(part: string, x: Reference, usedUp: bool) {
    exists n: nat :: n <= Limit(x) && Shows(part, x, n) && (n < Limit(x) ==> usedUp)
  }

  /** The rendered references are a prefix of the given ones; only the last may be cut for the budget, and then
      it fills the budget. */
  ghost predicate Rendered(parts: seq<string>, refs: seq<Reference>) {
    && |parts| <= |refs| && |Joined(parts)| <= 6000
    && (parts != [] ==>
          && AllFull(parts, refs, |parts| - 1)
          && CutOnlyIf(parts[|parts| - 1], refs[|parts| - 1], |Joined(parts)| == 6000))
  }

  function Render(x: Reference, room: nat): string
    requires room > |Header(x)|
  {
    Header(x) + Take(Take(x.content, MAX_CORPUS_REFERENCE_CONTENT_LENGTH), room - |Header(x)|)
  }

  lemma RenderShows(x: Reference, room: nat)
    requires room > |Header(x)|
    ensures |Render(x, room)| <= room && CutOnlyIf(Render(x, room), x, |Render(x, room)| == room)
    ensures |Render(x, room)| < room ==> Shows(Render(x, room), x, Limit(x))
  {
    var content := Take(x.content, MAX_CORPUS_REFERENCE_CONTENT_LENGTH);
    var n := if room - |Header(x)| < |content| then room - |Header(x)| else |content|;
    assert content == x.content[..Limit(x)];
    assert x.content[..Limit(x)][..n] == x.content[..n];
    assert Render(x, room) == Header(x) + x.content[..n];
    assert Shows(Render(x, room), x, n);
  }

  lemma RenderedAppend(parts: seq<string>, refs: seq<Reference>, part: string)
    requires Rendered(parts, refs) && |parts| < |refs| && AllFull(parts, refs, |parts|)
    requires |part| <= Room(parts) && CutOnlyIf(part, refs[|parts|], |part| == Room(parts))
    ensures Rendered(parts + [part], refs)
    ensures |part| == Room(parts) ==> |Joined(parts + [part])| == 6000
    ensures Shows(part, refs[|parts|], Limit(refs[|parts|])) ==> AllFull(parts + [part], refs, |parts| + 1)
  {
    JoinedAppend(parts, part);
    var n: nat :| n <= Limit(refs[|parts|]) && Shows(part, refs[|parts|], n)
                  && (n < Limit(refs[|parts|]) ==> |part| == Room(parts));
    assert (parts + [part])[|parts|] == part;
  }

  method BuildCorpusReferences(refs: seq<Reference>) returns (references: string, rendered: seq<string>)
    ensures references == Joined(rendered) && |references| <= 6000 && |rendered| <= 8
    ensures Rendered(rendered, FirstEight(refs))
    ensures |rendered| < |FirstEight(refs)| ==> Room(rendered) <= |Header(FirstEight(refs)[|rendered|])|
                                                || |references| == 6000
  {
    rendered := [];
    var usedLength := 0;
    var items := FirstEight(refs);
    var n := 0;
    while n < |items|
      invariant n == |rendered| <= |items|
      invariant usedLength == |Joined(rendered)|
      invariant Rendered(rendered, items) && AllFull(rendered, items, n)
    {
      var separatorLength := if rendered == [] then 0 else 2;
      var availableLength := MAX_CORPUS_REFERENCES_LENGTH - usedLength - separatorLength;
      if availableLength <= |Header(items[n])| {
        break;
      }
      var part := Render(items[n], availableLength);
      RenderShows(items[n], availableLength);
      JoinedAppend(rendered, part);
      RenderedAppend(rendered, items, part);
      rendered := rendered + [part];
      usedLength := usedLength + separatorLength + |part|;
      n := n + 1;
      if |part| >= availableLength {
        break;
      }
    }
    references := Joined(rendered);
  }

  /** The eight references taken are the best-ranked ones: nothing left out ranks before one taken. */
  lemma BestRanked(refs: seq<Reference>)
    ensures var taken := FirstEight(refs);
      && (forall i, j :: 0 <= i < j < |taken| ==> taken[i].rank <= taken[j].rank)
      && |taken| == (if |refs| < 8 then |refs| else 8)
      && multiset(taken) <= multiset(refs)
      && forall x, y :: x in taken && y in multiset(refs) - multiset(taken) ==> x.rank <= y.rank
  {
    var sorted := SortBy(refs, Rank());
    SortMeans(refs, Rank());
    assert |multiset(sorted)| == |sorted| && |multiset(refs)| == |refs|;
    SplitRanks(sorted, |FirstEight(refs)|);
    RanksRise(sorted, |FirstEight(refs)|);
  }

  lemma RanksRise(sorted: seq<Reference>, n: nat)
    requires OrderedBy(sorted, Rank()) && n <= |sorted|
    ensures forall i, j :: 0 <= i < j < n ==> sorted[..n][i].rank <= sorted[..n][j].rank
  {
    forall i, j | 0 <= i < j < n ensures sorted[..n][i].rank <= sorted[..n][j].rank {
      assert Rank()(sorted[i]) <= Rank()(sorted[j]);
    }
  }

  lemma SplitRanks(sorted: seq<Reference>, n: nat)
    requires OrderedBy(sorted, Rank()) && n <= |sorted|
    ensures OrderedBy(sorted[..n], Rank()) && multiset(sorted[..n]) <= multiset(sorted)
    ensures forall x, y :: x in sorted[..n] && y in multiset(sorted) - multiset(sorted[..n]) ==> x.rank <= y.rank
  {
    assert sorted == sorted[..n] + sorted[n..];
    assert multiset(sorted) - multiset(sorted[..n]) == multiset(sorted[n..]);
    forall x, y | x in sorted[..n] && y in sorted[n..] ensures x.rank <= y.rank {
      RanksAcross(sorted, n, x, y);
    }
  }

  lemma RanksAcross(sorted: seq<Reference>, n: nat, x: Reference, y: Reference)
    requires OrderedBy(sorted, Rank()) && n <= |sorted| && x in sorted[..n] && y in sorted[n..]
    ensures x.rank <= y.rank
  {
    var i :| 0 <= i < n && sorted[..n][i] == x;
    var j :| 0 <= j < |sorted| - n && sorted[n..][j] == y;
    assert Rank()(sorted[i]) <= Rank()(sorted[n + j]);
  }
}
