/**
 * The dictionary resolver (packages/packs): from the candidate spans its expressions find, the longest that do not
 * overlap, one per product family, each with its text from the original input.
 */
module Resolver {
  import opened Common
  import opened Sorting

  // ------------------------------------------------------------------------------------------
  // Blanking
  // ------------------------------------------------------------------------------------------

  /** Half-open character ranges. */
  datatype Range = Range(start: nat, end: nat)

  /** Each found range is replaced by as many spaces. */
  function Blanked(text: string, found: seq<Range>): (r: string)
    ensures |r| == |text|
    ensures forall f, i | f in found && f.start <= i < f.end && i < |text| :: r[i] == ' '
    ensures forall i | 0 <= i < |text| :: r[i] == text[i] || (r[i] == ' ' && exists f :: f in found && f.start <= i < f.end)
  {
    seq(|text|, (i: nat) requires i < |text| => if exists f | f in found :: f.start <= i < f.end then ' ' else text[i])
  }

  // ------------------------------------------------------------------------------------------
  // Spans
  // ------------------------------------------------------------------------------------------

  /** A match of one of a family's expressions. */
  datatype Span = Span(family: string, start: nat, end: nat)

  predicate IsAlphanumeric(c: char) {
    ('a' <= c <= 'z') || ('A' <= c <= 'Z') || ('0' <= c <= '9')
  }

  predicate IsCurrency(c: char) {
    c == '\U{00A3}' || c == '$' || c == '\U{20AC}'
  }

  /** A match stands alone: not empty, no letter, digit or currency sign before it, no letter or digit after it. */
  predicate StandsAlone(text: string, s: Span) {
    && s.start < s.end <= |text|
    && !(s.start > 0 && (IsAlphanumeric(text[s.start - 1]) || IsCurrency(text[s.start - 1])))
    && !(s.end < |text| && IsAlphanumeric(text[s.end]))
  }

  /** Letters and digits, by their ASCII codes. */
  predicate InWord(c: char) {
    var code := c as int;
    97 <= code <= 122 || 65 <= code <= 90 || 48 <= code <= 57
  }

  /** The characters that may stand beside a match: no letter or digit on either side, no pound, dollar or euro before. */
  lemma StandsAloneExactly(text: string, s: Span)
    ensures StandsAlone(text, s) <==>
      && s.start < s.end <= |text|
      && (s.start == 0 || (!InWord(text[s.start - 1]) && (text[s.start - 1] as int) !in {163, 36, 8364}))
      && (s.end == |text| || !InWord(text[s.end]))
  {
  }

  function Candidates(text: string, found: seq<Span>): seq<Span> {
    if found == [] then [] else
      var init, last := Candidates(text, found[..|found| - 1]), found[|found| - 1];
      if StandsAlone(text, last) then init + [last] else init
  }

  /** Longest first, then leftmost. */
  predicate Longer(a: Span, b: Span) {
    if a.end - a.start != b.end - b.start then a.end - a.start > b.end - b.start else a.start < b.start
  }

  predicate Apart(a: Span, b: Span) {
    a.end <= b.start || a.start >= b.end
  }

  predicate ClearOf(s: Span, kept: seq<Span>) {
    forall k | k in kept :: Apart(s, k)
  }

  /** The greedy pass over the spans in order. */
  function Kept(spans: seq<Span>): seq<Span> {
    if spans == [] then [] else
      var init, last := Kept(spans[..|spans| - 1]), spans[|spans| - 1];
      if ClearOf(last, init) then init + [last] else init
  }

  predicate Lefter(a: Span, b: Span) {
    a.start < b.start
  }

  predicate HasFamily(spans: seq<Span>, family: string) {
    exists s | s in spans :: s.family == family
  }

  /** The first span of each family. */
  function OnePerFamily(spans: seq<Span>): seq<Span> {
    if spans == [] then [] else
      var init, last := spans[..|spans| - 1], spans[|spans| - 1];
      if HasFamily(init, last.family) then OnePerFamily(init) else OnePerFamily(init) + [last]
  }

  datatype ProductMatch = ProductMatch(family: string, key: Option<string>, text: string, index: nat)

  /** `variant` picks the product key from the text around a span, where the family has more than one. */
  function MatchOf(input: string, s: Span, variant: Span -> Option<string>): ProductMatch
    requires s.end <= |input| && s.start <= s.end
  {
    ProductMatch(s.family, variant(s), input[s.start..s.end], s.start)
  }

  // ------------------------------------------------------------------------------------------
  // What is kept
  // ------------------------------------------------------------------------------------------

  ghost predicate Solid(spans: seq<Span>) {
    forall s | s in spans :: s.start < s.end
  }

  ghost predicate AllApart(spans: seq<Span>) {
    forall i, j | 0 <= i < j < |spans| :: Apart(spans[i], spans[j])
  }

  lemma {:induction false} KeptAreApart(spans: seq<Span>)
    ensures AllApart(Kept(spans)) && forall s | s in Kept(spans) :: s in spans
  {
    if spans != [] {
      var init, last := spans[..|spans| - 1], spans[|spans| - 1];
      KeptAreApart(init);
      forall i | 0 <= i < |Kept(init)| ensures ClearOf(last, Kept(init)) ==> Apart(Kept(init)[i], last) {
        assert Kept(init)[i] in Kept(init);
      }
    }
  }

  /** What is kept so far only grows. */
  lemma {:induction false} KeptGrows(spans: seq<Span>, n: nat)
    requires n <= |spans|
    ensures Kept(spans[..n]) <= Kept(spans)
  {
    if n < |spans| {
      KeptGrows(spans[..|spans| - 1], n);
      assert spans[..|spans| - 1][..n] == spans[..n];
    } else {
      assert spans[..n] == spans;
    }
  }

  /**
   * The pass is maximal: a span is kept exactly when it overlaps nothing kept before it in the length-then-start order;
   * so every rejected span overlaps a kept one that precedes it.
   */
  lemma KeptExactlyWhenClear(spans: seq<Span>, n: nat)
    requires n < |spans| && Solid(spans)
    ensures spans[n] in Kept(spans) <==> ClearOf(spans[n], Kept(spans[..n])) || spans[n] in Kept(spans[..n])
    ensures spans[n] !in Kept(spans) ==> exists k :: k in Kept(spans[..n]) && k in Kept(spans) && !Apart(spans[n], k)
  {
    var before, s := Kept(spans[..n]), spans[n];
    assert spans[..n + 1][..n] == spans[..n];
    KeptGrows(spans, n);
    KeptGrows(spans, n + 1);
    if s !in before && !ClearOf(s, before) {
      var k :| k in before && !Apart(s, k);
      assert k in Kept(spans);
      OverlappingIsNotKept(spans, s, k);
    }
  }

  lemma OverlappingIsNotKept(spans: seq<Span>, s: Span, k: Span)
    requires k in Kept(spans) && !Apart(s, k) && s != k
    ensures s !in Kept(spans)
  {
    KeptAreApart(spans);
    var kept := Kept(spans);
    var j :| 0 <= j < |kept| && kept[j] == k;
    forall i | 0 <= i < |kept| ensures kept[i] != s {
      if i < j { assert Apart(kept[i], kept[j]); } else if j < i { assert Apart(kept[j], kept[i]); }
    }
  }

  lemma LongerIsAnOrder()
    ensures WeakOrder(Longer) && WeakOrder(Lefter)
  {
  }

  /** The two share a character, and `k` is the longer, or as long and not to the right. */
  predicate Beats(k: Span, s: Span) {
    && k.start < s.end && s.start < k.end
    && k.end - k.start >= s.end - s.start && (k.end - k.start == s.end - s.start ==> k.start <= s.start)
  }

  /** No kept span is shorter than one rejected for it: an overlap is always lost to a longer, or earlier, match. */
  lemma RejectedForALonger(spans: seq<Span>, n: nat)
    requires n < |spans| && Solid(spans) && InOrder(Longer, spans) && spans[n] !in Kept(spans)
    ensures exists k :: k in Kept(spans) && Beats(k, spans[n])
  {
    KeptExactlyWhenClear(spans, n);
    var k :| k in Kept(spans[..n]) && k in Kept(spans) && !Apart(spans[n], k);
    KeptAreApart(spans[..n]);
    var m :| 0 <= m < n && spans[m] == k;
    assert !Longer(spans[n], spans[m]) && Beats(k, spans[n]);
  }

  // ------------------------------------------------------------------------------------------
  // Order and families
  // ------------------------------------------------------------------------------------------

  ghost predicate Increasing(spans: seq<Span>) {
    forall i, j | 0 <= i < j < |spans| :: spans[i].end <= spans[j].start
  }

  /** A predicate symmetric in its arguments holds pairwise of any reordering. */
  lemma {:induction false} InsertApart(x: Span, spans: seq<Span>)
    requires AllApart(spans) && ClearOf(x, spans)
    ensures AllApart(Insert(Lefter, x, spans))
  {
    if spans != [] && Lefter(spans[0], x) {
      InsertApart(x, spans[1..]);
      InsertKeeps(Lefter, x, spans[1..]);
      var rest := Insert(Lefter, x, spans[1..]);
      forall k | 0 <= k < |rest| ensures Apart(spans[0], rest[k]) {
        assert rest[k] in multiset(rest);
        assert rest[k] == x || rest[k] in spans[1..];
        if rest[k] != x {
          var m :| 1 <= m < |spans| && spans[m] == rest[k];
          assert Apart(spans[0], spans[m]);
        } else {
          assert spans[0] in spans && Apart(x, spans[0]);
        }
      }
    } else {
      forall k | 0 <= k < |spans| ensures Apart(x, spans[k]) { assert spans[k] in spans; }
    }
  }

  lemma {:induction false} SortedApart(spans: seq<Span>)
    requires AllApart(spans)
    ensures AllApart(Sorted(Lefter, spans))
  {
    if spans != [] {
      SortedApart(spans[1..]);
      SortedKeeps(Lefter, spans[1..]);
      forall s | s in Sorted(Lefter, spans[1..]) ensures Apart(spans[0], s) {
        assert s in spans[1..];
        var m :| 1 <= m < |spans| && spans[m] == s;
        assert Apart(spans[0], spans[m]);
      }
      InsertApart(spans[0], Sorted(Lefter, spans[1..]));
    }
  }

  /** Kept spans in text order do not touch each other's characters, so their starts strictly increase. */
  lemma SortedKeptIncrease(spans: seq<Span>)
    requires Solid(spans)
    ensures Increasing(Sorted(Lefter, Kept(spans))) && Solid(Sorted(Lefter, Kept(spans)))
    ensures forall s :: s in Sorted(Lefter, Kept(spans)) <==> s in Kept(spans)
  {
    KeptAreApart(spans);
    SortedApart(Kept(spans));
    SortedKeeps(Lefter, Kept(spans));
    LongerIsAnOrder();
    SortedSorts(Lefter, Kept(spans));
    var sorted := Sorted(Lefter, Kept(spans));
    forall i, j | 0 <= i < j < |sorted| ensures sorted[i].end <= sorted[j].start {
      assert !Lefter(sorted[j], sorted[i]) && Apart(sorted[i], sorted[j]);
      assert sorted[i] in sorted && sorted[j] in sorted;
    }
  }

  lemma {:induction false} ChosenAreSpans(spans: seq<Span>)
    ensures forall s | s in OnePerFamily(spans) :: s in spans
  {
    if spans != [] { ChosenAreSpans(spans[..|spans| - 1]); }
  }

  /** The chosen spans stay in order. */
  lemma {:induction false} ChosenIncrease(spans: seq<Span>)
    requires Increasing(spans)
    ensures Increasing(OnePerFamily(spans))
  {
    if spans != [] {
      var init, last := spans[..|spans| - 1], spans[|spans| - 1];
      var chosen := OnePerFamily(init);
      ChosenIncrease(init);
      ChosenAreSpans(init);
      forall i | 0 <= i < |chosen| ensures chosen[i].end <= last.start {
        assert chosen[i] in chosen;
        var k :| 0 <= k < |init| && init[k] == chosen[i];
        assert spans[k].end <= spans[|spans| - 1].start;
      }
    }
  }

  /** No family twice. */
  lemma {:induction false} OneEachFamily(spans: seq<Span>)
    ensures forall i, j | 0 <= i < j < |OnePerFamily(spans)| :: OnePerFamily(spans)[i].family != OnePerFamily(spans)[j].family
  {
    if spans != [] {
      var init, last := spans[..|spans| - 1], spans[|spans| - 1];
      var chosen := OnePerFamily(init);
      OneEachFamily(init);
      ChosenAreSpans(init);
      forall i | 0 <= i < |chosen| ensures !HasFamily(init, last.family) ==> chosen[i].family != last.family {
        assert chosen[i] in chosen;
      }
    }
  }

  /** Some span of the family is chosen, not to the right of `s`: by index, so that order can be compared. */
  lemma {:induction false} LeftmostByIndex(spans: seq<Span>, n: nat) returns (k: nat)
    requires n < |spans|
    ensures k <= n && spans[k].family == spans[n].family && spans[k] in OnePerFamily(spans)
    decreases |spans|
  {
    var init, last := spans[..|spans| - 1], spans[|spans| - 1];
    if n < |init| {
      k := LeftmostByIndex(init, n);
    } else if HasFamily(init, last.family) {
      var other :| other in init && other.family == last.family;
      var m :| 0 <= m < |init| && init[m] == other;
      k := LeftmostByIndex(init, m);
    } else {
      k := n;
    }
  }

  /** Every family found has its match, and it is the family's leftmost span. */
  lemma LeftmostIsChosen(spans: seq<Span>, s: Span) returns (m: Span)
    requires Increasing(spans) && Solid(spans) && s in spans
    ensures m in OnePerFamily(spans) && m.family == s.family && m.start <= s.start
  {
    var n :| 0 <= n < |spans| && spans[n] == s;
    var k := LeftmostByIndex(spans, n);
    m := spans[k];
    assert m in spans && m.start < m.end;
  }

  // ------------------------------------------------------------------------------------------
  // The resolver
  // ------------------------------------------------------------------------------------------

  function Chosen(text: string, found: seq<Span>): seq<Span> {
    OnePerFamily(Sorted(Lefter, Kept(Sorted(Longer, Candidates(text, found)))))
  }

  lemma {:induction false} CandidatesAre(text: string, found: seq<Span>)
    ensures forall s :: s in Candidates(text, found) <==> s in found && StandsAlone(text, s)
  {
    if found != [] {
      CandidatesAre(text, found[..|found| - 1]);
      assert found == found[..|found| - 1] + [found[|found| - 1]];
    }
  }

  lemma ChosenAreSound(text: string, found: seq<Span>)
    ensures Increasing(Chosen(text, found))
    ensures forall s | s in Chosen(text, found) :: s in found && StandsAlone(text, s)
  {
    var candidates := Candidates(text, found);
    var sorted := Sorted(Longer, candidates);
    CandidatesAre(text, found);
    SortedKeeps(Longer, candidates);
    KeptAreApart(sorted);
    SortedKeptIncrease(sorted);
    ChosenIncrease(Sorted(Lefter, Kept(sorted)));
    ChosenAreSpans(Sorted(Lefter, Kept(sorted)));
  }

  /**
   * Nothing that stands alone is passed over for nothing: each such span either overlaps a kept span at least as long
   * that precedes it in the order, or its family is reported at its place or to the left of it.
   */
  lemma EverySpanIsAccountedFor(text: string, found: seq<Span>, s: Span)
    requires s in found && StandsAlone(text, s)
    ensures
      var kept := Kept(Sorted(Longer, Candidates(text, found)));
      || (exists m :: m in Chosen(text, found) && m.family == s.family && m.start <= s.start)
      || (exists k :: k in kept && Beats(k, s))
  {
    var sorted := Sorted(Longer, Candidates(text, found));
    CandidatesAre(text, found);
    SortedKeeps(Longer, Candidates(text, found));
    LongerIsAnOrder();
    SortedSorts(Longer, Candidates(text, found));
    assert s in sorted;
    var n :| 0 <= n < |sorted| && sorted[n] == s;
    if s in Kept(sorted) {
      SortedKeptIncrease(sorted);
      var m := LeftmostIsChosen(Sorted(Lefter, Kept(sorted)), s);
    } else {
      RejectedForALonger(sorted, n);
    }
  }

  /** The greedy loop. */
  method KeepLongest(spans: seq<Span>) returns (kept: seq<Span>)
    ensures kept == Kept(spans)
  {
    kept := [];
    for i := 0 to |spans|
      invariant kept == Kept(spans[..i])
    {
      assert spans[..i + 1][..i] == spans[..i];
      if ClearOf(spans[i], kept) { kept := kept + [spans[i]]; }
    }
    assert spans[..|spans|] == spans;
  }

  method FilterCandidates(text: string, found: seq<Span>) returns (spans: seq<Span>)
    ensures spans == Candidates(text, found)
  {
    spans := [];
    for i := 0 to |found|
      invariant spans == Candidates(text, found[..i])
    {
      assert found[..i + 1][..i] == found[..i];
      if StandsAlone(text, found[i]) { spans := spans + [found[i]]; }
    }
    assert found[..|found|] == found;
  }

  /** The last loop: the first span of each family not seen before. */
  method FirstOfEachFamily(spans: seq<Span>) returns (chosen: seq<Span>)
    ensures chosen == OnePerFamily(spans)
  {
    chosen := [];
    var seen: set<string> := {};
    for i := 0 to |spans|
      invariant chosen == OnePerFamily(spans[..i])
      invariant forall family :: family in seen <==> HasFamily(spans[..i], family)
    {
      assert spans[..i + 1][..i] == spans[..i] && spans[..i + 1] == spans[..i] + [spans[i]];
      if spans[i].family !in seen {
        chosen, seen := chosen + [spans[i]], seen + {spans[i].family};
      }
    }
    assert spans[..|spans|] == spans;
  }

  /** The chosen spans, left to right: apart, of different families, and each a piece of the text. */
  lemma ChosenFit(text: string, found: seq<Span>)
    ensures var chosen := Chosen(text, found);
      && (forall i | 0 <= i < |chosen| :: chosen[i].start < chosen[i].end <= |text|)
      && (forall i, j | 0 <= i < j < |chosen| ::
            chosen[i].end <= chosen[j].start && chosen[i].family != chosen[j].family)
  {
    var chosen := Chosen(text, found);
    ChosenAreSound(text, found);
    OneEachFamily(Sorted(Lefter, Kept(Sorted(Longer, Candidates(text, found)))));
    forall i | 0 <= i < |chosen| ensures StandsAlone(text, chosen[i]) { assert chosen[i] in chosen; }
  }

  /**
   * The matches of one text. `optiplex` are the ranges blanked first, `found` what the families' expressions match in
   * the blanked text.
   */
  method Resolve(input: string, optiplex: seq<Range>, found: seq<Span>, variant: Span -> Option<string>)
    returns (matches: seq<ProductMatch>)
    ensures var chosen := Chosen(Blanked(input, optiplex), found);
      && |matches| == |chosen|
      && forall i | 0 <= i < |matches| ::
           && chosen[i].start <= chosen[i].end <= |input|
           && matches[i] == MatchOf(input, chosen[i], variant)
    ensures forall i, j | 0 <= i < j < |matches| ::
              matches[i].index + |matches[i].text| <= matches[j].index && matches[i].family != matches[j].family
    ensures forall i | 0 <= i < |matches| ::
              && matches[i].text != "" && matches[i].index + |matches[i].text| <= |input|
              && matches[i].text == input[matches[i].index..matches[i].index + |matches[i].text|]
  {
    var text := Blanked(input, optiplex);
    var spans := FilterCandidates(text, found);
    var kept := KeepLongest(Sorted(Longer, spans));
    var chosen := FirstOfEachFamily(Sorted(Lefter, kept));
    ChosenFit(text, found);
    matches := Matched(input, chosen, variant);
  }

  /** Reads each chosen span back out of the input. */
  method Matched(input: string, chosen: seq<Span>, variant: Span -> Option<string>) returns (matches: seq<ProductMatch>)
    requires forall i | 0 <= i < |chosen| :: chosen[i].start <= chosen[i].end <= |input|
    ensures |matches| == |chosen| && forall i | 0 <= i < |chosen| :: matches[i] == MatchOf(input, chosen[i], variant)
  {
    matches := [];
    for i := 0 to |chosen|
      invariant |matches| == i
      invariant forall j | 0 <= j < i :: matches[j] == MatchOf(input, chosen[j], variant)
    {
      matches := matches + [MatchOf(input, chosen[i], variant)];
    }
  }
}
