/** The summary statistics and the two chart series, all computed over the
    filtered and sorted cards before pagination (trading_card_gallery.py,
    lines 198-200, 217 and 224-225). */
module Aggregates {
  import opened Wrappers
  import opened Cards

  // ---------------------------------------------------------------------
  // Highest value card (line 199)

  /** `k` is the first position of a largest Approx Value: what `idxmax`
      returns, in the current (sorted) order. */
  predicate IsFirstMaximum(cards: seq<Card>, k: int) {
    && 0 <= k < |cards|
    && (forall j :: 0 <= j < |cards| ==> cards[j].value <= cards[k].value)
    && (forall j :: 0 <= j < k ==> cards[j].value < cards[k].value)
  }

  function FirstMaxIndex(cards: seq<Card>): (k: nat)
    requires cards != []
    ensures IsFirstMaximum(cards, k)
  {
    if |cards| == 1 then 0
    else
      var k := FirstMaxIndex(cards[..|cards| - 1]);
      if cards[|cards| - 1].value > cards[k].value then |cards| - 1 else k
  }

  /** Line 199: no card when nothing is left, otherwise the first card of
      largest Approx Value. */
  function HighestValueCard(cards: seq<Card>): (r: Option<Card>)
    ensures r.None? <==> cards == []
    ensures r.Some? ==> exists k :: IsFirstMaximum(cards, k) && cards[k] == r.value
  {
    if cards == [] then None else Some(cards[FirstMaxIndex(cards)])
  }

  /** Only one position can be the first maximum. */
  lemma FirstMaximumUnique(cards: seq<Card>, k: int, l: int)
    requires IsFirstMaximum(cards, k) && IsFirstMaximum(cards, l)
    ensures k == l
  {
    assert cards[k].value == cards[l].value;
  }

  // ---------------------------------------------------------------------
  // Average value (line 200), kept as its sum and count

  function ValueTotal(cards: seq<Card>): int {
    if cards == [] then 0 else cards[0].value + ValueTotal(cards[1..])
  }

  /** The mean as the exact fraction `total / count`. */
  datatype Mean = Mean(total: int, count: nat)

  /** Line 200 and its use at line 208: no average for no cards. */
  function AverageValue(cards: seq<Card>): (r: Option<Mean>)
    ensures r.None? <==> cards == []
    ensures r.Some? ==> r.value.count == |cards| && r.value.total == ValueTotal(cards)
  {
    if cards == [] then None else Some(Mean(ValueTotal(cards), |cards|))
  }

  /** No card is worth more than the bound, so the sum is at most
      count times the bound. */
  lemma {:induction false} ValueTotalBounded(cards: seq<Card>, bound: int)
    requires forall j :: 0 <= j < |cards| ==> cards[j].value <= bound
    ensures ValueTotal(cards) <= |cards| * bound
  {
    if cards != [] {
      ValueTotalBounded(cards[1..], bound);
    }
  }

  /** The average never exceeds the value of the highest-value card. */
  lemma AverageAtMostHighest(cards: seq<Card>)
    requires cards != []
    ensures AverageValue(cards).value.total <=
            AverageValue(cards).value.count * HighestValueCard(cards).value.value
  {
    ValueTotalBounded(cards, cards[FirstMaxIndex(cards)].value);
  }

  // ---------------------------------------------------------------------
  // Counting labels (value_counts)

  /** How often `k` occurs in `xs`. */
  function Occurrences(xs: seq<string>, k: string): (n: nat)
    ensures n > 0 <==> k in xs
    ensures n <= |xs|
  {
    if xs == [] then 0 else (if xs[0] == k then 1 else 0) + Occurrences(xs[1..], k)
  }

  /** How many elements of `xs` are among `ks`. */
  function CountIn(xs: seq<string>, ks: seq<string>): (n: nat)
    ensures n <= |xs|
    ensures n == |xs| <==> forall i :: 0 <= i < |xs| ==> xs[i] in ks
  {
    if xs == [] then 0 else (if xs[0] in ks then 1 else 0) + CountIn(xs[1..], ks)
  }

  predicate Distinct(ks: seq<string>) {
    forall i, j :: 0 <= i < j < |ks| ==> ks[i] != ks[j]
  }

  /** The distinct elements of `xs`, in order of first occurrence. */
  function Deduplicate(xs: seq<string>): (r: seq<string>)
    ensures Distinct(r)
    ensures forall x :: x in r <==> x in xs
  {
    if xs == [] then []
    else
      var d := Deduplicate(xs[..|xs| - 1]);
      assert xs == xs[..|xs| - 1] + [xs[|xs| - 1]];
      if xs[|xs| - 1] in d then d else d + [xs[|xs| - 1]]
  }

  /** One bar or slice of a chart. */
  datatype LabelCount = LabelCount(key: string, count: nat)

  /** `xs.value_counts()` taken at each of the labels `ks`, in that order. */
  function Tally(ks: seq<string>, xs: seq<string>): (r: seq<LabelCount>)
    ensures |r| == |ks|
    ensures forall i :: 0 <= i < |ks| ==> r[i] == LabelCount(ks[i], Occurrences(xs, ks[i]))
  {
    if ks == [] then [] else [LabelCount(ks[0], Occurrences(xs, ks[0]))] + Tally(ks[1..], xs)
  }

  function Total(t: seq<LabelCount>): nat {
    if t == [] then 0 else t[0].count + Total(t[1..])
  }

  lemma {:induction false} CountInSplit(xs: seq<string>, ks: seq<string>)
    requires ks != [] && ks[0] !in ks[1..]
    ensures CountIn(xs, ks) == Occurrences(xs, ks[0]) + CountIn(xs, ks[1..])
  {
    if xs != [] {
      CountInSplit(xs[1..], ks);
      assert xs[0] in ks <==> xs[0] == ks[0] || xs[0] in ks[1..];
    }
  }

  /** The counts at distinct labels add up to the number of elements that
      carry one of those labels. */
  lemma {:induction false} TotalOfTally(ks: seq<string>, xs: seq<string>)
    requires Distinct(ks)
    ensures Total(Tally(ks, xs)) == CountIn(xs, ks)
  {
    if ks == [] {
      CountInNone(xs);
    } else {
      assert ks[0] !in ks[1..];
      assert Distinct(ks[1..]) by {
        forall i, j | 0 <= i < j < |ks[1..]| ensures ks[1..][i] != ks[1..][j] {
          assert ks[1..][i] == ks[i + 1] && ks[1..][j] == ks[j + 1];
        }
      }
      TotalOfTally(ks[1..], xs);
      CountInSplit(xs, ks);
    }
  }

  lemma {:induction false} CountInNone(xs: seq<string>)
    ensures CountIn(xs, []) == 0
  {
    if xs != [] { CountInNone(xs[1..]); }
  }

  // ---------------------------------------------------------------------
  // Cards by set (line 217)

  function SetNames(cards: seq<Card>): (r: seq<string>)
    ensures |r| == |cards| && forall i :: 0 <= i < |cards| ==> r[i] == cards[i].setName
  {
    if cards == [] then [] else [cards[0].setName] + SetNames(cards[1..])
  }

  /** The labels with a blank (empty) one left out: `value_counts` drops
      missing cells. */
  function NonBlank(xs: seq<string>): (r: seq<string>)
    ensures forall x :: x in r <==> x in xs && x != ""
  {
    if xs == [] then []
    else if xs[0] == "" then NonBlank(xs[1..])
    else [xs[0]] + NonBlank(xs[1..])
  }

  /** Line 217: the number of cards of each set that occurs, for the pie
      chart. The slices are listed in order of first occurrence; pandas lists
      them by decreasing count, an order only the chart's drawing (slice
      placement, labels, colours) depends on. */
  function SetCounts(cards: seq<Card>): (r: seq<LabelCount>)
    ensures forall i, j :: 0 <= i < j < |r| ==> r[i].key != r[j].key
    ensures forall i :: 0 <= i < |r| ==>
      r[i].key != "" && r[i].count > 0 && r[i].count == Occurrences(SetNames(cards), r[i].key)
  {
    var sets := SetNames(cards);
    Tally(Deduplicate(NonBlank(sets)), sets)
  }

  /** Every non-blank set of the filtered cards has a slice. */
  lemma SetCountsExact(cards: seq<Card>)
    ensures var r := SetCounts(cards);
      forall c :: c in cards && c.setName != "" ==>
        exists i :: 0 <= i < |r| && r[i].key == c.setName
  {
    var sets := SetNames(cards);
    var r := SetCounts(cards);
    forall c | c in cards && c.setName != ""
      ensures exists i :: 0 <= i < |r| && r[i].key == c.setName
    {
      var k :| 0 <= k < |cards| && cards[k] == c;
      assert sets[k] == c.setName;
      assert c.setName in Deduplicate(NonBlank(sets));
    }
  }

  lemma {:induction false} CountInNonBlank(xs: seq<string>, ks: seq<string>)
    requires forall i :: 0 <= i < |xs| ==> (xs[i] in ks <==> xs[i] != "")
    ensures CountIn(xs, ks) == |NonBlank(xs)|
  {
    if xs != [] {
      CountInNonBlank(xs[1..], ks);
    }
  }

  /** The slices add up to the number of cards whose Set is not blank: all of
      them when no Set cell is blank. */
  lemma SetCountsTotal(cards: seq<Card>)
    ensures Total(SetCounts(cards)) == |NonBlank(SetNames(cards))|
    ensures (forall i :: 0 <= i < |cards| ==> cards[i].setName != "") ==>
            Total(SetCounts(cards)) == |cards|
  {
    var sets := SetNames(cards);
    TotalOfTally(Deduplicate(NonBlank(sets)), sets);
    CountInNonBlank(sets, Deduplicate(NonBlank(sets)));
    if forall i :: 0 <= i < |cards| ==> cards[i].setName != "" {
      assert CountIn(sets, Deduplicate(NonBlank(sets))) == |sets|;
    }
  }

  // ---------------------------------------------------------------------
  // Cards by condition (lines 224-225)

  /** The fixed order of the condition bars, worst to best. */
  const ConditionOrder: seq<string> :=
    ["PR", "GD", "VG", "VG-EX", "EX", "EX-MT", "NM", "NM-MT", "MT", "GEM MT"]

  function Conditions(cards: seq<Card>): (r: seq<string>)
    ensures |r| == |cards| && forall i :: 0 <= i < |cards| ==> r[i] == cards[i].condition
  {
    if cards == [] then [] else [cards[0].condition] + Conditions(cards[1..])
  }

  /** Lines 224-225: `value_counts().reindex(condition_order, fill_value=0)`:
      one count per label of the fixed order, zero for an absent label;
      conditions outside the order are not shown. */
  function ConditionCounts(cards: seq<Card>): (r: seq<LabelCount>)
    ensures |r| == 10
    ensures forall i :: 0 <= i < 10 ==> r[i].key == ConditionOrder[i]
    ensures forall i :: 0 <= i < 10 ==>
      r[i].count == Occurrences(Conditions(cards), ConditionOrder[i])
    ensures forall i :: 0 <= i < 10 ==>
      (r[i].count == 0 <==> forall j :: 0 <= j < |cards| ==> cards[j].condition != ConditionOrder[i])
  {
    var r := Tally(ConditionOrder, Conditions(cards));
    forall i | 0 <= i < 10
      ensures r[i].count == 0 <==> forall j :: 0 <= j < |cards| ==> cards[j].condition != ConditionOrder[i]
    {
      if r[i].count != 0 {
        var j :| 0 <= j < |cards| && Conditions(cards)[j] == ConditionOrder[i];
      }
    }
    r
  }

  /** The bars add up to at most the number of cards, and to exactly that
      number precisely when every card's condition is one of the ten labels. */
  lemma ConditionCountsTotal(cards: seq<Card>)
    ensures Total(ConditionCounts(cards)) <= |cards|
    ensures Total(ConditionCounts(cards)) == |cards| <==>
            forall i :: 0 <= i < |cards| ==> cards[i].condition in ConditionOrder
  {
    assert Distinct(ConditionOrder);
    TotalOfTally(ConditionOrder, Conditions(cards));
  }
}
