/** The whole collection query: filter by category, filter by search text,
    sort, summarise, paginate (trading_card_gallery.py, lines 170-250). The
    table and the widget values come in as values; every interaction runs the
    query afresh. */
module Pipeline {
  import opened Wrappers
  import opened Cards
  import opened Filters
  import opened Sorting
  import opened Aggregates
  import opened Paging

  /** The widget values: search text, category box, sort box and the
      requested page. */
  datatype Query = Query(search: string, category: string, sort: string, requestedPage: int)

  /** What the page displays. */
  datatype View = View(
    cards: seq<Card>,
    totalCards: nat,
    highest: Option<Card>,
    average: Option<Mean>,
    setCounts: seq<LabelCount>,
    conditionCounts: seq<LabelCount>,
    totalPages: nat,
    page: seq<Card>)

  /** The page slider ranges over `1..total_pages`, so the page it reports
      is the requested one brought into that range. */
  function SliderValue(requested: int, totalPages: nat): (p: int)
    ensures totalPages >= 1 ==> 1 <= p <= totalPages
    ensures 1 <= requested <= totalPages ==> p == requested
  {
    if requested < 1 then 1 else if requested > totalPages then totalPages else requested
  }

  /** The filtered cards, before they are sorted: each card passing both
      filters as often as in the dataset, no other card, and in the
      dataset's order. */
  function Filtered(dataset: seq<Card>, q: Query): (r: seq<Card>)
    ensures forall c: Card ::
      multiset(r)[c] ==
        (if (q.category == AllCategories || c.category == q.category)
            && (q.search == "" || MentionsQuery(c, q.search))
         then multiset(dataset)[c] else 0)
    ensures IsSubsequence(r, dataset)
  {
    var byCategory := FilterCategory(dataset, q.category);
    var r := FilterSearch(byCategory, q.search);
    assert IsSubsequence(r, dataset) by {
      if q.category == AllCategories && q.search == "" {
        SubsequenceReflexive(dataset);
      } else if q.category != AllCategories && q.search != "" {
        SubsequenceTransitive(r, byCategory, dataset);
      }
    }
    r
  }

  function Run(dataset: seq<Card>, q: Query): (r: Result<View, SortError>)
    ensures r.Failure? <==>
      ModeOf(q.sort).Some? && ModeOf(q.sort).value.ByName() && !AllNamesKeyed(Filtered(dataset, q))
    ensures r.Success? ==>
      var v := r.value;
      && multiset(v.cards) == multiset(Filtered(dataset, q))
      && (ModeOf(q.sort).Some? ==> Sorted(ModeOf(q.sort).value, v.cards))
      && (ModeOf(q.sort).None? ==> v.cards == Filtered(dataset, q))
      && v.totalCards == |v.cards|
      && v.totalPages == PageCount(|v.cards|)
      && |v.page| <= PageSize
      && (v.totalPages <= 1 ==> v.page == v.cards)
      && (v.totalPages > 1 ==>
            var p := SliderValue(q.requestedPage, v.totalPages);
            v.page == v.cards[(p - 1) * PageSize..Min(p * PageSize, |v.cards|)])
      && v.highest == HighestValueCard(v.cards)
      && v.average == AverageValue(v.cards)
      && v.setCounts == SetCounts(v.cards)
      && v.conditionCounts == ConditionCounts(v.cards)
  {
    var filtered := Filtered(dataset, q);
    match SortCards(filtered, q.sort)
    case Failure(e) => Failure(e)
    case Success(sorted) =>
      var pages := PageCount(|sorted|);
      Success(View(
        sorted,
        |sorted|,
        HighestValueCard(sorted),
        AverageValue(sorted),
        SetCounts(sorted),
        ConditionCounts(sorted),
        pages,
        Page(sorted, SliderValue(q.requestedPage, pages))))
  }

  /** A card is listed exactly as often as it occurs in the dataset when it
      passes both filters, and not at all otherwise. */
  lemma RunListsExactlyTheMatches(dataset: seq<Card>, q: Query, c: Card)
    ensures Run(dataset, q).Success? ==>
      multiset(Run(dataset, q).value.cards)[c] ==
        (if (q.category == AllCategories || c.category == q.category)
            && (q.search == "" || MentionsQuery(c, q.search))
         then multiset(dataset)[c] else 0)
  {
  }

  /** The statistics describe all the listed cards, not just the page shown. */
  lemma RunSummarisesAllCards(dataset: seq<Card>, q: Query)
    ensures Run(dataset, q).Success? ==>
      var v := Run(dataset, q).value;
      && (v.highest.None? <==> v.totalCards == 0)
      && (v.highest.Some? ==>
            exists k :: IsFirstMaximum(v.cards, k) && v.cards[k] == v.highest.value)
      && (v.average.None? <==> v.totalCards == 0)
      && (v.average.Some? ==>
            v.average.value.count == v.totalCards && v.average.value.total == ValueTotal(v.cards))
      && Total(v.setCounts) == |NonBlank(SetNames(v.cards))|
      && |v.conditionCounts| == |ConditionOrder|
      && Total(v.conditionCounts) <= v.totalCards
  {
    var r := Run(dataset, q);
    if r.Success? {
      var v := r.value;
      SetCountsTotal(v.cards);
      ConditionCountsTotal(v.cards);
    }
  }

  /** A two-card dataset: filtering on "Hockey" and sorting by value leaves
      only the Orr card, alone on its page, with
      average value 15. */
  lemma OrrExample()
    ensures
      var orr := Card(1974, "Hockey", "Topps", "Bobby Orr", "EX", 15, "", "", "");
      var jeter := Card(1998, "Baseball", "Topps", "Derek Jeter", "NM", 50, "", "", "");
      var r := Run([orr, jeter], Query("", "Hockey", "Value (High-Low)", 1));
      && r.Success?
      && r.value.page == [orr]
      && r.value.totalCards == 1
      && r.value.average == Some(Mean(15, 1))
  {
    var orr := Card(1974, "Hockey", "Topps", "Bobby Orr", "EX", 15, "", "", "");
    var jeter := Card(1998, "Baseball", "Topps", "Derek Jeter", "NM", 50, "", "", "");
    var ds := [orr, jeter];
    assert ds[1..] == [jeter];
    var q := Query("", "Hockey", "Value (High-Low)", 1);
    assert Select(ds, InCategory("Hockey")) == [orr];
    assert Filtered(ds, q) == [orr];
    assert InsertionSort(ValueHighLow, [orr]) == [orr];
    assert SortCards([orr], q.sort) == Success([orr]);
    assert ValueTotal([orr]) == 15;
    assert Page([orr], SliderValue(1, PageCount(1))) == [orr];
  }
}
