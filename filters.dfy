/** The category filter and the free-text search filter that narrow the
    collection before it is sorted (trading_card_gallery.py, lines 170-179).
    Both derive a new sequence; the input is a value and is never changed. */
module Filters {
  import opened Text
  import opened Cards

  /** The category choice that disables the category filter. */
  const AllCategories: string := "All"

  /** What a filter keeps: the cards of one category, or the cards whose
      Name, Year (as decimal text) or Set contains the query, ignoring case. */
  datatype Criterion = InCategory(category: string) | Mentions(query: string)

  predicate MentionsQuery(c: Card, query: string) {
    || ContainsIgnoringCase(c.name, query)
    || ContainsIgnoringCase(IntText(c.year), query)
    || ContainsIgnoringCase(c.setName, query)
  }

  predicate Keeps(k: Criterion, c: Card) {
    match k
    case InCategory(category) => c.category == category
    case Mentions(query) => MentionsQuery(c, query)
  }

  /** `a` is obtained from `b` by deleting elements: the order of what is
      left is the order in `b`. */
  predicate IsSubsequence<T(==)>(a: seq<T>, b: seq<T>)
    decreases |b|
  {
    if a == [] then true
    else if b == [] then false
    else (a[0] == b[0] && IsSubsequence(a[1..], b[1..])) || IsSubsequence(a, b[1..])
  }

  lemma {:induction false} SubsequenceReflexive<T>(a: seq<T>)
    ensures IsSubsequence(a, a)
    decreases |a|
  {
    if a != [] {
      SubsequenceReflexive(a[1..]);
    }
  }

  /** Deleting elements twice is deleting elements once. */
  lemma {:induction false} SubsequenceTransitive<T>(a: seq<T>, b: seq<T>, c: seq<T>)
    requires IsSubsequence(a, b) && IsSubsequence(b, c)
    ensures IsSubsequence(a, c)
    decreases |c|
  {
    if a != [] {
      if b[0] == c[0] && IsSubsequence(b[1..], c[1..]) {
        if a[0] == b[0] && IsSubsequence(a[1..], b[1..]) {
          SubsequenceTransitive(a[1..], b[1..], c[1..]);
        } else {
          SubsequenceTransitive(a, b[1..], c[1..]);
        }
      } else {
        SubsequenceTransitive(a, b, c[1..]);
      }
    }
  }

  /** A boolean mask applied to the table (`df[mask]`): the rows that satisfy
      the criterion, in their original order. */
  function Select(cards: seq<Card>, k: Criterion): (r: seq<Card>)
    ensures forall i :: 0 <= i < |r| ==> Keeps(k, r[i])
    ensures forall c :: multiset(r)[c] == if Keeps(k, c) then multiset(cards)[c] else 0
    ensures IsSubsequence(r, cards)
  {
    if cards == [] then []
    else
      var rest := Select(cards[1..], k);
      assert cards == [cards[0]] + cards[1..];
      if Keeps(k, cards[0]) then
        assert ([cards[0]] + rest)[1..] == rest;
        [cards[0]] + rest
      else
        rest
  }

  /** Lines 170-172: "All" keeps every card; any other choice keeps exactly
      the cards of that category. */
  function FilterCategory(cards: seq<Card>, selected: string): (r: seq<Card>)
    ensures selected == AllCategories ==> r == cards
    ensures selected != AllCategories ==>
      && IsSubsequence(r, cards)
      && (forall i :: 0 <= i < |r| ==> r[i].category == selected)
      && (forall c: Card :: c.category == selected ==> multiset(r)[c] == multiset(cards)[c])
  {
    if selected == AllCategories then cards else Select(cards, InCategory(selected))
  }

  /** Lines 174-179: an empty query keeps every card; otherwise a card stays
      when the query occurs, ignoring case, in its Name, in the decimal text
      of its Year or in its Set. */
  function FilterSearch(cards: seq<Card>, query: string): (r: seq<Card>)
    ensures query == "" ==> r == cards
    ensures query != "" ==>
      && IsSubsequence(r, cards)
      && (forall i :: 0 <= i < |r| ==> MentionsQuery(r[i], query))
      && (forall c: Card :: MentionsQuery(c, query) ==> multiset(r)[c] == multiset(cards)[c])
      && (forall c: Card :: !MentionsQuery(c, query) ==> c !in r)
  {
    if query == "" then cards else Select(cards, Mentions(query))
  }

  /** Selecting from cards that all satisfy the criterion changes nothing. */
  lemma {:induction false} SelectAllKept(cards: seq<Card>, k: Criterion)
    requires forall i :: 0 <= i < |cards| ==> Keeps(k, cards[i])
    ensures Select(cards, k) == cards
  {
    if cards != [] {
      SelectAllKept(cards[1..], k);
    }
  }

  lemma SelectIdempotent(cards: seq<Card>, k: Criterion)
    ensures Select(Select(cards, k), k) == Select(cards, k)
  {
    SelectAllKept(Select(cards, k), k);
  }

  /** Searching twice for the same text is searching once. */
  lemma FilterSearchIdempotent(cards: seq<Card>, query: string)
    ensures FilterSearch(FilterSearch(cards, query), query) == FilterSearch(cards, query)
  {
    if query != "" {
      SelectIdempotent(cards, Mentions(query));
    }
  }

  lemma FilterCategoryIdempotent(cards: seq<Card>, selected: string)
    ensures FilterCategory(FilterCategory(cards, selected), selected) == FilterCategory(cards, selected)
  {
    if selected != AllCategories {
      SelectIdempotent(cards, InCategory(selected));
    }
  }

  /** A blank cell (the empty string) never matches a non-empty query, so a
      card with a blank Name or Set can still be found through its other
      fields but never through the blank one (`na=False`). */
  lemma BlankFieldNeverMatches(c: Card, query: string)
    requires query != ""
    ensures c.name == "" ==> (MentionsQuery(c, query) <==>
      ContainsIgnoringCase(IntText(c.year), query) || ContainsIgnoringCase(c.setName, query))
    ensures c.setName == "" ==> (MentionsQuery(c, query) <==>
      ContainsIgnoringCase(c.name, query) || ContainsIgnoringCase(IntText(c.year), query))
  {
    if c.name == "" { NoMatchInShorterText(c.name, query); }
    if c.setName == "" { NoMatchInShorterText(c.setName, query); }
  }

  /** The multiset union of the per-category selections over `categories`. */
  function UnionOfCategories(cards: seq<Card>, categories: seq<string>): multiset<Card> {
    if categories == [] then multiset{}
    else multiset(Select(cards, InCategory(categories[0]))) + UnionOfCategories(cards, categories[1..])
  }

  /** Filtering by each of a list of distinct categories visits every card of
      those categories exactly once; with all the dataset's categories it
      recovers the dataset. */
  lemma {:induction false} CategoriesPartition(cards: seq<Card>, categories: seq<string>)
    requires forall i, j :: 0 <= i < j < |categories| ==> categories[i] != categories[j]
    ensures forall c: Card :: UnionOfCategories(cards, categories)[c] ==
                             (if c.category in categories then multiset(cards)[c] else 0)
  {
    if categories != [] {
      CategoriesPartition(cards, categories[1..]);
      forall c: Card ensures UnionOfCategories(cards, categories)[c] ==
                             (if c.category in categories then multiset(cards)[c] else 0)
      {
        assert c.category in categories <==>
          c.category == categories[0] || c.category in categories[1..];
      }
    }
  }

  lemma CategoriesRecoverDataset(cards: seq<Card>, categories: seq<string>)
    requires forall i, j :: 0 <= i < j < |categories| ==> categories[i] != categories[j]
    requires forall i :: 0 <= i < |cards| ==> cards[i].category in categories
    ensures UnionOfCategories(cards, categories) == multiset(cards)
  {
    CategoriesPartition(cards, categories);
    forall c ensures UnionOfCategories(cards, categories)[c] == multiset(cards)[c] {
      if c !in cards { assert multiset(cards)[c] == 0; }
    }
  }
}
