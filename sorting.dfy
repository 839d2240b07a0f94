/** The six sort orders of the gallery (trading_card_gallery.py, lines
    182-195). The source calls pandas' `sort_values`, whose default algorithm
    is not stable, so all it promises is a permutation of its input that is
    ordered by the chosen key; the model sorts by insertion and promises
    exactly that. */
module Sorting {
  import opened Wrappers
  import opened Text
  import opened Cards
  import Orders

  datatype SortMode =
    | ValueHighLow | ValueLowHigh
    | YearNewOld | YearOldNew
    | NameAZ | NameZA
  {
    predicate ByName() {
      this == NameAZ || this == NameZA
    }
  }

  /** The option shown in the Sort box for each order. */
  function Label(m: SortMode): string {
    match m
    case ValueHighLow => "Value (High-Low)"
    case ValueLowHigh => "Value (Low-High)"
    case YearNewOld => "Year (New-Old)"
    case YearOldNew => "Year (Old-New)"
    case NameAZ => "Name (A-Z)"
    case NameZA => "Name (Z-A)"
  }

  /** The if/elif chain on `sort_option`: the order a choice selects, or none
      when no branch matches (then nothing is sorted). */
  function ModeOf(choice: string): (m: Option<SortMode>)
    ensures m.Some? ==> Label(m.value) == choice
  {
    if choice == "Value (High-Low)" then Some(ValueHighLow)
    else if choice == "Value (Low-High)" then Some(ValueLowHigh)
    else if choice == "Year (New-Old)" then Some(YearNewOld)
    else if choice == "Year (Old-New)" then Some(YearOldNew)
    else if choice == "Name (A-Z)" then Some(NameAZ)
    else if choice == "Name (Z-A)" then Some(NameZA)
    else None
  }

  /** Every option of the Sort box selects its own order. */
  lemma ModeOfLabel(m: SortMode)
    ensures ModeOf(Label(m)) == Some(m)
  {
  }

  /** Python's comparison of strings: code point by code point, a proper
      prefix first. */
  predicate StrLe(a: string, b: string) {
    if a == [] then true
    else if b == [] then false
    else if a[0] != b[0] then a[0] < b[0]
    else StrLe(a[1..], b[1..])
  }

  lemma {:induction false} StrLeTotal(a: string, b: string)
    ensures StrLe(a, b) || StrLe(b, a)
  {
    if a != [] && b != [] && a[0] == b[0] {
      StrLeTotal(a[1..], b[1..]);
    }
  }

  lemma {:induction false} StrLeTransitive(a: string, b: string, c: string)
    requires StrLe(a, b) && StrLe(b, c)
    ensures StrLe(a, c)
  {
    if a != [] && b != [] && c != [] && a[0] == b[0] && b[0] == c[0] {
      StrLeTransitive(a[1..], b[1..], c[1..]);
    }
  }

  lemma {:induction false} StrLeAntisymmetric(a: string, b: string)
    requires StrLe(a, b) && StrLe(b, a)
    ensures a == b
  {
    if a != [] && b != [] {
      StrLeAntisymmetric(a[1..], b[1..]);
      assert a == [a[0]] + a[1..] && b == [b[0]] + b[1..];
    }
  }

  /** The "Last Name" column: the key `extract_last_name` gives. It is only
      consulted when every name has one (see `SortCards`). */
  function NameKey(c: Card): string {
    match LastName(c.name)
    case Some(key) => key
    case None => ""
  }

  /** `a` may stand before `b` in the order `m`. */
  predicate InOrder(m: SortMode, a: Card, b: Card) {
    match m
    case ValueHighLow => a.value >= b.value
    case ValueLowHigh => a.value <= b.value
    case YearNewOld => a.year >= b.year
    case YearOldNew => a.year <= b.year
    case NameAZ => StrLe(NameKey(a), NameKey(b))
    case NameZA => StrLe(NameKey(b), NameKey(a))
  }

  lemma InOrderTotal(m: SortMode, a: Card, b: Card)
    ensures InOrder(m, a, b) || InOrder(m, b, a)
  {
    if m.ByName() {
      StrLeTotal(NameKey(a), NameKey(b));
    }
  }

  lemma InOrderTransitive(m: SortMode, a: Card, b: Card, c: Card)
    requires InOrder(m, a, b) && InOrder(m, b, c)
    ensures InOrder(m, a, c)
  {
    if m == NameAZ {
      StrLeTransitive(NameKey(a), NameKey(b), NameKey(c));
    } else if m == NameZA {
      StrLeTransitive(NameKey(c), NameKey(b), NameKey(a));
    }
  }

  /** Every card stands before every later card in the order `m`. */
  predicate Sorted(m: SortMode, s: seq<Card>) {
    forall i, j :: 0 <= i < j < |s| ==> InOrder(m, s[i], s[j])
  }

  /** Place `x` before the first card of `s` it may precede. */
  function Insert(m: SortMode, x: Card, s: seq<Card>): (r: seq<Card>)
    ensures multiset(r) == multiset(s) + multiset{x}
  {
    if s == [] then [x]
    else if InOrder(m, x, s[0]) then [x] + s
    else
      assert s == [s[0]] + s[1..];
      [s[0]] + Insert(m, x, s[1..])
  }

  /** `x` may stand before every card of `s`. */
  predicate Precedes(m: SortMode, x: Card, s: seq<Card>) {
    forall j :: 0 <= j < |s| ==> InOrder(m, x, s[j])
  }

  lemma SortedCons(m: SortMode, x: Card, s: seq<Card>)
    requires Precedes(m, x, s) && Sorted(m, s)
    ensures Sorted(m, [x] + s)
  {
    var r := [x] + s;
    forall i, j | 0 <= i < j < |r| ensures InOrder(m, r[i], r[j]) {
      if i > 0 { assert r[i] == s[i - 1]; }
      assert r[j] == s[j - 1];
    }
  }

  lemma PrecedesSame(m: SortMode, x: Card, s: seq<Card>, t: seq<Card>)
    requires Precedes(m, x, s) && multiset(t) == multiset(s)
    ensures Precedes(m, x, t)
  {
    forall j | 0 <= j < |t| ensures InOrder(m, x, t[j]) {
      assert t[j] in multiset(s);
      var k :| 0 <= k < |s| && s[k] == t[j];
    }
  }

  lemma {:induction false} InsertSorted(m: SortMode, x: Card, s: seq<Card>)
    requires Sorted(m, s)
    ensures Sorted(m, Insert(m, x, s))
  {
    if s == [] {
    } else if InOrder(m, x, s[0]) {
      forall j | 0 <= j < |s| ensures InOrder(m, x, s[j]) {
        if j > 0 { InOrderTransitive(m, x, s[0], s[j]); }
      }
      SortedCons(m, x, s);
    } else {
      InOrderTotal(m, x, s[0]);
      var tail := s[1..];
      assert Sorted(m, tail) by {
        forall i, j | 0 <= i < j < |tail| ensures InOrder(m, tail[i], tail[j]) {
          assert tail[i] == s[i + 1] && tail[j] == s[j + 1];
        }
      }
      InsertSorted(m, x, tail);
      assert Precedes(m, s[0], tail + [x]) by {
        forall j | 0 <= j < |tail| + 1 ensures InOrder(m, s[0], (tail + [x])[j]) {
          if j < |tail| { assert (tail + [x])[j] == s[j + 1]; }
        }
      }
      assert multiset(Insert(m, x, tail)) == multiset(tail + [x]);
      PrecedesSame(m, s[0], tail + [x], Insert(m, x, tail));
      SortedCons(m, s[0], Insert(m, x, tail));
    }
  }

  /** An ordering of `s` by `m`: ordered, and a permutation of `s`. */
  function InsertionSort(m: SortMode, s: seq<Card>): (r: seq<Card>)
    ensures Sorted(m, r)
    ensures multiset(r) == multiset(s)
  {
    if s == [] then []
    else
      assert s == [s[0]] + s[1..];
      InsertSorted(m, s[0], InsertionSort(m, s[1..]));
      Insert(m, s[0], InsertionSort(m, s[1..]))
  }

  /** Every name has a last-name key; otherwise `extract_last_name` fails on
      the first name that has no word. */
  predicate AllNamesKeyed(cards: seq<Card>) {
    forall i :: 0 <= i < |cards| ==> LastName(cards[i].name).Some?
  }

  datatype SortError = NameWithoutWord

  /** Lines 182-195: sort by the order the choice selects. A name order first
      adds the "Last Name" column, which fails when some name has no word. */
  function SortCards(cards: seq<Card>, choice: string): (r: Result<seq<Card>, SortError>)
    ensures ModeOf(choice).None? ==> r == Success(cards)
    ensures ModeOf(choice).Some? ==>
      (r.Failure? <==> ModeOf(choice).value.ByName() && !AllNamesKeyed(cards))
    ensures r.Success? ==> multiset(r.value) == multiset(cards)
    ensures r.Success? && ModeOf(choice).Some? ==> Sorted(ModeOf(choice).value, r.value)
  {
    match ModeOf(choice)
    case None => Success(cards)
    case Some(m) =>
      if m.ByName() && !AllNamesKeyed(cards) then Failure(NameWithoutWord)
      else Success(InsertionSort(m, cards))
  }

  /** In a name order every card's key is its `extract_last_name`. */
  lemma NameKeyIsLastName(cards: seq<Card>, i: int)
    requires AllNamesKeyed(cards) && 0 <= i < |cards|
    ensures LastName(cards[i].name) == Some(NameKey(cards[i]))
  {
  }

  lemma InOrderIsTotalPreorder(m: SortMode)
    ensures Orders.TotalPreorder((a: Card, b: Card) => InOrder(m, a, b))
  {
    forall a: Card, b: Card ensures InOrder(m, a, b) || InOrder(m, b, a) {
      InOrderTotal(m, a, b);
    }
    forall a: Card, b: Card, c: Card | InOrder(m, a, b) && InOrder(m, b, c)
      ensures InOrder(m, a, c)
    {
      InOrderTransitive(m, a, b, c);
    }
  }

  /** Any two orderings of the same cards by the same order agree position by
      position up to ties: the sort fixes the sequence of keys and leaves
      open only how cards with equal keys are arranged, which is all that
      pandas' unstable sort fixes too. */
  lemma SortedUpToTies(m: SortMode, s: seq<Card>, t: seq<Card>, i: int)
    requires Sorted(m, s) && Sorted(m, t) && multiset(s) == multiset(t)
    requires 0 <= i < |s|
    ensures |t| == |s|
    ensures InOrder(m, s[i], t[i]) && InOrder(m, t[i], s[i])
  {
    var le := (a: Card, b: Card) => InOrder(m, a, b);
    InOrderIsTotalPreorder(m);
    assert Orders.SortedBy(le, s);
    assert Orders.SortedBy(le, t);
    Orders.SortedUpToTies(le, s, t, i);
  }

  /** In a name order the ties are cards with the same last-name key, so any
      two orderings of the same cards list the same keys: only cards sharing
      a key can change places. */
  lemma {:induction false} NameOrdersAgreeOnKeys(m: SortMode, s: seq<Card>, t: seq<Card>, i: int)
    requires m.ByName()
    requires Sorted(m, s) && Sorted(m, t) && multiset(s) == multiset(t)
    requires 0 <= i < |s|
    ensures |t| == |s|
    ensures NameKey(s[i]) == NameKey(t[i])
  {
    SortedUpToTies(m, s, t, i);
    StrLeAntisymmetric(NameKey(s[i]), NameKey(t[i]));
  }
}
