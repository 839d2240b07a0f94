/** Pagination of the sorted cards, nine to a page (trading_card_gallery.py,
    lines 238-250). */
module Paging {
  import opened Cards

  const PageSize: nat := 9

  function Min(a: int, b: int): int {
    if a <= b then a else b
  }

  /** Line 240: `(n + 9 - 1) // 9`, the least number of pages of nine that
      hold `n` cards. */
  function PageCount(n: nat): (pages: nat)
    ensures pages * PageSize >= n
    ensures pages > 0 ==> (pages - 1) * PageSize < n
    ensures pages == 0 <==> n == 0
  {
    (n + PageSize - 1) / PageSize
  }

  /** `s.iloc[start:end]` for non-negative bounds: a slice that stops at the
      end of the sequence. */
  function ILoc(s: seq<Card>, start: nat, end: nat): (r: seq<Card>)
    ensures start <= end <= |s| ==> r == s[start..end]
    ensures start <= end && start <= |s| ==> r == s[start..Min(end, |s|)]
    ensures start >= |s| || end <= start ==> r == []
    ensures |r| <= end - start || start >= end
  {
    var lo := Min(start, |s|);
    var hi := Min(end, |s|);
    if lo <= hi then s[lo..hi] else []
  }

  /** Lines 242-250: with more than one page, the slice of positions
      `(p - 1) * 9` up to `p * 9` (or the end); otherwise all the cards. When
      there is more than one page the page is chosen with a slider that
      ranges over `1..total_pages`. */
  function Page(cards: seq<Card>, pageNumber: int): (r: seq<Card>)
    requires PageCount(|cards|) > 1 ==> 1 <= pageNumber <= PageCount(|cards|)
    ensures |r| <= PageSize
    ensures PageCount(|cards|) <= 1 ==> r == cards
    ensures PageCount(|cards|) > 1 ==>
      r == cards[(pageNumber - 1) * PageSize..Min(pageNumber * PageSize, |cards|)]
    ensures r == [] <==> cards == []
  {
    if PageCount(|cards|) > 1 then
      var start := (pageNumber - 1) * PageSize;
      var end := start + PageSize;
      ILoc(cards, start, end)
    else
      ILoc(cards, 0, |cards|)
  }

  /** The pages from number `p` on, one after the other. */
  function PagesFrom(cards: seq<Card>, p: nat): seq<Card>
    requires 1 <= p
    decreases PageCount(|cards|) + 1 - p
  {
    if p > PageCount(|cards|) then []
    else Page(cards, p) + PagesFrom(cards, p + 1)
  }

  lemma {:induction false} PagesFromSuffix(cards: seq<Card>, p: nat)
    requires PageCount(|cards|) > 1
    requires 1 <= p <= PageCount(|cards|) + 1
    ensures PagesFrom(cards, p) == cards[Min((p - 1) * PageSize, |cards|)..]
    decreases PageCount(|cards|) + 1 - p
  {
    if p <= PageCount(|cards|) {
      PagesFromSuffix(cards, p + 1);
      var start := (p - 1) * PageSize;
      var end := Min(p * PageSize, |cards|);
      assert cards[start..] == cards[start..end] + cards[end..];
    }
  }

  /** Pages 1 to `total_pages` together are exactly the sorted cards: no card
      is lost, repeated or moved. */
  lemma PagesReassemble(cards: seq<Card>)
    ensures PagesFrom(cards, 1) == cards
  {
    if PageCount(|cards|) > 1 {
      PagesFromSuffix(cards, 1);
    } else if PageCount(|cards|) == 1 {
      assert PagesFrom(cards, 1) == Page(cards, 1) + [];
    }
  }

  /** Twenty cards make three pages, the last with two cards. */
  lemma TwentyCardsExample(cards: seq<Card>)
    requires |cards| == 20
    ensures PageCount(|cards|) == 3
    ensures |Page(cards, 3)| == 2
  {
  }
}
