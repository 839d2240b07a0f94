/** The card gallery: the current page laid out in rows of three columns
    (trading_card_gallery.py, lines 252-260). */
module Gallery {
  import opened Cards
  import Paging

  const RowSize: nat := 3

  /** What a column of the grid holds: a rendered card, or nothing. */
  datatype Slot = Empty | Shown(card: Card)

  /** Line 260: a card is drawn only when both image cells are filled. */
  predicate HasImages(c: Card) {
    c.frontImage != "" && c.backImage != ""
  }

  /** What the column at position `index` of the row-major grid holds. */
  function SlotAt(page: seq<Card>, index: nat): Slot {
    if index < |page| && HasImages(page[index]) then Shown(page[index]) else Empty
  }

  /** Line 252: `(k + 2) // 3` rows. */
  function RowCount(k: nat): (rows: nat)
    ensures rows * RowSize >= k
    ensures rows > 0 ==> (rows - 1) * RowSize < k
  {
    (k + RowSize - 1) / RowSize
  }

  /** `grid` is the gallery of `page`: `(k + 2) // 3` rows of three columns,
      and the column `j` of row `i` holds the card at position `3 * i + j`
      exactly when that position is on the page and the card has both
      images. */
  ghost predicate IsGallery(page: seq<Card>, grid: seq<seq<Slot>>) {
    && |grid| == RowCount(|page|)
    && (forall i :: 0 <= i < |grid| ==> |grid[i]| == RowSize)
    && (forall i, j :: 0 <= i < |grid| && 0 <= j < RowSize ==>
          grid[i][j] == SlotAt(page, RowSize * i + j))
  }

  /** The positions `0, 1, ..., n - 1`. */
  function Positions(n: nat): (r: seq<nat>)
    ensures |r| == n && forall i :: 0 <= i < n ==> r[i] == i
  {
    if n == 0 then [] else Positions(n - 1) + [n - 1]
  }

  /** Lines 252-260: the nested loop over rows and columns. `visited` records
      every position the loop reads with `iloc`: each position of the page
      once, in order, and none beyond the page. */
  method LayOut(page: seq<Card>) returns (grid: seq<seq<Slot>>, ghost visited: seq<nat>)
    ensures IsGallery(page, grid)
    ensures visited == Positions(|page|)
  {
    grid := [];
    visited := [];
    var rows := (|page| + 2) / 3;
    var i := 0;
    while i < rows
      invariant 0 <= i <= rows
      invariant |grid| == i
      invariant forall r :: 0 <= r < i ==> |grid[r]| == RowSize
      invariant forall r, j :: 0 <= r < i && 0 <= j < RowSize ==>
        grid[r][j] == SlotAt(page, RowSize * r + j)
      invariant visited == Positions(Paging.Min(RowSize * i, |page|))
    {
      var cols: seq<Slot> := [];
      var j := 0;
      while j < 3
        invariant 0 <= j <= 3
        invariant |cols| == j
        invariant forall c :: 0 <= c < j ==> cols[c] == SlotAt(page, RowSize * i + c)
        invariant visited == Positions(Paging.Min(RowSize * i + j, |page|))
      {
        var index := i * 3 + j;
        if index < |page| {
          var card := page[index];
          visited := visited + [index];
          if card.frontImage != "" && card.backImage != "" {
            cols := cols + [Shown(card)];
          } else {
            cols := cols + [Empty];
          }
        } else {
          cols := cols + [Empty];
        }
        j := j + 1;
      }
      grid := grid + [cols];
      i := i + 1;
    }
  }

  // ---------------------------------------------------------------------
  // What the gallery shows

  /** The cards that are drawn, in reading order. */
  function ShownCards(slots: seq<Slot>): seq<Card> {
    if slots == [] then []
    else if slots[0].Shown? then [slots[0].card] + ShownCards(slots[1..])
    else ShownCards(slots[1..])
  }

  /** The cards of the page that have both images, in page order. */
  function WithImages(page: seq<Card>): (r: seq<Card>)
    ensures forall i :: 0 <= i < |r| ==> HasImages(r[i])
    ensures forall c :: multiset(r)[c] == if HasImages(c) then multiset(page)[c] else 0
  {
    if page == [] then []
    else
      assert page == [page[0]] + page[1..];
      if HasImages(page[0]) then [page[0]] + WithImages(page[1..]) else WithImages(page[1..])
  }

  /** The grid read row by row. */
  function Flatten(grid: seq<seq<Slot>>): seq<Slot> {
    if grid == [] then [] else grid[0] + Flatten(grid[1..])
  }

  lemma {:induction false} FlattenAt(grid: seq<seq<Slot>>)
    requires forall i :: 0 <= i < |grid| ==> |grid[i]| == RowSize
    ensures |Flatten(grid)| == RowSize * |grid|
    ensures forall x :: 0 <= x < |Flatten(grid)| ==> Flatten(grid)[x] == grid[x / RowSize][x % RowSize]
  {
    if grid != [] {
      FlattenAt(grid[1..]);
      var f := Flatten(grid);
      forall x | 0 <= x < |f| ensures f[x] == grid[x / RowSize][x % RowSize] {
        if x >= RowSize {
          assert f[x] == Flatten(grid[1..])[x - RowSize];
          assert (x - RowSize) / RowSize == x / RowSize - 1;
          assert (x - RowSize) % RowSize == x % RowSize;
        }
      }
    }
  }

  /** Slots that agree with `SlotAt(page, offset + x)` show, in order, the
      cards of the page from `offset` on that have both images. */
  lemma {:induction false} ShownSlots(page: seq<Card>, slots: seq<Slot>)
    requires |slots| >= |page|
    requires forall x :: 0 <= x < |slots| ==> slots[x] == SlotAt(page, x)
    ensures ShownCards(slots) == WithImages(page)
  {
    if slots == [] {
    } else if page == [] {
      ShownSlots(page, slots[1..]);
    } else {
      forall x | 0 <= x < |slots| - 1 ensures slots[1..][x] == SlotAt(page[1..], x) {
        assert slots[1..][x] == SlotAt(page, x + 1);
      }
      ShownSlots(page[1..], slots[1..]);
    }
  }

  /** A gallery shows exactly the page's cards that have both images, each
      once and in page order; a card without both images takes its column
      but draws nothing. */
  lemma GalleryShowsCardsWithImages(page: seq<Card>, grid: seq<seq<Slot>>)
    requires IsGallery(page, grid)
    ensures ShownCards(Flatten(grid)) == WithImages(page)
  {
    FlattenAt(grid);
    var f := Flatten(grid);
    forall x | 0 <= x < |f| ensures f[x] == SlotAt(page, x) {
      assert RowSize * (x / RowSize) + x % RowSize == x;
    }
    ShownSlots(page, f);
  }
}
