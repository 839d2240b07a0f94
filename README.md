# Trading card gallery: the collection query pipeline

The gallery script (`trading_card_gallery.py`) shows a table of trading cards
as a searchable, sortable gallery with two charts. Underneath the Streamlit
page sits a small query pipeline. This project models that pipeline in Dafny
and proves what each stage promises:

1. **Category filter.** "All" keeps every card. Any other choice keeps the
   cards of that category.
2. **Search filter.** An empty query keeps every card. Otherwise a card stays
   when the query occurs, ignoring case, in its Name, in the decimal text of
   its Year, or in its Set.
3. **Sort.** There are six orders: value high-low and low-high, year new-old
   and old-new, and last name A-Z and Z-A. The name orders use
   `extract_last_name` as the key. A choice that is none of the six leaves the
   order unchanged.
4. **Summary.** It gives the number of cards, the first card of highest value
   (the one `idxmax` picks), and the average value as an exact sum and count.
   It also gives the cards per set, and the cards per condition over the fixed
   ten labels PR … GEM MT.
5. **Pagination.** `(n + 8) // 9` pages of nine cards each.
6. **Gallery.** The current page is laid out in rows of three columns. The
   code is meant to draw a card only when both of its image cells are
   filled. As written, it also draws a card with a blank image cell, because
   pandas reads that cell as NaN and NaN counts as true (see "## Findings").
   `Gallery.LayOut` uses the intended check.

The model is built from values (`Card`, `Query`, `View`), so no stage can
change the table it is given. Stages 1 to 5 are functions, as in the source,
which writes them as pandas expressions. The gallery's nested `for` loop is a
method with loop invariants (`Gallery.LayOut`).

Modules and files: `Wrappers` (wrappers.dfy), `Text` (text.dfy), `Cards`
(cards.dfy), `Filters` (filters.dfy), `Orders` (orders.dfy), `Sorting`
(sorting.dfy), `Aggregates` (aggregates.dfy), `Paging` (paging.dfy), `Gallery`
(gallery.dfy), `Cells` (cells.dfy) and `Pipeline` (pipeline.dfy).

Conventions:
- A blank cell of a text column is the empty string in `Card`. pandas reads a
  blank cell as NaN. For search, a NaN cell in a column that also holds text
  is a non-match (`na=False`), and so is "" for a non-empty query
  (`Filters.BlankFieldNeverMatches`).
  `value_counts` drops NaN, so `Aggregates.SetCounts` leaves out the blank
  set. A blank condition is not one of the ten labels.
- `extract_last_name` raises an error on a name with no word: IndexError on a
  whitespace-only name, AttributeError on a blank cell (NaN). The model
  returns `None` there (`Cards.LastName`). A name order then ends the run with
  `Failure(NameWithoutWord)` (`Sorting.SortCards`, `Pipeline.Run`). The model
  returns this error instead of requiring callers to avoid it.
- The table and the widget values are parameters. The page slider only ever
  reports a page in `1..total_pages`. The model states this as a clamp
  (`Pipeline.SliderValue`).

Three consequences of the pandas calls the code makes:
- `sort_values` uses its default quicksort, which is not stable, so the model
  promises only an ordered permutation. `Sorting.SortedUpToTies` proves that
  any two such results agree position by position up to ties, and
  `Sorting.NameOrdersAgreeOnKeys` that in a name order they list the same
  last names.
- `reindex` drops conditions outside the ten labels, so the condition counts
  sum to at most the number of cards. They sum to exactly that number when
  every condition is one of the labels (`Aggregates.ConditionCountsTotal`).
- `value_counts` drops blank sets, so the set counts cover the cards whose Set
  is not blank (`Aggregates.SetCountsTotal`).

## Model

| member | source | states |
|---|---|---|
| `Text.Words` | trading_card_gallery.py:12 | `name.split()`: every token is non-empty and has no whitespace, and there are no tokens exactly when the name is all whitespace |
| `Text.WordsOfJoin` | trading_card_gallery.py:12 | splitting space-joined tokens gives back exactly those tokens |
| `Text.Contains` | trading_card_gallery.py:176-178 | the substring test holds exactly when the query occurs at some position of the text |
| `Text.ParseIntText` | trading_card_gallery.py:177 | `astype(str)` of a year reads back as the same year, so the text identifies the year |
| `Text.Lower` | trading_card_gallery.py:14-16 | `.lower()`: same length, and each character is lowered on its own, so upper-case ASCII letters become lower case and nothing else changes |
| `Text.IntText` | trading_card_gallery.py:177 | `astype(str)` of a year: decimal digits, after a minus sign exactly when the year is negative |
| `Text.ContainsIgnoringCase` | trading_card_gallery.py:176-178 | `str.contains(case=False)`: the lowered query occurs at some position of the lowered text, which needs the text to be at least as long as the query |
| `Text.LowerIdempotent` | trading_card_gallery.py:14-16 | ASCII lower-casing applied twice is lower-casing once |
| `Cards.LastName` | trading_card_gallery.py:11-16 | there is no key exactly when the name has no word (where the source raises); a key is a non-empty word with no upper-case letter |
| `Cards.LastNameOfFullName` | trading_card_gallery.py:13-14 | for two or more words the key is the last word in lower case |
| `Cards.LastNameOfSingleWord` | trading_card_gallery.py:15-16 | for one word the key is its first letter in lower case |
| `Cards.LastNameOfBobbyOrr` | trading_card_gallery.py:11-16 | "Bobby Orr" gives "orr" |
| `Cards.LastNameOfPele` | trading_card_gallery.py:15-16 | "Pele" gives "p" |
| `Filters.Select` | trading_card_gallery.py:172-179 | a boolean mask keeps the rows satisfying the criterion, each as often as in the input, drops the others, and keeps input order (a subsequence) |
| `Filters.SubsequenceTransitive` | trading_card_gallery.py:170-179 | a subsequence of a subsequence is a subsequence, so two masks applied one after the other keep the input's order |
| `Filters.FilterCategory` | trading_card_gallery.py:170-172 | "All" returns the list unchanged; any other category returns, in order, exactly the cards of that category |
| `Filters.FilterSearch` | trading_card_gallery.py:174-179 | an empty query is a no-op; otherwise exactly the cards whose Name, Year text or Set contains the query ignoring case are kept, in order |
| `Filters.FilterSearchIdempotent` | trading_card_gallery.py:174-179 | searching twice for the same text is searching once |
| `Filters.FilterCategoryIdempotent` | trading_card_gallery.py:170-172 | filtering twice by the same category is filtering once |
| `Filters.BlankFieldNeverMatches` | trading_card_gallery.py:176-178 | a blank Name or Set cell is a non-match for that field only; the other fields still decide |
| `Filters.SelectAllKept` | trading_card_gallery.py:172-179 | a mask that every row satisfies keeps the table unchanged |
| `Filters.CategoriesPartition` | trading_card_gallery.py:170-172 | over distinct categories, the per-category selections together hold each card of those categories exactly once |
| `Filters.CategoriesRecoverDataset` | trading_card_gallery.py:170-172 | over all the dataset's categories, the per-category selections together are the dataset |
| `Sorting.ModeOf` | trading_card_gallery.py:182-195 | a recognised choice selects the order whose label it is; any other choice selects none |
| `Sorting.ModeOfLabel` | trading_card_gallery.py:182-194 | each of the six sort options selects its own order |
| `Sorting.InsertionSort` | trading_card_gallery.py:183-195 | the result is ordered by the mode's key and is a permutation of the input |
| `Sorting.InsertSorted` | trading_card_gallery.py:183-195 | inserting into an ordered list keeps it ordered |
| `Sorting.SortCards` | trading_card_gallery.py:182-195 | no recognised choice leaves the cards as they are; a name order fails exactly when some name has no word; otherwise the result is an ordered permutation of the filtered cards |
| `Sorting.SortedUpToTies` | trading_card_gallery.py:183-195 | any two ordered permutations of the same cards agree position by position up to ties, which is all an unstable sort fixes |
| `Sorting.NameOrdersAgreeOnKeys` | trading_card_gallery.py:191-195 | two name orderings of the same cards list the same last-name key at every position; only cards sharing a key can change places |
| `Sorting.NameKeyIsLastName` | trading_card_gallery.py:191-194 | in a name order each card's sort key is its `extract_last_name` |
| `Sorting.StrLeTransitive` | trading_card_gallery.py:192-195 | Python's string comparison used on the "Last Name" column is transitive |
| `Sorting.StrLeTotal` | trading_card_gallery.py:192-195 | any two last-name keys are comparable |
| `Orders.SortedUpToTies` | trading_card_gallery.py:183-195 | for any total preorder, two ordered permutations of the same elements agree up to ties |
| `Aggregates.FirstMaxIndex` | trading_card_gallery.py:199 | `idxmax` is the first position holding a largest Approx Value |
| `Aggregates.HighestValueCard` | trading_card_gallery.py:199 | there is no highest-value card exactly when no card is left; otherwise it is the card at the first position of largest value |
| `Aggregates.FirstMaximumUnique` | trading_card_gallery.py:199 | only one position is the first maximum |
| `Aggregates.AverageValue` | trading_card_gallery.py:200-208 | the average is unavailable exactly when no card is left; otherwise it is the value sum over the card count |
| `Aggregates.AverageAtMostHighest` | trading_card_gallery.py:199-200 | the average never exceeds the highest card's value |
| `Aggregates.Occurrences` | trading_card_gallery.py:217-225 | a count is positive exactly when the label occurs, and is at most the number of cards |
| `Aggregates.CountIn` | trading_card_gallery.py:225 | the number of entries among some labels is at most all entries, and equals it exactly when every entry is among them |
| `Aggregates.Deduplicate` | trading_card_gallery.py:217 | the distinct labels: no label twice, and exactly the labels that occur |
| `Aggregates.Tally` | trading_card_gallery.py:217-225 | one entry per requested label with that label's count, in the requested order |
| `Aggregates.TotalOfTally` | trading_card_gallery.py:217-225 | the counts at distinct labels add up to the number of entries carrying one of them |
| `Aggregates.SetCounts` | trading_card_gallery.py:217 | no set has two slices; each slice names a non-blank set and carries that set's positive number of cards |
| `Aggregates.SetCountsExact` | trading_card_gallery.py:217 | every non-blank set of the cards has a slice |
| `Aggregates.SetCountsTotal` | trading_card_gallery.py:217 | the slices add up to the number of cards with a non-blank Set, which is all cards when no Set is blank |
| `Aggregates.ConditionCounts` | trading_card_gallery.py:224-225 | exactly the ten labels in the fixed order; each count is the number of cards in that condition, and is 0 exactly when no card has it |
| `Aggregates.ConditionCountsTotal` | trading_card_gallery.py:224-225 | the bars add up to at most the card count, and to exactly it when every condition is one of the ten labels |
| `Paging.PageCount` | trading_card_gallery.py:238-240 | the least number of nine-card pages that can hold the cards (ceil(n/9)) |
| `Paging.ILoc` | trading_card_gallery.py:250 | `iloc[start:end]` is the plain slice when it is in range, stops at the end of the cards when `end` lies past it (the last page), is empty when `start` lies at or past the end or `end <= start`, and is never longer than `end - start` |
| `Paging.Page` | trading_card_gallery.py:242-250 | at most nine cards; with one page or none it is the whole list; otherwise it is the slice from `(p-1)*9` to `min(p*9, n)`; it is empty only when there are no cards |
| `Paging.PagesFromSuffix` | trading_card_gallery.py:242-250 | pages p to the last, joined, are the cards from position `(p-1)*9` on |
| `Paging.PagesReassemble` | trading_card_gallery.py:238-250 | pages 1 to `total_pages`, joined, are exactly the sorted cards |
| `Paging.TwentyCardsExample` | trading_card_gallery.py:238-250 | twenty cards make three pages, and the third holds two cards |
| `Gallery.RowCount` | trading_card_gallery.py:252 | `(k + 2) // 3` is the least number of rows of three that can hold k cards |
| `Gallery.LayOut` | trading_card_gallery.py:252-260 | `(k + 2) // 3` rows of three columns; column j of row i holds the card at position 3i+j exactly when that position is on the page and the card has both images; every position is read once, in order, and none past the page |
| `Gallery.WithImages` | trading_card_gallery.py:258-260 | the page's cards that have both images, each as often as on the page, and no others |
| `Gallery.FlattenAt` | trading_card_gallery.py:252-255 | reading the grid row by row gives position `x` to row `x / 3` and column `x % 3` |
| `Gallery.GalleryShowsCardsWithImages` | trading_card_gallery.py:252-260 | the gallery draws exactly the page's cards that have both images, each once and in page order |
| `Cells.DrawnAsWritten` | trading_card_gallery.py:258-260 | as written, a cell passes when it is blank (NaN) or holds a non-empty text; two blank cells pass, an empty text fails |
| `Cells.BlankImageIsDrawn` | trading_card_gallery.py:258-260 | as written, a blank (NaN) Front Image cell passes the check, so the card is drawn |
| `Cells.DrawnIffHasImages` | trading_card_gallery.py:258-260 | the intended check is `HasImages` on the loaded card; it differs from the written one only on blank cells |
| `Pipeline.SliderValue` | trading_card_gallery.py:242-243 | the slider's page is inside `1..total_pages`, and is the requested page when that page is in range |
| `Pipeline.Filtered` | trading_card_gallery.py:170-179 | each card passing both filters is kept as often as it occurs in the dataset, no other card is kept, and the kept cards stay in dataset order (a subsequence) |
| `Pipeline.Run` | trading_card_gallery.py:170-250 | a run fails exactly when a name order meets a name with no word; otherwise the listed cards are a permutation of the filtered cards, ordered by the chosen order, or in filtered order when the choice is none of the six; the total is their number and the page count is ceil(n/9); the page is all the cards when there is at most one page and otherwise the slider's slice `(p-1)*9..min(p*9, n)` of at most nine cards; the highest card, the average, the set slices and the condition bars are those of all the listed cards |
| `Pipeline.RunListsExactlyTheMatches` | trading_card_gallery.py:170-179 | a card is listed as often as it occurs in the dataset when it passes both filters, and is not listed otherwise |
| `Pipeline.RunSummarisesAllCards` | trading_card_gallery.py:198-225 | the statistics cover all listed cards, not just the page: the highest card is absent exactly when none are listed, and is otherwise the listed card at the first position of largest value; the average is absent exactly when none are listed, and is otherwise the value sum over the total; the set slices add up to the listed cards with a non-blank Set; there are ten condition bars and they add up to at most the total |
| `Pipeline.OrrExample` | trading_card_gallery.py:170-250 | with the Orr and Jeter cards, "Hockey" and "Value (High-Low)" give a page holding only the Orr card, a total of 1 and an average of 15/1 |

## Left out

- The Streamlit page is not modelled: widgets, HTML/CSS markup, the sidebar
  guide and the footer (lines 25-167 and 235-285, apart from the pipeline
  lines cited above). This also covers the list of category options at
  line 154. All of it is presentation.
- Reading the CSV (lines 8 and 141) and the blank template download (lines
  19-22 and 96-98) are file I/O and are not modelled. The model starts from
  typed cards. Year and Approx Value are integers, so a non-numeric cell,
  which pandas would fail on or coerce, is outside the model. So is a blank
  Year cell: one blank Year anywhere makes pandas read the whole column as
  floats, and `astype(str)` then gives "1974.0" for every card. A query such
  as "0" would then match every card in the source and only the cards whose
  year contains a 0 in the model.
- The pie and bar charts (lines 218-222 and 226-231) are not modelled. Only
  the counts that feed them are.
- The floating-point mean and the `$%.2f` text (lines 200 and 208) are not
  modelled. `Aggregates.AverageValue` keeps the exact sum and count instead.
- `str.contains` runs with `regex=True`. The model does plain substring
  search, which agrees for queries without regular-expression
  metacharacters. A query that is an invalid pattern makes pandas raise an
  error; the model does not.
- Case folding covers ASCII letters only. Python's full Unicode `lower()` and
  `re.IGNORECASE` are not modelled.
- Sorting.SortCards: does not fix the order of cards with equal keys. pandas'
  default quicksort is not stable, so the source promises no tie order.
  `Sorting.SortedUpToTies` shows that everything else is determined.
- Aggregates.SetCounts: lists the slices in order of first occurrence.
  `value_counts` lists them by decreasing count, an order only the pie
  chart's drawing (slice placement, labels, colours) depends on.
- The "Last Name" column that the name orders add to the table (lines 191 and
  194) is not kept as a column. `Sorting.NameKey` computes it when it is
  needed.
- Filters.FilterSearch: treats a blank Name or Set as a non-match even when
  every cell of that column is blank. pandas then types the column as float,
  and `.str.contains` at line 176 or 178 raises AttributeError on any
  non-empty query. The model does not model that failure.
- Gallery.LayOut: uses the intended image check of the "## Findings" row (both
  image cells hold an address), not the check as written, which also passes
  a blank (NaN) cell. `Cells.DrawnAsWritten` models the check as written.
- Text.IsSpace: covers the characters Python's `str.isspace()` accepts. It
  does not follow future changes to the Unicode database.

## Findings

| source | as written | input that shows it | evidently intended | confidence | as-written member | corrected member |
|---|---|---|---|---|---|---|
| trading_card_gallery.py:258-260 | `if front_image and back_image` tests the values pandas read. A blank cell is NaN, and NaN is truthy | a row whose Front Image cell is blank and whose Back Image is a URL: the card is drawn with image address "nan" | a card with a missing image is not drawn (the `''` default of `row.get` and the truthiness test) | not executed; medium | `Cells.DrawnAsWritten` / `Cells.BlankImageIsDrawn` | `Cells.DrawnIffHasImages` (used by `Gallery.LayOut`) |
