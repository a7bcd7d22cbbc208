# SKyGeni dashboard aggregation, modelled in Dafny

The SKyGeni dashboard fetches four datasets: customer type, team, account
industry and ACV range. Each row carries a fiscal quarter
(`closed_fiscal_quarter`), one dimension field (`Cust_Type`, `Team`,
`Acct_Industry` or `ACV_Range`) and the numbers `count` and `acv`. On
every render, `Frontend/src/App.tsx` derives the following from these
datasets and the selected quarter:

- the quarter filter `filterByQuarter`, where the sentinel `"All"` keeps every row;
- `getSummaryAndBar`, which folds the filtered rows into a `{count, acv}`
  summary card and groups them by dimension into a `{label, value}` bar
  series through a JavaScript object used as a dictionary;
- the customer-type view: its own summary fold, a per-row bar series
  labelled `"<quarter> (<Cust_Type>)"`, and a doughnut series grouped by
  customer type;
- the team, industry and ACV-range sections. The ACV-range section passes
  `'count'` as its value field;
- `uniqueQuarters`, the quarters for the selector: every quarter of the
  four unfiltered datasets, de-duplicated through a `Set`, then sorted.

The project models this logic and proves what it promises.

Modules:

- `records.dfy`: rows and JavaScript number values.
  - A slot holds `Number(n)`, `NaN` or `Undefined`.
  - `Plus` is JavaScript `+`, where `undefined` and `NaN` poison the sum.
  - `OrZero` is `x || 0`.
  - `Sum` is the guarded sum of one field.
- `seqs.dfy`: the order-preserving de-duplication that a `Set` or an
  object's keys perform.
- `quarter_filter.dfy`: the filter.
- `summary.dfy`: the two summary folds, as loops proved against `Sum`.
- `grouping.dfy`: the grouping fold and `Object.entries`.
  - The dictionary is its key order plus a map.
  - The fold is a loop that updates it in place, proved equal to the
    recursive `Grouped`.
  - The fold under a single label is `LabelFold`.
- `sorting.dfy`: the default string sort (lexicographic, with a proper
  prefix first), as an insertion sort.
- `dashboard.dfy`: the generic helper, the customer view, the selector and
  one whole render.
- `scenarios.dfy`: small concrete examples.

The code does not treat a missing number the same way everywhere. The
model follows each line as written:

- The generic summary fold guards both fields with `|| 0`
  (Frontend/src/App.tsx:101-102), so an absent field adds 0.
- The grouping fold guards only the accumulated side:
  `(acc[k] || 0) + item[valueKey]` (Frontend/src/App.tsx:107). So a
  row without the value field turns its group into `NaN`. Because
  `NaN || 0` is `0`, the next row of the same group starts again from 0.
  `LabelFoldSplit`, `LabelFoldMissingLast` and `MissingValueExample` state
  this. When every row of the group has the field, the value is the plain
  sum (`LabelFoldIsSum`, `BarTotal`), and the series agrees with the card.
- The customer-type summary has no `|| 0` guard at all
  (Frontend/src/App.tsx:117-118). One customer row without `count` (or
  `acv`) makes that total `NaN`, unlike the generic card
  (`CustomerSummarize`).
- `customerBar` copies each row's `acv` as it is
  (Frontend/src/App.tsx:124), so an absent value stays `undefined`.
- For the ACV-range section the card's `acv` is the sum of `count`, not of
  `acv` (Frontend/src/App.tsx:135).

The selection `"All"` is a sentinel (Frontend/src/App.tsx:95). A data
quarter named `"All"` cannot be told apart from it. It would appear in
the selector, and selecting it would show every row. So the per-quarter
cards add up to the `"All"` card only when no row has that quarter
(`SelectorPartitions`).

## Model

| member | source | states |
|---|---|---|
| QuarterFilter.FilterByQuarter | Frontend/src/App.tsx:95 | `"All"` returns the data unchanged. Any other quarter keeps only rows of that quarter, each exactly as many times as it occurs in the data, and drops every row of another quarter. |
| QuarterFilter.OnlyCounts | Frontend/src/App.tsx:95 | The rows kept for quarter `q` are, as a multiset, exactly the rows of quarter `q` in the input. |
| QuarterFilter.FilterIsSubsequence | Frontend/src/App.tsx:95 | The filtered rows are a subsequence of the input: original relative order is kept. |
| QuarterFilter.OnlyIsSubsequence | Frontend/src/App.tsx:95 | Keeping the rows of one quarter yields an order-preserving subsequence. |
| QuarterFilter.OnlyAppend | Frontend/src/App.tsx:95 | Filtering distributes over concatenation: filtering `a + b` is filtering `a`, then `b`. |
| QuarterFilter.FilterIdempotent | Frontend/src/App.tsx:95 | Filtering already-filtered data by the same selection changes nothing. |
| Summaries.Summarize | Frontend/src/App.tsx:100-104 | The in-place fold that adds each row's `countKey` and `valueKey` fields, each guarded by an or-zero, to `{0, 0}`, ends with the numeric sums of the two fields, an absent field adding 0. |
| Summaries.CustomerSummarize | Frontend/src/App.tsx:116-120 | The unguarded fold `acc.count += item.count; acc.acv += item.acv` gives the plain sum when every row has the field, and `NaN` as soon as one row lacks it. |
| Grouping.GroupSums | Frontend/src/App.tsx:106-109 | The loop that updates the dictionary in place, followed by `Object.entries(...).map(...)`, yields the series of the recursive group-by `Bar`. |
| Grouping.GroupedSpec | Frontend/src/App.tsx:106-108 | The dictionary built by the fold has no duplicate keys. Its keys are exactly the distinct dimensions in first-seen order, and the value under any key is that key's own fold (`undefined` for an absent key). |
| Grouping.BarSpec | Frontend/src/App.tsx:106-109 | The series labels are the distinct dimensions in first-seen order, and each entry's value is the fold of its own label. |
| Grouping.BarLabels | Frontend/src/App.tsx:106-109 | The series is empty for no rows and has no duplicate labels. Every label is a dimension of some row, and every row's dimension is a label. |
| Grouping.BarFirstSeenOrder | Frontend/src/App.tsx:106-109 | An earlier entry's label first occurs in the rows before a later entry's label does. |
| Grouping.LabelFoldSplit | Frontend/src/App.tsx:107 | Split the rows into two parts. If every later row of a label carries the field, that label's value is its earlier value read through the or-zero guard plus the later rows' sum. So a `NaN` lasts only until the next row of the same label. |
| Grouping.LabelFoldIsSum | Frontend/src/App.tsx:107 | When every row of a present label carries the value field, that label's entry is the sum of the field over exactly the rows of that label. |
| Grouping.BarEntryIsLabelSum | Frontend/src/App.tsx:106-109 | When every row carries the value field, each entry of the series holds the sum of that field over exactly the rows with the entry's label. |
| Grouping.LabelFoldMissingLast | Frontend/src/App.tsx:107 | When the last row of a label lacks the value field, that label's entry is `NaN`, whatever came before. |
| Grouping.StepTotal | Frontend/src/App.tsx:107 | One fold step with a present value keeps the dictionary valid and all-numeric, and moves the series total by exactly that value. |
| Grouping.BarTotal | Frontend/src/App.tsx:100-109 | When every row carries the value field, every entry is a number and the series adds up to the card's sum of that field. |
| Grouping.GroupedTotal | Frontend/src/App.tsx:106-109 | Induction behind `BarTotal`: the dictionary stays valid and all-numeric, and its entries add up to the field's sum. |
| Seqs.DistinctSpec | Frontend/src/App.tsx:138-143 | De-duplication (a `Set` built from an array, or an object's keys) keeps every element once, adds nothing, and keeps first-occurrence order. |
| Dashboard.GetSummaryAndBar | Frontend/src/App.tsx:98-112 | Defaults `valueKey = acv` and `countKey = count`. The card holds the guarded sums over the filtered rows. The series has one entry per distinct filtered dimension in first-seen order, each holding its label's fold. The series is the group-by `Bar` of the filtered rows. With every value present, the series adds up to the card's `acv`. Empty data gives `{0, 0}` and no entries. |
| Dashboard.CustomerBar | Frontend/src/App.tsx:122-125 | One entry per filtered row, in order. Entry `i` is labelled `quarter + " (" + Cust_Type + ")"` and valued by the row's raw `acv`. |
| Dashboard.CustomerBarLabels | Frontend/src/App.tsx:122-125 | With a quarter selected, every label is that quarter, then `" ("`, then the row's customer type, then `")"`. |
| Dashboard.CustomerBarTotal | Frontend/src/App.tsx:116-125 | When every customer row has an `acv`, the customer bars add up to the `acv` total. |
| Dashboard.CustomerView | Frontend/src/App.tsx:115-130 | The customer card is the unguarded fold (`NaN` on a missing field) and the bars are `CustomerBar`. The doughnut is the group-by `Bar` of the filtered rows on `acv`: one entry per distinct customer type in first-seen order, each holding its type's fold. With every `acv` present, the doughnut and the bars both add up to the card's `acv`. |
| Dashboard.UniqueQuartersSpec | Frontend/src/App.tsx:138-143 | The selector's list is strictly ascending (sorted, no repeats). A quarter is in it exactly when some row of one of the four unfiltered datasets has that quarter. |
| Dashboard.UniqueQuartersCanonical | Frontend/src/App.tsx:138-143 | Any strictly ascending list of exactly those quarters equals the selector's list, so the list does not depend on row or dataset order. |
| Dashboard.QuartersAppend | Frontend/src/App.tsx:138-142 | The quarters of concatenated datasets are the concatenation of their quarters, as the spread `[...a, ...b].map(...)` builds them. |
| Dashboard.PerQuarterTotal | Frontend/src/App.tsx:95-104 | When distinct non-`"All"` quarters cover every row, the cards of the individual quarters add up to the sum over all rows. |
| Dashboard.SelectorPartitions | Frontend/src/App.tsx:95-143 | When no row's quarter is the sentinel `"All"`, the team, industry and ACV-range cards of the single quarters the selector offers add up to their `"All"` cards. |
| Dashboard.Render | Frontend/src/App.tsx:115-143 | One render computes every section. The customer card has the unguarded `count` and `acv`, and its bars are `CustomerBar`. The doughnut, team and industry series are the group-by `Bar` on `acv` of their filtered rows, and the ACV-range series is `Bar` on `count`, with labels the distinct ranges. The team and industry cards have the guarded sums. The ACV-range card shows the same `count` total twice and its bars hold per-range count folds. The selector's quarters are `uniqueQuarters` of the unfiltered data, strictly ascending and independent of the selected quarter. |
| Sorting.SortSpec | Frontend/src/App.tsx:143 | The sort returns a permutation of its input, sorted by string order. It is strictly ascending when the input has no repeats. |
| Sorting.InsertSorted | Frontend/src/App.tsx:143 | Inserting into a sorted list keeps it sorted. |
| Sorting.InsertAscending | Frontend/src/App.tsx:143 | Inserting a new element into a strictly ascending list keeps it strictly ascending. |
| Sorting.InsertElements | Frontend/src/App.tsx:143 | Insertion adds exactly the inserted element. |
| Sorting.StrictTotalOrder | Frontend/src/App.tsx:143 | The string order the sort uses is irreflexive, transitive and total. |
| Sorting.AscendingUnique | Frontend/src/App.tsx:138-143 | Two strictly ascending lists with the same elements are equal. |
| Scenarios.TeamFilterExample | Frontend/src/App.tsx:95 | Three team rows (Alpha Q1, Beta Q1, Alpha Q2) filtered by Q1 keep the first two, in order. |
| Scenarios.TeamSectionExample | Frontend/src/App.tsx:98-109 | For those two rows the card is 3 deals worth 150, and the bars are Alpha 100 then Beta 50. |
| Scenarios.TeamQuartersExample | Frontend/src/App.tsx:138-143 | The selector for those team rows offers Q1 and Q2. |
| Scenarios.MissingValueExample | Frontend/src/App.tsx:100-109 | Alpha rows 7, missing, 5: the card counts the gap as 0 and shows 12, while the bar restarts after the `NaN` and shows 5. With the missing row last, the bar is `NaN`. |

## Left out

- Fetching the datasets, React state, `useEffect` and the order in which fetches complete (Frontend/src/App.tsx:80-92) are not modelled. A dataset that has not arrived is an empty sequence.
- The router, the JSX, the chart components, the summary cards' locale formatting, the Express server and the axios wrappers are not modelled. They are rendering or I/O with no aggregation logic.
- Numbers are exact integers. IEEE-754 double rounding, and fractional `count` or `acv` values, are not modelled.
- A `count` or `acv` that JSON gives as a string, `null` or another non-number is not modelled. A field is either a number or absent.
- Rows are typed: the quarter and the dimension are always strings, and the dynamic `item[labelKey]` lookup becomes the row's `dimension`. A row without a quarter or dimension, which JavaScript would key as `"undefined"`, is not modelled.
- Grouping.Entries: the dictionary lists its keys in plain insertion order. JavaScript's `Object.entries` lists integer-like keys (such as `"42"`) first, in numeric order. So the first-seen order stated by `Grouping.BarFirstSeenOrder`, `Grouping.GroupedSpec`, `Grouping.BarSpec`, `Dashboard.GetSummaryAndBar`, `Dashboard.CustomerView` and `Dashboard.Render` holds only for labels that are not integer-like.
- Grouping.Assign: for the label `"__proto__"`, the code assigns `(acc["__proto__"] || 0) + item[valueKey]`. That value is a string such as `"[object Object]100"`, and the `__proto__` setter ignores it. So no own key is added and the label gets no entry in the series. The model adds it as an ordinary key.
- Grouping.Lookup: an absent key reads as `undefined`. On the plain object `{}`, a key inherited from `Object.prototype` (`constructor`, `toString`, `valueOf`, `hasOwnProperty` and the like) reads a function. Then `acc[k] || 0` is that function, and `+` concatenates strings, so the entry becomes a string such as `"function Object() { [native code] }100"`. The model gives the number instead. Labels equal to these names are not modelled.
- Sorting.SortSpec: orders strings by character code points. JavaScript's default sort compares UTF-16 code units, which differs only for characters outside the Basic Multilingual Plane.
- Re-running an aggregation on the same input gives the same output. This is immediate for functions and needs no lemma.
