# Population pyramid — a Dafny model

The program draws an animated population pyramid with D3. It works on a table of rows (year, age bracket, region, male and female population). It keeps four pieces of state: the rows of the selected region (`filteredData`), the year on display, whether the animation is playing, and two linear scales whose domain is capped per region. The rows for the displayed year are sorted oldest bracket first. The chart then reconciles them with the SVG bar groups already on the page.

This project models that core, from `src/main.js`:

- `AgeLabels`: the numeric key of an age label. This is `+(age.split("-")[0].replace("+", ""))` on digit strings.
- `Sequences`: `Array.prototype.filter`, `Array.prototype.reverse` and lodash's stable `_.sortBy`, as functions on sequences, with their properties.
- `Records`: the population row and the region filter.
- `YearSelection`: `getYearData`. It filters by year, sorts by age key, then reverses.
- `Bars`: the update join of `updateChart`. The data join is called without a key function, so bar groups are matched to rows by position:
  - Groups beyond the old count are entered at slot `i * barHeight` and labelled with the row's age bracket.
  - Groups beyond the new count exit.
  - Every remaining group has its rects redrawn (the female bar's `x` and both widths). Its position and its label stay as they were.
- `Chart`: the state as a class `PyramidChart`, with its event handlers: the slider, the play button, the animation tick, the region selector and start-up.

The join is positional (`src/main.js:180-196`): `.data(yearData)` has no key function, so a surviving group is neither re-keyed nor moved, and only its rects are redrawn. `Bars.StaleLabelExample` shows the consequence: a surviving group keeps the label of the row it was first created for.

## Model

| member | source | states |
|---|---|---|
| AgeLabels.BeforeFirst | src/main.js:136 | `split("-")[0]` is the prefix of the label up to, not including, its first `-`, and all of it when there is none |
| AgeLabels.RemoveFirst | src/main.js:136 | `.replace("+", "")` removes the first `+` when there is one, keeping the text before it and the text after it in order, and changes nothing when there is none |
| AgeLabels.ParseNumber | src/main.js:136 | `+t` yields a number exactly when `t` is a string of decimal digits, and the empty string yields 0; its value is stated by `ParseNumberAppendDigit`, `ParseNumberOfDecimal` and `ParseNumberLeadingZero` |
| AgeLabels.ParseNumberAppendDigit | src/main.js:136 | appending a digit to a numeral multiplies its value by ten and adds the digit (in exact integers; see `AgeLabels.ParseNumber` under Left out), which with the empty string's 0 fixes the value of every numeral |
| AgeLabels.ParseNumberOfDecimal | src/main.js:136 | the decimal numeral of `n` reads back as `n` (in exact integers) |
| AgeLabels.ParseNumberLeadingZero | src/main.js:136 | a leading zero does not change the value: `+"05"` is 5 |
| AgeLabels.AgeKey | src/main.js:136 | the key of a label with neither `-` nor `+` is the label's number itself; its behaviour on bracket labels is stated by `AgeKeyOfRange`, `AgeKeyOfOpenBracket` and `AgeKeyIgnoresAfterDash` |
| AgeLabels.AgeKeyOfDigitsDash | src/main.js:136 | a label made of a numeral, a `-` and any text is keyed by that numeral's value |
| AgeLabels.AgeKeyOfDigitsPlus | src/main.js:136 | a label made of a numeral and a `+` is keyed by that numeral's value |
| AgeLabels.AgeKeyOfRange | src/main.js:136 | the key of a range label `"<n>-<rest>"` is `n`, whatever follows the dash |
| AgeLabels.AgeKeyOfOpenBracket | src/main.js:136 | the key of an open bracket `"<n>+"` is `n`: the `+` is removed before conversion |
| AgeLabels.AgeKeyIgnoresAfterDash | src/main.js:136 | only the text before the first `-` decides the key |
| AgeLabels.AgeKeyOfEightyPlus | src/main.js:136 | `"80+"` has key 80 |
| AgeLabels.AgeKeyOfTwentyToTwentyFour | src/main.js:136 | `"20-24"` has key 20 |
| Sequences.Filter | src/main.js:131-133 | `Array.prototype.filter` never lengthens its input; what it keeps and in which order is stated by `FilterContents` and `FilterKeepsOrder` |
| Sequences.FilterContents | src/main.js:116 | filtering keeps each element satisfying the predicate as many times as it occurs, and no other element |
| Sequences.FilterKeepsOrder | src/main.js:116 | the filtered sequence lists the matching positions of the input in increasing order |
| Sequences.FilterAppend | src/main.js:131-133 | filtering a concatenation filters each part |
| Sequences.Reverse | src/main.js:138 | the element at `i` of the reversal is the input's element at `len - 1 - i` |
| Sequences.ReversePermutes | src/main.js:138 | reversing is a permutation |
| Sequences.FilterReverse | src/main.js:131-138 | filtering commutes with reversing |
| Sequences.Insert | src/main.js:134-137 | inserting into a sequence sorted by key keeps it sorted and adds exactly the element |
| Sequences.SortBy | src/main.js:134-137 | `_.sortBy` returns a permutation of its input in ascending key order |
| Sequences.InsertStable | src/main.js:134-137 | insertion puts the element before every element of equal key |
| Sequences.SortByStable | src/main.js:134-137 | `_.sortBy` is stable: elements with equal keys keep their relative input order |
| Records.FilterByRegion | src/main.js:116 | the region's rows are no more than the loaded rows; which rows, and in which order, is stated by `RegionFilterContents` and `RegionFilterKeepsOrder` |
| Records.RegionFilterContents | src/main.js:116 | the region's rows are exactly the input rows of that region, each as many times as in the input |
| Records.RegionFilterKeepsOrder | src/main.js:116 | the region's rows are in input order |
| YearSelection.Key | src/main.js:134-137 | the `_.sortBy` iteratee is the label's age key, never negative, for every well-formed row |
| YearSelection.YearData | src/main.js:130-139 | `getYearData` returns no more rows than the region has; its contents, order and ties are stated by `YearDataRows`, `YearDataOrder` and `YearDataTies` |
| YearSelection.YearDataRows | src/main.js:130-139 | the year's rows are a permutation of the rows of that year, and there are none when no row has that year |
| YearSelection.YearDataOrder | src/main.js:134-138 | the year's rows come in non-increasing age key order, oldest bracket first |
| YearSelection.YearDataTies | src/main.js:134-138 | rows with equal age keys come out in the reverse of their input order |
| Bars.Entered | src/main.js:185-191 | an entering group carries its row's age bracket as its label, and appended at its index to groups that sit at their slots, it sits at its own slot |
| Bars.Redrawn | src/main.js:167-176 | redrawing a group sets the female bar's `x` and the negated width, and the male width, from the scales; label and position are kept |
| Bars.Join | src/main.js:178-196 | one group per row; every group shows its row's populations; groups matched by index keep their label and position; entered groups sit at `i * barHeight` and show their row's age bracket |
| Bars.JoinSettles | src/main.js:185-196 | the join leaves one group per row; a second join with the same rows enters nothing, removes nothing and changes nothing |
| Bars.JoinKeepsSlots | src/main.js:185-189 | when every group sits at its slot, it still does after the join |
| Bars.JoinLabels | src/main.js:178-196 | the labels read the rows' age brackets exactly when every surviving group was already labelled with the bracket now at its index |
| Bars.StaleLabelExample | src/main.js:180-196 | a group entered for "20-24" and later matched to a "25-29" row keeps the "20-24" label but draws the new row's widths |
| Bars.Render | src/main.js:185-196 | appending entered groups, redrawing the groups bound to rows, then removing the exiting ones yields the join |
| Chart.NextYear | src/main.js:73-76 | one tick adds a year before 2023 and goes to 1980 from 2023; a year in range stays in range |
| Chart.TicksCycle | src/main.js:69-78 | after 44 ticks of playing, the display returns to the year it started from |
| Chart.PyramidChart.constructor | src/main.js:3-7 | the initial state: year 2000, not playing, both scales capped at 60000000, no bars; the rows are those `initializeData` maps from the CSV (src/main.js:84-92) |
| Chart.PyramidChart.Start | src/main.js:207-214 | after start-up, Europe is selected, both scales keep their interpolation with domains capped at 40000000, the bars are two successive joins of the year's rows (by `Bars.JoinSettles` the second changes nothing), and starting from no bars every label is its row's age bracket |
| Chart.PyramidChart.CurrentYearData | src/main.js:179 | the displayed year's rows are no more than the region's rows; they are `YearData` of the filtered rows and the displayed year |
| Chart.PyramidChart.UpdateChart | src/main.js:178-196 | the bars become the join of the old bars and the displayed year's rows; the state invariant and the display hold |
| Chart.PyramidChart.SetYear | src/main.js:23-27 | moving the slider stops playing, sets the year and redraws it |
| Chart.PyramidChart.TogglePlay | src/main.js:29-31 | the play button flips the playing flag and changes nothing else |
| Chart.PyramidChart.Tick | src/main.js:69-78 | when not playing, nothing changes; when playing, the year advances with the wrap and is redrawn |
| Chart.PyramidChart.SelectRegion | src/main.js:114-128 | the region's rows are selected, both domains reset to `[0, cap]` for the region, and the chart redrawn |
| Chart.PressPlayTwice | src/main.js:29-31 | pressing play twice leaves the chart exactly as it was |
| Chart.PlayPastLastYear | src/main.js:69-78 | sliding to 2023, pressing play and one tick shows 1980 while playing |

## Left out

- The DOM, SVG attributes, colours, `centerOffset`, the bar height in pixels minus one, and the text `y` of 14: the model records only each group's label, vertical slot and the three scale-derived attributes.
- d3 linear scales: `Bars.Scale` keeps the domain cap and an uninterpreted interpolation of (cap, population). The range `[0, ±barWidth]` and its arithmetic are not modelled.
- `initializeAxes` (axis ticks and the `"M"` tick format): drawing only.
- CSV loading and the `+d.Year` / `+d.Male` / `+d.Female` conversions: the constructor receives the rows already typed, with the years as integers and `+d.Male` / `+d.Female` as natural numbers (exact, not doubles).
- `_.uniq` of the regions and the population of the dropdown: they only fill the selector.
- The timing of `window.setInterval` (every 200 ms): `Tick` is the body of one interval, and any schedule is a sequence of calls.
- The main title and the slider update at the end of `updateChart`: text output only.
- Chart.PyramidChart.SelectRegion: requires the region to be in the cap map. The selector only offers loaded regions, and an unknown region would make the domain `[0, undefined]`.
- Chart.PyramidChart.constructor: requires every loaded label to have a numeric key. A label whose key is `NaN` would make the sort order depend on lodash's treatment of `NaN`, which is not modelled. `YearSelection.Key` falls back to 0 only for such labels, so the fallback never takes effect.
- AgeLabels.ParseNumber: only strings of decimal digits convert. Any other syntax `Number` accepts (surrounding whitespace, signs, decimals, exponents, `Infinity`, and `0x`/`0o`/`0b` literals) gives no key here. Values are exact integers; `+t` gives a double, so numerals above 2^53 round and two different numerals may tie, which the model does not reproduce.
- Sequences.Reverse: `yearData.reverse()` reverses a fresh array in place. It is modelled as a function on values, since nothing else refers to that array.
- Chart.PyramidChart.Start: states the selected region and its cap, not the identity of the filtered rows. That identity follows from `Valid()` together with `region == DefaultRegion`.
