# Periodic table: placement engine and element card

A Dafny model of the two pieces of decision logic in a React periodic-table
app.

- **Grid placement engine** (`components/PeriodicTable.tsx`, module
  `PeriodicTable`). It looks up elements by `(group, period)`. It runs the
  per-cell rule chain of the 7 x 18 main grid: structural gaps, the two
  f-block placeholders, then a card, a blank cell or nothing. It adds the
  `*` / `**` row markers and builds the lanthanide (period 8) and actinide
  (period 9) rows, filtered and sorted by atomic number. Everything here is
  pure functions over `seq<Element>`.
- **Element card** (`components/ElementCard.tsx`, module `ElementCard`). It
  covers the "no data" formatting of optional fields, the two category lookup
  tables with their fallbacks, the left/right/center anchor decision for the
  tooltip, the above/below placement with its top-overflow override, and the
  tooltip arrow. The one piece of state a card keeps, `tooltipPosition`, is
  the field of the class `CardState`. Its method `UpdateTooltipPosition`
  models the mount/resize handler.
- `Elements` mirrors the record type of `types/element.ts`. Optional fields
  are `Option` values.

Geometry is modelled with `real`. Group, period, atomic number and discovery
year are `int`. The measured card box (`getBoundingClientRect`) and
`window.innerWidth` are parameters. So is the number-to-text conversion
(`toText`) that `formatValue` and the year entry use.

Three behaviours of the code are worth stating outright:
- Groups 4-17 of periods 6 and 7 are looked up like any other cell. The
  comment at components/PeriodicTable.tsx:54-56 says these cells are covered
  by the lanthanide and actinide rows. A matching element there is still
  shown as a card; only an absent one yields nothing (`ClassifyCell`).
- A record is shown in the main grid exactly when its position is neither a
  structural gap nor a placeholder and it is the first record in list order
  at that position (`PlacedElementShown`, both directions).
- The auxiliary rows are sorted non-decreasingly by atomic number. They are
  strictly ascending when the dataset's atomic numbers are unique
  (`AuxiliaryRowStrictlyAscending`).

## Model

| member | source | states |
|---|---|---|
| `PeriodicTable.FirstIndexAt` | components/PeriodicTable.tsx:10 | the scan stops at the first element whose group and period both match, and returns the list length when none does |
| `PeriodicTable.GetElementByPosition` | components/PeriodicTable.tsx:9-11 | the result is none exactly when no element sits at the position; otherwise it is the first such element in list order |
| `PeriodicTable.ClassifyCell` | components/PeriodicTable.tsx:26-66 | characterises each outcome by position and data. Structural gap iff period 1 groups 2-17 or periods 2-3 groups 3-12, whatever the data. Placeholder iff period 6 or 7 group 3, with "57-71"/"*" and "89-103"/"**". Card iff neither rule applies and some element matches; the card holds the first match. Nothing iff periods 6-7 groups 4-17 with no match. Blank cell in every other no-match case |
| `PeriodicTable.RowMarker` | components/PeriodicTable.tsx:20-24 | only periods 6 and 7 carry a marker, and it is the same glyph as their group-3 placeholder |
| `PeriodicTable.RenderPeriod` | components/PeriodicTable.tsx:13-67 | a main row has exactly 18 cells; cell i is the outcome for group i+1, in ascending order; it carries the period's marker |
| `PeriodicTable.MainGrid` | components/PeriodicTable.tsx:75-79 | seven rows for periods 1..7; every card in row p, column g shows an element of the list whose period is p+1 and group is g+1 |
| `PeriodicTable.RenderTable` | components/PeriodicTable.tsx:71-104 | the table is the main grid followed by the lanthanide and actinide rows; each row is sorted by atomic number and holds exactly the records of period 8 (resp. 9), with their multiplicities |
| `PeriodicTable.FilterPeriod` | components/PeriodicTable.tsx:86 | keeps each element of the requested period exactly as often as it occurs, and no other element |
| `PeriodicTable.Insert` | components/PeriodicTable.tsx:87 | inserting into a row sorted by atomic number keeps it sorted and adds exactly that element |
| `PeriodicTable.SortByNumber` | components/PeriodicTable.tsx:87 | the result is non-decreasing by atomic number and a permutation of the input |
| `PeriodicTable.AuxiliaryRow` | components/PeriodicTable.tsx:85-99 | the lanthanide/actinide row is sorted by atomic number, is a permutation of exactly the elements of period 8/9, and contains no element of another period |
| `PeriodicTable.LookupIsFirstMatch` | components/PeriodicTable.tsx:9-11 | the lookup returns the first of the elements at the position, in list order, and nothing when there are none |
| `PeriodicTable.CellDependsOnlyOnMatches` | components/PeriodicTable.tsx:9-66 | a cell depends only on the elements at its own position, in their list order: two lists with the same matches there give the same cell, wherever their other elements stand |
| `PeriodicTable.ClassifyIgnoresOtherPositions` | components/PeriodicTable.tsx:9-66 | elements at other positions, added before or after the list, never change a cell |
| `PeriodicTable.PlacedElementShown` | components/PeriodicTable.tsx:26-63 | a record of periods 1-7, groups 1-18, is shown as a card in its own cell of the rendered table exactly when its position is neither a gap nor a placeholder and it is the first record in list order at that position; in particular when it has its position to itself |
| `PeriodicTable.OutOfRangeElementHidden` | components/PeriodicTable.tsx:14-99 | a record with a period outside 1..9, or a main period with a group outside 1..18, appears in no cell and in neither auxiliary row |
| `PeriodicTable.AuxiliaryRowStrictlyAscending` | components/PeriodicTable.tsx:85-99 | with unique atomic numbers in the dataset, each auxiliary row is strictly ascending |
| `PeriodicTable.SortedPermutationUnique` | components/PeriodicTable.tsx:87 | a strictly ascending list and a non-decreasing list with the same records are equal |
| `PeriodicTable.AuxiliaryRowIsTheSortedOrder` | components/PeriodicTable.tsx:85-99 | with unique atomic numbers, every non-decreasing arrangement of the filtered records is the row, so the sorting algorithm does not matter |
| `ElementCard.FormatValue` | components/ElementCard.tsx:14-17 | a missing value shows "暂无数据"; a present one shows the number's text followed by the unit, which defaults to empty |
| `ElementCard.ElectronConfigurationText` | components/ElementCard.tsx:151 | a missing or empty configuration shows "暂无数据"; any other is shown unchanged; the text is never empty |
| `ElementCard.DiscoveryYearEntries` | components/ElementCard.tsx:177-182 | no entry for a missing year; an entry captioned "发现年份：" with the year's text for any non-zero year; the falsy year 0 yields exactly a bare "0" text node |
| `ElementCard.PhysicalProperties` | components/ElementCard.tsx:146-184 | seven fields captioned 电子构型, 电负性, 原子半径, 第一电离能, 密度, 熔点, 沸点 in that order, plus the discovery-year entry exactly when a year is present; the configuration field shows a present, non-empty configuration unchanged and "暂无数据" otherwise; each missing measurement shows "暂无数据"; each present one shows its text followed by its unit ("", " pm", " kJ/mol", " g/cm³", " K", " K") |
| `ElementCard.CategoryColor` | components/ElementCard.tsx:194-209 | each of the ten tags gets its table colour, never the gray fallback; any other string gets 'bg-gray-100 hover:bg-gray-200' |
| `ElementCard.CategoryName` | components/ElementCard.tsx:211-226 | each of the ten tags gets its Chinese name, which differs from the tag; any other string is returned unchanged |
| `ElementCard.CategoryTablesCoverTags` | components/ElementCard.tsx:194-226 | both tables are keyed by exactly the ten category tags |
| `ElementCard.CategoryColorsDistinct` | components/ElementCard.tsx:195-206 | distinct known categories have distinct colours |
| `ElementCard.CategoryNamesDistinct` | components/ElementCard.tsx:212-223 | distinct known categories have distinct names |
| `ElementCard.ChooseAnchor` | components/ElementCard.tsx:34-46 | center iff the centred 320-wide tooltip lies within [10, viewportWidth-10]; left iff cardCenter-160 < 10, so left wins when both edges overflow; right otherwise; never center in a viewport narrower than 340 |
| `ElementCard.TooltipPlacement` | components/ElementCard.tsx:60-80 | the horizontal placement is the stored anchor; above iff period > 5 and not (a box is measured with top - 200 < 0) |
| `ElementCard.HorizontalClassesDistinguishAnchors` | components/ElementCard.tsx:67-97 | left-0/right-0/centred and left-4/right-4/centred name the anchor unambiguously |
| `ElementCard.ArrowPlacement` | components/ElementCard.tsx:82-98 | as written: the arrow sits at the bottom pointing down iff period > 5, whatever the override; its offset follows the anchor |
| `ElementCard.ArrowMisplacedAfterFlip` | components/ElementCard.tsx:73-87 | on a render of a period 6-7 card with a measured box whose top is under 200, the tooltip opens below, but the arrow as written does not face the card |
| `ElementCard.ArrowFor` | components/ElementCard.tsx:82-98 | the arrow derived from the final placement always faces the card |
| `ElementCard.ArrowForAgreesWithoutFlip` | components/ElementCard.tsx:82-98 | the corrected arrow equals the written one exactly when the vertical override does not fire |
| `ElementCard.Tooltip` | components/ElementCard.tsx:111-189 | the rendered tooltip has the decided placement and the arrow as written (bottom, pointing down iff period > 5; offset follows the anchor); the arrow faces the card exactly when the top-overflow override does not fire |
| `ElementCard.CorrectedTooltip` | components/ElementCard.tsx:111-189 | with the arrow taken from the final placement, the arrow always faces the card, and the tooltip equals the rendered one whenever the override does not fire |
| `ElementCard.CardState.constructor` | components/ElementCard.tsx:11 | a new card's tooltip anchor is center |
| `ElementCard.CardState.View` | components/ElementCard.tsx:60-98 | a card's tooltip has the placement decided from its period, its stored anchor and the measured box, and the arrow as written; the arrow faces the card exactly when the override does not fire |
| `ElementCard.CardState.UpdateTooltipPosition` | components/ElementCard.tsx:19-47 | with no mounted card box the stored anchor is unchanged; otherwise it becomes the anchor decided from the box and viewport width alone |

## Findings

| source | as written | input that shows it | evidently intended | confidence | as-written member | corrected member |
|---|---|---|---|---|---|---|
| components/ElementCard.tsx:82-87 | the arrow's edge and direction follow `period > 5` only, while the tooltip itself is flipped below when `rect.top - 200 < 0` (lines 73-77) | a render of a period 6 card with a measured box whose top is 50 (a re-render after `UpdateTooltipPosition` changed the anchor): the tooltip opens below the card, and the arrow sits at the tooltip's bottom edge pointing down, away from the card | the arrow follows the final placement: top edge pointing up when the tooltip is below | medium, not executed | `ElementCard.ArrowMisplacedAfterFlip` | `ElementCard.ArrowFor` |

## Left out

- Rendering: JSX structure, Tailwind class strings, React keys and the card's summary glyph. Only the decisions are modelled: cell kinds, anchors, placements and arrow sides. Two class fragments are kept to show that they determine the anchor.
- The basic-information block of the tooltip (atomic number, `atomicMass.toFixed(3)`, period, group): these are direct field displays. `toFixed(1)` and `toFixed(3)` are decimal rendering and are not modelled. The category name in that block is `CategoryName`.
- Number-to-text conversion inside `formatValue` and for the discovery year: left abstract as the parameter `toText`.
- DOM measurement: `getBoundingClientRect` and `window.innerWidth` are inputs. The box used by `TooltipPlacement` is measured at render time and may differ from the one the last `UpdateTooltipPosition` saw; the model takes both as separate inputs. On a card's first render the element is not yet mounted, so the render-time box is absent (`None`) and the top-overflow override cannot fire; a card re-renders only when `UpdateTooltipPosition` changes the stored anchor, so the override, and the misplaced arrow, are reached only on such a re-render. React's render scheduling itself is not modelled.
- The resize listener's registration and removal (components/ElementCard.tsx:53-57): event plumbing. Each resize is one `UpdateTooltipPosition` call.
- JavaScript number semantics: groups, periods and atomic numbers are integers. Non-integer or NaN values, and the comparator `a - b` on them, are not modelled.
- ElementCard.CategoryColor: a tag that names an inherited `Object.prototype` member (such as "constructor") finds that member in the lookup object at run time; the model treats every string outside the ten tags as missing from the table.
- ElementCard.CategoryName: same as above for the name table.
- SortByNumber: stability among equal atomic numbers is not stated. With unique atomic numbers the order is fully determined (`AuxiliaryRowIsTheSortedOrder`).
- Page composition (`app/page.tsx`) and the element dataset are not part of this model; the dataset is an arbitrary `seq<Element>`.
