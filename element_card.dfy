/**
 * The element card: the text shown for optional fields, the category
 * lookup tables, and the viewport-aware placement of the hover tooltip and
 * of its arrow. The one piece of state a card keeps, the horizontal anchor
 * of its tooltip, lives in the class `CardState`.
 */
module ElementCard {
  import opened Elements

  // ---------------------------------------------------------------------------
  // Field text
  // ---------------------------------------------------------------------------

  /** The placeholder shown for a missing value ("no data"). */
  const NoData: string := "暂无数据"

  /**
   * `formatValue`: the placeholder for a missing number, otherwise the
   * number's text followed by the unit (empty by default). How a number is
   * turned into text is the parameter `toText`.
   */
  function FormatValue(toText: real -> string, value: Option<real>, unit: string := ""): (s: string)
    ensures value.None? ==> s == NoData
    ensures value.Some? ==> |s| >= |unit| && s[..|s| - |unit|] == toText(value.value) && s[|s| - |unit|..] == unit
  {
    if value.None? then NoData else toText(value.value) + unit
  }

  /** `electronConfiguration || '暂无数据'`: a missing or empty string shows the placeholder. */
  function ElectronConfigurationText(configuration: Option<string>): (s: string)
    ensures s != ""
    ensures configuration.Some? && configuration.value != "" ==> s == configuration.value
    ensures configuration.None? || configuration.value == "" ==> s == NoData
  {
    if configuration.Some? && configuration.value != "" then configuration.value else NoData
  }

  /** One line of the tooltip: a labelled value, or a bare text node. */
  datatype Entry = Field(caption: string, text: string) | BareText(text: string)

  /**
   * `{element.discoveryYear && (...)}`: no entry for a missing year; a year
   * of 0 is falsy, so the expression yields 0 and the text "0" is rendered
   * in place of the entry; any other year gets its labelled entry.
   */
  function DiscoveryYearEntries(toText: real -> string, year: Option<int>): (r: seq<Entry>)
    ensures |r| <= 1
    ensures |r| == 1 <==> year.Some?
    ensures |r| == 1 && r[0].Field? <==> year.Some? && year.value != 0
    ensures |r| == 1 && r[0].Field? ==> r[0].caption == "发现年份：" && r[0].text == toText(year.value as real)
    ensures year == Some(0) ==> r == [BareText("0")]
  {
    match year
    case None => []
    case Some(y) => if y == 0 then [BareText("0")] else [Field("发现年份：", toText(y as real))]
  }

  /** The units printed after each measured quantity, in display order. */
  const AtomicRadiusUnit: string := " pm"
  const IonizationEnergyUnit: string := " kJ/mol"
  const DensityUnit: string := " g/cm³"
  const TemperatureUnit: string := " K"

  /** The "physical and chemical properties" block of the tooltip, top to bottom. */
  function PhysicalProperties(toText: real -> string, e: Element): (r: seq<Entry>)
    ensures |r| == 7 || |r| == 8
    ensures |r| == 8 <==> e.discoveryYear.Some?
    ensures forall i :: 0 <= i < 7 ==> r[i].Field?
    ensures r[0].text == ElectronConfigurationText(e.electronConfiguration)
    ensures r[0].text != ""
    ensures r[0].text == NoData <==>
      (e.electronConfiguration.None? || e.electronConfiguration.value == "" || e.electronConfiguration.value == NoData)
    ensures e.electronegativity.None? ==> r[1].text == NoData
    ensures e.atomicRadius.None? ==> r[2].text == NoData
    ensures e.ionizationEnergy.None? ==> r[3].text == NoData
    ensures e.density.None? ==> r[4].text == NoData
    ensures e.meltingPoint.None? ==> r[5].text == NoData
    ensures e.boilingPoint.None? ==> r[6].text == NoData
    ensures e.electronegativity.Some? ==> r[1].text == toText(e.electronegativity.value)
    ensures e.atomicRadius.Some? ==> r[2].text == toText(e.atomicRadius.value) + AtomicRadiusUnit
    ensures e.ionizationEnergy.Some? ==> r[3].text == toText(e.ionizationEnergy.value) + IonizationEnergyUnit
    ensures e.density.Some? ==> r[4].text == toText(e.density.value) + DensityUnit
    ensures e.meltingPoint.Some? ==> r[5].text == toText(e.meltingPoint.value) + TemperatureUnit
    ensures e.boilingPoint.Some? ==> r[6].text == toText(e.boilingPoint.value) + TemperatureUnit
    ensures r[0].caption == "电子构型：" && r[1].caption == "电负性：" && r[2].caption == "原子半径：" &&
      r[3].caption == "第一电离能：" && r[4].caption == "密度：" && r[5].caption == "熔点：" &&
      r[6].caption == "沸点："
    ensures |r| == 8 ==> r[7] == DiscoveryYearEntries(toText, e.discoveryYear)[0]
  {
    [ Field("电子构型：", ElectronConfigurationText(e.electronConfiguration)),
      Field("电负性：", FormatValue(toText, e.electronegativity)),
      Field("原子半径：", FormatValue(toText, e.atomicRadius, AtomicRadiusUnit)),
      Field("第一电离能：", FormatValue(toText, e.ionizationEnergy, IonizationEnergyUnit)),
      Field("密度：", FormatValue(toText, e.density, DensityUnit)),
      Field("熔点：", FormatValue(toText, e.meltingPoint, TemperatureUnit)),
      Field("沸点：", FormatValue(toText, e.boilingPoint, TemperatureUnit)) ]
    + DiscoveryYearEntries(toText, e.discoveryYear)
  }

  // ---------------------------------------------------------------------------
  // Category lookup tables
  // ---------------------------------------------------------------------------

  /** The ten category tags an element may carry. */
  const KnownCategories: set<string> := {
    "alkali-metal", "alkaline-earth-metal", "transition-metal", "post-transition-metal",
    "metalloid", "nonmetal", "halogen", "noble-gas", "lanthanide", "actinide" }

  const CategoryColors: map<string, string> := map[
    "alkali-metal" := "bg-red-100 hover:bg-red-200",
    "alkaline-earth-metal" := "bg-orange-100 hover:bg-orange-200",
    "transition-metal" := "bg-yellow-100 hover:bg-yellow-200",
    "post-transition-metal" := "bg-green-100 hover:bg-green-200",
    "metalloid" := "bg-teal-100 hover:bg-teal-200",
    "nonmetal" := "bg-blue-100 hover:bg-blue-200",
    "halogen" := "bg-indigo-100 hover:bg-indigo-200",
    "noble-gas" := "bg-purple-100 hover:bg-purple-200",
    "lanthanide" := "bg-pink-100 hover:bg-pink-200",
    "actinide" := "bg-rose-100 hover:bg-rose-200"]

  /** The colour of a card whose category is not in the table. */
  const DefaultColor: string := "bg-gray-100 hover:bg-gray-200"

  const CategoryNames: map<string, string> := map[
    "alkali-metal" := "碱金属",
    "alkaline-earth-metal" := "碱土金属",
    "transition-metal" := "过渡金属",
    "post-transition-metal" := "后过渡金属",
    "metalloid" := "类金属",
    "nonmetal" := "非金属",
    "halogen" := "卤素",
    "noble-gas" := "稀有气体",
    "lanthanide" := "镧系元素",
    "actinide" := "锕系元素"]

  /** `colors[category] || default`: a missing or empty table entry falls back to gray. */
  function CategoryColor(category: string): (c: string)
    ensures category in KnownCategories ==> c == CategoryColors[category] && c != DefaultColor
    ensures category !in KnownCategories ==> c == DefaultColor
  {
    if category in CategoryColors && CategoryColors[category] != "" then CategoryColors[category]
    else DefaultColor
  }

  /** `names[category] || category`: a missing or empty table entry falls back to the tag itself. */
  function CategoryName(category: string): (n: string)
    ensures category in KnownCategories ==> n == CategoryNames[category] && n != category
    ensures category !in KnownCategories ==> n == category
  {
    if category in CategoryNames && CategoryNames[category] != "" then CategoryNames[category]
    else category
  }

  /** Both tables are keyed by exactly the ten category tags. */
  lemma CategoryTablesCoverTags()
    ensures CategoryColors.Keys == KnownCategories
    ensures CategoryNames.Keys == KnownCategories
  {
  }

  /** Each known category has a colour of its own. */
  lemma CategoryColorsDistinct(a: string, b: string)
    requires a in KnownCategories && b in KnownCategories && a != b
    ensures CategoryColor(a) != CategoryColor(b)
  {
  }

  /** Each known category has a name of its own. */
  lemma CategoryNamesDistinct(a: string, b: string)
    requires a in KnownCategories && b in KnownCategories && a != b
    ensures CategoryName(a) != CategoryName(b)
  {
  }

  // ---------------------------------------------------------------------------
  // Tooltip placement
  // ---------------------------------------------------------------------------

  /** Where the tooltip is attached horizontally. */
  datatype Anchor = Center | Left | Right

  /** Whether the tooltip opens above or below its card. */
  datatype Vertical = Above | Below

  /** The measured box of the card, in viewport coordinates. */
  datatype Rect = Rect(left: real, top: real, width: real)

  const TooltipWidth: real := 320.0
  const TooltipHeight: real := 200.0
  const EdgeBuffer: real := 10.0

  /** The horizontal centre of the card. */
  function CardCenter(rect: Rect): real
  {
    rect.left + rect.width / 2.0
  }

  /** A tooltip centred at `center` would cross the buffered left edge. */
  predicate OverflowsLeft(center: real)
  {
    center - TooltipWidth / 2.0 < EdgeBuffer
  }

  /** A tooltip centred at `center` would cross the buffered right edge. */
  predicate OverflowsRight(center: real, viewportWidth: real)
  {
    center + TooltipWidth / 2.0 > viewportWidth - EdgeBuffer
  }

  /** A tooltip centred at `center` lies inside [EdgeBuffer, viewportWidth - EdgeBuffer]. */
  predicate FitsCentered(center: real, viewportWidth: real)
  {
    EdgeBuffer <= center - TooltipWidth / 2.0 && center + TooltipWidth / 2.0 <= viewportWidth - EdgeBuffer
  }

  /**
   * The anchor decision of `updateTooltipPosition`. Center is chosen exactly
   * when the centred tooltip fits the buffered viewport; otherwise left wins
   * over right.
   */
  function ChooseAnchor(rect: Rect, viewportWidth: real): (a: Anchor)
    ensures a == Center <==> FitsCentered(CardCenter(rect), viewportWidth)
    ensures a == Left <==> OverflowsLeft(CardCenter(rect))
    ensures a == Right <==> !OverflowsLeft(CardCenter(rect)) && OverflowsRight(CardCenter(rect), viewportWidth)
    ensures viewportWidth < TooltipWidth + 2.0 * EdgeBuffer ==> a != Center
  {
    var center := CardCenter(rect);
    if center - TooltipWidth / 2.0 < EdgeBuffer then Left
    else if center + TooltipWidth / 2.0 > viewportWidth - EdgeBuffer then Right
    else Center
  }

  /** The placement decided by `getTooltipPositionClasses`. */
  datatype Placement = Placement(vertical: Vertical, horizontal: Anchor)

  /**
   * Periods below 6 open downwards. Periods 6 and 7 open upwards, unless the
   * card's measured top is less than the tooltip height from the viewport top.
   */
  function TooltipPlacement(period: int, anchor: Anchor, rect: Option<Rect>): (t: Placement)
    ensures t.horizontal == anchor
    ensures t.vertical == Above <==> period > 5 && (rect.None? || rect.value.top >= TooltipHeight)
  {
    var isAbove := period > 5;
    var verticalPosition := if period > 5 then Above else Below;
    if isAbove && rect.Some? && rect.value.top - TooltipHeight < 0.0 then Placement(Below, anchor)
    else Placement(verticalPosition, anchor)
  }

  /** The class that places the tooltip horizontally. */
  function HorizontalClass(anchor: Anchor): string
  {
    match anchor
    case Left => "left-0"
    case Right => "right-0"
    case Center => "-translate-x-1/2 left-1/2"
  }

  /** The class that places the arrow horizontally. */
  function ArrowOffsetClass(anchor: Anchor): string
  {
    match anchor
    case Left => "left-4"
    case Right => "right-4"
    case Center => "left-1/2 -translate-x-1/2"
  }

  /** The horizontal classes name the anchor unambiguously. */
  lemma HorizontalClassesDistinguishAnchors(a: Anchor, b: Anchor)
    requires a != b
    ensures HorizontalClass(a) != HorizontalClass(b)
    ensures ArrowOffsetClass(a) != ArrowOffsetClass(b)
  {
  }

  /** Which edge of the tooltip carries the arrow, and where it points. */
  datatype ArrowEdge = BottomPointingDown | TopPointingUp

  datatype Arrow = Arrow(edge: ArrowEdge, offset: Anchor)

  /** The arrow points at the card: at the bottom edge of a tooltip above it, at the top edge of one below it. */
  predicate ArrowFacesCard(t: Placement, a: Arrow)
  {
    (t.vertical == Above <==> a.edge == BottomPointingDown) && a.offset == t.horizontal
  }

  /** `getTooltipArrowClasses` as written: the edge follows `period > 5` alone. */
  function ArrowPlacement(period: int, anchor: Anchor): (a: Arrow)
    ensures a.edge == BottomPointingDown <==> period > 5
    ensures a.offset == anchor
  {
    var isAbove := period > 5;
    Arrow(if isAbove then BottomPointingDown else TopPointingUp, anchor)
  }

  /**
   * On a render where the card's box is measured and its top is near the
   * viewport top, the tooltip of a period 6 or 7 card is flipped below, yet
   * the arrow as written still sits at the tooltip's bottom edge pointing
   * down, away from the card.
   */
  lemma ArrowMisplacedAfterFlip(period: int, anchor: Anchor, rect: Rect)
    requires period > 5 && rect.top < TooltipHeight
    ensures TooltipPlacement(period, anchor, Some(rect)).vertical == Below
    ensures !ArrowFacesCard(TooltipPlacement(period, anchor, Some(rect)), ArrowPlacement(period, anchor))
  {
  }

  /** The arrow derived from the final placement, so that it always faces the card. */
  function ArrowFor(t: Placement): (a: Arrow)
    ensures ArrowFacesCard(t, a)
  {
    Arrow(if t.vertical == Above then BottomPointingDown else TopPointingUp, t.horizontal)
  }

  /** The corrected arrow differs from the written one only where the vertical override fires. */
  lemma ArrowForAgreesWithoutFlip(period: int, anchor: Anchor, rect: Option<Rect>)
    ensures ArrowFor(TooltipPlacement(period, anchor, rect)) == ArrowPlacement(period, anchor)
        <==> !(period > 5 && rect.Some? && rect.value.top < TooltipHeight)
  {
  }

  /** The tooltip of a card: its placement and its arrow. */
  datatype TooltipView = TooltipView(placement: Placement, arrow: Arrow)

  /**
   * The tooltip as the card renders it: the placement of
   * `getTooltipPositionClasses` with the arrow of `getTooltipArrowClasses`.
   * The arrow faces the card exactly when the top-overflow override does not fire.
   */
  function Tooltip(period: int, anchor: Anchor, rect: Option<Rect>): (v: TooltipView)
    ensures v.placement == TooltipPlacement(period, anchor, rect)
    ensures v.arrow.edge == BottomPointingDown <==> period > 5
    ensures v.arrow.offset == anchor
    ensures ArrowFacesCard(v.placement, v.arrow) <==>
      !(period > 5 && rect.Some? && rect.value.top < TooltipHeight)
  {
    TooltipView(TooltipPlacement(period, anchor, rect), ArrowPlacement(period, anchor))
  }

  /** The tooltip with its arrow taken from the final placement, so that it always faces the card. */
  function CorrectedTooltip(period: int, anchor: Anchor, rect: Option<Rect>): (v: TooltipView)
    ensures v.placement == TooltipPlacement(period, anchor, rect)
    ensures ArrowFacesCard(v.placement, v.arrow)
    ensures !(period > 5 && rect.Some? && rect.value.top < TooltipHeight) ==> v == Tooltip(period, anchor, rect)
  {
    var t := TooltipPlacement(period, anchor, rect);
    ArrowForAgreesWithoutFlip(period, anchor, rect);
    TooltipView(t, ArrowFor(t))
  }

  // ---------------------------------------------------------------------------
  // Per-card state
  // ---------------------------------------------------------------------------

  /** The state one card keeps: the anchor of its tooltip. */
  class CardState {
    const element: Element
    var tooltipPosition: Anchor

    /** A card starts with a centred tooltip. */
    constructor (element: Element)
      ensures this.element == element && tooltipPosition == Center
    {
      this.element := element;
      tooltipPosition := Center;
    }

    /** The tooltip this card draws, for the box measured at render time. */
    function View(rect: Option<Rect>): (v: TooltipView)
      reads this
      ensures v.placement == TooltipPlacement(element.period, tooltipPosition, rect)
      ensures v.arrow == ArrowPlacement(element.period, tooltipPosition)
      ensures ArrowFacesCard(v.placement, v.arrow) <==>
        !(element.period > 5 && rect.Some? && rect.value.top < TooltipHeight)
    {
      Tooltip(element.period, tooltipPosition, rect)
    }

    /**
     * `updateTooltipPosition`, run on mount and on every resize: with no
     * mounted card box nothing changes; otherwise the anchor is recomputed
     * from the box and the viewport width alone.
     */
    method UpdateTooltipPosition(card: Option<Rect>, viewportWidth: real)
      modifies this
      ensures card.None? ==> tooltipPosition == old(tooltipPosition)
      ensures card.Some? ==> tooltipPosition == ChooseAnchor(card.value, viewportWidth)
    {
      if card.None? {
        return;
      }
      var rect := card.value;
      var cardCenter := rect.left + rect.width / 2.0;
      if cardCenter - TooltipWidth / 2.0 < EdgeBuffer {
        tooltipPosition := Left;
      } else if cardCenter + TooltipWidth / 2.0 > viewportWidth - EdgeBuffer {
        tooltipPosition := Right;
      } else {
        tooltipPosition := Center;
      }
    }
  }
}
