/**
 * The grid placement engine of the periodic table component: the lookup of
 * an element by (group, period), the rule chain that decides what each cell
 * of the 7 x 18 main grid shows, the row markers of periods 6 and 7, and the
 * two auxiliary rows (lanthanides, period 8; actinides, period 9) sorted by
 * atomic number.
 */
module PeriodicTable {
  import opened Elements

  // ---------------------------------------------------------------------------
  // Lookup by position (`elements.find(...)`)
  // ---------------------------------------------------------------------------

  /** The element sits at the cell (group, period). */
  predicate At(e: Element, group: int, period: int)
  {
    e.group == group && e.period == period
  }

  /** Index `k` holds the first element, in list order, that sits at (group, period). */
  ghost predicate IsFirstAt(elements: seq<Element>, k: int, group: int, period: int)
  {
    0 <= k < |elements| && At(elements[k], group, period) &&
    forall j :: 0 <= j < k ==> !At(elements[j], group, period)
  }

  /** No element of the list sits at (group, period). */
  ghost predicate NoneAt(elements: seq<Element>, group: int, period: int)
  {
    forall i :: 0 <= i < |elements| ==> !At(elements[i], group, period)
  }

  /** The scan that `find` performs: the index of the first match, or |elements|. */
  function FirstIndexAt(elements: seq<Element>, group: int, period: int): (k: nat)
    ensures k <= |elements|
    ensures k < |elements| ==> At(elements[k], group, period)
    ensures forall j :: 0 <= j < k ==> !At(elements[j], group, period)
  {
    if |elements| == 0 then 0
    else if At(elements[0], group, period) then 0
    else 1 + FirstIndexAt(elements[1..], group, period)
  }

  /** `getElementByPosition`: the first element whose group and period both match. */
  function GetElementByPosition(elements: seq<Element>, group: int, period: int): (r: Option<Element>)
    ensures r.None? <==> NoneAt(elements, group, period)
    ensures r.Some? ==> exists k :: IsFirstAt(elements, k, group, period) && r.value == elements[k]
  {
    var k := FirstIndexAt(elements, group, period);
    if k < |elements| then
      assert IsFirstAt(elements, k, group, period);
      Some(elements[k])
    else
      None
  }

  // ---------------------------------------------------------------------------
  // The per-cell rule chain of `renderPeriod`
  // ---------------------------------------------------------------------------

  /**
   * What one main-grid cell renders. `StructuralGap` and `EmptyCell` are both
   * the same empty 72px div; they are kept apart so that the rule which
   * produced the blank can be stated. `Omitted` is the `null` the row returns
   * for an empty f-block cell of periods 6 and 7.
   */
  datatype Cell =
    | StructuralGap
    | Placeholder(range: string, marker: string)
    | Card(element: Element)
    | EmptyCell
    | Omitted

  /** Period 1, groups 2..17 and periods 2..3, groups 3..12 never hold an element. */
  predicate IsStructuralGap(period: int, group: int)
  {
    (period == 1 && group > 1 && group < 18) ||
    ((period == 2 || period == 3) && group > 2 && group < 13)
  }

  /** Group 3 of periods 6 and 7 points at the lanthanide and actinide rows. */
  predicate IsFBlockPlaceholder(period: int, group: int)
  {
    (period == 6 || period == 7) && group == 3
  }

  /** Groups 4..17 of periods 6 and 7, drawn below the main grid. */
  predicate IsFBlockSpan(period: int, group: int)
  {
    (period == 6 || period == 7) && group >= 4 && group <= 17
  }

  /**
   * The rule chain, in the source's order: the structural gaps first, then
   * the two placeholders, then the lookup result. Its contract characterises
   * every outcome by the position and the data alone.
   */
  function ClassifyCell(elements: seq<Element>, period: int, group: int): (c: Cell)
    ensures c == StructuralGap <==> IsStructuralGap(period, group)
    ensures c.Placeholder? <==> IsFBlockPlaceholder(period, group)
    ensures c.Placeholder? ==>
      c == (if period == 6 then Placeholder("57-71", "*") else Placeholder("89-103", "**"))
    ensures c.Card? <==>
      !IsStructuralGap(period, group) && !IsFBlockPlaceholder(period, group) &&
      !NoneAt(elements, group, period)
    ensures c.Card? ==> exists k :: IsFirstAt(elements, k, group, period) && c.element == elements[k]
    ensures c == Omitted <==> IsFBlockSpan(period, group) && NoneAt(elements, group, period)
    ensures c == EmptyCell <==>
      !IsStructuralGap(period, group) && !IsFBlockPlaceholder(period, group) &&
      !IsFBlockSpan(period, group) && NoneAt(elements, group, period)
  {
    var element := GetElementByPosition(elements, group, period);
    if period == 1 && group > 1 && group < 18 then StructuralGap
    else if (period == 2 || period == 3) && group > 2 && group < 13 then StructuralGap
    else if period == 6 && group == 3 then Placeholder("57-71", "*")
    else if period == 7 && group == 3 then Placeholder("89-103", "**")
    else if element.None? then
      if !((period == 6 || period == 7) && group >= 4 && group <= 17) then EmptyCell
      else Omitted
    else Card(element.value)
  }

  // ---------------------------------------------------------------------------
  // Rows and the whole table
  // ---------------------------------------------------------------------------

  /** The glyph drawn left of a main row: "*" for period 6, "**" for period 7. */
  function RowMarker(period: int): (m: Option<string>)
    ensures m.Some? <==> period == 6 || period == 7
    ensures m.Some? ==> m.value == ClassifyCell([], period, 3).marker
  {
    if period == 6 || period == 7 then Some(if period == 6 then "*" else "**") else None
  }

  /** One rendered main row: its optional marker and one cell per group. */
  datatype Row = Row(marker: Option<string>, cells: seq<Cell>)

  /** `renderPeriod`: groups 1..18 mapped, in ascending order, through the rule chain. */
  function RenderPeriod(elements: seq<Element>, period: int): (row: Row)
    ensures row.marker == RowMarker(period)
    ensures |row.cells| == 18
    ensures forall i :: 0 <= i < 18 ==> row.cells[i] == ClassifyCell(elements, period, i + 1)
  {
    Row(RowMarker(period), seq(18, i => ClassifyCell(elements, period, i + 1)))
  }

  /** The main grid, periods 1..7 top to bottom. */
  function MainGrid(elements: seq<Element>): (rows: seq<Row>)
    ensures |rows| == 7
    ensures forall p :: 0 <= p < 7 ==> rows[p] == RenderPeriod(elements, p + 1)
    ensures forall p, g :: 0 <= p < 7 && 0 <= g < |rows[p].cells| && rows[p].cells[g].Card? ==>
      rows[p].cells[g].element in elements && At(rows[p].cells[g].element, g + 1, p + 1)
  {
    seq(7, p => RenderPeriod(elements, p + 1))
  }

  /** The rendered table: the main grid and the two auxiliary rows below it. */
  datatype Table = Table(main: seq<Row>, lanthanides: seq<Element>, actinides: seq<Element>)

  /**
   * The whole component: the seven main rows, then the lanthanide row and the
   * actinide row, each holding exactly its period's records in ascending
   * order of atomic number.
   */
  function RenderTable(elements: seq<Element>): (t: Table)
    ensures t.main == MainGrid(elements)
    ensures SortedByNumber(t.lanthanides) && SortedByNumber(t.actinides)
    ensures forall e :: e in t.lanthanides <==> e in elements && e.period == 8
    ensures forall e :: e in t.actinides <==> e in elements && e.period == 9
    ensures forall e :: multiset(t.lanthanides)[e] == if e.period == 8 then multiset(elements)[e] else 0
    ensures forall e :: multiset(t.actinides)[e] == if e.period == 9 then multiset(elements)[e] else 0
  {
    Table(MainGrid(elements), AuxiliaryRow(elements, 8), AuxiliaryRow(elements, 9))
  }

  // ---------------------------------------------------------------------------
  // Auxiliary rows: `filter(period == p).sort((a, b) => a.atomicNumber - b.atomicNumber)`
  // ---------------------------------------------------------------------------

  /** `filter`: keeps exactly the elements of the given period, each as often as it occurs. */
  function FilterPeriod(elements: seq<Element>, period: int): (r: seq<Element>)
    ensures forall e :: multiset(r)[e] == if e.period == period then multiset(elements)[e] else 0
  {
    if |elements| == 0 then []
    else
      assert elements == [elements[0]] + elements[1..];
      if elements[0].period == period then [elements[0]] + FilterPeriod(elements[1..], period)
      else FilterPeriod(elements[1..], period)
  }

  /** Non-decreasing by atomic number: what the comparator `a - b` asks of `sort`. */
  predicate SortedByNumber(s: seq<Element>)
  {
    forall i, j :: 0 <= i < j < |s| ==> s[i].atomicNumber <= s[j].atomicNumber
  }

  /** Strictly ascending by atomic number. */
  predicate StrictlyAscending(s: seq<Element>)
  {
    forall i, j :: 0 <= i < j < |s| ==> s[i].atomicNumber < s[j].atomicNumber
  }

  /** Places `x` before the first element whose atomic number is not smaller. */
  function Insert(x: Element, s: seq<Element>): (r: seq<Element>)
    requires SortedByNumber(s)
    ensures SortedByNumber(r)
    ensures multiset(r) == multiset(s) + multiset{x}
  {
    if |s| == 0 then [x]
    else if x.atomicNumber <= s[0].atomicNumber then [x] + s
    else
      assert s == [s[0]] + s[1..];
      var rest := Insert(x, s[1..]);
      assert forall i :: 0 <= i < |rest| ==> s[0].atomicNumber <= rest[i].atomicNumber by {
        forall i | 0 <= i < |rest| ensures s[0].atomicNumber <= rest[i].atomicNumber {
          assert rest[i] in multiset(rest);
          assert rest[i] == x || rest[i] in s[1..];
        }
      }
      [s[0]] + rest
  }

  /** `sort` with the atomic-number comparator, as an insertion sort. */
  function SortByNumber(s: seq<Element>): (r: seq<Element>)
    ensures SortedByNumber(r)
    ensures multiset(r) == multiset(s)
  {
    if |s| == 0 then []
    else
      assert s == [s[0]] + s[1..];
      Insert(s[0], SortByNumber(s[1..]))
  }

  /** The lanthanide (period 8) or actinide (period 9) row. */
  function AuxiliaryRow(elements: seq<Element>, period: int): (row: seq<Element>)
    ensures SortedByNumber(row)
    ensures forall e :: multiset(row)[e] == if e.period == period then multiset(elements)[e] else 0
    ensures forall e :: e in row <==> e in elements && e.period == period
  {
    SortByNumber(FilterPeriod(elements, period))
  }

  // ---------------------------------------------------------------------------
  // Properties of the placement engine
  // ---------------------------------------------------------------------------

  /** The elements of the list that sit at (group, period), in list order. */
  ghost function MatchesAt(elements: seq<Element>, group: int, period: int): seq<Element>
  {
    if |elements| == 0 then []
    else (if At(elements[0], group, period) then [elements[0]] else []) + MatchesAt(elements[1..], group, period)
  }

  /** The lookup returns the head of the matches, and nothing when there are none. */
  lemma {:induction false} LookupIsFirstMatch(elements: seq<Element>, group: int, period: int)
    ensures GetElementByPosition(elements, group, period) ==
      if MatchesAt(elements, group, period) == [] then None else Some(MatchesAt(elements, group, period)[0])
  {
    if |elements| > 0 && !At(elements[0], group, period) {
      LookupIsFirstMatch(elements[1..], group, period);
      var r := GetElementByPosition(elements[1..], group, period);
      if r.Some? {
        var k :| IsFirstAt(elements[1..], k, group, period) && r.value == elements[1..][k];
        assert IsFirstAt(elements, k + 1, group, period);
      } else {
        assert NoneAt(elements, group, period) by {
          forall i | 0 <= i < |elements| ensures !At(elements[i], group, period) {
            if i > 0 { assert elements[i] == elements[1..][i - 1]; }
          }
        }
      }
    } else if |elements| > 0 {
      assert IsFirstAt(elements, 0, group, period);
    }
  }

  /**
   * A cell depends only on the elements at its own position, in their list
   * order: two lists with the same matches there, wherever the other
   * elements stand, give the same cell.
   */
  lemma CellDependsOnlyOnMatches(elements: seq<Element>, other: seq<Element>, period: int, group: int)
    requires MatchesAt(elements, group, period) == MatchesAt(other, group, period)
    ensures ClassifyCell(elements, period, group) == ClassifyCell(other, period, group)
  {
    LookupIsFirstMatch(elements, group, period);
    LookupIsFirstMatch(other, group, period);
  }

  /**
   * Elements placed elsewhere, before or after the list, never change what a
   * cell shows.
   */
  lemma ClassifyIgnoresOtherPositions(
    elements: seq<Element>, before: seq<Element>, after: seq<Element>, period: int, group: int)
    requires forall i :: 0 <= i < |before| ==> !At(before[i], group, period)
    requires forall i :: 0 <= i < |after| ==> !At(after[i], group, period)
    ensures ClassifyCell(before + elements + after, period, group) == ClassifyCell(elements, period, group)
  {
    var all := before + elements + after;
    assert forall i :: 0 <= i < |before| ==> all[i] == before[i];
    assert forall i :: 0 <= i < |elements| ==> all[|before| + i] == elements[i];
    assert forall i :: 0 <= i < |after| ==> all[|before| + |elements| + i] == after[i];
    var k := FirstIndexAt(elements, group, period);
    var n := FirstIndexAt(all, group, period);
    if k < |elements| {
      assert n == |before| + k;
    } else {
      assert n == |all|;
    }
  }

  /**
   * A main-grid record is shown as a card in its own cell exactly when its
   * position is neither a structural gap nor a placeholder and it is the
   * first record, in list order, at that position. In particular a record
   * that has its position to itself is shown.
   */
  lemma PlacedElementShown(elements: seq<Element>, e: Element)
    requires 1 <= e.period <= 7 && 1 <= e.group <= 18
    ensures RenderTable(elements).main[e.period - 1].cells[e.group - 1] == Card(e) <==>
      !IsStructuralGap(e.period, e.group) && !IsFBlockPlaceholder(e.period, e.group) &&
      exists k :: IsFirstAt(elements, k, e.group, e.period) && elements[k] == e
    ensures (e in elements && !IsStructuralGap(e.period, e.group) && !IsFBlockPlaceholder(e.period, e.group) &&
             (forall x :: x in elements && At(x, e.group, e.period) ==> x == e)) ==>
      RenderTable(elements).main[e.period - 1].cells[e.group - 1] == Card(e)
  {
  }

  /**
   * An element outside the drawn coordinates (a period other than 1..9, or a
   * main period with a group other than 1..18) appears nowhere in the table.
   */
  lemma OutOfRangeElementHidden(elements: seq<Element>, e: Element, p: int, g: int)
    requires e.period < 1 || e.period > 9 || (e.period <= 7 && (e.group < 1 || e.group > 18))
    requires 0 <= p < 7 && 0 <= g < 18
    ensures RenderTable(elements).main[p].cells[g] != Card(e)
    ensures e !in RenderTable(elements).lanthanides && e !in RenderTable(elements).actinides
  {
  }

  /**
   * A collection of records in which every record occurs once and no two
   * records share an atomic number.
   */
  ghost predicate DistinctNumbers(m: multiset<Element>)
  {
    (forall x :: x in m ==> m[x] == 1) &&
    (forall x, y :: x in m && y in m && x.atomicNumber == y.atomicNumber ==> x == y)
  }

  /** Unique atomic numbers in a list make its records distinct, counted as a multiset. */
  lemma {:induction false} UniqueNumbersAreDistinct(s: seq<Element>)
    requires UniqueAtomicNumbers(s)
    ensures DistinctNumbers(multiset(s))
  {
    if |s| > 0 {
      var t := s[1..];
      assert s == [s[0]] + t;
      assert UniqueAtomicNumbers(t) by {
        forall i, j | 0 <= i < j < |t| ensures t[i].atomicNumber != t[j].atomicNumber {
          assert t[i] == s[i + 1] && t[j] == s[j + 1];
        }
      }
      UniqueNumbersAreDistinct(t);
      forall x | x in multiset(t) ensures x.atomicNumber != s[0].atomicNumber {
        assert x in t;
        var m :| 0 <= m < |t| && t[m] == x;
        assert s[m + 1] == x;
      }
    }
  }

  /** A record at two positions of a list occurs at least twice in its multiset. */
  lemma RepeatedRecordCountsTwice(r: seq<Element>, i: int, j: int)
    requires 0 <= i < j < |r| && r[i] == r[j]
    ensures multiset(r)[r[i]] >= 2
  {
    assert r == r[..j] + [r[j]] + r[j + 1..];
    assert r[i] in r[..j];
  }

  /** A non-decreasing list of distinct records with distinct numbers is strictly ascending. */
  lemma DistinctSortedIsStrict(r: seq<Element>)
    requires SortedByNumber(r) && DistinctNumbers(multiset(r))
    ensures StrictlyAscending(r)
  {
    forall i, j | 0 <= i < j < |r| ensures r[i].atomicNumber < r[j].atomicNumber {
      if r[i] == r[j] {
        RepeatedRecordCountsTwice(r, i, j);
      }
    }
  }

  /** The auxiliary rows of a dataset with unique atomic numbers are strictly ascending. */
  lemma AuxiliaryRowStrictlyAscending(elements: seq<Element>, period: int)
    requires UniqueAtomicNumbers(elements)
    ensures StrictlyAscending(AuxiliaryRow(elements, period))
  {
    UniqueNumbersAreDistinct(elements);
    DistinctSortedIsStrict(AuxiliaryRow(elements, period));
  }

  /**
   * Any ordering of the same records that `sort` may produce is the row:
   * a strictly ascending list and a non-decreasing list with the same records
   * are equal, so the choice of sorting algorithm does not matter.
   */
  lemma {:induction false} SortedPermutationUnique(a: seq<Element>, b: seq<Element>)
    requires StrictlyAscending(a) && SortedByNumber(b)
    requires multiset(a) == multiset(b)
    ensures a == b
  {
    assert |a| == |multiset(a)| == |multiset(b)| == |b|;
    if |a| > 0 {
      assert a[0] == b[0] by {
        assert a[0] in multiset(b) && b[0] in multiset(a);
        var i :| 0 <= i < |a| && a[i] == b[0];
        var j :| 0 <= j < |b| && b[j] == a[0];
        assert b[0].atomicNumber <= b[j].atomicNumber;
        assert i == 0;
      }
      MultisetOfTail(a);
      MultisetOfTail(b);
      SortedPermutationUnique(a[1..], b[1..]);
    }
  }

  /** Dropping the head of a list removes one copy of it from its multiset. */
  lemma MultisetOfTail(s: seq<Element>)
    requires |s| > 0
    ensures multiset(s[1..]) == multiset(s) - multiset{s[0]}
  {
    assert s == [s[0]] + s[1..];
  }

  /**
   * With unique atomic numbers the lanthanide and actinide rows are exactly
   * the strictly ascending arrangement of their records: any sequence of
   * the same records in non-decreasing order is that row.
   */
  lemma AuxiliaryRowIsTheSortedOrder(elements: seq<Element>, period: int, other: seq<Element>)
    requires UniqueAtomicNumbers(elements)
    requires SortedByNumber(other) && multiset(other) == multiset(FilterPeriod(elements, period))
    ensures other == AuxiliaryRow(elements, period)
  {
    AuxiliaryRowStrictlyAscending(elements, period);
    SortedPermutationUnique(AuxiliaryRow(elements, period), other);
  }
}
