/** The element record shared by the periodic table and its cards. */
module Elements {

  /** A value that may be missing (an optional field of the record). */
  datatype Option<+T> = None | Some(value: T)

  /**
   * One chemical element as the dataset supplies it. `period` is 1..7 for the
   * main grid, 8 for the lanthanide row and 9 for the actinide row.
   * Measured quantities are reals; a missing measurement is `None`.
   */
  datatype Element = Element(
    atomicNumber: int,
    symbol: string,
    name: string,
    chineseName: string,
    atomicMass: real,
    category: string,
    group: int,
    period: int,
    electronConfiguration: Option<string>,
    electronegativity: Option<real>,
    atomicRadius: Option<real>,
    ionizationEnergy: Option<real>,
    density: Option<real>,
    meltingPoint: Option<real>,
    boilingPoint: Option<real>,
    discoveryYear: Option<int>
  )

  /** No two records of the dataset share an atomic number. */
  predicate UniqueAtomicNumbers(elements: seq<Element>)
  {
    forall i, j :: 0 <= i < j < |elements| ==> elements[i].atomicNumber != elements[j].atomicNumber
  }
}
