/** The records the flight-deal workflow passes between its parts: spreadsheet
    rows (changed in place by the comparison loop), deals and updates. */
module Records {
  import opened Base
  import opened FlightSearch

  /** A spreadsheet cell as the store's JSON hands it over: null (or a missing
      key, which `row.get` turns into None), a string, or a number. */
  datatype Cell = Null | Text(s: string) | Num(x: real)

  /** The value of one destination row. `iataCode` is "" for a missing, null or
      empty code (the script treats the three alike); `city` is None when the
      row has no city key. */
  datatype RowValue = RowValue(id: nat, city: Option<string>, iataCode: string, lowestPrice: Cell)

  /** A destination row: a dictionary the comparison loop changes in place. */
  class Row {
    const id: nat
    const city: Option<string>
    var iataCode: string
    var lowestPrice: Cell

    constructor (id: nat, city: Option<string>, iataCode: string, lowestPrice: Cell)
      ensures Value() == RowValue(id, city, iataCode, lowestPrice)
    {
      this.id := id;
      this.city := city;
      this.iataCode := iataCode;
      this.lowestPrice := lowestPrice;
    }

    function Value(): RowValue
      reads this
    {
      RowValue(id, city, iataCode, lowestPrice)
    }
  }

  /** The values of a list of rows, in order. */
  function Values(rows: seq<Row>): (vs: seq<RowValue>)
    reads rows
    ensures |vs| == |rows|
    ensures forall i :: 0 <= i < |rows| ==> vs[i] == rows[i].Value()
  {
    seq(|rows|, i requires 0 <= i < |rows| reads rows => rows[i].Value())
  }

  /** No row object occurs twice: the rows come from decoding one JSON list. */
  predicate Distinct(rows: array<Row>)
    reads rows
  {
    forall i, j :: 0 <= i < j < rows.Length ==> rows[i] != rows[j]
  }

  /** A destination whose found fare is strictly below the stored one. */
  datatype Deal = Deal(
    city: string,
    currentPrice: real,
    foundPrice: real,
    outDate: string,
    returnDate: string,
    flight: FlightData)

  /** A row whose stored price the run changed. */
  datatype Update = Update(city: string, price: real, isDeal: bool)
}
