/** The comparison driver of the flight-deal script: the loop over the sheet's
    rows that fills in airport codes, compares the quoted fare with the stored
    lowest price, changes rows in place and collects deals and updates. */
module FlightDeals {
  import opened Base
  import opened FlightSearch
  import opened Records

  /** Every search starts from Mexico City. */
  const Origin: string := "MEX"

  /** The name used for a row without a city. */
  const UnknownCity: string := "Unknown City"

  /** What the loop calls out to: the city-to-code lookup ("" when none is found),
      the cheapest-fare search, and Python's float() on text (None where it raises). */
  datatype Services = Services(
    lookup: string -> string,
    search: (string, string) -> FlightData,
    toReal: string -> Option<real>)

  function CityName(r: RowValue): string {
    r.city.GetOr(UnknownCity)
  }

  /** None, "" and 0 all count as "no price recorded yet". */
  predicate NoStoredPrice(c: Cell) {
    c == Null || c == Text("") || c == Num(0.0)
  }

  /** float() of a recorded price; None where float() raises. */
  function StoredAmount(c: Cell, toReal: string -> Option<real>): Option<real> {
    match c
    case Num(x) => Some(x)
    case Text(s) => toReal(s)
    case Null => None
  }

  /** A row's stored price after a run relates to the one before: unchanged,
      newly set where none was recorded, or strictly lowered. */
  predicate NotRaised(before: Cell, after: Cell, toReal: string -> Option<real>) {
    after == before
    || (NoStoredPrice(before) && after.Num?)
    || (after.Num? && StoredAmount(before, toReal).Some? && after.x < StoredAmount(before, toReal).value)
  }

  /** What processing one row gives: the row afterwards, the deal and update it
      adds, and whether a float() conversion ended the script. */
  datatype Step = Step(row: RowValue, deal: Option<Deal>, update: Option<Update>, crashed: bool)

  /** One pass of the loop body over a row. */
  function ProcessRow(r: RowValue, env: Services): (s: Step)
    ensures s.row.id == r.id && s.row.city == r.city
    ensures s.deal.Some? ==> s.update.Some?
  {
    var city := CityName(r);
    if r.iataCode == "" && env.lookup(city) == "" then Step(r, None, None, false)
    else
      var coded := if r.iataCode == "" then r.(iataCode := env.lookup(city)) else r;
      var flight := env.search(Origin, coded.iataCode);
      if flight.price == NotAvailable then Step(coded, None, None, false)
      else
        match env.toReal(flight.price)
        case None => Step(coded, None, None, true)
        case Some(found) =>
          var updated := coded.(iataCode := flight.destinationAirport, lowestPrice := Num(found));
          if NoStoredPrice(r.lowestPrice) then
            Step(updated, None, Some(Update(city, found, false)), false)
          else
            match StoredAmount(r.lowestPrice, env.toReal)
            case None => Step(coded, None, None, true)
            case Some(current) =>
              if found < current then
                Step(updated,
                     Some(Deal(city, current, found, flight.outDate, flight.returnDate, flight)),
                     Some(Update(city, found, true)),
                     false)
              else Step(coded, None, None, false)
  }

  /** The code the row carries into the search: its own, or the one just looked up. */
  function SearchCode(r: RowValue, env: Services): string {
    if r.iataCode == "" then env.lookup(CityName(r)) else r.iataCode
  }

  /** A row without a code whose lookup fails is skipped: nothing about it changes
      and it adds no deal and no update. */
  lemma StepSkipsFailedLookup(r: RowValue, env: Services)
    requires r.iataCode == "" && env.lookup(CityName(r)) == ""
    ensures ProcessRow(r, env) == Step(r, None, None, false)
  {}

  /** A code found by the lookup is written into the row before the search, and
      stays there even when no fare is found; only an update replaces it. */
  lemma StepWritesCodeFirst(r: RowValue, env: Services)
    requires r.iataCode == "" && env.lookup(CityName(r)) != ""
    ensures var s := ProcessRow(r, env);
      s.update.None? ==> s.row == r.(iataCode := env.lookup(CityName(r)))
  {}

  /** An "N/A" fare leaves the stored price alone and adds nothing. */
  lemma StepIgnoresUnavailableFare(r: RowValue, env: Services)
    requires SearchCode(r, env) != ""
    requires env.search(Origin, SearchCode(r, env)).price == NotAvailable
    ensures var s := ProcessRow(r, env);
      && s.row == r.(iataCode := SearchCode(r, env))
      && s.deal.None? && s.update.None? && !s.crashed
  {}

  /** Without a recorded price the quoted fare is stored and reported as an
      update, but it is not a deal. */
  lemma StepStoresFirstPrice(r: RowValue, env: Services, found: real)
    requires SearchCode(r, env) != "" && NoStoredPrice(r.lowestPrice)
    requires env.search(Origin, SearchCode(r, env)).price != NotAvailable
    requires env.toReal(env.search(Origin, SearchCode(r, env)).price) == Some(found)
    ensures var s := ProcessRow(r, env);
      && s.row.lowestPrice == Num(found)
      && s.row.iataCode == env.search(Origin, SearchCode(r, env)).destinationAirport
      && s.update == Some(Update(CityName(r), found, false))
      && s.deal.None? && !s.crashed
  {}

  /** A fare strictly below the recorded price is stored and reported both as a
      deal, with a positive saving, and as an update. */
  lemma StepRecordsDeal(r: RowValue, env: Services, found: real, current: real)
    requires SearchCode(r, env) != "" && !NoStoredPrice(r.lowestPrice)
    requires env.search(Origin, SearchCode(r, env)).price != NotAvailable
    requires env.toReal(env.search(Origin, SearchCode(r, env)).price) == Some(found)
    requires StoredAmount(r.lowestPrice, env.toReal) == Some(current)
    requires found < current
    ensures var s := ProcessRow(r, env); var f := env.search(Origin, SearchCode(r, env));
      && s.row.lowestPrice == Num(found)
      && s.row.iataCode == f.destinationAirport
      && s.deal == Some(Deal(CityName(r), current, found, f.outDate, f.returnDate, f))
      && s.deal.value.currentPrice - s.deal.value.foundPrice > 0.0
      && s.update == Some(Update(CityName(r), found, true))
      && !s.crashed
  {}

  /** A fare equal to or above the recorded price changes nothing but the
      looked-up code and adds nothing. */
  lemma StepKeepsLowerPrice(r: RowValue, env: Services, found: real, current: real)
    requires SearchCode(r, env) != "" && !NoStoredPrice(r.lowestPrice)
    requires env.search(Origin, SearchCode(r, env)).price != NotAvailable
    requires env.toReal(env.search(Origin, SearchCode(r, env)).price) == Some(found)
    requires StoredAmount(r.lowestPrice, env.toReal) == Some(current)
    requires found >= current
    ensures ProcessRow(r, env) == Step(r.(iataCode := SearchCode(r, env)), None, None, false)
  {}

  /** A fare or a recorded price that float() cannot read ends the script; the
      looked-up code has already been written. */
  lemma StepCrashesOnUnreadablePrice(r: RowValue, env: Services)
    requires SearchCode(r, env) != ""
    requires env.search(Origin, SearchCode(r, env)).price != NotAvailable
    requires || env.toReal(env.search(Origin, SearchCode(r, env)).price).None?
             || (!NoStoredPrice(r.lowestPrice) && StoredAmount(r.lowestPrice, env.toReal).None?)
    ensures ProcessRow(r, env) == Step(r.(iataCode := SearchCode(r, env)), None, None, true)
  {}

  /** Every update stores the fare it reports under the destination the quote
      names, and is a deal exactly when the row had a higher recorded price. */
  lemma StepUpdateShape(r: RowValue, env: Services)
    ensures var s := ProcessRow(r, env); var f := env.search(Origin, SearchCode(r, env));
      s.update.Some? ==>
        && !s.crashed
        && s.row.lowestPrice == Num(s.update.value.price)
        && s.row.iataCode == f.destinationAirport
        && env.toReal(f.price) == Some(s.update.value.price)
        && s.update.value.isDeal == s.deal.Some?
        && (s.deal.Some? <==> !NoStoredPrice(r.lowestPrice))
  {}

  /** One row's stored price is never raised. */
  lemma StepNeverRaises(r: RowValue, env: Services)
    ensures NotRaised(r.lowestPrice, ProcessRow(r, env).row.lowestPrice, env.toReal)
  {}

  /** The state of the script after the loop has seen some rows. */
  datatype Pass = Pass(rows: seq<RowValue>, deals: seq<Deal>, updates: seq<Update>, crashed: bool)

  /** The loop over a list of rows: each row is processed in order until a
      conversion error ends the script, after which the rest stay as they were. */
  function Sweep(vs: seq<RowValue>, env: Services): (p: Pass)
    ensures |p.rows| == |vs|
    ensures |p.deals| <= |p.updates| <= |vs|
    ensures forall i :: 0 <= i < |vs| ==> p.rows[i].id == vs[i].id && p.rows[i].city == vs[i].city
    decreases |vs|
  {
    if vs == [] then Pass([], [], [], false)
    else
      var p := Sweep(vs[..|vs| - 1], env);
      var last := vs[|vs| - 1];
      if p.crashed then p.(rows := p.rows + [last])
      else
        var s := ProcessRow(last, env);
        Pass(p.rows + [s.row], p.deals + s.deal.ToSeq(), p.updates + s.update.ToSeq(), s.crashed)
  }

  /** No row's stored price is ever raised by a run. */
  lemma {:induction false} SweepNeverRaises(vs: seq<RowValue>, env: Services)
    ensures forall i :: 0 <= i < |vs| ==>
      NotRaised(vs[i].lowestPrice, Sweep(vs, env).rows[i].lowestPrice, env.toReal)
    decreases |vs|
  {
    if vs != [] {
      var init := vs[..|vs| - 1];
      SweepNeverRaises(init, env);
      forall i | 0 <= i < |vs|
        ensures NotRaised(vs[i].lowestPrice, Sweep(vs, env).rows[i].lowestPrice, env.toReal)
      {
        if i < |vs| - 1 {
          assert vs[i] == init[i];
        } else {
          StepNeverRaises(vs[i], env);
        }
      }
    }
  }

  /** A row yields a deal only for a fare strictly below its readable stored
      price; the deal's found fare is the one stored in the row. */
  lemma StepDealIsLower(r: RowValue, env: Services)
    ensures var s := ProcessRow(r, env);
      s.deal.Some? ==>
        && s.deal.value.foundPrice < s.deal.value.currentPrice
        && StoredAmount(r.lowestPrice, env.toReal) == Some(s.deal.value.currentPrice)
        && s.row.lowestPrice == Num(s.deal.value.foundPrice)
  {}

  /** Every deal the loop records is a strictly lower fare. */
  lemma {:induction false} SweepDealsAreLower(vs: seq<RowValue>, env: Services)
    ensures forall d :: d in Sweep(vs, env).deals ==> d.foundPrice < d.currentPrice
    decreases |vs|
  {
    if vs != [] {
      SweepDealsAreLower(vs[..|vs| - 1], env);
      StepDealIsLower(vs[|vs| - 1], env);
    }
  }

  /** Once the script has ended, later rows are left as they were. */
  lemma {:induction false} SweepAfterCrash(vs: seq<RowValue>, i: nat, env: Services)
    requires i <= |vs|
    requires Sweep(vs[..i], env).crashed
    ensures Sweep(vs, env) == Sweep(vs[..i], env).(rows := Sweep(vs[..i], env).rows + vs[i..])
    decreases |vs| - i
  {
    if i == |vs| {
      assert vs[..i] == vs && vs[i..] == [];
      assert Sweep(vs[..i], env).rows + vs[i..] == Sweep(vs[..i], env).rows;
    } else {
      var init := vs[..|vs| - 1];
      var q := Sweep(vs[..i], env);
      assert init[..i] == vs[..i];
      SweepAfterCrash(init, i, env);
      var p := Sweep(init, env);
      assert p == q.(rows := q.rows + init[i..]);
      assert Sweep(vs, env) == p.(rows := p.rows + [vs[|vs| - 1]]);
      assert init[i..] + [vs[|vs| - 1]] == vs[i..];
      Assoc(q.rows, init[i..], [vs[|vs| - 1]]);
    }
  }

  /** What the loop has done when it stops, on every row, equals the whole pass. */
  lemma SweepFinished(before: seq<RowValue>, i: nat, done: seq<RowValue>, deals: seq<Deal>,
                      updates: seq<Update>, crashed: bool, after: seq<RowValue>, env: Services)
    requires i <= |before| == |after| && |done| == i
    requires crashed || i == |before|
    requires Sweep(before[..i], env) == Pass(done, deals, updates, crashed)
    requires forall k :: 0 <= k < i ==> after[k] == done[k]
    requires forall k :: i <= k < |before| ==> after[k] == before[k]
    ensures Pass(after, deals, updates, crashed) == Sweep(before, env)
  {
    if crashed {
      SweepAfterCrash(before, i, env);
      var rest := before[i..];
      assert |after| == |done + rest|;
      forall k | 0 <= k < |after| ensures after[k] == (done + rest)[k] {
        if i <= k {
          assert rest[k - i] == before[k];
        }
      }
      assert after == done + rest;
    } else {
      assert before[..i] == before;
      assert |after| == |done|;
      assert after == done;
    }
  }

  /** The loop body, changing the row in place; `continue` becomes a return. */
  method ProcessRowInPlace(row: Row, env: Services) returns (deal: Option<Deal>, update: Option<Update>, crashed: bool)
    modifies row
    ensures Step(row.Value(), deal, update, crashed) == ProcessRow(old(row.Value()), env)
  {
    deal, update, crashed := None, None, false;
    var city := row.city.GetOr(UnknownCity);
    var currentIata := row.iataCode;
    var currentLowestPrice := row.lowestPrice;
    if currentIata == "" {
      var newIata := env.lookup(city);
      if newIata != "" {
        row.iataCode := newIata;
        currentIata := newIata;
      } else {
        return;
      }
    }
    var flight := env.search(Origin, currentIata);
    if flight.price != NotAvailable {
      var parsed := env.toReal(flight.price);
      if parsed.None? {
        crashed := true;
        return;
      }
      var foundPrice := parsed.value;
      var shouldUpdate := false;
      var isDeal := false;
      if currentLowestPrice == Null || currentLowestPrice == Text("") || currentLowestPrice == Num(0.0) {
        shouldUpdate := true;
      } else {
        var stored := StoredAmount(currentLowestPrice, env.toReal);
        if stored.None? {
          crashed := true;
          return;
        }
        var currentPrice := stored.value;
        if foundPrice < currentPrice {
          isDeal := true;
          shouldUpdate := true;
          deal := Some(Deal(city, currentPrice, foundPrice, flight.outDate, flight.returnDate, flight));
        }
      }
      if shouldUpdate {
        row.iataCode := flight.destinationAirport;
        row.lowestPrice := Num(foundPrice);
        update := Some(Update(city, foundPrice, isDeal));
      }
    }
  }

  /** Processing one more row extends the pass by that row's step. */
  lemma SweepStep(vs: seq<RowValue>, i: nat, env: Services)
    requires i < |vs|
    requires !Sweep(vs[..i], env).crashed
    ensures var p := Sweep(vs[..i], env); var s := ProcessRow(vs[i], env);
      Sweep(vs[..i + 1], env) == Pass(p.rows + [s.row], p.deals + s.deal.ToSeq(), p.updates + s.update.ToSeq(), s.crashed)
  {
    assert vs[..i + 1][..i] == vs[..i];
  }

  /** A loop that has not crashed, extended by one row's step, is the loop over one more row. */
  lemma SweepExtends(vs: seq<RowValue>, i: nat, done: seq<RowValue>, deals: seq<Deal>, updates: seq<Update>,
                     v: RowValue, deal: Option<Deal>, update: Option<Update>, stop: bool, env: Services)
    requires i < |vs|
    requires Sweep(vs[..i], env) == Pass(done, deals, updates, false)
    requires Step(v, deal, update, stop) == ProcessRow(vs[i], env)
    ensures Sweep(vs[..i + 1], env) == Pass(done + [v], deals + deal.ToSeq(), updates + update.ToSeq(), stop)
  {
    SweepStep(vs, i, env);
  }

  /** One pass of the loop: row i is processed in place, and no other row changes. */
  method VisitRow(rows: array<Row>, i: nat, env: Services) returns (deal: Option<Deal>, update: Option<Update>, crashed: bool)
    requires Distinct(rows) && i < rows.Length
    modifies rows[i]
    ensures Step(rows[i].Value(), deal, update, crashed) == ProcessRow(old(rows[i].Value()), env)
    ensures forall k :: 0 <= k < rows.Length && k != i ==> rows[k].Value() == old(rows[k].Value())
  {
    var row := rows[i];
    label Before:
    deal, update, crashed := ProcessRowInPlace(row, env);
    forall k | 0 <= k < rows.Length && k != i
      ensures rows[k].Value() == old@Before(rows[k].Value())
    {
      assert rows[k] != row;
    }
  }

  /** The loop over the sheet: every row is processed in order, in place, until
      a conversion error ends the script. */
  method FindDeals(rows: array<Row>, env: Services) returns (deals: seq<Deal>, updates: seq<Update>, crashed: bool)
    requires Distinct(rows)
    modifies rows[..]
    ensures Pass(Values(rows[..]), deals, updates, crashed) == Sweep(old(Values(rows[..])), env)
  {
    ghost var before := Values(rows[..]);
    deals, updates, crashed := [], [], false;
    ghost var done: seq<RowValue> := [];
    var i := 0;
    while i < rows.Length && !crashed
      invariant 0 <= i <= rows.Length
      invariant |done| == i
      invariant forall k :: 0 <= k < rows.Length ==> rows[k].Value() == if k < i then done[k] else before[k]
      invariant Sweep(before[..i], env) == Pass(done, deals, updates, crashed)
    {
      var deal, update, stop := VisitRow(rows, i, env);
      SweepExtends(before, i, done, deals, updates, rows[i].Value(), deal, update, stop, env);
      done := done + [rows[i].Value()];
      deals := deals + deal.ToSeq();
      updates := updates + update.ToSeq();
      crashed := stop;
      i := i + 1;
    }
    SweepFinished(before, i, done, deals, updates, crashed, Values(rows[..]), env);
  }
}
