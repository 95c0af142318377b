/** The flight-deal script end to end: check the notifier's configuration, stop
    on an empty sheet, run the comparison loop, choose which alert to send, and
    write the sheet back only when some row was updated. */
module FlightDealScript {
  import opened Base
  import opened FlightSearch
  import opened Records
  import opened FlightDeals
  import opened Notification
  import opened DataManager

  /** Which alert the script sends for the deals it found. */
  datatype Notice = NoNotice | SingleAlert(deal: Deal) | Summary(deals: seq<Deal>)

  /** A notice only with a valid configuration and at least one deal; the single
      alert for exactly one deal, one summary for more. */
  function ChooseNotice(deals: seq<Deal>, valid: bool): (n: Notice)
    ensures n.NoNotice? <==> !valid || deals == []
    ensures n.SingleAlert? <==> valid && |deals| == 1
    ensures n.Summary? <==> valid && |deals| > 1
    ensures n.SingleAlert? ==> n.deal == deals[0]
    ensures n.Summary? ==> n.deals == deals
  {
    if deals != [] && valid then
      if |deals| == 1 then SingleAlert(deals[0]) else Summary(deals)
    else NoNotice
  }

  /** What sending the chosen notice does. */
  function NoticeResult(s: Settings, n: Notice, fmt: Format, accepted: bool): (r: Option<SendResult>)
    ensures r.None? <==> n.NoNotice?
  {
    match n
    case NoNotice => None
    case SingleAlert(d) =>
      Some(SendSms(s, FlightAlertMessage(d.flight, d.city, d.currentPrice, d.foundPrice, fmt), accepted))
    case Summary(ds) => Some(SendSms(s, SummaryMessage(ds, fmt), accepted))
  }

  /** The dispatch after the loop: one alert for a single deal, one summary for
      several, nothing without deals or with an invalid configuration. */
  method Notify(s: Settings, deals: seq<Deal>, valid: bool, fmt: Format, accepted: bool)
    returns (notice: Notice, sent: Option<SendResult>)
    ensures notice == ChooseNotice(deals, valid)
    ensures sent == NoticeResult(s, notice, fmt, accepted)
  {
    notice := ChooseNotice(deals, valid);
    sent := None;
    if deals != [] && valid {
      if |deals| == 1 {
        var deal := deals[0];
        var r := SendFlightAlert(s, deal.flight, deal.city, deal.currentPrice, deal.foundPrice, fmt, accepted);
        sent := Some(r);
      } else {
        var r := SendMultipleAlerts(s, deals, fmt, accepted);
        sent := Some(r);
      }
    }
  }

  /** How a run ends: no rows to work on, a conversion error inside the loop, or
      the notice chosen, what its send did and every PUT made to the sheet. */
  datatype Report =
    | NoData
    | LoopCrashed
    | Finished(notice: Notice, sent: Option<SendResult>, puts: seq<Put>)

  /** The run a sheet's rows lead to, given every outside answer. */
  function Outcome(s: Settings, store: Sheety, vs: seq<RowValue>, env: Services, fmt: Format,
                   accepted: bool, respond: Put -> PutResponse): (r: Report)
    ensures r.NoData? <==> vs == []
    ensures r.LoopCrashed? <==> vs != [] && Sweep(vs, env).crashed
    ensures r.Finished? ==> r.notice == ChooseNotice(Sweep(vs, env).deals, MissingFields(s) == [])
  {
    if vs == [] then NoData
    else
      var p := Sweep(vs, env);
      if p.crashed then LoopCrashed
      else AfterLoop(s, store, p.rows, p.deals, p.updates, MissingFields(s) == [], fmt, accepted, respond)
  }

  /** What follows a loop that ran to the end: the notice for its deals and the
      write-back of the rows when it updated any. */
  function AfterLoop(s: Settings, store: Sheety, vs: seq<RowValue>, deals: seq<Deal>, updates: seq<Update>,
                     valid: bool, fmt: Format, accepted: bool, respond: Put -> PutResponse): (r: Report)
    ensures r.Finished? && r.notice == ChooseNotice(deals, valid)
    ensures r.sent.Some? <==> valid && deals != []
    ensures r.puts != [] ==> updates != []
    ensures |r.puts| <= 2 * |vs|
  {
    var notice := ChooseNotice(deals, valid);
    Finished(notice, NoticeResult(s, notice, fmt, accepted), if updates != [] then AllPuts(store, vs, respond) else [])
  }

  /** After the loop: the notice for the deals, then the write-back of every
      row when some row was updated. */
  method NotifyAndPersist(s: Settings, store: Sheety, rows: array<Row>, deals: seq<Deal>, updates: seq<Update>,
                          valid: bool, fmt: Format, accepted: bool, respond: Put -> PutResponse)
    returns (report: Report)
    ensures report == AfterLoop(s, store, Values(rows[..]), deals, updates, valid, fmt, accepted, respond)
  {
    var notice, sent := Notify(s, deals, valid, fmt, accepted);
    var puts: seq<Put> := [];
    if updates != [] {
      puts := UpdateDestinationCodes(store, rows, respond);
    }
    report := Finished(notice, sent, puts);
  }

  /** The script: the rows of the sheet are changed in place by the loop, and the
      report says what was sent and written. */
  method RunScript(s: Settings, store: Sheety, rows: array<Row>, env: Services, fmt: Format,
                   accepted: bool, respond: Put -> PutResponse) returns (report: Report)
    requires Distinct(rows)
    modifies rows[..]
    ensures Values(rows[..]) == Sweep(old(Values(rows[..])), env).rows
    ensures report == Outcome(s, store, old(Values(rows[..])), env, fmt, accepted, respond)
  {
    ghost var before := Values(rows[..]);
    ghost var p := Sweep(before, env);
    var validation := ValidateConfiguration(s);
    if rows.Length == 0 {
      assert before == [];
      return NoData;
    }
    var deals, updates, crashed := FindDeals(rows, env);
    ghost var after := Values(rows[..]);
    assert after == p.rows && deals == p.deals && updates == p.updates && crashed == p.crashed;
    if crashed {
      return LoopCrashed;
    }
    report := NotifyAndPersist(s, store, rows, deals, updates, validation.isValid, fmt, accepted, respond);
    assert Values(rows[..]) == after;
    assert report == AfterLoop(s, store, p.rows, p.deals, p.updates, MissingFields(s) == [], fmt, accepted, respond);
  }

  /** The sheet is written only after an update, and then every row is offered
      to the store; no alert and no write follow a conversion error. */
  lemma WritesOnlyAfterUpdates(s: Settings, store: Sheety, vs: seq<RowValue>, env: Services, fmt: Format,
                               accepted: bool, respond: Put -> PutResponse)
    requires Outcome(s, store, vs, env, fmt, accepted, respond).Finished?
    ensures var r := Outcome(s, store, vs, env, fmt, accepted, respond); var p := Sweep(vs, env);
      && vs != [] && !p.crashed
      && (r.puts != [] ==> p.updates != [])
      && (p.updates != [] ==> r.puts == AllPuts(store, p.rows, respond))
  {}

  /** A deal found with a valid configuration is always announced, by one message. */
  lemma DealsAreAnnounced(s: Settings, store: Sheety, vs: seq<RowValue>, env: Services, fmt: Format,
                          accepted: bool, respond: Put -> PutResponse)
    requires vs != [] && !Sweep(vs, env).crashed && Sweep(vs, env).deals != []
    requires MissingFields(s) == []
    ensures var r := Outcome(s, store, vs, env, fmt, accepted, respond);
      && r.Finished? && r.sent.Some?
      && (r.sent.value.attempt.Some? <==> HasClient(s) && Present(s.toNumber))
  {}

  // ---------------------------------------------------------------------
  // Three destinations: one whose code cannot be found, two with lower fares.

  function ExampleQuote(origin: string, code: string): FlightData {
    if code == "NRT" then FlightData("600", origin, "NRT", "2026-11-01", "2027-04-30")
    else FlightData("300", origin, code, "2026-11-02", "2027-05-01")
  }

  function ExampleReal(t: string): Option<real> {
    if t == "600" then Some(600.0) else if t == "300" then Some(300.0) else None
  }

  const ExampleEnv: Services :=
    Services((city: string) => if city == "Tokyo" then "NRT" else "", ExampleQuote, ExampleReal)

  const ExampleRows: seq<RowValue> :=
    [RowValue(1, Some("Atlantis"), "", Num(900.0)),
     RowValue(2, Some("Tokyo"), "", Num(800.0)),
     RowValue(3, Some("Rome"), "FCO", Num(500.0))]

  lemma ExampleFirstRow()
    ensures ProcessRow(ExampleRows[0], ExampleEnv) == Step(ExampleRows[0], None, None, false)
  {
    assert |"Atlantis"| != |"Tokyo"|;
  }

  lemma ExampleSecondRow()
    ensures var s := ProcessRow(ExampleRows[1], ExampleEnv);
      s.row.lowestPrice == Num(600.0) && s.deal.Some? && s.update.Some? && !s.crashed
  {
    assert ExampleEnv.search(Origin, "NRT").price == "600";
  }

  lemma ExampleThirdRow()
    ensures var s := ProcessRow(ExampleRows[2], ExampleEnv);
      s.row.lowestPrice == Num(300.0) && s.deal.Some? && s.update.Some? && !s.crashed
  {
    assert |"FCO"| == 3 && "FCO" != "NRT";
    assert ExampleEnv.search(Origin, "FCO").price == "300";
    assert |"300"| == 3 && "300" != "600";
  }

  lemma ExampleAfterOne()
    ensures Sweep(ExampleRows[..1], ExampleEnv) == Pass([ExampleRows[0]], [], [], false)
  {
    assert ExampleRows[..0] == [];
    ExampleFirstRow();
    SweepStep(ExampleRows, 0, ExampleEnv);
  }

  lemma ExampleAfterTwo()
    ensures var s1 := ProcessRow(ExampleRows[1], ExampleEnv);
      Sweep(ExampleRows[..2], ExampleEnv) == Pass([ExampleRows[0], s1.row], s1.deal.ToSeq(), s1.update.ToSeq(), false)
  {
    ExampleAfterOne();
    ExampleSecondRow();
    SweepStep(ExampleRows, 1, ExampleEnv);
  }

  /** Two lower fares give two deals and one summary, and the row whose code
      can not be found stays as it was. */
  lemma ThreeDestinations()
    ensures var p := Sweep(ExampleRows, ExampleEnv);
      && !p.crashed
      && |p.deals| == 2 && |p.updates| == 2
      && p.rows[0] == ExampleRows[0]
      && p.rows[1].lowestPrice == Num(600.0) && p.rows[2].lowestPrice == Num(300.0)
      && ChooseNotice(p.deals, true) == Summary(p.deals)
  {
    ExampleAfterTwo();
    ExampleSecondRow();
    ExampleThirdRow();
    SweepStep(ExampleRows, 2, ExampleEnv);
    assert ExampleRows[..3] == ExampleRows;
  }
}
