/** The SMS notifier: its configuration check, the guards before a send, and
    the texts of the single-deal alert and of the multi-deal summary. */
module Notification {
  import opened Base
  import opened FlightSearch
  import opened Records

  /** The four Twilio settings read at start-up; None for an unset variable. */
  datatype Settings = Settings(
    accountSid: Option<string>,
    authToken: Option<string>,
    fromNumber: Option<string>,
    toNumber: Option<string>)

  /** The provider client is created exactly when the account id and the token are present. */
  predicate HasClient(s: Settings) {
    Present(s.accountSid) && Present(s.authToken)
  }

  /** The names the configuration check reports, in its fixed order. */
  const SettingNames: seq<string> :=
    ["TWILIO_ACCOUNT_SID", "TWILIO_AUTH_TOKEN", "TWILIO_PHONE_NUMBER", "TWILIO_TO_NUMBER"]

  /** The settings in the order of their names. */
  function SettingValues(s: Settings): (vs: seq<Option<string>>)
    ensures |vs| == |SettingNames|
  {
    [s.accountSid, s.authToken, s.fromNumber, s.toNumber]
  }

  /** The position of a setting name in the fixed order. */
  function Rank(name: string): int {
    if name == SettingNames[0] then 0
    else if name == SettingNames[1] then 1
    else if name == SettingNames[2] then 2
    else if name == SettingNames[3] then 3
    else 4
  }

  datatype Validation = Validation(isValid: bool, missingFields: seq<string>, clientInitialized: bool)

  /** The name of a setting when it is absent, nothing when it is present. */
  function IfAbsent(v: Option<string>, name: string): seq<string> {
    if Present(v) then [] else [name]
  }

  /** The report's list: each absent setting's name, in the fixed order. */
  function MissingFields(s: Settings): seq<string> {
    IfAbsent(s.accountSid, SettingNames[0]) + IfAbsent(s.authToken, SettingNames[1])
      + IfAbsent(s.fromNumber, SettingNames[2]) + IfAbsent(s.toNumber, SettingNames[3])
  }

  /** The settings' names differ from one another. */
  lemma SettingNamesDistinct()
    ensures forall i, j :: 0 <= i < j < |SettingNames| ==> SettingNames[i] != SettingNames[j]
  {
    assert |SettingNames[0]| == 18 && |SettingNames[1]| == 17;
    assert |SettingNames[2]| == 19 && |SettingNames[3]| == 16;
  }

  /** The list names a setting exactly when that setting is absent. */
  lemma MissingFieldsExact(s: Settings)
    ensures forall k :: 0 <= k < |SettingNames| ==>
      (SettingNames[k] in MissingFields(s) <==> !Present(SettingValues(s)[k]))
    ensures forall f :: f in MissingFields(s) ==> f in SettingNames
    ensures MissingFields(s) == [] <==> forall k :: 0 <= k < |SettingNames| ==> Present(SettingValues(s)[k])
  {
    SettingNamesDistinct();
    var m := MissingFields(s);
    forall k | 0 <= k < |SettingNames|
      ensures SettingNames[k] in m <==> !Present(SettingValues(s)[k])
    {
      if k == 0 {} else if k == 1 {} else if k == 2 {} else {}
    }
  }

  /** The list follows the fixed order, so no name occurs twice. */
  lemma MissingFieldsOrdered(s: Settings)
    ensures forall i, j :: 0 <= i < j < |MissingFields(s)| ==>
      Rank(MissingFields(s)[i]) < Rank(MissingFields(s)[j])
  {
    SettingNamesDistinct();
    var m := MissingFields(s);
    var ab := IfAbsent(s.accountSid, SettingNames[0]) + IfAbsent(s.authToken, SettingNames[1]);
    var cd := IfAbsent(s.fromNumber, SettingNames[2]) + IfAbsent(s.toNumber, SettingNames[3]);
    assert m == ab + cd;
    assert forall i, j :: 0 <= i < j < |ab| ==> Rank(ab[i]) < Rank(ab[j]);
    assert forall i, j :: 0 <= i < j < |cd| ==> Rank(cd[i]) < Rank(cd[j]);
    assert forall i :: 0 <= i < |ab| ==> Rank(ab[i]) <= 1;
    assert forall i :: 0 <= i < |cd| ==> Rank(cd[i]) >= 2;
    forall i, j | 0 <= i < j < |m| ensures Rank(m[i]) < Rank(m[j]) {
      if j < |ab| {
        assert m[i] == ab[i] && m[j] == ab[j];
      } else if i >= |ab| {
        assert m[i] == cd[i - |ab|] && m[j] == cd[j - |ab|];
      } else {
        assert m[i] == ab[i] && m[j] == cd[j - |ab|];
      }
    }
  }

  /** validate_configuration: the absent settings appended in their fixed order,
      valid when none is absent, and whether the client was created. */
  method ValidateConfiguration(s: Settings) returns (v: Validation)
    ensures v.missingFields == MissingFields(s)
    ensures v.isValid <==> v.missingFields == []
    ensures v.clientInitialized <==> HasClient(s)
  {
    var missingFields: seq<string> := [];
    if !Present(s.accountSid) {
      missingFields := missingFields + ["TWILIO_ACCOUNT_SID"];
    }
    if !Present(s.authToken) {
      missingFields := missingFields + ["TWILIO_AUTH_TOKEN"];
    }
    if !Present(s.fromNumber) {
      missingFields := missingFields + ["TWILIO_PHONE_NUMBER"];
    }
    if !Present(s.toNumber) {
      missingFields := missingFields + ["TWILIO_TO_NUMBER"];
    }
    v := Validation(|missingFields| == 0, missingFields, HasClient(s));
  }

  /** One message handed to the provider. */
  datatype Sms = Sms(body: string, from: Option<string>, to: string)

  /** What a send did: the message it handed to the provider, if any, and
      whether it reports success. */
  datatype SendResult = SendResult(attempt: Option<Sms>, sent: bool)

  /** send_sms: no attempt without a client or a recipient; otherwise one
      attempt, reported as sent exactly when the provider accepts it
      (`accepted` says whether the create call returns instead of raising). */
  function SendSms(s: Settings, body: string, accepted: bool): (r: SendResult)
    ensures r.attempt.None? <==> !HasClient(s) || !Present(s.toNumber)
    ensures r.attempt.Some? ==> r.attempt.value == Sms(body, s.fromNumber, s.toNumber.value)
    ensures r.sent <==> r.attempt.Some? && accepted
  {
    if !HasClient(s) then SendResult(None, false)
    else if !Present(s.toNumber) then SendResult(None, false)
    else SendResult(Some(Sms(body, s.fromNumber, s.toNumber.value)), accepted)
  }

  /** How the messages render numbers: Python's str() of a float, and the
      two-decimal `:.2f` form. */
  datatype Format = Format(price: real -> string, cents: real -> string)

  // The fixed texts of the single alert.

  const AlertHeader: string := "\U{1F389} \U{A1}OFERTA DE VUELO ENCONTRADA! \U{1F389}"
  // The two closing hints are written as two halves that concatenate to the
  // source's text, so that their lemmas can show each half holds no newline.
  const BookSoon: string := "\U{1F4A1} Reserva pronto antes " + "de que suban los precios!"
  const SearchPrefix: string := "\U{1F517} Busca en Google Flights: MEX to "

  /** The single-deal alert up to its last line, each line as it is followed by a newline. */
  function FlightAlertLines(flight: FlightData, city: string, current: real, found: real, fmt: Format): seq<string> {
    [ AlertHeader,
      "",
      "Destino: " + city,
      "Precio anterior: $" + fmt.price(current) + " MXN",
      "Nuevo precio: $" + fmt.price(found) + " MXN",
      SavingsLine(current - found, fmt),
      "",
      RouteLine(flight),
      "\U{1F4C5} Salida: " + flight.outDate,
      "\U{1F4C5} Regreso: " + flight.returnDate,
      "",
      BookSoon ]
  }

  function SavingsLine(savings: real, fmt: Format): string {
    "\U{A1}Ahorras: $" + fmt.cents(savings) + " MXN!"
  }

  function RouteLine(flight: FlightData): string {
    "\U{1F4CD} Ruta: " + flight.originAirport + " \U{2192} " + flight.destinationAirport
  }

  function SearchLine(flight: FlightData): string {
    SearchPrefix + flight.destinationAirport
  }

  /** The text of the single-deal alert. */
  function FlightAlertMessage(flight: FlightData, city: string, current: real, found: real, fmt: Format): string {
    Terminated(FlightAlertLines(flight, city, current, found, fmt)) + SearchLine(flight)
  }

  /** The single alert reads as 13 lines; it reports the saving current - found
      and the route from the flight record's origin to its destination, each on a
      line of its own, and ends with the search hint for the destination. */
  lemma FlightAlertReadsBack(flight: FlightData, city: string, current: real, found: real, fmt: Format)
    requires NoNewline(city) && NoNewline(fmt.price(current)) && NoNewline(fmt.price(found))
    requires NoNewline(fmt.cents(current - found))
    requires NoNewline(flight.originAirport) && NoNewline(flight.destinationAirport)
    requires NoNewline(flight.outDate) && NoNewline(flight.returnDate)
    ensures var lines := SplitLines(FlightAlertMessage(flight, city, current, found, fmt));
      && |lines| == 13
      && lines[2] == "Destino: " + city
      && lines[5] == "\U{A1}Ahorras: $" + fmt.cents(current - found) + " MXN!"
      && lines[7] == "\U{1F4CD} Ruta: " + flight.originAirport + " \U{2192} " + flight.destinationAirport
      && lines[12] == SearchPrefix + flight.destinationAirport
  {
    var ls := FlightAlertLines(flight, city, current, found, fmt);
    FlightAlertLinesNoNewline(flight, city, current, found, fmt);
    SplitTerminated(ls, SearchLine(flight));
  }

  lemma FlightAlertLinesNoNewline(flight: FlightData, city: string, current: real, found: real, fmt: Format)
    requires NoNewline(city) && NoNewline(fmt.price(current)) && NoNewline(fmt.price(found))
    requires NoNewline(fmt.cents(current - found))
    requires NoNewline(flight.originAirport) && NoNewline(flight.destinationAirport)
    requires NoNewline(flight.outDate) && NoNewline(flight.returnDate)
    ensures var ls := FlightAlertLines(flight, city, current, found, fmt);
      forall i :: 0 <= i < |ls| ==> NoNewline(ls[i])
  {
    var ls := FlightAlertLines(flight, city, current, found, fmt);
    FareLinesNoNewline(flight, city, current, found, fmt);
    TripLinesNoNewline(flight, city, current, found, fmt);
  }

  lemma FareLinesNoNewline(flight: FlightData, city: string, current: real, found: real, fmt: Format)
    requires NoNewline(city) && NoNewline(fmt.price(current)) && NoNewline(fmt.price(found))
    requires NoNewline(fmt.cents(current - found))
    ensures var ls := FlightAlertLines(flight, city, current, found, fmt);
      forall i :: 0 <= i < 6 ==> NoNewline(ls[i])
  {
    var ls := FlightAlertLines(flight, city, current, found, fmt);
    forall i | 0 <= i < 6 ensures NoNewline(ls[i]) {
      if i == 2 {
        NoNewlineConcat("Destino: ", city);
      } else if i == 3 {
        AmountLineNoNewline("Precio anterior: $", fmt.price(current), " MXN");
      } else if i == 4 {
        AmountLineNoNewline("Nuevo precio: $", fmt.price(found), " MXN");
      } else if i == 5 {
        AmountLineNoNewline("\U{A1}Ahorras: $", fmt.cents(current - found), " MXN!");
      }
    }
  }

  lemma TripLinesNoNewline(flight: FlightData, city: string, current: real, found: real, fmt: Format)
    requires NoNewline(flight.originAirport) && NoNewline(flight.destinationAirport)
    requires NoNewline(flight.outDate) && NoNewline(flight.returnDate)
    ensures var ls := FlightAlertLines(flight, city, current, found, fmt);
      forall i :: 6 <= i < 12 ==> NoNewline(ls[i])
  {
    var ls := FlightAlertLines(flight, city, current, found, fmt);
    forall i | 6 <= i < 12 ensures NoNewline(ls[i]) {
      if i == 7 {
        AmountLineNoNewline("\U{1F4CD} Ruta: " + flight.originAirport, " \U{2192} ", flight.destinationAirport);
        NoNewlineConcat("\U{1F4CD} Ruta: ", flight.originAirport);
      } else if i == 8 {
        NoNewlineConcat("\U{1F4C5} Salida: ", flight.outDate);
      } else if i == 9 {
        NoNewlineConcat("\U{1F4C5} Regreso: ", flight.returnDate);
      } else if i == 11 {
        NoNewlineConcat("\U{1F4A1} Reserva pronto antes ", "de que suban los precios!");
      }
    }
  }

  lemma AmountLineNoNewline(a: string, b: string, c: string)
    requires NoNewline(a) && NoNewline(b) && NoNewline(c)
    ensures NoNewline(a + b + c)
  {
    NoNewlineConcat(a, b);
    NoNewlineConcat(a + b, c);
  }

  /** send_flight_alert: the alert appended piece by piece, then sent subject to
      the send guards. */
  method SendFlightAlert(s: Settings, flight: FlightData, city: string, current: real, found: real,
                         fmt: Format, accepted: bool) returns (r: SendResult)
    ensures r == SendSms(s, FlightAlertMessage(flight, city, current, found, fmt), accepted)
  {
    var message := AlertHeader + "\n\n";
    TerminatedBlank(AlertHeader);
    ghost var ls: seq<string> := [AlertHeader, ""];
    var pieces := [
      "Destino: " + city,
      "Precio anterior: $" + fmt.price(current) + " MXN",
      "Nuevo precio: $" + fmt.price(found) + " MXN"];
    message := message + (pieces[0] + "\n");
    TerminatedSnoc(ls, pieces[0]);
    ls := ls + [pieces[0]];
    message := message + (pieces[1] + "\n");
    TerminatedSnoc(ls, pieces[1]);
    ls := ls + [pieces[1]];
    message := message + (pieces[2] + "\n");
    TerminatedSnoc(ls, pieces[2]);
    ls := ls + [pieces[2]];
    var savings := "\U{A1}Ahorras: $" + fmt.cents(current - found) + " MXN!";
    message := message + (savings + "\n\n");
    TerminatedSnocBlank(ls, savings);
    ls := ls + [savings, ""];
    var route := "\U{1F4CD} Ruta: " + flight.originAirport + " \U{2192} " + flight.destinationAirport;
    message := message + (route + "\n");
    TerminatedSnoc(ls, route);
    ls := ls + [route];
    var outLine := "\U{1F4C5} Salida: " + flight.outDate;
    message := message + (outLine + "\n");
    TerminatedSnoc(ls, outLine);
    ls := ls + [outLine];
    var backLine := "\U{1F4C5} Regreso: " + flight.returnDate;
    message := message + (backLine + "\n\n");
    TerminatedSnocBlank(ls, backLine);
    ls := ls + [backLine, ""];
    message := message + (BookSoon + "\n");
    TerminatedSnoc(ls, BookSoon);
    ls := ls + [BookSoon];
    message := message + (SearchPrefix + flight.destinationAirport);
    assert ls == FlightAlertLines(flight, city, current, found, fmt);
    r := SendSms(s, message, accepted);
  }

  /** The first two lines of the summary: the number of deals, then a blank line. */
  function SummaryHead(n: nat): seq<string> {
    [SummaryHeader(n), ""]
  }

  function SummaryHeader(n: nat): string {
    "\U{1F389} \U{A1}" + Digits(n) + " OFERTAS DE VUELO ENCONTRADAS! \U{1F389}"
  }

  // Written as two halves, as `BookSoon` is.
  const SummaryFooter: string := "\U{1F4A1} \U{A1}Reserva pronto " + "antes de que suban los precios!"

  /** The fields of a deal the summary shows hold no newline. */
  predicate SingleLineDeal(d: Deal, fmt: Format) {
    && NoNewline(d.city) && NoNewline(d.outDate) && NoNewline(d.returnDate)
    && NoNewline(fmt.price(d.foundPrice)) && NoNewline(fmt.cents(d.currentPrice - d.foundPrice))
  }

  /** The four lines of the summary entry numbered `number`, the last one blank. */
  function EntryLines(number: nat, d: Deal, fmt: Format): seq<string> {
    [ TitleLine(number, d), FareLine(d, fmt), DatesLine(d), "" ]
  }

  /** The travel dates of an entry. */
  function DatesLine(d: Deal): string {
    "   \U{1F4C5} " + d.outDate + " - " + d.returnDate
  }

  /** The numbered city of an entry. */
  function TitleLine(number: nat, d: Deal): string {
    Digits(number) + ". " + d.city
  }

  /** The found fare of an entry and its saving over the stored price. */
  function FareLine(d: Deal, fmt: Format): string {
    "   \U{1F4B0} $" + fmt.price(d.foundPrice) + " MXN (ahorro: $" + fmt.cents(d.currentPrice - d.foundPrice) + ")"
  }

  /** The entries of the summary, four lines per deal. */
  function EntriesLines(ds: seq<Deal>, fmt: Format): (ls: seq<string>)
    ensures |ls| == 4 * |ds|
    decreases |ds|
  {
    if ds == [] then []
    else EntriesLines(ds[..|ds| - 1], fmt) + EntryLines(|ds|, ds[|ds| - 1], fmt)
  }

  /** Deal i (from 0) is entry i + 1: the entries keep the list order. */
  lemma {:induction false} EntriesLinesAt(ds: seq<Deal>, fmt: Format, i: nat, k: nat)
    requires i < |ds| && k < 4
    ensures EntriesLines(ds, fmt)[4 * i + k] == EntryLines(i + 1, ds[i], fmt)[k]
    decreases |ds|
  {
    var init := ds[..|ds| - 1];
    if i < |ds| - 1 {
      EntriesLinesAt(init, fmt, i, k);
      assert init[i] == ds[i];
    }
  }

  /** The summary of `n` deals up to its closing hint, once the entries `ds` are appended. */
  function SummaryLines(n: nat, ds: seq<Deal>, fmt: Format): seq<string> {
    SummaryHead(n) + EntriesLines(ds, fmt)
  }

  /** The text of the multi-deal summary. */
  function SummaryMessage(ds: seq<Deal>, fmt: Format): string {
    Terminated(SummaryLines(|ds|, ds, fmt)) + SummaryFooter
  }

  /** send_multiple_alerts: nothing for an empty list; otherwise the summary,
      appended entry by entry, sent subject to the send guards. */
  method SendMultipleAlerts(s: Settings, deals: seq<Deal>, fmt: Format, accepted: bool) returns (r: SendResult)
    ensures deals == [] ==> r == SendResult(None, false)
    ensures deals != [] ==> r == SendSms(s, SummaryMessage(deals, fmt), accepted)
  {
    if deals == [] {
      return SendResult(None, false);
    }
    var message := SummaryHeader(|deals|) + "\n\n";
    TerminatedBlank(SummaryHeader(|deals|));
    assert SummaryHead(|deals|) == SummaryLines(|deals|, deals[..0], fmt);
    for i := 0 to |deals|
      invariant message == Terminated(SummaryLines(|deals|, deals[..i], fmt))
    {
      var deal := deals[i];
      ghost var ls := SummaryLines(|deals|, deals[..i], fmt);
      var title := TitleLine(i + 1, deal);
      message := message + (title + "\n");
      TerminatedSnoc(ls, title);
      var fare := FareLine(deal, fmt);
      message := message + (fare + "\n");
      TerminatedSnoc(ls + [title], fare);
      var dates := DatesLine(deal);
      message := message + (dates + "\n\n");
      TerminatedSnocBlank(ls + [title] + [fare], dates);
      assert deals[..i + 1][..i] == deals[..i];
      assert EntriesLines(deals[..i + 1], fmt) == EntriesLines(deals[..i], fmt) + EntryLines(i + 1, deal, fmt);
      assert ls + [title] + [fare] + [dates, ""] == SummaryLines(|deals|, deals[..i + 1], fmt);
    }
    message := message + SummaryFooter;
    assert deals[..|deals|] == deals;
    r := SendSms(s, message, accepted);
  }

  /** The summary reads as 4n + 3 lines: a header counting the deals, then the
      entries numbered 1..n in list order, each with the found fare and the saving
      current - found of its deal, then the closing hint. */
  lemma SummaryReadsBack(ds: seq<Deal>, fmt: Format, i: nat)
    requires i < |ds|
    requires forall k :: 0 <= k < |ds| ==> SingleLineDeal(ds[k], fmt)
    ensures var lines := SplitLines(SummaryMessage(ds, fmt));
      && |lines| == 4 * |ds| + 3
      && lines[0] == SummaryHeader(|ds|)
      && lines[4 * i + 2] == TitleLine(i + 1, ds[i])
      && lines[4 * i + 3] == FareLine(ds[i], fmt)
      && lines[4 * |ds| + 2] == SummaryFooter
  {
    SummarySplits(ds, fmt);
    EntriesLinesAt(ds, fmt, i, 0);
    EntriesLinesAt(ds, fmt, i, 1);
  }

  /** Entry titles with different numbers differ: the number is the digit run
      before the first ". ", and distinct numbers render differently. */
  lemma TitleNumbersDistinct(m: nat, n: nat, d: Deal, e: Deal)
    requires TitleLine(m, d) == TitleLine(n, e)
    ensures m == n
  {
    var a := Digits(m);
    var b := Digits(n);
    var t := TitleLine(m, d);
    assert t == a + (". " + d.city);
    assert t == b + (". " + e.city);
    DigitRunOf(a, ". " + d.city);
    DigitRunOf(b, ". " + e.city);
    assert a == t[..|a|] == b;
    DigitsInjective(m, n);
  }

  lemma SummarySplits(ds: seq<Deal>, fmt: Format)
    requires forall k :: 0 <= k < |ds| ==> SingleLineDeal(ds[k], fmt)
    ensures SplitLines(SummaryMessage(ds, fmt)) == SummaryLines(|ds|, ds, fmt) + [SummaryFooter]
  {
    SummaryLinesNoNewline(ds, fmt);
    NoNewlineConcat("\U{1F4A1} \U{A1}Reserva pronto ", "antes de que suban los precios!");
    SplitTerminated(SummaryLines(|ds|, ds, fmt), SummaryFooter);
  }

  lemma SummaryLinesNoNewline(ds: seq<Deal>, fmt: Format)
    requires forall k :: 0 <= k < |ds| ==> SingleLineDeal(ds[k], fmt)
    ensures var ls := SummaryLines(|ds|, ds, fmt);
      forall j :: 0 <= j < |ls| ==> NoNewline(ls[j])
  {
    var ls := SummaryLines(|ds|, ds, fmt);
    var es := EntriesLines(ds, fmt);
    SummaryHeaderNoNewline(|ds|);
    forall j | 0 <= j < |ls| ensures NoNewline(ls[j]) {
      if 2 <= j {
        var k := (j - 2) / 4;
        EntriesLinesAt(ds, fmt, k, (j - 2) % 4);
        EntryLinesNoNewline(k + 1, ds[k], fmt);
        assert ls[j] == es[4 * k + (j - 2) % 4];
      }
    }
  }

  lemma SummaryHeaderNoNewline(n: nat)
    ensures NoNewline(SummaryHeader(n))
  {
    NoNewlineConcat("\U{1F389} \U{A1}", Digits(n));
    NoNewlineConcat("\U{1F389} \U{A1}" + Digits(n), " OFERTAS DE VUELO ENCONTRADAS! \U{1F389}");
  }

  lemma EntryLinesNoNewline(number: nat, d: Deal, fmt: Format)
    requires SingleLineDeal(d, fmt)
    ensures forall k :: 0 <= k < 4 ==> NoNewline(EntryLines(number, d, fmt)[k])
  {
    var price := fmt.price(d.foundPrice);
    var cents := fmt.cents(d.currentPrice - d.foundPrice);
    NoNewlineConcat(Digits(number), ". ");
    NoNewlineConcat(Digits(number) + ". ", d.city);
    NoNewlineConcat("   \U{1F4B0} $", price);
    NoNewlineConcat("   \U{1F4B0} $" + price, " MXN (ahorro: $");
    NoNewlineConcat("   \U{1F4B0} $" + price + " MXN (ahorro: $", cents);
    NoNewlineConcat("   \U{1F4B0} $" + price + " MXN (ahorro: $" + cents, ")");
    NoNewlineConcat("   \U{1F4C5} ", d.outDate);
    NoNewlineConcat("   \U{1F4C5} " + d.outDate, " - ");
    NoNewlineConcat("   \U{1F4C5} " + d.outDate + " - ", d.returnDate);
  }

  /** test_connection: the fixed test text is handed to the provider exactly
      when there is a client and a recipient, and the test succeeds exactly
      when the provider accepts it. */
  function TestConnection(s: Settings, accepted: bool): (r: SendResult)
    ensures r.attempt.None? <==> !HasClient(s) || !Present(s.toNumber)
    ensures r.attempt.Some? ==> r.attempt.value == Sms(TestMessage, s.fromNumber, s.toNumber.value)
    ensures r.sent <==> r.attempt.Some? && accepted
  {
    SendSms(s, TestMessage, accepted)
  }

  const TestMessage: string :=
    "\U{1F9EA} Mensaje de prueba del Flight Deal Finder - Twilio funcionando correctamente!"
}
