/** The spreadsheet store client: reading the destination rows, and writing
    each row's airport code and price back with one PUT, retried once under
    the alternative sheet key. */
module DataManager {
  import opened Base
  import opened FlightSearch
  import opened Records

  /** The store settings read at start-up; None for an unset variable. */
  datatype Sheety = Sheety(
    endpoint: Option<string>,
    token: Option<string>,
    username: Option<string>,
    password: Option<string>)

  const BasicScheme: string := "Basic "
  const BearerScheme: string := "Bearer "

  /** The Authorization header: a token already carrying the Basic scheme is
      sent as it is, any other token gets the Bearer scheme, no token no header. */
  function Authorization(s: Sheety): (h: Option<string>)
    ensures h.None? <==> !Present(s.token)
    ensures h.Some? && StartsWith(s.token.value, BasicScheme) ==> h.value == s.token.value
    ensures h.Some? && !StartsWith(s.token.value, BasicScheme) ==> h.value == BearerScheme + s.token.value
  {
    if !Present(s.token) then None
    else if StartsWith(s.token.value, BasicScheme) then Some(s.token.value)
    else Some(BearerScheme + s.token.value)
  }

  /** Every header the client sends names its scheme, and the token can be read
      back from it. */
  lemma AuthorizationNamesScheme(s: Sheety)
    requires Authorization(s).Some?
    ensures var h := Authorization(s).value;
      && (StartsWith(h, BasicScheme) || StartsWith(h, BearerScheme))
      && (h == s.token.value || h[|BearerScheme|..] == s.token.value)
  {
    var h := Authorization(s).value;
    if !StartsWith(s.token.value, BasicScheme) {
      assert h[..|BearerScheme|] == BearerScheme;
      assert h[|BearerScheme|..] == s.token.value;
    }
  }

  /** Username and password for basic authentication, used when both are present. */
  function BasicAuth(s: Sheety): (a: Option<(string, string)>)
    ensures a.Some? <==> Present(s.username) && Present(s.password)
    ensures a.Some? ==> a.value == (s.username.value, s.password.value)
  {
    if Present(s.username) && Present(s.password) then Some((s.username.value, s.password.value)) else None
  }

  /** The debug print of the rows' count and of the first row's keys goes
      through: `len` needs a list, object or string, and `sheet_data[0].keys()`
      needs a non-empty one to start with an object (a string key is never 0,
      so indexing an object raises KeyError). */
  predicate RowsPrintable(p: Json) {
    match p
    case JArr(items) => items == [] || items[0].JObj?
    case JObj(fields) => fields == map[]
    case JStr(t) => t == ""
    case _ => false
  }

  /** get_destination_data: the rows under "prices", or none when the request
      failed or the key is absent; None where the body is not an object
      (`data.keys()` raises AttributeError) or the rows cannot be printed, since
      only request errors are caught. */
  function GetDestinationData(r: Response): (rows: Option<Json>)
    ensures r.Failed? ==> rows == Some(JArr([]))
    ensures r.Body? && !r.json.JObj? ==> rows.None?
    ensures r.Body? && r.json.JObj? && Member(r.json, "prices").None? ==> rows == Some(JArr([]))
    ensures r.Body? && Member(r.json, "prices").Some? ==>
      (rows.Some? <==> RowsPrintable(Member(r.json, "prices").value))
    ensures rows.Some? && rows.value != JArr([]) ==> r.Body? && rows == Member(r.json, "prices")
  {
    match r
    case Failed => Some(JArr([]))
    case Body(j) =>
      if !j.JObj? then None
      else if "prices" !in j.fields then Some(JArr([]))
      else if RowsPrintable(j.fields["prices"]) then Some(j.fields["prices"])
      else None
  }

  /** The store's rows are read back from the "prices" key, whatever else the
      body holds, when they are objects as the sheet sends them. */
  lemma GetDestinationDataReadsPrices(items: seq<Json>, others: map<string, Json>)
    requires forall k :: 0 <= k < |items| ==> items[k].JObj?
    ensures GetDestinationData(Body(JObj(others["prices" := JArr(items)]))) == Some(JArr(items))
    ensures "prices" !in others ==> GetDestinationData(Body(JObj(others))) == Some(JArr([]))
    ensures GetDestinationData(Body(JArr(items))).None?
  {}

  // ---------------------------------------------------------------------
  // Writing rows back

  /** One PUT: target, headers and JSON body. */
  datatype Put = Put(url: string, authorization: Option<string>, basicAuth: Option<(string, string)>, body: Json)

  /** What a PUT got: a status code, or a request failure before any status. */
  datatype PutResponse = Responded(status: int) | Unreachable

  /** raise_for_status raises for client and server error statuses. */
  predicate IsHttpError(r: PutResponse) {
    r.Responded? && 400 <= r.status < 600
  }

  /** The statuses after which the alternative key is tried. */
  predicate WantsRetry(r: PutResponse) {
    r.Responded? && (r.status == 400 || r.status == 422)
  }

  /** A row is not written back when it has no airport code or its price is
      null or "N/A"; an empty price is still written. */
  predicate SkipsRow(v: RowValue) {
    v.iataCode == "" || v.lowestPrice == Null || v.lowestPrice == Text(NotAvailable)
  }

  /** The endpoint as Python formats it into the row URL ("None" when unset). */
  function EndpointText(s: Sheety): string {
    if s.endpoint.Some? then s.endpoint.value else "None"
  }

  function RowUrl(s: Sheety, id: nat): string {
    EndpointText(s) + "/" + Digits(id)
  }

  function CellJson(c: Cell): Json {
    match c
    case Null => JNull
    case Text(t) => JStr(t)
    case Num(x) => JNum(x)
  }

  /** The body of a row's PUT: its code and price under the sheet key `key`. */
  function Payload(key: string, v: RowValue): Json {
    JObj(map[key := JObj(map["iataCode" := JStr(v.iataCode), "lowestPrice" := CellJson(v.lowestPrice)])])
  }

  function RowPut(s: Sheety, v: RowValue, key: string): Put {
    Put(RowUrl(s, v.id), Authorization(s), BasicAuth(s), Payload(key, v))
  }

  /** The PUTs for one row: none for a skipped row; the "price" payload; and the
      "prices" payload only when the first answer was status 400 or 422. */
  function RowPuts(s: Sheety, v: RowValue, respond: Put -> PutResponse): (puts: seq<Put>)
    ensures |puts| <= 2
  {
    if SkipsRow(v) then []
    else
      var first := RowPut(s, v, "price");
      if WantsRetry(respond(first)) then [first, RowPut(s, v, "prices")] else [first]
  }

  function AllPuts(s: Sheety, vs: seq<RowValue>, respond: Put -> PutResponse): (puts: seq<Put>)
    ensures |puts| <= 2 * |vs|
    decreases |vs|
  {
    if vs == [] then [] else AllPuts(s, vs[..|vs| - 1], respond) + RowPuts(s, vs[|vs| - 1], respond)
  }

  /** A row gets no PUT exactly when it is skipped. */
  lemma RowPutsSkip(s: Sheety, v: RowValue, respond: Put -> PutResponse)
    ensures RowPuts(s, v, respond) == [] <==> SkipsRow(v)
  {}

  /** The first PUT of a row targets endpoint/id and carries the row's code and
      price unchanged under "price"; a second one is made exactly after a 400 or
      422, to the same target, with the same fields under "prices". */
  lemma RowPutsShape(s: Sheety, v: RowValue, respond: Put -> PutResponse)
    requires !SkipsRow(v)
    ensures var puts := RowPuts(s, v, respond);
      && 1 <= |puts| <= 2
      && puts[0].url == EndpointText(s) + "/" + Digits(v.id)
      && puts[0].authorization == Authorization(s)
      && Member(puts[0].body, "price") == Some(JObj(map["iataCode" := JStr(v.iataCode), "lowestPrice" := CellJson(v.lowestPrice)]))
      && (|puts| == 2 <==> respond(puts[0]).Responded? && respond(puts[0]).status in {400, 422})
      && (|puts| == 2 ==> puts[1].url == puts[0].url
                          && Member(puts[1].body, "prices") == Member(puts[0].body, "price"))
  {}

  /** Sending splits over the rows: the PUTs for later rows do not depend on
      what happened to earlier ones. */
  lemma {:induction false} AllPutsAppend(s: Sheety, vs: seq<RowValue>, ws: seq<RowValue>, respond: Put -> PutResponse)
    ensures AllPuts(s, vs + ws, respond) == AllPuts(s, vs, respond) + AllPuts(s, ws, respond)
    decreases |ws|
  {
    if ws == [] {
      assert vs + ws == vs;
    } else {
      var init := ws[..|ws| - 1];
      var last := RowPuts(s, ws[|ws| - 1], respond);
      assert (vs + ws)[..|vs + ws| - 1] == vs + init;
      assert (vs + ws)[|vs + ws| - 1] == ws[|ws| - 1];
      AllPutsAppend(s, vs, init, respond);
      Assoc(AllPuts(s, vs, respond), AllPuts(s, init, respond), last);
    }
  }

  /** One more row of the loop adds that row's PUTs. */
  lemma AllPutsExtend(s: Sheety, vs: seq<RowValue>, i: nat, respond: Put -> PutResponse)
    requires i < |vs|
    ensures AllPuts(s, vs[..i + 1], respond) == AllPuts(s, vs[..i], respond) + RowPuts(s, vs[i], respond)
  {
    assert vs[..i + 1][..i] == vs[..i];
  }

  /** update_destination_codes: the rows in order, skipped ones left out, each
      other one sent with at most one retry; the result is every PUT made. */
  method UpdateDestinationCodes(s: Sheety, rows: array<Row>, respond: Put -> PutResponse) returns (log: seq<Put>)
    ensures log == AllPuts(s, Values(rows[..]), respond)
  {
    ghost var vs := Values(rows[..]);
    log := [];
    var i := 0;
    while i < rows.Length
      invariant 0 <= i <= rows.Length
      invariant log == AllPuts(s, vs[..i], respond)
    {
      var puts := UpdateRow(s, rows[i], respond);
      AllPutsExtend(s, vs, i, respond);
      log := log + puts;
      i := i + 1;
    }
    assert vs[..rows.Length] == vs;
  }

  /** One pass of the update loop: nothing for a skipped row, else the "price"
      PUT and, after a 400 or 422, the "prices" PUT. */
  method UpdateRow(s: Sheety, destination: Row, respond: Put -> PutResponse) returns (puts: seq<Put>)
    ensures puts == RowPuts(s, destination.Value(), respond)
  {
    if destination.iataCode == "" || destination.lowestPrice in {Null, Text(NotAvailable)} {
      return [];
    }
    var endpoint := EndpointText(s) + "/" + Digits(destination.id);
    var newData := Payload("price", destination.Value());
    var request := Put(endpoint, Authorization(s), BasicAuth(s), newData);
    puts := [request];
    var response := respond(request);
    if IsHttpError(response) && (response.status == 422 || response.status == 400) {
      var alternativeData := Payload("prices", destination.Value());
      request := Put(endpoint, Authorization(s), BasicAuth(s), alternativeData);
      puts := puts + [request];
      response := respond(request);
    }
  }

  // ---------------------------------------------------------------------
  // The retry as written: a request failure during the retry is raised inside
  // the HTTP-error handler, which the loop's request-error handler does not
  // cover, so it ends the whole update.

  /** The PUTs for one row as written, and whether the row's handling raised. */
  function RowPutsAsWritten(s: Sheety, v: RowValue, respond: Put -> PutResponse): (r: (seq<Put>, bool))
    ensures r.1 <==> |r.0| == 2 && respond(r.0[1]).Unreachable?
    ensures r.0 == RowPuts(s, v, respond)
  {
    var puts := RowPuts(s, v, respond);
    (puts, |puts| == 2 && respond(puts[1]).Unreachable?)
  }

  /** The whole update as written: rows after one whose retry failed to connect get no PUT. */
  function PersistAsWritten(s: Sheety, vs: seq<RowValue>, respond: Put -> PutResponse): (r: (seq<Put>, bool))
    ensures |r.0| <= 2 * |vs|
    decreases |vs|
  {
    if vs == [] then ([], false)
    else
      var (puts, raised) := RowPutsAsWritten(s, vs[0], respond);
      if raised then (puts, true)
      else
        var (later, aborted) := PersistAsWritten(s, vs[1..], respond);
        (puts + later, aborted)
  }

  /** A store answering 422 to the "price" key and unreachable for the retry:
      as written, the second of two valid rows is never sent; the corrected
      update still sends it. */
  lemma RetryFailureStopsLaterRows()
    ensures var s := Sheety(Some("https://sheet"), None, None, None);
      var vs := [RowValue(2, Some("Paris"), "PAR", Num(500.0)), RowValue(3, Some("Rome"), "FCO", Num(400.0))];
      var respond := (p: Put) => if Member(p.body, "price").Some? then Responded(422) else Unreachable;
      && PersistAsWritten(s, vs, respond) == ([RowPut(s, vs[0], "price"), RowPut(s, vs[0], "prices")], true)
      && RowPut(s, vs[1], "price") in AllPuts(s, vs, respond)
  {
    var s := Sheety(Some("https://sheet"), None, None, None);
    var vs := [RowValue(2, Some("Paris"), "PAR", Num(500.0)), RowValue(3, Some("Rome"), "FCO", Num(400.0))];
    var respond := (p: Put) => if Member(p.body, "price").Some? then Responded(422) else Unreachable;
    var a := RowPut(s, vs[0], "price");
    var b := RowPut(s, vs[0], "prices");
    assert Member(a.body, "price").Some?;
    assert "price" != "prices";
    assert Member(b.body, "price").None?;
    assert RowPuts(s, vs[0], respond) == [a, b];
    var c := RowPut(s, vs[1], "price");
    assert Member(c.body, "price").Some?;
    assert RowPuts(s, vs[1], respond) == [c, RowPut(s, vs[1], "prices")];
    assert vs[..1] == [vs[0]];
    assert AllPuts(s, vs, respond) == AllPuts(s, vs[..1], respond) + RowPuts(s, vs[1], respond);
  }

  /** The PUTs for a list of rows are the first row's followed by the rest's. */
  lemma AllPutsCons(s: Sheety, vs: seq<RowValue>, respond: Put -> PutResponse)
    requires vs != []
    ensures AllPuts(s, vs, respond) == RowPuts(s, vs[0], respond) + AllPuts(s, vs[1..], respond)
  {
    var one := [vs[0]];
    assert one[..|one| - 1] == [] && one[|one| - 1] == vs[0];
    assert AllPuts(s, one, respond) == RowPuts(s, vs[0], respond) by {
      assert AllPuts(s, one, respond) == AllPuts(s, [], respond) + RowPuts(s, vs[0], respond);
    }
    AllPutsAppend(s, one, vs[1..], respond);
    assert one + vs[1..] == vs;
  }

  /** As written, the update makes a prefix of the corrected update's PUTs: all
      of them when no retry fails to connect, the ones up to that retry when
      one does. */
  lemma {:induction false} PersistAsWrittenPrefix(s: Sheety, vs: seq<RowValue>, respond: Put -> PutResponse)
    ensures PersistAsWritten(s, vs, respond).0 <= AllPuts(s, vs, respond)
    ensures !PersistAsWritten(s, vs, respond).1 ==> PersistAsWritten(s, vs, respond).0 == AllPuts(s, vs, respond)
    decreases |vs|
  {
    if vs != [] {
      var head := RowPuts(s, vs[0], respond);
      var rest := AllPuts(s, vs[1..], respond);
      AllPutsCons(s, vs, respond);
      var raised := RowPutsAsWritten(s, vs[0], respond).1;
      var later := PersistAsWritten(s, vs[1..], respond);
      if raised {
        assert PersistAsWritten(s, vs, respond) == (head, true);
      } else {
        assert PersistAsWritten(s, vs, respond) == (head + later.0, later.1);
        PersistAsWrittenPrefix(s, vs[1..], respond);
        assert later.0 <= rest;
      }
    }
  }

  /** As written, an update in which no retry fails to connect never raises. */
  lemma {:induction false} PersistAsWrittenCompletes(s: Sheety, vs: seq<RowValue>, respond: Put -> PutResponse)
    requires forall j :: 0 <= j < |vs| ==> !RowPutsAsWritten(s, vs[j], respond).1
    ensures PersistAsWritten(s, vs, respond) == (AllPuts(s, vs, respond), false)
    decreases |vs|
  {
    if vs != [] {
      assert !RowPutsAsWritten(s, vs[0], respond).1;
      assert forall j :: 0 <= j < |vs[1..]| ==> vs[1..][j] == vs[j + 1];
      PersistAsWrittenCompletes(s, vs[1..], respond);
      AllPutsCons(s, vs, respond);
    }
  }

  /** As written, the update stops at the first row whose retry fails to
      connect, having made exactly the PUTs of the rows up to that one. */
  lemma {:induction false} PersistAsWrittenStops(s: Sheety, vs: seq<RowValue>, respond: Put -> PutResponse, i: nat)
    requires i < |vs| && RowPutsAsWritten(s, vs[i], respond).1
    requires forall j :: 0 <= j < i ==> !RowPutsAsWritten(s, vs[j], respond).1
    ensures PersistAsWritten(s, vs, respond) == (AllPuts(s, vs[..i + 1], respond), true)
    decreases i, 1
  {
    var head := RowPuts(s, vs[0], respond);
    var upTo := vs[..i + 1];
    AllPutsCons(s, upTo, respond);
    assert upTo[0] == vs[0];
    if i == 0 {
      assert upTo[1..] == [];
      assert AllPuts(s, upTo[1..], respond) == [];
      assert AllPuts(s, upTo, respond) == head;
      assert PersistAsWritten(s, vs, respond) == (head, true);
    } else {
      StopsLater(s, vs, respond, i);
      assert upTo[1..] == vs[1..][..i];
    }
  }

  /** The recursive step of PersistAsWrittenStops: past a row that completes,
      the update goes on with the rest of the rows. */
  lemma {:induction false} StopsLater(s: Sheety, vs: seq<RowValue>, respond: Put -> PutResponse, i: nat)
    requires 0 < i < |vs| && RowPutsAsWritten(s, vs[i], respond).1
    requires forall j :: 0 <= j < i ==> !RowPutsAsWritten(s, vs[j], respond).1
    ensures PersistAsWritten(s, vs, respond)
         == (RowPuts(s, vs[0], respond) + AllPuts(s, vs[1..][..i], respond), true)
    decreases i, 0
  {
    assert !RowPutsAsWritten(s, vs[0], respond).1;
    var rest := vs[1..];
    assert rest[i - 1] == vs[i];
    assert forall j :: 0 <= j < i - 1 ==> rest[j] == vs[j + 1];
    PersistAsWrittenStops(s, rest, respond, i - 1);
  }
}
