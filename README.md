# Flight deals and stock-news alerts, modelled in Dafny

This project models the decision logic of two small alerting programs.

**The flight-deal finder** (`Day39/flight-deals-start`) reads destination rows from a
spreadsheet store. For each row it:

- looks up a missing airport code;
- asks a flight-search service for the cheapest round trip from Mexico City (MEX);
- compares that fare with the row's stored lowest price, and changes the row in place when it stores a new price.

It then sends one SMS alert for a single deal, or one summary for several, when the notifier is configured. It writes every valid row back to the store when some row was updated. The PUT is retried under the alternative sheet key "prices" after a 400 or 422.

**The two stock-news scripts** (`Day36/XRP_stock-news-hard-start`, `Day36/TESLA_stock-news-hard-start`) compare the last two daily closes of a symbol. When the move passes a threshold, they build a three-line message for each news article (the Tesla script: the first three): price line, headline, brief.

## Modules

| file | module | models |
|---|---|---|
| `base.dfy` | `Base` | Option, decoded JSON, Python's `str(int)`, `split`, a message as its lines. The lemma `SplitTerminated` reads a message built with `+= line + "\n"` back as its lines. |
| `flight_search.dfy` | `FlightSearch` | `get_iata_code` and `search_flights`: turning a response into a code or a five-field `FlightData`, with the "" and all-"N/A" fallbacks. |
| `records.dfy` | `Records` | The sheet row as a class whose `iataCode` and `lowestPrice` the loop changes in place, plus deal and update records. |
| `flight_deals.dfy` | `FlightDeals` | The comparison loop of `main.py`, specified by `ProcessRow` (one row) and `Sweep` (the whole loop). `FindDeals` is the loop over an `array<Row>`. |
| `notification_manager.dfy` | `Notification` | `validate_configuration`, the `send_sms` guards, and the texts of the single alert and of the numbered summary. The texts are built with `+=`, as the source builds them. |
| `data_manager.dfy` | `DataManager` | The Authorization header, `get_destination_data`, and `update_destination_codes`: skip filter, URL, payload and the 400/422 retry. It also holds the retry as written; see the findings. |
| `flight_deal_script.dfy` | `FlightDealScript` | The script end to end: validation, empty sheet, the loop, the dispatch choice, the write-back. Also a worked three-destination example. |
| `news_alert.dfy` | `NewsAlert` | What both news scripts share: replies, articles, the three-line message. |
| `xrp_news.dfy` | `XrpNews` | The XRP script: absolute percentage, the `> 0.3` test, arrow, brief truncation, and the message loop. |
| `tesla_news.dfy` | `TeslaNews` | The Tesla script: signed rounded percentage, the `abs(...) > 5` test, the first three articles, and the message list comprehension. |

Every call to the outside world is a parameter. The models of these callers are:

- the city lookup, `string -> string`;
- the flight search, `(string, string) -> FlightData`;
- Python's `float()`, `string -> Option<real>`, where None means it raises;
- the number renderings `str(float)` and `:.2f`, which are opaque functions;
- the store's answer to each PUT, `Put -> PutResponse`;
- whether the SMS provider accepts a message, a `bool`.

The JSON replies the scripts read are values of a `Json` datatype. The news replies are small datatypes.

Three points of the code's behaviour are easy to miss, and the model follows each of them:

- **Retry.** `update_destination_codes` retries a row once with the key "prices" after a 400 or 422 answer.
- **Which rows are written back.** Every row whose code is set and whose price is neither null nor "N/A" is sent, changed or not. So an empty or zero price is sent.
- **Failures that end the run.** An unreadable fare or stored price ends the whole script, because `float()` is not guarded. A connection failure during the retry ends the update; this is the finding below. The Tesla script catches nothing, so a failed request ends it with a traceback (`TeslaNews.UnhandledFailuresCrash`). The XRP script catches only request and key errors, so an article entry that is not an object ends it after the earlier articles' messages have gone out (`XrpNews.NonObjectInterrupts`).

## Model

| member | source | states |
|---|---|---|
| FlightSearch.GetIataCode | Day39/flight-deals-start/flight_search.py:62-73 | A failed request, a missing "data" key or an empty list gives ""; otherwise the result is the first location's code. A non-empty result was read from there. |
| FlightSearch.GetIataCodeReadsFirst | Day39/flight-deals-start/flight_search.py:67 | For a locations body, the code read back is exactly the first location's code, whatever follows it. |
| FlightSearch.SearchFlights | Day39/flight-deals-start/flight_search.py:106-124 | A failed request, a missing "data" key, an empty offer list or any other missing key gives the all-"N/A" record; it never fails. |
| FlightSearch.SearchFlightsReadsFirstOffer | Day39/flight-deals-start/flight_search.py:108-118 | Each of the five fields is read as follows. The price is that of the first offer. The airports and the out date (up to the first "T") come from the first segment of the first itinerary. The return date comes from the last segment of that itinerary. |
| FlightSearch.SearchFlightsNoSegments | Day39/flight-deals-start/flight_search.py:111-121 | A first itinerary without segments gives the all-"N/A" record. |
| Base.BeforeFirst | Day39/flight-deals-start/flight_search.py:116 | `s.split("T")[0]` is a prefix of `s` without "T". Either it is all of `s`, or the next character is "T". |
| Base.Digits | Day39/flight-deals-start/notification_manager.py:105 | `str(n)` of a natural number is a non-empty digit string without newline. It has one digit exactly when n < 10. |
| Base.DigitsRoundTrip | Day39/flight-deals-start/notification_manager.py:105 | Reading the rendered digits gives the number back. |
| Base.DigitsInjective | Day39/flight-deals-start/notification_manager.py:103-105 | Distinct entry numbers render as distinct strings. |
| Base.DigitRunOf | Day39/flight-deals-start/notification_manager.py:105 | A rendered number followed by a non-digit is read off as exactly its digits. |
| FlightDeals.ProcessRow | Day39/flight-deals-start/main.py:56-131 | One loop pass never changes a row's id or city. A deal always comes with an update. |
| FlightDeals.StepSkipsFailedLookup | Day39/flight-deals-start/main.py:67-76 | A row without a code whose lookup gives "" is left as it was, with no deal, no update and no crash. |
| FlightDeals.StepWritesCodeFirst | Day39/flight-deals-start/main.py:69-72 | A looked-up code is written into the row before the search. It stays there whenever the row gets no update. |
| FlightDeals.StepIgnoresUnavailableFare | Day39/flight-deals-start/main.py:82-131 | An "N/A" fare leaves the price as it was and adds no deal and no update. |
| FlightDeals.StepStoresFirstPrice | Day39/flight-deals-start/main.py:91-127 | With no stored price (None, "" or 0), the fare is stored and the quote's destination becomes the code. The update is marked not-a-deal, and no deal is added. |
| FlightDeals.StepRecordsDeal | Day39/flight-deals-start/main.py:96-127 | A fare strictly below the stored price is stored and adds both a deal and an update marked as a deal. The deal has a positive saving. |
| FlightDeals.StepDealIsLower | Day39/flight-deals-start/main.py:96-112 | For every row, a deal is recorded only when the fare is strictly lower than the stored price; the deal carries the stored price as its current price, and the fare becomes the row's price. |
| FlightDeals.StepKeepsLowerPrice | Day39/flight-deals-start/main.py:96-117 | A fare equal to or above the stored price changes nothing except the looked-up code, and adds nothing. |
| FlightDeals.StepCrashesOnUnreadablePrice | Day39/flight-deals-start/main.py:83-96 | A fare or stored price that `float()` cannot read ends the script. A looked-up code has already been written by then. |
| FlightDeals.StepUpdateShape | Day39/flight-deals-start/main.py:120-127 | Every update stores the fare it reports under the quote's destination airport. It is marked a deal exactly when a deal was added, which is exactly when a price was stored before. |
| FlightDeals.StepNeverRaises | Day39/flight-deals-start/main.py:88-122 | One pass never raises a stored price. The price is unchanged, newly set where none was stored, or strictly lower. |
| FlightDeals.Sweep | Day39/flight-deals-start/main.py:56-131 | The loop keeps every row's id and city, and the row count. It gives at most as many deals as updates, and at most as many updates as rows. |
| FlightDeals.SweepNeverRaises | Day39/flight-deals-start/main.py:56-131 | After the whole loop, no row's stored price is higher than before. |
| FlightDeals.SweepDealsAreLower | Day39/flight-deals-start/main.py:56-131 | Every deal the whole loop records has a fare strictly below the price stored for it. |
| FlightDeals.SweepAfterCrash | Day39/flight-deals-start/main.py:83-96 | Once a conversion error ends the script, the rows after it keep their values and the deals and updates stop growing. |
| FlightDeals.SweepStep | Day39/flight-deals-start/main.py:56-131 | Before any crash, one more row extends the loop's result. That row's new value is appended, its deal and update are added in order, and its crash flag becomes the loop's. |
| FlightDeals.ProcessRowInPlace | Day39/flight-deals-start/main.py:57-131 | The loop body changes the row object in place. Its new value and its deal, update and crash flag are what `ProcessRow` gives for the old value. |
| FlightDeals.SweepExtends | Day39/flight-deals-start/main.py:56-131 | A loop that has not crashed, followed by one more row's step, is the loop over one more row. |
| FlightDeals.VisitRow | Day39/flight-deals-start/main.py:57-131 | One pass changes row i in place as `ProcessRow` gives, and leaves every other row as it was. |
| FlightDeals.FindDeals | Day39/flight-deals-start/main.py:56-131 | The loop over the row array leaves the rows, deals, updates and crash flag that `Sweep` gives for the rows' old values. |
| Notification.ValidateConfiguration | Day39/flight-deals-start/notification_manager.py:123-145 | The report lists the absent settings, in order. It is valid exactly when the list is empty. The client is initialized exactly when the account id and the token are present. |
| Notification.MissingFieldsExact | Day39/flight-deals-start/notification_manager.py:130-142 | A setting is listed exactly when it is absent, and only setting names are listed. The list is empty exactly when all four settings are present. |
| Notification.MissingFieldsOrdered | Day39/flight-deals-start/notification_manager.py:130-139 | The list follows the fixed order SID, AUTH_TOKEN, PHONE_NUMBER, TO_NUMBER, so no name occurs twice. |
| Notification.SendSms | Day39/flight-deals-start/notification_manager.py:41-59 | No attempt without a client or a recipient. Otherwise exactly one message is handed to the provider, with the given body, sender and recipient. The send reports success exactly when the provider accepts it. |
| Notification.FlightAlertReadsBack | Day39/flight-deals-start/notification_manager.py:75-84 | The single alert reads as 13 lines. They include the destination, the saving of current minus found, and the route from the record's origin to its destination. The search hint is the last line. |
| Notification.SendFlightAlert | Day39/flight-deals-start/notification_manager.py:61-86 | The alert, appended piece by piece, is the 12 listed lines each followed by a newline, then the search hint. It is sent subject to the send guards. |
| Notification.EntriesLinesAt | Day39/flight-deals-start/notification_manager.py:103-107 | Deal i of the list is summary entry i + 1: the entries keep the list order. |
| Notification.SendMultipleAlerts | Day39/flight-deals-start/notification_manager.py:88-111 | An empty list sends nothing and reports failure. Otherwise the message is the header, the entries in order and the closing hint, sent subject to the send guards. |
| Notification.SummaryReadsBack | Day39/flight-deals-start/notification_manager.py:101-109 | The summary reads as 4n + 3 lines. The header counts the n deals. Entry i is numbered i + 1 and shows deal i's fare and saving (current minus found). The closing hint is the last line. |
| Notification.TitleNumbersDistinct | Day39/flight-deals-start/notification_manager.py:103-105 | Two summary entry titles that read the same carry the same number, so the entries' numbers tell them apart. |
| Notification.SummarySplits | Day39/flight-deals-start/notification_manager.py:101-109 | The summary reads as the header and a blank line, each deal's four entry lines in order, then the closing hint. |
| Notification.TestConnection | Day39/flight-deals-start/notification_manager.py:113-121 | The fixed test text goes to the provider, from the configured sender to the recipient, exactly when there is a client and a recipient. The test succeeds exactly when the provider accepts it. |
| DataManager.Authorization | Day39/flight-deals-start/data_manager.py:39-44 | No header without a token. A token starting with "Basic " is sent as it is; any other token gets "Bearer ". |
| DataManager.AuthorizationNamesScheme | Day39/flight-deals-start/data_manager.py:114-118 | Every header sent starts with a scheme, and the token can be read back from it. |
| DataManager.BasicAuth | Day39/flight-deals-start/data_manager.py:47-56 | Username and password are sent exactly when both are present. |
| DataManager.GetDestinationData | Day39/flight-deals-start/data_manager.py:46-79 | A failed request, or an object body without "prices", gives the empty list. A body that is not an object raises at `data.keys()`, and "prices" rows whose first entry has no keys (or whose length is undefined) raise, both uncaught: no result. Otherwise the rows are exactly the "prices" member. |
| DataManager.GetDestinationDataReadsPrices | Day39/flight-deals-start/data_manager.py:60-75 | The rows read back are exactly the "prices" list of objects, whatever else the body holds; an object without "prices" gives the empty list, and a list body gives no result. |
| DataManager.RowPuts | Day39/flight-deals-start/data_manager.py:88-175 | A row gets at most two PUTs. |
| DataManager.RowPutsSkip | Day39/flight-deals-start/data_manager.py:90-92 | A row gets no PUT exactly when its code is empty or its price is null or "N/A". An empty price is still sent. |
| DataManager.RowPutsShape | Day39/flight-deals-start/data_manager.py:94-154 | The first PUT goes to endpoint/id with the row's code and price unchanged under "price". A second PUT follows exactly after a 400 or 422. It goes to the same target, with the same fields under "prices". |
| DataManager.AllPuts | Day39/flight-deals-start/data_manager.py:88-178 | The whole update makes at most two PUTs per row. |
| DataManager.AllPutsAppend | Day39/flight-deals-start/data_manager.py:88-178 | The PUTs for a list of rows are those for its first part followed by those for the rest. What happens to one row never changes the PUTs of later rows. |
| DataManager.AllPutsExtend | Day39/flight-deals-start/data_manager.py:88-89 | One more row of the loop appends exactly that row's PUTs. |
| DataManager.UpdateRow | Day39/flight-deals-start/data_manager.py:89-175 | One pass of the update loop makes exactly the row's PUTs. |
| DataManager.UpdateDestinationCodes | Day39/flight-deals-start/data_manager.py:88-178 | The loop over the rows makes every row's PUTs, in row order. This is the corrected update: a retry that cannot connect does not stop the later rows (see the findings). |
| DataManager.RowPutsAsWritten | Day39/flight-deals-start/data_manager.py:141-178 | As written, a row's handling raises exactly when its retry could not connect. Its PUTs are those of the corrected update. |
| DataManager.PersistAsWritten | Day39/flight-deals-start/data_manager.py:88-178 | As written, the update makes at most two PUTs per row. |
| DataManager.PersistAsWrittenCompletes | Day39/flight-deals-start/data_manager.py:88-178 | As written, when no retry fails to connect, the update never raises and makes every row's PUTs. |
| DataManager.PersistAsWrittenStops | Day39/flight-deals-start/data_manager.py:156-178 | As written, the update stops at the first row whose retry fails to connect. It raises, having made exactly the PUTs of the rows up to and including that one. |
| DataManager.PersistAsWrittenPrefix | Day39/flight-deals-start/data_manager.py:88-178 | As written, the update makes a prefix of the corrected update's PUTs. It makes all of them exactly as the corrected one does when no retry fails to connect. |
| DataManager.AllPutsCons | Day39/flight-deals-start/data_manager.py:88-89 | The PUTs for the rows are the first row's followed by those of the rest: the loop visits the rows in order. |
| DataManager.RetryFailureStopsLaterRows | Day39/flight-deals-start/data_manager.py:156-178 | Counterexample with two rows. The first row's "price" PUT gets 422 and its retry cannot connect. As written, the second row is never sent, while the corrected update sends it. |
| FlightDealScript.ChooseNotice | Day39/flight-deals-start/main.py:134-163 | No notice without deals or with an invalid configuration. The single alert goes for exactly one deal, and the summary of all deals for more than one. |
| FlightDealScript.NoticeResult | Day39/flight-deals-start/main.py:134-156 | A send happens exactly when a notice was chosen. |
| FlightDealScript.Notify | Day39/flight-deals-start/main.py:134-156 | The dispatch picks the notice `ChooseNotice` gives, and sends the single alert or the summary for it. |
| FlightDealScript.NotifyAndPersist | Day39/flight-deals-start/main.py:134-176 | After the loop, the chosen notice is sent. The rows are written back only when some row was updated, and then all of them are written, by the corrected update. |
| FlightDealScript.Outcome | Day39/flight-deals-start/main.py:40-176 | The run reports no data exactly for an empty sheet, and a crash exactly when the loop hits a conversion error. A finished run chose the notice `ChooseNotice` gives for the loop's deals and the configuration's validity. |
| FlightDealScript.AfterLoop | Day39/flight-deals-start/main.py:134-176 | After a complete loop, the run finishes with the notice for its deals. A send happens exactly when the configuration is valid and there are deals. Rows are written only when some row was updated, with at most two PUTs per row. |
| FlightDealScript.RunScript | Day39/flight-deals-start/main.py:31-176 | The script leaves the rows as the loop leaves them. It reports no data for an empty sheet, a crash for a conversion error, and otherwise what `AfterLoop` gives for the swept rows, with the corrected update. |
| FlightDealScript.WritesOnlyAfterUpdates | Day39/flight-deals-start/main.py:172-176 | A finished run on a non-empty sheet wrote to the store only if some row was updated. After an update, it wrote every row's PUTs for the rows as the loop left them, as the corrected update does. |
| FlightDealScript.DealsAreAnnounced | Day39/flight-deals-start/main.py:134-156 | With a valid configuration, any deal leads to a send. A message reaches the provider exactly when the client and the recipient are set. |
| FlightDealScript.ThreeDestinations | Day39/flight-deals-start/main.py:56-163 | Three destinations, where one lookup fails and two fares are lower. The result is two deals, two updates, the failed row unchanged, and one summary rather than two single alerts. |
| NewsAlert.LatestCloses | Day36/XRP_stock-news-hard-start/main.py:60-66 | The closes used are the first two entries of the series, and only when both are readable. |
| NewsAlert.ArticleMessageReadsBack | Day36/XRP_stock-news-hard-start/main.py:117-121 | A message reads as exactly three lines: the price line, "Headline: " with the title, and "Brief: " with the brief. |
| XrpNews.PercentChange | Day36/XRP_stock-news-hard-start/main.py:69-70 | The percentage times the day-before close is the absolute difference times 100. There is no result exactly when that close is zero. |
| XrpNews.PercentChangeSign | Day36/XRP_stock-news-hard-start/main.py:69-70 | For a positive close, the percentage is non-negative, and zero exactly when the two closes agree. |
| XrpNews.Arrow | Day36/XRP_stock-news-hard-start/main.py:105 | The up arrow shows exactly when yesterday closed higher. Equal closes show the down arrow. |
| XrpNews.Truncate | Day36/XRP_stock-news-hard-start/main.py:113-115 | Text of at most 200 characters is unchanged. Longer text becomes its first 200 characters followed by "...". |
| XrpNews.TruncateBounded | Day36/XRP_stock-news-hard-start/main.py:113-115 | A sent brief has at most 203 characters, and cutting it again changes nothing. |
| XrpNews.Messages | Day36/XRP_stock-news-hard-start/main.py:109-121 | For articles that are all objects: one message per article, in order. Each is built from the price line, the title (or its default) and the cut brief (or its default). |
| XrpNews.ObjectPrefix | Day36/XRP_stock-news-hard-start/main.py:109-110 | The loop handles exactly the entries before the first one that is not an object, because `article.get` raises on that one. |
| XrpNews.BuildMessages | Day36/XRP_stock-news-hard-start/main.py:109-121 | The article loop builds the messages for the entries before the first non-object, and it raises exactly when there is such an entry. |
| XrpNews.SendLoop | Day36/XRP_stock-news-hard-start/main.py:109-136 | With only objects, every article's message is handed over. Otherwise the messages before the first non-object are handed over, and then the run ends with the exception. |
| XrpNews.Run | Day36/XRP_stock-news-hard-start/main.py:31-141 | A failed price request stops the run, and a failed news request sends nothing. Messages come only from a listed article reply. A complete run has one message per article. An interrupted run has fewer messages than articles. |
| XrpNews.RunScript | Day36/XRP_stock-news-hard-start/main.py:31-121 | The script's decisions match `Run`. A failed request or an error notice stops it. Missing closes or a zero close crash it. A small move is quiet. Otherwise each article gets a message, until an entry that is not an object ends the run. |
| XrpNews.RunUsesLatestTwo | Day36/XRP_stock-news-hard-start/main.py:60-66 | Two series that agree on their first two days give the same run. |
| XrpNews.AlertsOnlyWhenSignificant | Day36/XRP_stock-news-hard-start/main.py:81-121 | A complete run with messages means the move exceeded 0.3 percent and every entry is an object. The messages are then one per article, each opening with the arrow and the percentage. |
| XrpNews.QuietBelowThreshold | Day36/XRP_stock-news-hard-start/main.py:81 | A move of at most 0.3 percent sends nothing, whatever the news. |
| XrpNews.SignificantAlerts | Day36/XRP_stock-news-hard-start/main.py:81-121 | A move above 0.3 percent with a listed news reply of objects sends exactly one message per article, in order, each opening with the arrow and the percentage. |
| XrpNews.NonObjectInterrupts | Day36/XRP_stock-news-hard-start/main.py:81-141 | After a move above 0.3 percent, an entry that is not an object ends the run with an uncaught AttributeError. Before that, the messages for the articles ahead of it have been handed over. |
| XrpNews.MessageLines | Day36/XRP_stock-news-hard-start/main.py:114-121 | Each message reads as price line, headline and brief, and the brief line is at most 7 + 203 characters. |
| TeslaNews.Run | Day36/TESLA_stock-news-hard-start/main.py:30-83 | A failed price request crashes the run. A failed news request sends nothing. Messages come only from a listed article reply, one to three of them. |
| TeslaNews.UnhandledFailuresCrash | Day36/TESLA_stock-news-hard-start/main.py:30-83 | Nothing is caught: a failed price request, unreadable closes, a zero day-before close, a failed news request after a significant move, and a top article that is not an object or lacks a title or description key each crash the run. |
| TeslaNews.Arrow | Day36/TESLA_stock-news-hard-start/main.py:49-50 | The up arrow shows exactly when the difference is positive. |
| TeslaNews.DiffPercent | Day36/TESLA_stock-news-hard-start/main.py:51 | There is no result exactly when the day-before close is zero. |
| TeslaNews.TopArticles | Day36/TESLA_stock-news-hard-start/main.py:73 | The first three articles in order, or all of them when there are fewer. |
| TeslaNews.Message | Day36/TESLA_stock-news-hard-start/main.py:81 | An article's message exists exactly when it is an object with both a title and a description key. |
| TeslaNews.FieldText | Day36/TESLA_stock-news-hard-start/main.py:81 | The f-string shows a text field as itself and a null field as "None". |
| TeslaNews.MessageLines | Day36/TESLA_stock-news-hard-start/main.py:81 | An article's message reads as exactly three lines: the price line, "Headline: " with the title, and "Brief: " with the description. |
| TeslaNews.Messages | Day36/TESLA_stock-news-hard-start/main.py:80-83 | The comprehension succeeds exactly when every article is an object with both keys. It then gives one message per article, in order. |
| TeslaNews.NoSeriesStops | Day36/TESLA_stock-news-hard-start/main.py:34-37 | A reply without the daily series stops the run. |
| TeslaNews.AlertsOnlyWhenSignificant | Day36/TESLA_stock-news-hard-start/main.py:60-83 | Messages mean a rounded move above 5 percent in absolute value. There are 1 to 3 of them, for the first articles in order, each opening with the arrow and the move. |
| TeslaNews.QuietBelowThreshold | Day36/TESLA_stock-news-hard-start/main.py:60 | A rounded move of at most 5 percent ends the run quietly whatever the news reply, because no news request is made, so a news failure cannot crash it. |
| TeslaNews.SignificantAlerts | Day36/TESLA_stock-news-hard-start/main.py:60-83 | A move above 5 percent with a non-empty article list, whose first three articles all have both keys, sends those articles' messages in order. |
| TeslaNews.NoArticlesStops | Day36/TESLA_stock-news-hard-start/main.py:69-71 | A missing, null or empty article list sends nothing. |

## Left out

- HTTP, OAuth and SMS traffic (`requests`, the token exchange at `flight_search.py:20-39`, the Twilio client): every answer is a parameter. The store's answer to a PUT is a function of the request, so identical requests get identical answers.
- Environment loading and the presence checks at the top of `main.py`, and every `print`/`pprint`. The validation report affects the run only through `is_valid`, so `Report` does not carry it.
- The notifier's `__init__` appears only as `HasClient`: the client exists exactly when the account id and the token are present.
- Date arithmetic with `datetime.now()` (`flight_search.py:91-98`): the search is a parameter, so the request dates are not modelled.
- Floating point. Prices and closes are `real`. `float()`, `str(float)`, `:.2f` and `round(x, 2)` are parameters, and the subtraction `current - found` is exact.
- Decoding the sheet's JSON rows into `Row` objects: the script method takes the rows. A row without an "id" key (a KeyError in `update_destination_codes`) is not modelled; rows carry a natural id.
- A JSON boolean in the "lowestPrice" cell: `Cell` holds null, text and numbers only. In `main.py`, `False` equals 0 and counts as no stored price, while `True` is read by `float()` as 1.0. The write-back sends either value unchanged, since neither is "N/A" or None.
- Records.Distinct: the script requires the row objects to be pairwise distinct. They come from one JSON decode, so they never alias.
- FlightSearch.SearchFlights: the model reads only string leaves and gives the all-"N/A" record for any other value, where the source differs as follows.
  - A numeric `price.total` is kept by the source and read by `float()` in `main.py`; the model skips that row instead.
  - A non-string departure or arrival `at` makes `.split` raise AttributeError.
  - A list or a string indexed by a key, or a number indexed at all, raises TypeError.
  - `search_flights` catches neither error, so the script ends; the model does not capture this.
  - A dictionary indexed by 0 raises KeyError, which the source catches, as the model does.
  - A non-string segment `iataCode` is kept by the source as the record's airport code; the model gives the all-"N/A" record.
- FlightSearch.GetIataCode: a non-string `iataCode` is returned by the source and used as the code; the model gives "" and the row is skipped. Wrongly typed containers raise TypeError, as in `search_flights`.
- DataManager.UpdateDestinationCodes: models the corrected write-back, where a retry that cannot connect does not stop the later rows. The update as written, which stops there and raises, is `DataManager.PersistAsWritten`.
- FlightDealScript.NotifyAndPersist: writes the rows back with the corrected update. As written, a retry that cannot connect ends the script at that row (`DataManager.PersistAsWritten`).
- FlightDealScript.RunScript: reports `Finished` with the corrected update's PUTs even when a retry cannot connect. As written, the script ends with that exception after the PUTs `DataManager.PersistAsWrittenStops` names.
- FlightDealScript.WritesOnlyAfterUpdates: "every row's PUTs" holds for the corrected update. As written, the PUTs stop at the first retry that cannot connect (`DataManager.PersistAsWrittenStops`).
- A city or airport code that is not a string, and an `iataCode` that is `None`: the code is a string, and "" stands for every falsy code.
- The order of the price series' keys is modelled by the order of the list the reply carries.
- The per-article SMS loops of both news scripts, and the Twilio calls, are left out. The XRP outcome lists the messages handed to the provider whether or not each send succeeds.
- XrpNews.Messages, TeslaNews.Messages: a title or description that is neither a string nor null cannot be represented. The f-string would show its Python repr. In the XRP script, `len(brief)` raises an uncaught TypeError for a non-zero number or `True`, and slicing a long list or object brief raises TypeError too. These crashes are not modelled.
- XrpNews.Run, TeslaNews.Run: an "articles" member that is neither a list nor null cannot be represented. An empty string or object acts like an empty list: the XRP loop sends nothing, and the Tesla script stops. The Tesla script also stops on 0 or false. Any other value ends either script with an uncaught exception. Iterating it or taking its first three entries either fails outright, or yields entries that have no `.get` and cannot be indexed by a key.
- The printed summaries at `main.py:157-169` and the final `pprint`, because they are output only.
- FlightSearch.SearchFlights: its contract states the fallbacks. The readings for a well-formed body are stated by `SearchFlightsReadsFirstOffer`, for bodies built from segments.
- TeslaNews.DiffPercent: the contract states only when the division fails. The value is `round(x, 2)` of the percentage, and rounding is a parameter.
- Day37 and Day38 and the rest of the repository, because they contain no decision logic.

## Findings

| source | as written | input that shows it | evidently intended | confidence | as-written member | corrected member |
|---|---|---|---|---|---|---|
| Day39/flight-deals-start/data_manager.py:156-178 | The failure is raised in the alternative-key retry, inside the `except HTTPError` handler. The sibling `except RequestException` does not catch it. So a connection failure during the retry ends `update_destination_codes`, and no later row is written. | Two rows to write back. The store answers 422 to the first row's "price" PUT, and the "prices" retry cannot connect. | Each row's request failures are contained, and the loop goes on to the next row: a failure on one row never stops the later ones. | not executed | DataManager.RetryFailureStopsLaterRows | DataManager.AllPutsAppend |
