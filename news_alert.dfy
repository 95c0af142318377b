/** What the two stock-news scripts share: the price and news replies they
    read, the article record, the three-line message and how a run ends. */
module NewsAlert {
  import opened Base

  /** The price service's reply: a request failure, or a body that may carry an
      error or rate-limit notice and the daily series (None when its key is
      absent). The series lists each day's "4. close" in the body's order,
      newest first; None for a day whose close is missing or not a number. */
  datatype PriceReply =
    | PriceFailed
    | PriceBody(errorMessage: bool, note: bool, series: Option<seq<Option<real>>>)

  /** A value of an article's field: key absent, JSON null, or a string. */
  datatype Field = Missing | Null | Str(s: string)

  /** An entry of the article list: an object with its two fields, or any other
      JSON value, on which reading a field raises. */
  datatype Article = Article(title: Field, description: Field) | NotObject

  /** Every entry of the list is an object. */
  predicate AllObjects(articles: seq<Article>) {
    forall i :: 0 <= i < |articles| ==> articles[i].Article?
  }

  /** The "articles" member of a news body. */
  datatype Listing = Absent | NullList | Listed(items: seq<Article>)

  /** The news service's reply: a request failure, or a body. */
  datatype NewsReply = NewsFailed | NewsBody(articles: Listing)

  /** How a run ends: stopped on purpose before any message (exit or a handled
      error), crashed on an unhandled exception, quiet because the move was
      not significant, the messages it handed to the SMS provider, or the
      messages it handed over before an unhandled exception ended it. */
  datatype Outcome =
    | Stopped
    | Crashed
    | Quiet
    | Alerts(messages: seq<string>)
    | Interrupted(messages: seq<string>)

  /** The size of a move, whatever its sign. */
  function Abs(x: real): (r: real)
    ensures r >= 0.0 && (r == x || r == -x)
  {
    if x < 0.0 then -x else x
  }

  const Up: string := "\U{1F53A}"
  const Down: string := "\U{1F53B}"

  /** The closes of yesterday and the day before: the first two entries of the
      series, when both are there and readable. */
  function LatestCloses(series: seq<Option<real>>): (c: Option<(real, real)>)
    ensures c.Some? <==> |series| >= 2 && series[0].Some? && series[1].Some?
    ensures c.Some? ==> c.value == (series[0].value, series[1].value)
  {
    if |series| >= 2 && series[0].Some? && series[1].Some? then Some((series[0].value, series[1].value)) else None
  }

  /** Python's f"{x}" of an optional string: "None" for null. */
  function Shown(f: Field, default: string): string {
    match f
    case Missing => default
    case Null => "None"
    case Str(s) => s
  }

  /** The message for one article: the price line, then "Headline: ", then "Brief: ". */
  function ArticleMessage(header: string, headline: string, brief: string): string {
    Terminated([header, "Headline: " + headline]) + ("Brief: " + brief)
  }

  /** An article's message reads as exactly three lines: the price line, the
      headline and the brief. */
  lemma ArticleMessageReadsBack(header: string, headline: string, brief: string)
    requires NoNewline(header) && NoNewline(headline) && NoNewline(brief)
    ensures SplitLines(ArticleMessage(header, headline, brief))
         == [header, "Headline: " + headline, "Brief: " + brief]
  {
    var ls := [header, "Headline: " + headline];
    assert NoNewline(ls[0]) && NoNewline(ls[1]);
    SplitTerminated(ls, "Brief: " + brief);
  }
}
