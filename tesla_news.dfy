/** The Tesla news alert: the signed day-over-day move rounded to two decimals,
    the five-percent test, and one message for each of the first three articles. */
module TeslaNews {
  import opened Base
  import opened NewsAlert

  const Stock: string := "TSLA"

  /** A move counts when its rounded size exceeds five percent. */
  const Threshold: real := 5.0

  /** At most this many articles are sent. */
  const MaxArticles: nat := 3

  /** Python's round(x, 2), and str() of the rounded float. */
  datatype Rendering = Rendering(round2: real -> real, show: real -> string)

  /** The arrow shows a rise exactly when the difference is positive. */
  function Arrow(difference: real): (a: string)
    ensures a == Up <==> difference > 0.0
    ensures a == Down <==> difference <= 0.0
  {
    if difference > 0.0 then Up else Down
  }

  /** The signed move in percent, rounded; None where the division by a zero
      close raises. */
  function DiffPercent(yesterday: real, dayBefore: real, fmt: Rendering): (p: Option<real>)
    ensures p.None? <==> dayBefore == 0.0
  {
    if dayBefore == 0.0 then None else Some(fmt.round2((yesterday - dayBefore) / dayBefore * 100.0))
  }

  /** Python's `xs[:3]`: the first three articles, or all of them when fewer. */
  function TopArticles(articles: seq<Article>): (top: seq<Article>)
    ensures |top| <= MaxArticles
    ensures |top| == if |articles| < MaxArticles then |articles| else MaxArticles
    ensures top == articles[..|top|]
  {
    if |articles| <= MaxArticles then articles else articles[..MaxArticles]
  }

  /** A present field as an f-string shows it: the text, or "None" for null. */
  function FieldText(f: Field): (t: string)
    requires !f.Missing?
    ensures f.Str? ==> t == f.s
    ensures f.Null? ==> t == "None"
  {
    if f.Str? then f.s else "None"
  }

  /** `article['title']` and `article['description']` both succeed: the entry
      is an object (indexing any other value raises TypeError) holding both
      keys (a missing one raises KeyError). */
  predicate HasKeys(a: Article) {
    a.Article? && !a.title.Missing? && !a.description.Missing?
  }

  /** An article's message, or None where reading its title or description
      raises. */
  function Message(header: string, a: Article): (m: Option<string>)
    ensures m.None? <==> !HasKeys(a)
  {
    if !HasKeys(a) then None
    else Some(ArticleMessage(header, FieldText(a.title), FieldText(a.description)))
  }

  /** An article's message reads as the price line, "Headline: " with the
      title, and "Brief: " with the description. */
  lemma MessageLines(header: string, a: Article)
    requires HasKeys(a)
    requires NoNewline(header) && NoNewline(FieldText(a.title)) && NoNewline(FieldText(a.description))
    ensures SplitLines(Message(header, a).value)
         == [header, "Headline: " + FieldText(a.title), "Brief: " + FieldText(a.description)]
  {
    ArticleMessageReadsBack(header, FieldText(a.title), FieldText(a.description));
  }

  /** The list comprehension: one message per article in order, or None when
      reading a field of any article raises (before anything is sent). */
  function Messages(header: string, articles: seq<Article>): (ms: Option<seq<string>>)
    ensures ms.Some? <==> forall i :: 0 <= i < |articles| ==> Message(header, articles[i]).Some?
    ensures ms.Some? ==> |ms.value| == |articles|
    ensures ms.Some? ==> forall i :: 0 <= i < |articles| ==> ms.value[i] == Message(header, articles[i]).value
    decreases |articles|
  {
    if articles == [] then Some([])
    else
      var prefix := articles[..|articles| - 1];
      assert forall i :: 0 <= i < |prefix| ==> prefix[i] == articles[i];
      var init := Messages(header, prefix);
      var last := Message(header, articles[|articles| - 1]);
      if init.Some? && last.Some? then Some(init.value + [last.value]) else None
  }

  /** The price line of every message. */
  function PriceLine(arrow: string, percent: string): string {
    Stock + ": " + arrow + percent + "%"
  }

  /** The whole run, given the two replies and the rendering. */
  function Run(price: PriceReply, news: NewsReply, fmt: Rendering): (o: Outcome)
    ensures price.PriceFailed? ==> o == Crashed
    ensures news.NewsFailed? ==> !o.Alerts?
    ensures o.Alerts? ==> news.NewsBody? && news.articles.Listed? && 1 <= |o.messages| <= MaxArticles
    ensures !o.Interrupted?
  {
    match price
    case PriceFailed => Crashed
    case PriceBody(_, _, series) =>
      if series.None? then Stopped
      else match LatestCloses(series.value)
        case None => Crashed
        case Some((yesterday, dayBefore)) =>
          match DiffPercent(yesterday, dayBefore, fmt)
          case None => Crashed
          case Some(p) =>
            if !(Abs(p) > Threshold) then Quiet
            else match news
              case NewsFailed => Crashed
              case NewsBody(Absent) => Stopped
              case NewsBody(NullList) => Stopped
              case NewsBody(Listed(articles)) =>
                if articles == [] then Stopped
                else
                  var header := PriceLine(Arrow(yesterday - dayBefore), fmt.show(p));
                  match Messages(header, TopArticles(articles))
                  case None => Crashed
                  case Some(ms) => Alerts(ms)
  }

  /** A reply without the series stops the run before anything is computed. */
  lemma NoSeriesStops(errorMessage: bool, note: bool, news: NewsReply, fmt: Rendering)
    ensures Run(PriceBody(errorMessage, note, None), news, fmt) == Stopped
  {}

  /** Messages go out only for a rounded move above five percent, at most three,
      for the first articles in order, each opening with the arrow and the move. */
  lemma AlertsOnlyWhenSignificant(price: PriceReply, news: NewsReply, fmt: Rendering)
    requires Run(price, news, fmt).Alerts?
    ensures price.PriceBody? && price.series.Some?
    ensures var c := LatestCloses(price.series.value);
      && c.Some?
      && DiffPercent(c.value.0, c.value.1, fmt).Some?
      && Abs(DiffPercent(c.value.0, c.value.1, fmt).value) > Threshold
      && news.NewsBody? && news.articles.Listed? && news.articles.items != []
      && var ms := Run(price, news, fmt).messages;
         var top := TopArticles(news.articles.items);
         && 1 <= |ms| == |top| <= MaxArticles
         && forall i :: 0 <= i < |ms| ==>
              ms[i] == Message(PriceLine(Arrow(c.value.0 - c.value.1),
                                         fmt.show(DiffPercent(c.value.0, c.value.1, fmt).value)),
                               news.articles.items[i]).value
  {
    var c := LatestCloses(price.series.value).value;
    var top := TopArticles(news.articles.items);
    assert forall i :: 0 <= i < |top| ==> top[i] == news.articles.items[i];
  }

  /** The price reply leads to a move above the threshold. */
  predicate Significant(price: PriceReply, fmt: Rendering) {
    && price.PriceBody? && price.series.Some?
    && LatestCloses(price.series.value).Some?
    && var c := LatestCloses(price.series.value).value;
       DiffPercent(c.0, c.1, fmt).Some? && Abs(DiffPercent(c.0, c.1, fmt).value) > Threshold
  }

  /** A rounded move of at most five percent ends the run quietly, whatever
      the news reply: no news request is made, so its failure cannot matter. */
  lemma QuietBelowThreshold(errorMessage: bool, note: bool, series: seq<Option<real>>,
                            news: NewsReply, fmt: Rendering)
    requires LatestCloses(series).Some?
    requires var c := LatestCloses(series).value;
      DiffPercent(c.0, c.1, fmt).Some? && Abs(DiffPercent(c.0, c.1, fmt).value) <= Threshold
    ensures Run(PriceBody(errorMessage, note, Some(series)), news, fmt) == Quiet
  {}

  /** A move above five percent with a non-empty article list whose first three
      articles all carry both keys sends their messages, in order. */
  lemma SignificantAlerts(price: PriceReply, articles: seq<Article>, fmt: Rendering)
    requires Significant(price, fmt)
    requires articles != []
    requires forall i :: 0 <= i < |TopArticles(articles)| ==> HasKeys(TopArticles(articles)[i])
    ensures var c := LatestCloses(price.series.value).value;
      var header := PriceLine(Arrow(c.0 - c.1), fmt.show(DiffPercent(c.0, c.1, fmt).value));
      && Messages(header, TopArticles(articles)).Some?
      && Run(price, NewsBody(Listed(articles)), fmt) == Alerts(Messages(header, TopArticles(articles)).value)
  {}

  /** Nothing in the script catches an exception, so each failure ends the run
      with a traceback: a failed request, an unreadable close, a zero close, and
      an article among the first three that is not an object or lacks a
      "title" or "description" key. */
  lemma UnhandledFailuresCrash(price: PriceReply, news: NewsReply, fmt: Rendering)
    ensures Run(PriceFailed, news, fmt) == Crashed
    ensures price.PriceBody? && price.series.Some? && LatestCloses(price.series.value).None? ==>
      Run(price, news, fmt) == Crashed
    ensures price.PriceBody? && price.series.Some? && LatestCloses(price.series.value).Some?
            && LatestCloses(price.series.value).value.1 == 0.0 ==>
      Run(price, news, fmt) == Crashed
    ensures Significant(price, fmt) ==> Run(price, NewsFailed, fmt) == Crashed
    ensures Significant(price, fmt) && news.NewsBody? && news.articles.Listed? && news.articles.items != []
            && (exists i :: 0 <= i < |TopArticles(news.articles.items)|
                  && !HasKeys(TopArticles(news.articles.items)[i])) ==>
      Run(price, news, fmt) == Crashed
  {}

  /** An empty or missing article list stops the run with nothing sent. */
  lemma NoArticlesStops(price: PriceReply, fmt: Rendering)
    ensures !Run(price, NewsBody(Absent), fmt).Alerts?
    ensures !Run(price, NewsBody(NullList), fmt).Alerts?
    ensures !Run(price, NewsBody(Listed([])), fmt).Alerts?
  {}
}
