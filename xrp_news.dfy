/** The XRP news alert: the day-over-day move of the coin's close, the
    significance test, and one message per news article with long briefs cut. */
module XrpNews {
  import opened Base
  import opened NewsAlert

  const Stock: string := "XRP"

  /** A move counts when it exceeds three tenths of a percent. */
  const Threshold: real := 0.3

  /** Briefs longer than this are cut. */
  const BriefLimit: nat := 200

  /** The absolute move as a percentage of the day before's close; None where the
      division by a zero close raises. */
  function PercentChange(yesterday: real, dayBefore: real): (p: Option<real>)
    ensures p.None? <==> dayBefore == 0.0
    ensures p.Some? ==> p.value * dayBefore == Abs(yesterday - dayBefore) * 100.0
  {
    if dayBefore == 0.0 then None else Some(Abs(yesterday - dayBefore) / dayBefore * 100.0)
  }

  /** For a positive close the percentage is never negative, and it is zero
      exactly when the two closes agree. */
  lemma PercentChangeSign(yesterday: real, dayBefore: real)
    requires dayBefore > 0.0
    ensures PercentChange(yesterday, dayBefore).value >= 0.0
    ensures PercentChange(yesterday, dayBefore).value == 0.0 <==> yesterday == dayBefore
  {
    var p := PercentChange(yesterday, dayBefore).value;
    assert p * dayBefore == Abs(yesterday - dayBefore) * 100.0;
  }

  /** The arrow shows a rise exactly when yesterday closed higher; equal closes show a fall. */
  function Arrow(yesterday: real, dayBefore: real): (a: string)
    ensures a == Up <==> yesterday > dayBefore
    ensures a == Down <==> yesterday <= dayBefore
  {
    if yesterday > dayBefore then Up else Down
  }

  /** The brief as sent: a text over the limit keeps its first 200 characters
      followed by "..."; anything else is kept. */
  function Truncate(s: string): (r: string)
    ensures |s| <= BriefLimit ==> r == s
    ensures |s| > BriefLimit ==> |r| == BriefLimit + 3 && r[..BriefLimit] == s[..BriefLimit] && r[BriefLimit..] == "..."
  {
    if |s| > BriefLimit then s[..BriefLimit] + "..." else s
  }

  /** A sent brief is at most 203 characters, and cutting again changes nothing. */
  lemma TruncateBounded(s: string)
    ensures |Truncate(s)| <= BriefLimit + 3
    ensures Truncate(Truncate(s)) == Truncate(s)
  {
    if |s| > BriefLimit {
      var r := Truncate(s);
      assert r[..BriefLimit] + "..." == r;
    }
  }

  function Headline(a: Article): string
    requires a.Article?
  {
    Shown(a.title, "No title available")
  }

  /** The brief of an article: its description or the default, cut when long;
      a null description is shown as "None", as the cut skips a falsy value. */
  function Brief(a: Article): string
    requires a.Article?
  {
    match a.description
    case Null => "None"
    case Missing => Truncate("No description available")
    case Str(s) => Truncate(s)
  }

  /** The first line of every message: symbol, arrow and the formatted percentage. */
  function PriceLine(arrow: string, percent: string): string {
    Stock + ": " + arrow + percent
  }

  /** The messages for the articles, one each, in order. */
  function Messages(priceLine: string, articles: seq<Article>): (ms: seq<string>)
    requires AllObjects(articles)
    ensures |ms| == |articles|
    ensures forall i :: 0 <= i < |articles| ==>
      ms[i] == ArticleMessage(priceLine, Headline(articles[i]), Brief(articles[i]))
  {
    seq(|articles|, i requires 0 <= i < |articles| => ArticleMessage(priceLine, Headline(articles[i]), Brief(articles[i])))
  }

  /** One article more, one message more. */
  lemma MessagesSnoc(priceLine: string, articles: seq<Article>, i: nat)
    requires i < |articles| && forall j :: 0 <= j <= i ==> articles[j].Article?
    ensures Messages(priceLine, articles[..i + 1])
         == Messages(priceLine, articles[..i]) + [ArticleMessage(priceLine, Headline(articles[i]), Brief(articles[i]))]
  {
    assert articles[..i + 1][..i] == articles[..i] && articles[..i + 1][i] == articles[i];
  }

  /** How many articles the loop handles before one that is not an object,
      where `article.get` raises AttributeError: the index of the first such
      entry, or the length of the list when there is none. */
  function ObjectPrefix(articles: seq<Article>): (k: nat)
    ensures k <= |articles|
    ensures forall j :: 0 <= j < k ==> articles[j].Article?
    ensures k < |articles| ==> articles[k].NotObject?
  {
    if articles == [] then 0
    else if articles[0].NotObject? then 0
    else
      var k := ObjectPrefix(articles[1..]);
      assert forall j :: 1 <= j < k + 1 ==> articles[j] == articles[1..][j - 1];
      k + 1
  }

  /** The loop over the articles: read the fields with their defaults, cut a
      long brief, build the message, until an entry that is not an object
      raises. */
  method BuildMessages(priceLine: string, articles: seq<Article>) returns (messages: seq<string>, crashed: bool)
    ensures var k := ObjectPrefix(articles);
      && crashed == (k < |articles|)
      && messages == Messages(priceLine, articles[..k])
  {
    messages := [];
    crashed := false;
    for i := 0 to |articles|
      invariant forall j :: 0 <= j < i ==> articles[j].Article?
      invariant messages == Messages(priceLine, articles[..i])
    {
      var article := articles[i];
      if article.NotObject? {
        assert ObjectPrefix(articles) == i;
        crashed := true;
        return;
      }
      var headline := match article.title
        case Missing => "No title available"
        case Null => "None"
        case Str(t) => t;
      var brief: Option<string> := match article.description
        case Missing => Some("No description available")
        case Null => None
        case Str(d) => Some(d);
      if brief.Some? && brief.value != "" && |brief.value| > 200 {
        brief := Some(brief.value[..200] + "...");
      }
      var shownBrief := if brief.Some? then brief.value else "None";
      assert headline == Headline(article) && shownBrief == Brief(article);
      messages := messages + [ArticleMessage(priceLine, headline, shownBrief)];
      MessagesSnoc(priceLine, articles, i);
    }
    assert ObjectPrefix(articles) == |articles|;
  }

  /** What the article loop hands to the provider: one message per article,
      or, when an entry is not an object, the messages for the articles before
      it followed by the exception. */
  function SendLoop(line: string, articles: seq<Article>): (o: Outcome)
    ensures AllObjects(articles) ==> o == Alerts(Messages(line, articles))
    ensures !AllObjects(articles) ==>
      var k := ObjectPrefix(articles);
      k < |articles| && articles[k].NotObject? && o == Interrupted(Messages(line, articles[..k]))
  {
    var k := ObjectPrefix(articles);
    if k == |articles| then
      assert articles[..k] == articles;
      Alerts(Messages(line, articles))
    else Interrupted(Messages(line, articles[..k]))
  }

  /** The whole run, given the two replies and the two-decimal rendering of the
      percentage. */
  function Run(price: PriceReply, news: NewsReply, cents: real -> string): (o: Outcome)
    ensures price.PriceFailed? ==> o == Stopped
    ensures news.NewsFailed? ==> !o.Alerts?
    ensures o.Alerts? ==> news.NewsBody? && news.articles.Listed? && |o.messages| == |news.articles.items|
    ensures o.Interrupted? ==> news.NewsBody? && news.articles.Listed? && |o.messages| < |news.articles.items|
  {
    match price
    case PriceFailed => Stopped
    case PriceBody(errorMessage, note, series) =>
      if errorMessage || note || series.None? then Stopped
      else match LatestCloses(series.value)
        case None => Crashed
        case Some((yesterday, dayBefore)) =>
          match PercentChange(yesterday, dayBefore)
          case None => Crashed
          case Some(p) =>
            if !(p > Threshold) then Quiet
            else match news
              case NewsFailed => Stopped
              case NewsBody(Absent) => Stopped
              case NewsBody(NullList) => Crashed
              case NewsBody(Listed(articles)) =>
                SendLoop(PriceLine(Arrow(yesterday, dayBefore), cents(p) + "%"), articles)
  }

  /** The script as it runs: the same decisions, with the article loop as a method. */
  method RunScript(price: PriceReply, news: NewsReply, cents: real -> string) returns (o: Outcome)
    ensures o == Run(price, news, cents)
  {
    if price.PriceFailed? || price.errorMessage || price.note || price.series.None? {
      return Stopped;
    }
    var data := price.series.value;
    if |data| < 2 || data[0].None? || data[1].None? {
      return Crashed;
    }
    var closeYesterday := data[0].value;
    var closeDayBefore := data[1].value;
    if closeDayBefore == 0.0 {
      return Crashed;
    }
    var percentageChange := Abs(closeYesterday - closeDayBefore) / closeDayBefore * 100.0;
    if !(percentageChange > 0.3) {
      return Quiet;
    }
    if news.NewsFailed? || news.articles.Absent? {
      return Stopped;
    }
    if news.articles.NullList? {
      return Crashed;
    }
    var upDown := if closeYesterday > closeDayBefore then Up else Down;
    var percentStr := cents(percentageChange) + "%";
    var messages, crashed := BuildMessages(Stock + ": " + upDown + percentStr, news.articles.items);
    if crashed {
      o := Interrupted(messages);
    } else {
      o := Alerts(messages);
    }
  }

  /** Only the first two days of the series matter. */
  lemma RunUsesLatestTwo(errorMessage: bool, note: bool, s: seq<Option<real>>, t: seq<Option<real>>,
                         news: NewsReply, cents: real -> string)
    requires |s| >= 2 && |t| >= 2 && s[..2] == t[..2]
    ensures Run(PriceBody(errorMessage, note, Some(s)), news, cents)
         == Run(PriceBody(errorMessage, note, Some(t)), news, cents)
  {
    assert s[0] == s[..2][0] == t[0];
    assert s[1] == s[..2][1] == t[1];
  }

  /** News is consulted only for a move above the threshold: any message means
      two readable closes whose change exceeds 0.3 percent, one message per
      article, each opening with the arrow and the percentage. */
  lemma AlertsOnlyWhenSignificant(price: PriceReply, news: NewsReply, cents: real -> string)
    requires Run(price, news, cents).Alerts?
    ensures price.PriceBody? && price.series.Some?
    ensures var c := LatestCloses(price.series.value);
      && c.Some?
      && PercentChange(c.value.0, c.value.1).Some?
      && PercentChange(c.value.0, c.value.1).value > Threshold
      && news.NewsBody? && news.articles.Listed? && AllObjects(news.articles.items)
      && Run(price, news, cents).messages
         == Messages(PriceLine(Arrow(c.value.0, c.value.1), cents(PercentChange(c.value.0, c.value.1).value) + "%"),
                     news.articles.items)
  {}

  /** A move at or below the threshold sends nothing, whatever the news. */
  lemma QuietBelowThreshold(errorMessage: bool, note: bool, series: seq<Option<real>>,
                            news: NewsReply, cents: real -> string)
    requires !errorMessage && !note
    requires LatestCloses(series).Some?
    requires var c := LatestCloses(series).value;
      PercentChange(c.0, c.1).Some? && PercentChange(c.0, c.1).value <= Threshold
    ensures Run(PriceBody(errorMessage, note, Some(series)), news, cents) == Quiet
  {}

  /** A move above the threshold with a listed news reply of objects sends one
      message per article, in order, each opening with the arrow and the
      percentage. */
  lemma SignificantAlerts(series: seq<Option<real>>, articles: seq<Article>, cents: real -> string)
    requires LatestCloses(series).Some?
    requires var c := LatestCloses(series).value;
      PercentChange(c.0, c.1).Some? && PercentChange(c.0, c.1).value > Threshold
    requires AllObjects(articles)
    ensures var c := LatestCloses(series).value;
      Run(PriceBody(false, false, Some(series)), NewsBody(Listed(articles)), cents)
      == Alerts(Messages(PriceLine(Arrow(c.0, c.1), cents(PercentChange(c.0, c.1).value) + "%"), articles))
  {}

  /** After a move above the threshold, an entry that is not an object ends the
      run with an exception, after the messages for the articles before it
      have been handed to the provider: fewer messages than articles. */
  lemma NonObjectInterrupts(series: seq<Option<real>>, articles: seq<Article>, cents: real -> string)
    requires LatestCloses(series).Some?
    requires var c := LatestCloses(series).value;
      PercentChange(c.0, c.1).Some? && PercentChange(c.0, c.1).value > Threshold
    requires !AllObjects(articles)
    ensures var c := LatestCloses(series).value;
      var k := ObjectPrefix(articles);
      && k < |articles| && articles[k].NotObject?
      && Run(PriceBody(false, false, Some(series)), NewsBody(Listed(articles)), cents)
         == Interrupted(Messages(PriceLine(Arrow(c.0, c.1), cents(PercentChange(c.0, c.1).value) + "%"), articles[..k]))
  {
    var c := LatestCloses(series).value;
    var line := PriceLine(Arrow(c.0, c.1), cents(PercentChange(c.0, c.1).value) + "%");
    assert Run(PriceBody(false, false, Some(series)), NewsBody(Listed(articles)), cents) == SendLoop(line, articles);
  }


  /** An article's message reads as the price line, its headline and its
      brief, the brief at most 203 characters. */
  lemma MessageLines(priceLine: string, articles: seq<Article>, i: nat)
    requires i < |articles| && AllObjects(articles)
    requires NoNewline(priceLine) && NoNewline(Headline(articles[i])) && NoNewline(Brief(articles[i]))
    ensures var lines := SplitLines(Messages(priceLine, articles)[i]);
      && lines == [priceLine, "Headline: " + Headline(articles[i]), "Brief: " + Brief(articles[i])]
      && |lines[2]| <= |"Brief: "| + BriefLimit + 3
  {
    ArticleMessageReadsBack(priceLine, Headline(articles[i]), Brief(articles[i]));
    match articles[i].description
    case Null =>
    case Missing => TruncateBounded("No description available");
    case Str(s) => TruncateBounded(s);
  }
}
