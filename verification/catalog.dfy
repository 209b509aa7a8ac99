/**
 The static configuration of the bot simulator: the table of bot categories,
 each with its User-Agent strings in declaration order, and the endpoint paths
 requests are sent to.
 */
module Catalog {
  import opened Optional

  /** A (category, User-Agent) pair used to impersonate one kind of client. */
  datatype Profile = Profile(category: string, userAgent: string)

  /** One key of the category table with its list of User-Agent strings. */
  datatype CategoryEntry = CategoryEntry(name: string, userAgents: seq<string>)

  /** The category table, in the insertion order of the source's dictionary. */
  const BotUserAgents: seq<CategoryEntry> := [
    CategoryEntry("search_engine", [
      "Mozilla/5.0 (compatible; Googlebot/2.1; +http://www.google.com/bot.html)",
      "Mozilla/5.0 (compatible; Bingbot/2.0; +http://www.bing.com/bingbot.htm)",
      "Mozilla/5.0 (compatible; YandexBot/3.0; +http://yandex.com/bots)",
      "DuckDuckBot/1.0; (+http://duckduckgo.com/duckduckbot.html)",
      "Mozilla/5.0 (compatible; Baiduspider/2.0; +http://www.baidu.com/search/spider.html)"
    ]),
    CategoryEntry("scraping_framework", [
      "Scrapy/2.11.0 (+https://scrapy.org)",
      "Mozilla/5.0 (compatible; Scrapy/2.5.0; +https://scrapy.org)",
      "python-scrapy/2.8.0"
    ]),
    CategoryEntry("http_library", [
      "python-requests/2.31.0",
      "curl/8.1.2",
      "Go-http-client/1.1",
      "axios/1.6.0",
      "node-fetch/3.3.0",
      "Java/17.0.1",
      "libwww-perl/6.67",
      "Ruby",
      "PHP/8.2",
      "wget/1.21"
    ]),
    CategoryEntry("ai_bot", [
      "GPTBot/1.0 (+https://openai.com/gptbot)",
      "ChatGPT-User/1.0",
      "Claude-Web/1.0",
      "anthropic-ai/1.0",
      "CCBot/2.0 (https://commoncrawl.org/faq/)",
      "Google-Extended"
    ]),
    CategoryEntry("monitoring", [
      "Pingdom.com_bot_version_1.4",
      "UptimeRobot/2.0",
      "StatusCake",
      "Site24x7",
      "Datadog/Synthetics",
      "NewRelicPinger/1.0"
    ]),
    CategoryEntry("social_media", [
      "Twitterbot/1.0",
      "facebookexternalhit/1.1 (+http://www.facebook.com/externalhit_uatext.php)",
      "LinkedInBot/1.0",
      "Slackbot-LinkExpanding 1.0",
      "TelegramBot (like TwitterBot)",
      "Discordbot/2.0"
    ]),
    CategoryEntry("seo_tool", [
      "AhrefsBot/7.0",
      "SemrushBot/7~bl",
      "MJ12bot/v1.4.8",
      "DotBot/1.2",
      "Screaming Frog SEO Spider/19.0"
    ]),
    CategoryEntry("browser", [
      "Mozilla/5.0 (Windows NT 10.0; Win64; x64) AppleWebKit/537.36 (KHTML, like Gecko) Chrome/120.0.0.0 Safari/537.36",
      "Mozilla/5.0 (Macintosh; Intel Mac OS X 10_15_7) AppleWebKit/605.1.15 (KHTML, like Gecko) Version/17.0 Safari/605.1.15",
      "Mozilla/5.0 (Windows NT 10.0; Win64; x64; rv:121.0) Gecko/20100101 Firefox/121.0",
      "Mozilla/5.0 (X11; Linux x86_64) AppleWebKit/537.36 (KHTML, like Gecko) Chrome/120.0.0.0 Safari/537.36"
    ]),
    CategoryEntry("malicious", [
      "malicious-bot/1.0",
      "evil-crawler/2.0",
      "bad-spider",
      "",  // empty User-Agent: no header is passed
      "sqlmap/1.7",
      "nikto/2.5.0"
    ])
  ]

  /** The paths a request may target; each is appended to the base URL. */
  const Endpoints: seq<string> := ["/", "/api/data", "/login", "/search?q=test", "/products", "/about"]

  /** Dictionary lookup in `table`: the first entry whose name is `name`. */
  function LookupIn(table: seq<CategoryEntry>, name: string): Option<seq<string>>
    decreases |table|
  {
    if |table| == 0 then None
    else if table[0].name == name then Some(table[0].userAgents)
    else LookupIn(table[1..], name)
  }

  /**
   The lookup finds a list exactly when some entry has that name, and the list
   it returns is the list of such an entry.
   */
  lemma {:induction false} LookupInSpec(table: seq<CategoryEntry>, name: string)
    ensures LookupIn(table, name).None? <==> forall i :: 0 <= i < |table| ==> table[i].name != name
    ensures LookupIn(table, name).Some? ==> exists i :: 0 <= i < |table| && table[i].name == name && table[i].userAgents == LookupIn(table, name).value
    decreases |table|
  {
    if |table| > 0 && table[0].name != name {
      LookupInSpec(table[1..], name);
      assert forall i :: 1 <= i < |table| ==> table[i] == table[1..][i - 1];
      if LookupIn(table, name).Some? {
        var i :| 0 <= i < |table[1..]| && table[1..][i].name == name && table[1..][i].userAgents == LookupIn(table, name).value;
        assert table[i + 1] == table[1..][i];
      }
    }
  }

  /** `name in table` for the dictionary `table`. */
  predicate IsKnownIn(table: seq<CategoryEntry>, name: string)
  {
    LookupIn(table, name).Some?
  }

  /** Every category of `table` lists at least one User-Agent. */
  predicate NoEmptyCategory(table: seq<CategoryEntry>)
  {
    forall i :: 0 <= i < |table| ==> |table[i].userAgents| > 0
  }

  /** A known category of such a table never contributes an empty list. */
  lemma KnownCategoryNonEmpty(table: seq<CategoryEntry>, name: string)
    requires NoEmptyCategory(table) && IsKnownIn(table, name)
    ensures |LookupIn(table, name).value| > 0
  {
  }

  /** The category table of the simulator has no empty category. */
  lemma BotUserAgentsNoEmptyCategory()
    ensures NoEmptyCategory(BotUserAgents)
  {
  }

  /** The category names of the simulator's table are pairwise distinct, so a first match is the only match. */
  lemma BotUserAgentsDistinctNames()
    ensures forall i, j :: 0 <= i < j < |BotUserAgents| ==> BotUserAgents[i].name != BotUserAgents[j].name
  {
  }

  /** Every endpoint is a non-empty path that starts with a slash. */
  lemma EndpointsStartWithSlash()
    ensures forall i :: 0 <= i < |Endpoints| ==> |Endpoints[i]| > 0 && Endpoints[i][0] == '/'
  {
  }
}
