/** The class-level configuration of the whitelisted generic onebox engine
    (lib/onebox/engine/whitelisted_generic_onebox.rb): the domain whitelist, the hosts whose
    markup is rewritten to https and the providers whose embed html is trusted. Each list is
    read through a getter that memoises a copy of its default (`@x ||= default.dup`) and can be
    replaced by a setter. */
module OneboxSettings {
  import opened Wrappers
  import Text
  import OneboxUrl
  import OneboxHtml

  /** `default_whitelist` */
  function DefaultWhitelist(): seq<string> {
    [
      "23hq.com", "500px.com", "8tracks.com", "abc.net.au", "about.com", "answers.com",
      "arstechnica.com", "ask.com", "battle.net", "bbc.co.uk", "bbs.boingboing.net", "bestbuy.ca",
      "bestbuy.com", "blip.tv", "bloomberg.com", "businessinsider.com", "change.org", "clikthrough.com",
      "cnet.com", "cnn.com", "codepen.io", "collegehumor.com", "consider.it", "coursera.org",
      "cracked.com", "dailymail.co.uk", "dailymotion.com", "deadline.com", "dell.com", "deviantart.com",
      "digg.com", "dotsub.com", "ebay.ca", "ebay.co.uk", "ebay.com", "ehow.com",
      "espn.go.com", "etsy.com", "findery.com", "flickr.com", "folksy.com", "forbes.com",
      "foxnews.com", "funnyordie.com", "gfycat.com", "groupon.com", "howtogeek.com", "huffingtonpost.ca",
      "huffingtonpost.com", "hulu.com", "ign.com", "ikea.com", "imdb.com", "indiatimes.com",
      "instagr.am", "instagram.com", "itunes.apple.com", "khanacademy.org", "kickstarter.com", "kinomap.com",
      "lessonplanet.com", "liveleak.com", "livestream.com", "mashable.com", "medium.com", "meetup.com",
      "mixcloud.com", "mlb.com", "myshopify.com", "myspace.com", "nba.com", "npr.org",
      "nytimes.com", "photobucket.com", "pinterest.com", "reference.com", "revision3.com", "rottentomatoes.com",
      "samsung.com", "screenr.com", "scribd.com", "slideshare.net", "sourceforge.net", "speakerdeck.com",
      "spotify.com", "squidoo.com", "techcrunch.com", "ted.com", "thefreedictionary.com", "theglobeandmail.com",
      "thenextweb.com", "theonion.com", "thestar.com", "thesun.co.uk", "thinkgeek.com", "tmz.com",
      "torontosun.com", "tumblr.com", "twitch.tv", "twitpic.com", "usatoday.com", "viddler.com",
      "videojug.com", "vimeo.com", "vine.co", "walmart.com", "washingtonpost.com", "wi.st",
      "wikia.com", "wikihow.com", "wired.com", "wistia.com", "wonderhowto.com", "wsj.com",
      "zappos.com", "zillow.com"
    ]
  }

  /** `https_hosts`, the default of `rewrites`. */
  function HttpsHosts(): seq<string> {
    ["slideshare.net", "dailymotion.com", "livestream.com"]
  }

  /** `default_html_providers` */
  function DefaultHtmlProviders(): seq<string> {
    ["Flickr", "Meetup"]
  }

  /** The list a memoising getter yields: the stored one, or the default when nothing (nil) is stored. */
  function InEffect(stored: Option<seq<string>>, default: seq<string>): (r: seq<string>)
    ensures stored.Some? ==> r == stored.value
    ensures stored.None? ==> r == default
  {
    stored.GetOr(default)
  }

  /** Subdomains of a rewrite host are rewritten. */
  lemma HttpsHostsExample()
    ensures OneboxUrl.HostMatches(Some("www.slideshare.net"), HttpsHosts())
  {
    Text.EndsWithAppended("www", ".slideshare.net");
    assert OneboxUrl.HostMatchesEntry("www" + ".slideshare.net", HttpsHosts()[0]);
  }

  class GenericOneboxSettings {
    /** `@whitelist`, `@rewrites`, `@html_providers`; `None` is nil (never read or reset). */
    var whitelist: Option<seq<string>>
    var rewrites: Option<seq<string>>
    var htmlProviders: Option<seq<string>>

    /** The class methods `default_whitelist`, `https_hosts` and `default_html_providers`. */
    const defaultWhitelist: seq<string>
    const httpsHosts: seq<string>
    const defaultHtmlProviders: seq<string>

    /** Before anything is read or assigned, every list is nil. */
    constructor ()
      ensures whitelist == None && rewrites == None && htmlProviders == None
      ensures defaultWhitelist == DefaultWhitelist() && httpsHosts == HttpsHosts()
      ensures defaultHtmlProviders == DefaultHtmlProviders()
    {
      whitelist, rewrites, htmlProviders := None, None, None;
      defaultWhitelist, httpsHosts, defaultHtmlProviders := DefaultWhitelist(), HttpsHosts(), DefaultHtmlProviders();
    }

    /** `self.whitelist` */
    method Whitelist() returns (list: seq<string>)
      modifies this
      ensures list == InEffect(old(whitelist), defaultWhitelist)
      ensures whitelist == Some(list)
      ensures rewrites == old(rewrites) && htmlProviders == old(htmlProviders)
    {
      if whitelist.None? {
        whitelist := Some(defaultWhitelist);
      }
      list := whitelist.value;
    }

    /** `self.whitelist=`; assigning nil makes the next read fall back to the default. */
    method SetWhitelist(list: Option<seq<string>>)
      modifies this
      ensures whitelist == list
      ensures rewrites == old(rewrites) && htmlProviders == old(htmlProviders)
    {
      whitelist := list;
    }

    /** `self.rewrites` */
    method Rewrites() returns (list: seq<string>)
      modifies this
      ensures list == InEffect(old(rewrites), httpsHosts)
      ensures rewrites == Some(list)
      ensures whitelist == old(whitelist) && htmlProviders == old(htmlProviders)
    {
      if rewrites.None? {
        rewrites := Some(httpsHosts);
      }
      list := rewrites.value;
    }

    /** `self.rewrites=` */
    method SetRewrites(list: Option<seq<string>>)
      modifies this
      ensures rewrites == list
      ensures whitelist == old(whitelist) && htmlProviders == old(htmlProviders)
    {
      rewrites := list;
    }

    /** `self.html_providers` */
    method HtmlProviders() returns (list: seq<string>)
      modifies this
      ensures list == InEffect(old(htmlProviders), defaultHtmlProviders)
      ensures htmlProviders == Some(list)
      ensures whitelist == old(whitelist) && rewrites == old(rewrites)
    {
      if htmlProviders.None? {
        htmlProviders := Some(defaultHtmlProviders);
      }
      list := htmlProviders.value;
    }

    /** `self.html_providers=` */
    method SetHtmlProviders(list: Option<seq<string>>)
      modifies this
      ensures htmlProviders == list
      ensures whitelist == old(whitelist) && rewrites == old(rewrites)
    {
      htmlProviders := list;
    }

    /** `self.===(uri)`: classification against the whitelist in effect, memoising it. */
    method Claims(uri: OneboxUrl.Uri) returns (claimed: bool)
      modifies this
      ensures claimed == OneboxUrl.Matches(uri, InEffect(old(whitelist), defaultWhitelist))
      ensures whitelist == Some(InEffect(old(whitelist), defaultWhitelist))
      ensures rewrites == old(rewrites) && htmlProviders == old(htmlProviders)
    {
      var list := Whitelist();
      claimed := OneboxUrl.Matches(uri, list);
    }

    /** `to_html` of an engine instance for `url` and `data`. `generic_html` reads (and so memoises)
        `html_providers` only when it evaluates the provider check of `is_embedded?`, and
        `rewrite_https` reads `rewrites` only when there is html to rewrite. */
    method ToHtml(url: OneboxUrl.Uri, d: OneboxHtml.OgData, articleHtml: string, embeddedHtml: string)
      returns (html: Option<string>)
      modifies this
      ensures html == OneboxHtml.ToHtml(d, InEffect(old(htmlProviders), defaultHtmlProviders),
                                        InEffect(old(rewrites), httpsHosts), url.host, articleHtml, embeddedHtml)
      ensures htmlProviders == if OneboxHtml.ReadsHtmlProviders(d) then Some(InEffect(old(htmlProviders), defaultHtmlProviders))
                               else old(htmlProviders)
      ensures rewrites == if html.Some? then Some(InEffect(old(rewrites), httpsHosts)) else old(rewrites)
      ensures InEffect(htmlProviders, defaultHtmlProviders) == InEffect(old(htmlProviders), defaultHtmlProviders)
      ensures InEffect(rewrites, httpsHosts) == InEffect(old(rewrites), httpsHosts)
      ensures whitelist == old(whitelist)
    {
      var providers := InEffect(htmlProviders, defaultHtmlProviders);
      if OneboxHtml.ReadsHtmlProviders(d) {
        providers := HtmlProviders();
      }
      var generic := OneboxHtml.GenericHtml(d, providers, articleHtml, embeddedHtml);
      if generic.None? {
        html := None;
      } else {
        var rewriteHosts := Rewrites();
        html := OneboxHtml.RewriteHttps(generic, url.host, rewriteHosts);
      }
    }
  }

  /** Assigning a list replaces the default for good; assigning nil brings the default back. */
  method SettingsScenario(s: GenericOneboxSettings)
    modifies s
  {
    s.SetWhitelist(Some(["example.com"]));
    var w := s.Whitelist();
    assert w == ["example.com"];
    var claimed := s.Claims(OneboxUrl.Uri(Some("blog.example.com"), None));
    assert OneboxUrl.HostMatchesEntry("blog.example.com", "example.com") by {
      assert "blog.example.com"[|"blog.example.com"| - |".example.com"|..] == ".example.com";
    }
    assert claimed;
    s.SetWhitelist(None);
    w := s.Whitelist();
    assert w == s.defaultWhitelist;
    s.SetRewrites(Some([]));
    var r := s.Rewrites();
    assert r == [];
  }
}
