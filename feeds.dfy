/**
 * RSS feeds as feedparser hands them over. Fetching and parsing are not
 * modelled: a feed is a value, and the fetch is a function from the feed
 * URL to that value.
 */
module Feeds {
  import opened Wrappers
  import opened Strings

  /** One item of a feed; `summary` and `published` may be missing. */
  datatype Entry = Entry(title: string, link: string, summary: Option<string>, published: Option<string>)

  /** A parsed feed; `bozo` is set when the feed could not be parsed. */
  datatype Feed = Feed(bozo: bool, entries: seq<Entry>)

  /** An https URL on `host` with the given path. */
  function Url(host: string, path: string): string {
    "https://" + host + "/" + path
  }

  /** Yahoo Finance's headline feed for one ticker. */
  function YahooHeadlineUrl(ticker: string): string {
    Url("feeds.finance.yahoo.com", "rss/2.0/headline?s=" + ticker + "&region=US&lang=en-US")
  }

  /** url.split("/")[2], defined when the URL has at least three pieces. */
  predicate HasSource(url: string) {
    |SplitOn(url, '/')| > 2
  }

  function SourceOf(url: string): string
    requires HasSource(url)
  {
    SplitOn(url, '/')[2]
  }

  /** The third "/"-separated piece of an https URL is its host. */
  lemma UrlSource(host: string, path: string)
    requires '/' !in host
    ensures HasSource(Url(host, path))
    ensures SourceOf(Url(host, path)) == host
  {
    var rest := host + "/" + path;
    var pieces := SplitOn(path, '/');
    SplitOnNoSepPrefix(host, "/" + path, '/');
    assert SplitOn("/" + path, '/') == [""] + pieces by {
      assert ("/" + path)[1..] == path;
    }
    assert SplitOn(rest, '/') == [host] + pieces by {
      assert rest == host + ("/" + path);
      assert host + "" == host;
    }
    var once := "/" + rest;
    var twice := "/" + once;
    assert SplitOn(once, '/') == [""] + [host] + pieces by {
      assert once[1..] == rest;
    }
    var parts := SplitOn(twice, '/');
    assert parts == ["", ""] + [host] + pieces by {
      assert twice[1..] == once;
    }
    SplitOnNoSepPrefix("https:", twice, '/');
    assert Url(host, path) == "https:" + twice;
    assert "https:" + parts[0] == "https:";
    assert SplitOn(Url(host, path), '/') == ["https:"] + parts[1..];
  }

  /** The hosts of a list of https URLs are their third pieces. */
  lemma UrlListSources(hosts: seq<string>, paths: seq<string>)
    requires |paths| == |hosts|
    requires forall i :: 0 <= i < |hosts| ==> '/' !in hosts[i]
    ensures forall i :: 0 <= i < |hosts| ==>
      HasSource(Url(hosts[i], paths[i])) && SourceOf(Url(hosts[i], paths[i])) == hosts[i]
  {
    forall i | 0 <= i < |hosts|
      ensures HasSource(Url(hosts[i], paths[i])) && SourceOf(Url(hosts[i], paths[i])) == hosts[i]
    {
      UrlSource(hosts[i], paths[i]);
    }
  }
}
