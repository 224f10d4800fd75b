/**
 * The page scraper (ghost-ui/src/utils/scrapePage.ts) as a pure function of
 * what it reads from the page: the title, the body's rendered text if there
 * is a body, the `href` of every anchor in document order, the location and
 * the clock.
 */
module ScrapePage {

  import opened Wrappers
  import opened Js
  import opened PaletteModel

  const MaxBodyText := 2000
  const MaxLinks := 10
  const HttpPrefix := "http"

  /** The hrefs that start with "http", in document order. */
  function HttpLinks(hrefs: seq<string>): (r: seq<string>)
    ensures |r| <= |hrefs|
    ensures forall i :: 0 <= i < |r| ==> StartsWith(r[i], HttpPrefix)
    ensures forall h :: h in r <==> h in hrefs && StartsWith(h, HttpPrefix)
  {
    if hrefs == [] then []
    else (if StartsWith(hrefs[0], HttpPrefix) then [hrefs[0]] else []) + HttpLinks(hrefs[1..])
  }

  /** The filter keeps document order: the links of a page made of two
      parts are those of the first part, then those of the second. */
  lemma {:induction false} HttpLinksAppend(a: seq<string>, b: seq<string>)
    ensures HttpLinks(a + b) == HttpLinks(a) + HttpLinks(b)
  {
    if a == [] {
      assert a + b == b;
    } else {
      assert (a + b)[1..] == a[1..] + b;
      HttpLinksAppend(a[1..], b);
    }
  }

  /** `scrapePage()` */
  function Scrape(title: string, body: Option<string>, hrefs: seq<string>, url: string, now: int): ScrapedMemory {
    ScrapedMemory(
      title,
      Prefix(if body.Some? then body.value else "", MaxBodyText),
      Prefix(HttpLinks(hrefs), MaxLinks),
      url,
      now)
  }

  /** The scraped record: title, url and time copied; the body text is the
      start of the page's text, at most 2000 characters, and empty without
      a body; the links are the first ten http links in document order. */
  lemma ScrapeShape(title: string, body: Option<string>, hrefs: seq<string>, url: string, now: int)
    ensures var m := Scrape(title, body, hrefs, url, now);
            && m.title == title && m.url == url && m.timestamp == now
            && |m.bodyText| <= MaxBodyText
            && (body.Some? ==> m.bodyText <= body.value
                               && (|body.value| <= MaxBodyText ==> m.bodyText == body.value))
            && (body.None? ==> m.bodyText == "")
            && |m.links| <= MaxLinks
            && m.links <= HttpLinks(hrefs)
            && |m.links| == (if |HttpLinks(hrefs)| < MaxLinks then |HttpLinks(hrefs)| else MaxLinks)
            && forall i :: 0 <= i < |m.links| ==> StartsWith(m.links[i], HttpPrefix) && m.links[i] in hrefs
  {
    var links := Prefix(HttpLinks(hrefs), MaxLinks);
    forall i | 0 <= i < |links| ensures StartsWith(links[i], HttpPrefix) && links[i] in hrefs {
      assert links[i] == HttpLinks(hrefs)[i];
      assert links[i] in HttpLinks(hrefs);
    }
  }

  /** Links after the tenth http link do not matter. */
  lemma {:induction false} LaterLinksIgnored(a: seq<string>, b: seq<string>)
    requires |HttpLinks(a)| >= MaxLinks
    ensures Prefix(HttpLinks(a + b), MaxLinks) == Prefix(HttpLinks(a), MaxLinks)
  {
    HttpLinksAppend(a, b);
    assert (HttpLinks(a) + HttpLinks(b))[..MaxLinks] == HttpLinks(a)[..MaxLinks];
  }
}
