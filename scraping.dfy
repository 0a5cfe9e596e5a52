/** The `Website` class of backend/summariser.py: one fetched page reduced to its title,
    its visible text and the raw `href` values of its anchors. The HTTP request and the
    HTML parser are outside the model: a fetch is given as its outcome. */
module Scraping {
  import opened Text
  import opened Wrappers

  /** The page's <title> element as the parser sees it: absent, present without a single
      text child (its `.string` is None, as for `<title></title>`), or holding a string. */
  datatype TitleElement = NoTitleElement | TitleWithoutString | TitleString(text: string)

  /** What the HTML parser reports about a fetched page. */
  datatype ParsedPage = ParsedPage(
    titleElement: TitleElement,
    bodyText: Option<string>,       // text of <body> after dropping script, style, img and input; None without a <body>
    anchorHrefs: seq<Option<string>> // the href attribute of each <a>, in document order; None when absent
  )

  /** The outcome of the GET request: any exception or non-success status is a failure. */
  datatype FetchOutcome = FetchFailed | Fetched(page: ParsedPage)

  /** The (title, text, links) triple that `_scrape` returns. */
  datatype Scraped = Scraped(title: string, text: string, links: seq<string>)

  const NoTitle: string := "No title found"

  /** An anchor contributes a link when its href is present and not empty. */
  predicate KeepsHref(href: Option<string>) {
    href.Some? && href.value != ""
  }

  /** The list comprehension over `soup.find_all('a')` that keeps every truthy href. */
  function HrefLinks(anchors: seq<Option<string>>): (links: seq<string>)
    ensures |links| <= |anchors|
    ensures forall i :: 0 <= i < |links| ==> links[i] != ""
  {
    if anchors == [] then []
    else (if KeepsHref(anchors[0]) then [anchors[0].value] else []) + HrefLinks(anchors[1..])
  }

  /** Filtering distributes over concatenation: the links of a document are those of its
      first part followed by those of the rest, so document order is preserved. */
  lemma {:induction false} HrefLinksAppend(a: seq<Option<string>>, b: seq<Option<string>>)
    ensures HrefLinks(a + b) == HrefLinks(a) + HrefLinks(b)
  {
    if a == [] {
      assert a + b == b;
    } else {
      assert (a + b)[0] == a[0];
      assert (a + b)[1..] == a[1..] + b;
      HrefLinksAppend(a[1..], b);
    }
  }

  /** A string is one of the links exactly when some anchor carries it as a non-empty href. */
  lemma {:induction false} HrefLinksMembers(anchors: seq<Option<string>>, h: string)
    ensures h in HrefLinks(anchors) <==> h != "" && Some(h) in anchors
  {
    if anchors != [] {
      HrefLinksMembers(anchors[1..], h);
      assert anchors == [anchors[0]] + anchors[1..];
    }
  }

  /** When every anchor has a non-empty href, the links are the hrefs one for one. */
  lemma {:induction false} HrefLinksAllPresent(anchors: seq<Option<string>>)
    requires forall i :: 0 <= i < |anchors| ==> KeepsHref(anchors[i])
    ensures |HrefLinks(anchors)| == |anchors|
    ensures forall i :: 0 <= i < |anchors| ==> Some(HrefLinks(anchors)[i]) == anchors[i]
  {
    if anchors != [] {
      HrefLinksAllPresent(anchors[1..]);
    }
  }

  /** The exception `_scrape` lets escape: `.strip()` called on a missing title string. */
  datatype ScrapeError = TitleStringIsNone

  /** `Website._scrape(url)` as written, given the outcome of fetching `url`. A failed fetch
      degrades to the fixed placeholder; a <title> element whose `.string` is None makes
      the title expression raise, outside the try block. */
  function ScrapeAsWritten(outcome: FetchOutcome): (r: Result<Scraped, ScrapeError>)
    ensures r.Err? <==> outcome.Fetched? && outcome.page.titleElement.TitleWithoutString?
  {
    match outcome
    case FetchFailed => Ok(Scraped(NoTitle, "", []))
    case Fetched(page) =>
      match page.titleElement
      case TitleWithoutString => Err(TitleStringIsNone)
      case TitleString(t) => Ok(Scraped(Strip(t), page.bodyText.GetOr(""), HrefLinks(page.anchorHrefs)))
      case NoTitleElement => Ok(Scraped(NoTitle, page.bodyText.GetOr(""), HrefLinks(page.anchorHrefs)))
  }

  /** A page whose title element is empty: it is fetched and has a body, yet scraping it
      raises instead of falling back to the placeholder title. */
  lemma ScrapeAsWrittenRaisesOnEmptyTitle()
    ensures ScrapeAsWritten(Fetched(ParsedPage(TitleWithoutString, Some("Hello World"), []))) == Err(TitleStringIsNone)
  {
  }

  /** `Website._scrape(url)` with a title that cannot be read falling back to the
      placeholder like a missing one. A failed fetch degrades to the placeholder triple
      instead of raising; a page without <body> has no text. */
  function Scrape(outcome: FetchOutcome): (s: Scraped)
    ensures outcome.FetchFailed? ==> s == Scraped(NoTitle, "", [])
    ensures outcome.Fetched? ==> s.links == HrefLinks(outcome.page.anchorHrefs)
    ensures outcome.Fetched? ==> s.text == outcome.page.bodyText.GetOr("")
    ensures outcome.Fetched? && outcome.page.titleElement.TitleString?
            ==> s.title == Strip(outcome.page.titleElement.text)
    ensures outcome.Fetched? && !outcome.page.titleElement.TitleString? ==> s.title == NoTitle
    ensures IsStripped(s.title)
  {
    match outcome
    case FetchFailed => Scraped(NoTitle, "", [])
    case Fetched(page) =>
      Scraped(
        match page.titleElement case TitleString(t) => Strip(t) case _ => NoTitle,
        page.bodyText.GetOr(""),
        HrefLinks(page.anchorHrefs))
  }

  /** The corrected scrape agrees with the code wherever the code returns, and never raises. */
  lemma ScrapeAgreesWhereCodeReturns(outcome: FetchOutcome)
    ensures ScrapeAsWritten(outcome).Ok? ==> ScrapeAsWritten(outcome).value == Scrape(outcome)
    ensures outcome.Fetched? && outcome.page.titleElement.TitleWithoutString?
            ==> Scrape(outcome) == Scraped(NoTitle, outcome.page.bodyText.GetOr(""), HrefLinks(outcome.page.anchorHrefs))
  {
  }

  const TitleLabel: string := "Webpage Title:\n"
  const ContentsLabel: string := "\nWebpage Contents:\n"

  /** `Website.get_contents()` on a page's title and text. */
  function PageContents(title: string, text: string): string {
    TitleLabel + title + ContentsLabel + text + "\n\n"
  }

  /** Index of the first occurrence of `c` in `s`. */
  function IndexOf(s: string, c: char): (i: nat)
    requires c in s
    ensures i < |s| && s[i] == c && c !in s[..i]
  {
    if s[0] == c then 0 else 1 + IndexOf(s[1..], c)
  }

  /** Reads a `get_contents()` block back: the title runs to the first newline after the
      title label, the text lies between the contents label and the final blank line. */
  function ParsePageContents(s: string): Option<(string, string)> {
    if !StartsWith(s, TitleLabel) then None
    else
      var rest := s[|TitleLabel|..];
      if '\n' !in rest then None
      else
        var i := IndexOf(rest, '\n');
        var tail := rest[i..];
        if StartsWith(tail, ContentsLabel) && |tail| >= |ContentsLabel| + 2 && EndsWith(tail, "\n\n")
        then Some((rest[..i], tail[|ContentsLabel|..|tail| - 2]))
        else None
  }

  /** A block built by `get_contents()` reads back as the page's title and text, provided
      the title is a single line (it is already stripped by `_scrape`). */
  lemma PageContentsRoundTrip(title: string, text: string)
    requires '\n' !in title
    ensures ParsePageContents(PageContents(title, text)) == Some((title, text))
  {
    var tail := ContentsLabel + text + "\n\n";
    var rest := title + tail;
    var s := PageContents(title, text);
    assert s == TitleLabel + rest;
    SplitAt(TitleLabel, rest);
    assert tail[0] == '\n';
    IndexAfterLine(title, tail);
    SplitAt(title, tail);
    TailParts(ContentsLabel, text, "\n\n");
  }

  lemma SplitAt(a: string, b: string)
    ensures StartsWith(a + b, a) && (a + b)[|a|..] == b && (a + b)[..|a|] == a
  {
  }

  lemma TailParts(head: string, text: string, close: string)
    ensures var tail := head + text + close;
      StartsWith(tail, head) && |tail| >= |head| + |close| && EndsWith(tail, close)
      && tail[|head|..|tail| - |close|] == text
  {
    var tail := head + text + close;
    assert tail[..|head|] == head;
    assert tail[|tail| - |close|..] == close;
    assert tail[|head|..|tail| - |close|] == text;
  }

  lemma {:induction false} IndexAfterLine(line: string, more: string)
    requires '\n' !in line
    requires more != [] && more[0] == '\n'
    ensures '\n' in line + more && IndexOf(line + more, '\n') == |line|
  {
    assert (line + more)[|line|] == '\n';
    if line != [] {
      assert (line + more)[1..] == line[1..] + more;
      IndexAfterLine(line[1..], more);
    }
  }

  /** A fetched page. The fields are set once, from the scrape, and never change. */
  class Website {
    const url: string
    const title: string
    const text: string
    const links: seq<string>

    /** `Website(url)`, with the outcome of fetching `url` supplied by the caller. The
        fields come from the corrected `Scrape`, so a page whose <title> has no string gets
        the placeholder title where the code raises. */
    constructor (url: string, outcome: FetchOutcome)
      ensures this.url == url
      ensures Scraped(title, text, links) == Scrape(outcome)
    {
      this.url := url;
      var s := Scrape(outcome);
      title := s.title;
      text := s.text;
      links := s.links;
    }

    function GetContents(): string {
      PageContents(title, text)
    }
  }
}
