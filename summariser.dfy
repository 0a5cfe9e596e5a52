/** The brochure pipeline of backend/summariser.py: classify the landing page's links,
    aggregate the landing page and the chosen pages into one text, ask for a brochure,
    strip a wrapping code fence and translate when asked.

    The outside world enters as three functions:
    - `fetch(url)`: the outcome of the GET request and HTML parsing for `url`;
    - `classify(system, user)`: the JSON-mode chat completion for that message pair,
      after `json.loads`; None when the reply is not valid JSON (json.loads raises);
    - `chat(system, user)`: the text of a plain chat completion. */
module Summariser {
  import opened Text
  import opened Wrappers
  import opened Prompts
  import opened Scraping
  import opened Fences
  import opened LinksMarkdown

  /** The parsed classifier reply; only its "links" value is read. */
  datatype LinksReply = LinksReply(links: LinksField)

  /** The exceptions that end `get_all_details` and therefore `create_brochure`, apart from
      the one a page with an unreadable <title> raises: the pages are read through the
      corrected `Scrape`, which gives such a page the placeholder title instead. */
  datatype Failure =
    | MalformedJson        // json.loads rejects the classifier reply
    | LinksNotIterable     // "links" is null, so the for loop cannot iterate it
    | MissingKey(key: string) // link['type'] or link['url'] raises KeyError

  // ---------------------------------------------------------------------------------
  // Start-up key check

  /** The start-up test on OPENAI_API_KEY (None when the variable is unset): non-empty,
      prefixed "sk-" and longer than ten characters; otherwise the process refuses to start. */
  predicate ApiKeyLooksValid(key: Option<string>) {
    key.Some? && key.value != "" && StartsWith(key.value, "sk-") && |key.value| > 10
  }

  /** The emptiness test is implied by the other two: a key passes exactly when it starts
      with "sk-" and has at least eleven characters. */
  lemma ApiKeyLooksValidIff(key: string)
    ensures ApiKeyLooksValid(Some(key)) <==> |key| >= 11 && key[..3] == "sk-"
    ensures !ApiKeyLooksValid(None) && !ApiKeyLooksValid(Some("sk-1234567"))
    ensures ApiKeyLooksValid(Some("sk-12345678"))
  {
  }

  // ---------------------------------------------------------------------------------
  // Language resolution and translation

  const DefaultLanguage: string := "en"

  /** The `language_map.get(target_lang, "English")` lookup of `translate_text`. */
  function LanguageName(code: string): (name: string)
    ensures name == "Hindi" <==> code == "hi"
    ensures name == "Spanish" <==> code == "es"
    ensures name == "English" <==> code != "hi" && code != "es"
  {
    var languages := map["en" := "English", "hi" := "Hindi", "es" := "Spanish"];
    if code in languages then languages[code] else "English"
  }

  const TranslatorSystemPrompt: string := "You are a helpful translation assistant."
  const TranslationOpening: string := "Translate the following text to "
  const TranslationClosing: string := "\n\nRespond only with the translated text."

  function TranslationPrompt(text: string, languageName: string): string {
    TranslationOpening + languageName + ":\n\n" + text + TranslationClosing
  }

  /** The translation request names the resolved language and then carries the text
      verbatim; an unknown code asks for English instead of failing. */
  lemma TranslationPromptLayout(text: string, code: string)
    ensures var name := LanguageName(code);
      var p := TranslationPrompt(text, name);
      var at := |TranslationOpening| + |name| + 3;
      StartsWith(p, TranslationOpening + name + ":")
      && at + |text| <= |p| && p[at..at + |text|] == text
      && EndsWith(p, TranslationClosing)
    ensures code != "hi" && code != "es" ==> LanguageName(code) == "English"
  {
    var name := LanguageName(code);
    var p := TranslationPrompt(text, name);
    var at := |TranslationOpening| + |name| + 3;
    assert p == (TranslationOpening + name + ":") + "\n\n" + text + TranslationClosing;
    assert p[..|TranslationOpening + name + ":"|] == TranslationOpening + name + ":";
    assert p[at..at + |text|] == text;
    assert p[|p| - |TranslationClosing|..] == TranslationClosing;
  }

  /** `translate_text(text, target_lang)`: one chat call, its reply trimmed. */
  function TranslateText(text: string, targetLang: string, chat: (string, string) -> string): (r: string)
    ensures IsStripped(r)
    ensures IsSliceOf(r, chat(TranslatorSystemPrompt, TranslationPrompt(text, LanguageName(targetLang))))
  {
    Strip(chat(TranslatorSystemPrompt, TranslationPrompt(text, LanguageName(targetLang))))
  }

  // ---------------------------------------------------------------------------------
  // Link classification and aggregation

  /** `get_links(url)`: scrape the page, then send the classifier its link list. */
  method GetLinks(url: string, fetch: string -> FetchOutcome,
                  classify: (string, string) -> Option<LinksReply>)
    returns (reply: Option<LinksReply>)
    ensures reply == classify(SystemPromptLinks(), LinksUserPrompt(url, Scrape(fetch(url)).links))
  {
    var website := new Website(url, fetch(url));
    reply := classify(SystemPromptLinks(), LinksUserPrompt(website.url, website.links));
  }

  /** A link entry that `get_all_details` can use: it has both keys. */
  predicate Complete(link: LinkEntry) {
    link.kind.Some? && link.url.Some?
  }

  /** The error that indexing an incomplete entry raises: "type" is read first. */
  function MissingKeyOf(link: LinkEntry): Failure {
    if link.kind.None? then MissingKey("type") else MissingKey("url")
  }

  /** The `get_contents()` block of the page at a url, given the outcome of fetching it. */
  function PageText(outcome: FetchOutcome): string {
    var page := Scrape(outcome);
    PageContents(page.title, page.text)
  }

  /** Reads the page at a url through `fetch`. */
  function PageReader(fetch: string -> FetchOutcome): string -> string {
    (u: string) => PageText(fetch(u))
  }

  /** The section of the aggregate for one classified link: a blank line, its type on a
      line of its own, then the contents of the page at its url as `read` gives them. */
  function Section(link: LinkEntry, read: string -> string): string
    requires Complete(link)
  {
    "\n\n" + link.kind.value + "\n" + read(link.url.value)
  }

  /** The sections for `links`, in order, or the error of the first incomplete entry. */
  function Sections(links: seq<LinkEntry>, read: string -> string): Result<string, Failure> {
    if links == [] then Ok("")
    else
      match Sections(links[..|links| - 1], read)
      case Err(f) => Err(f)
      case Ok(done) =>
        var last := links[|links| - 1];
        if Complete(last) then Ok(done + Section(last, read)) else Err(MissingKeyOf(last))
  }

  const LandingLabel: string := "Landing page:\n"

  /** The landing page's block: its label and its contents. */
  function LandingSection(url: string, fetch: string -> FetchOutcome): string {
    LandingLabel + PageText(fetch(url))
  }

  /** The classifier's reply for the page at `url`. */
  function ClassifierReply(url: string, fetch: string -> FetchOutcome,
                           classify: (string, string) -> Option<LinksReply>): Option<LinksReply>
  {
    classify(SystemPromptLinks(), LinksUserPrompt(url, Scrape(fetch(url)).links))
  }

  /** The value of `get_all_details` once the landing block and the classifier's reply
      are known, with `read` giving the contents of each linked page. */
  function Aggregate(landing: string, reply: Option<LinksReply>, read: string -> string): Result<string, Failure> {
    match reply
    case None => Err(MalformedJson)
    case Some(r) =>
      match r.links
      case Null => Err(LinksNotIterable)
      case Absent => Ok(landing + "\n\n" + UsefulLinks(r.links))
      case Entries(links) =>
        match Sections(links, read)
        case Err(f) => Err(f)
        case Ok(body) => Ok(landing + body + "\n\n" + UsefulLinks(r.links))
  }

  /** What `get_all_details(url)` returns or raises, with every page read through the
      corrected `Scrape`: where the code raises on a page whose <title> has no string,
      this gives that page the placeholder title. The page at `url` is fetched twice,
      once for the landing block and once inside `get_links`; `fetch` gives the same
      outcome both times. */
  function AllDetails(url: string, fetch: string -> FetchOutcome,
                      classify: (string, string) -> Option<LinksReply>): Result<string, Failure>
  {
    Aggregate(LandingSection(url, fetch), ClassifierReply(url, fetch, classify), PageReader(fetch))
  }

  /** `get_all_details(url)`: accumulates the landing block, one section per classified
      link and finally the links Markdown into one string. */
  method GetAllDetails(url: string, fetch: string -> FetchOutcome,
                       classify: (string, string) -> Option<LinksReply>)
    returns (r: Result<string, Failure>)
    ensures r == AllDetails(url, fetch, classify)
  {
    var result := "Landing page:\n";
    var mainSite := new Website(url, fetch(url));
    result := result + mainSite.GetContents();
    var reply := GetLinks(url, fetch, classify);
    if reply.None? {
      return Err(MalformedJson);
    }
    var field := reply.value.links;
    if field.Null? {
      return Err(LinksNotIterable);
    }
    var links := if field.Entries? then field.entries else [];
    ghost var landing := result;
    for i := 0 to |links|
      invariant Sections(links[..i], PageReader(fetch)).Ok?
      invariant result == landing + Sections(links[..i], PageReader(fetch)).value
    {
      var link := links[i];
      ghost var before := result;
      SectionsExtend(links, i, PageReader(fetch));
      if link.kind.None? {
        SectionsStopAtFailure(links, i + 1, PageReader(fetch));
        return Err(MissingKey("type"));
      }
      var header := "\n\n" + link.kind.value + "\n";
      result := result + header;
      if link.url.None? {
        SectionsStopAtFailure(links, i + 1, PageReader(fetch));
        return Err(MissingKey("url"));
      }
      var page := new Website(link.url.value, fetch(link.url.value));
      var contents := page.GetContents();
      SectionOfPage(link, fetch, page.title, page.text, page.links);
      result := result + contents;
      AppendAssoc(landing, Sections(links[..i], PageReader(fetch)).value, header, contents);
    }
    assert links[..|links|] == links;
    var markdown := LinksToMarkdown(field);
    result := result + "\n\n" + markdown;
    r := Ok(result);
  }

  /** The section of a complete link is its header followed by the scraped page's contents. */
  lemma SectionOfPage(link: LinkEntry, fetch: string -> FetchOutcome, title: string, text: string, links: seq<string>)
    requires Complete(link)
    requires Scraped(title, text, links) == Scrape(fetch(link.url.value))
    ensures Section(link, PageReader(fetch)) == ("\n\n" + link.kind.value + "\n") + PageContents(title, text)
  {
  }

  lemma AppendAssoc(landing: string, done: string, header: string, contents: string)
    ensures landing + done + header + contents == landing + (done + (header + contents))
  {
  }

  /** One more link either adds its section or fails with its missing key. */
  lemma SectionsExtend(links: seq<LinkEntry>, i: nat, read: string -> string)
    requires i < |links| && Sections(links[..i], read).Ok?
    ensures Sections(links[..i + 1], read)
            == if Complete(links[i]) then Ok(Sections(links[..i], read).value + Section(links[i], read))
               else Err(MissingKeyOf(links[i]))
  {
    assert links[..i + 1][..i] == links[..i];
  }

  /** Once a prefix of the links fails, the whole list fails with the same error. */
  lemma {:induction false} SectionsStopAtFailure(links: seq<LinkEntry>, n: nat, read: string -> string)
    requires n <= |links|
    requires Sections(links[..n], read).Err?
    ensures Sections(links, read) == Sections(links[..n], read)
    decreases |links| - n
  {
    if n < |links| {
      assert links[..n + 1][..n] == links[..n];
      SectionsStopAtFailure(links, n + 1, read);
    } else {
      assert links[..n] == links;
    }
  }

  /** Every link entry decides its own section, so the sections of two lists joined are
      the sections of the first followed by those of the second: the aggregate keeps the
      classifier's order. */
  lemma {:induction false} SectionsAppend(a: seq<LinkEntry>, b: seq<LinkEntry>, read: string -> string)
    requires Sections(a, read).Ok? && Sections(b, read).Ok?
    ensures Sections(a + b, read) == Ok(Sections(a, read).value + Sections(b, read).value)
    decreases |b|
  {
    if b == [] {
      assert a + b == a;
      assert Sections(a, read).value + "" == Sections(a, read).value;
    } else {
      var init, last := b[..|b| - 1], b[|b| - 1];
      assert (a + b)[..|a + b| - 1] == a + init;
      assert (a + b)[|a + b| - 1] == last;
      SectionsAppend(a, init, read);
      var x, y := Sections(a, read).value, Sections(init, read).value;
      assert Sections(b, read).value == y + Section(last, read);
      assert x + y + Section(last, read) == x + (y + Section(last, read));
    }
  }

  /** A single complete link contributes exactly its own section. */
  lemma SectionsSingle(link: LinkEntry, read: string -> string)
    requires Complete(link)
    ensures Sections([link], read) == Ok(Section(link, read))
  {
    assert [link][..0] == [];
    assert "" + Section(link, read) == Section(link, read);
  }

  /** The aggregation succeeds exactly when every classified link has both keys. */
  lemma {:induction false} SectionsOkIff(links: seq<LinkEntry>, read: string -> string)
    ensures Sections(links, read).Ok? <==> forall i :: 0 <= i < |links| ==> Complete(links[i])
  {
    if links != [] {
      var init := links[..|links| - 1];
      SectionsOkIff(init, read);
      assert forall i :: 0 <= i < |init| ==> init[i] == links[i];
    }
  }

  /** When it fails, it fails with the missing key of the first incomplete entry, however
      many entries follow. */
  lemma SectionsFirstFailure(links: seq<LinkEntry>, k: nat, read: string -> string)
    requires k < |links| && !Complete(links[k])
    requires forall j :: 0 <= j < k ==> Complete(links[j])
    ensures Sections(links, read) == Err(MissingKeyOf(links[k]))
  {
    SectionsOkIff(links[..k], read);
    SectionsExtend(links, k, read);
    SectionsStopAtFailure(links, k + 1, read);
  }

  /** Once the reply is known, a successful aggregate opens with the landing block and
      closes with a blank line and the links Markdown of that reply. */
  lemma AggregateFrame(landing: string, reply: Option<LinksReply>, read: string -> string)
    requires Aggregate(landing, reply, read).Ok?
    ensures reply.Some?
    ensures var r := Aggregate(landing, reply, read).value;
      StartsWith(r, landing) && EndsWith(r, "\n\n" + UsefulLinks(reply.value.links))
  {
    var r := Aggregate(landing, reply, read).value;
    var field := reply.value.links;
    var tail := "\n\n" + UsefulLinks(field);
    var body := if field.Entries? then Sections(field.entries, read).value else "";
    assert r == landing + body + tail;
    assert r[..|landing|] == landing;
    assert r[|r| - |tail|..] == tail;
  }

  /** The aggregate opens with the landing block and closes with a blank line and the
      links Markdown built from the same reply. */
  lemma AllDetailsFrame(url: string, fetch: string -> FetchOutcome,
                        classify: (string, string) -> Option<LinksReply>)
    requires AllDetails(url, fetch, classify).Ok?
    ensures ClassifierReply(url, fetch, classify).Some?
    ensures var r := AllDetails(url, fetch, classify).value;
      var field := ClassifierReply(url, fetch, classify).value.links;
      StartsWith(r, LandingSection(url, fetch))
      && EndsWith(r, "\n\n" + UsefulLinks(field))
  {
    AggregateFrame(LandingSection(url, fetch), ClassifierReply(url, fetch, classify), PageReader(fetch));
  }

  /** Which replies make `get_all_details` fail, and with which error: malformed JSON, a
      null "links", or an entry without "type" or "url". A reply whose "links" is missing
      or empty yields the landing block, a blank line and nothing else. */
  lemma AllDetailsOutcomes(url: string, fetch: string -> FetchOutcome,
                           classify: (string, string) -> Option<LinksReply>)
    ensures ClassifierReply(url, fetch, classify).None? ==> AllDetails(url, fetch, classify) == Err(MalformedJson)
    ensures ClassifierReply(url, fetch, classify) == Some(LinksReply(Null))
            ==> AllDetails(url, fetch, classify) == Err(LinksNotIterable)
    ensures ClassifierReply(url, fetch, classify) == Some(LinksReply(Absent))
            ==> AllDetails(url, fetch, classify) == Ok(LandingSection(url, fetch) + "\n\n")
    ensures ClassifierReply(url, fetch, classify) == Some(LinksReply(Entries([])))
            ==> AllDetails(url, fetch, classify) == Ok(LandingSection(url, fetch) + "\n\n")
  {
    var landing := LandingSection(url, fetch);
    assert landing + "\n\n" + "" == landing + "\n\n";
    assert landing + "" + "\n\n" + "" == landing + "\n\n";
    if ClassifierReply(url, fetch, classify) == Some(LinksReply(Absent)) {
      assert AllDetails(url, fetch, classify) == Ok(landing + "\n\n" + "");
    }
    if ClassifierReply(url, fetch, classify) == Some(LinksReply(Entries([]))) {
      assert Sections([], PageReader(fetch)) == Ok("");
      assert UsefulLinks(Entries([])) == "";
      assert AllDetails(url, fetch, classify) == Ok(landing + "" + "\n\n" + "");
    }
  }

  /** With a list of entries, the aggregate succeeds exactly when every entry has both
      keys, and then holds one section per entry in the reply's order. */
  lemma AggregateEntries(landing: string, links: seq<LinkEntry>, read: string -> string)
    ensures Aggregate(landing, Some(LinksReply(Entries(links))), read).Ok?
            <==> forall i :: 0 <= i < |links| ==> Complete(links[i])
    ensures Aggregate(landing, Some(LinksReply(Entries(links))), read).Ok? ==>
      Aggregate(landing, Some(LinksReply(Entries(links))), read).value
        == landing + Sections(links, read).value + "\n\n" + UsefulLinks(Entries(links))
  {
    SectionsOkIff(links, read);
  }

  /** `get_all_details` on a reply that lists entries: it succeeds exactly when every
      entry has both keys, and then holds the landing block, one section per entry in the
      reply's order, a blank line and the links Markdown. */
  lemma AllDetailsEntries(url: string, fetch: string -> FetchOutcome,
                          classify: (string, string) -> Option<LinksReply>, links: seq<LinkEntry>)
    requires ClassifierReply(url, fetch, classify) == Some(LinksReply(Entries(links)))
    ensures AllDetails(url, fetch, classify).Ok? <==> forall i :: 0 <= i < |links| ==> Complete(links[i])
    ensures AllDetails(url, fetch, classify).Ok? ==>
      AllDetails(url, fetch, classify).value
        == LandingSection(url, fetch) + Sections(links, PageReader(fetch)).value + "\n\n" + UsefulLinks(Entries(links))
  {
    AggregateEntries(LandingSection(url, fetch), links, PageReader(fetch));
  }

  // ---------------------------------------------------------------------------------
  // The brochure

  /** What `create_brochure(company_name, url, lang)` returns or raises. */
  function Brochure(companyName: string, url: string, lang: string,
                    fetch: string -> FetchOutcome,
                    classify: (string, string) -> Option<LinksReply>,
                    chat: (string, string) -> string): (r: Result<string, Failure>)
    ensures r.Ok? ==> IsStripped(r.value)
    ensures r.Err? <==> AllDetails(url, fetch, classify).Err?
  {
    match AllDetails(url, fetch, classify)
    case Err(f) => Err(f)
    case Ok(details) =>
      var markdown := StripCodeBlock(chat(SystemPromptBrochure(), BrochureUserPrompt(companyName, url, lang, details)));
      if lang != DefaultLanguage then Ok(TranslateText(markdown, lang, chat)) else Ok(markdown)
  }

  /** `create_brochure(company_name, url, lang)`. */
  method CreateBrochure(companyName: string, url: string, lang: string,
                        fetch: string -> FetchOutcome,
                        classify: (string, string) -> Option<LinksReply>,
                        chat: (string, string) -> string)
    returns (r: Result<string, Failure>)
    ensures r == Brochure(companyName, url, lang, fetch, classify, chat)
  {
    var allDetails := GetAllDetails(url, fetch, classify);
    if allDetails.Err? {
      return Err(allDetails.error);
    }
    var result := chat(SystemPromptBrochure(), BrochureUserPrompt(companyName, url, lang, allDetails.value));
    var markdown := StripCodeBlock(result);
    if lang != "en" {
      markdown := TranslateText(markdown, lang, chat);
    }
    return Ok(markdown);
  }

  /** The reply of the brochure writer for the given aggregate. */
  function BrochureReply(companyName: string, url: string, lang: string, details: string,
                         chat: (string, string) -> string): string
  {
    chat(SystemPromptBrochure(), BrochureUserPrompt(companyName, url, lang, details))
  }

  /** In English the brochure is the writer's reply with a wrapping fence removed: a
      trimmed piece of that reply, with no translation request. */
  lemma BrochureInEnglish(companyName: string, url: string, fetch: string -> FetchOutcome,
                          classify: (string, string) -> Option<LinksReply>,
                          chat: (string, string) -> string)
    requires AllDetails(url, fetch, classify).Ok?
    ensures var details := AllDetails(url, fetch, classify).value;
      var reply := BrochureReply(companyName, url, DefaultLanguage, details, chat);
      Brochure(companyName, url, DefaultLanguage, fetch, classify, chat) == Ok(StripCodeBlock(reply))
      && IsSliceOf(Brochure(companyName, url, DefaultLanguage, fetch, classify, chat).value, reply)
  {
  }

  /** In English only the brochure writer is consulted: two chat models that agree on the
      brochure writer's system prompt give the same brochure, whatever they would
      translate. */
  lemma BrochureInEnglishSkipsTranslation(companyName: string, url: string, fetch: string -> FetchOutcome,
                                          classify: (string, string) -> Option<LinksReply>,
                                          chat: (string, string) -> string,
                                          otherChat: (string, string) -> string)
    requires forall u :: chat(SystemPromptBrochure(), u) == otherChat(SystemPromptBrochure(), u)
    ensures Brochure(companyName, url, DefaultLanguage, fetch, classify, chat)
            == Brochure(companyName, url, DefaultLanguage, fetch, classify, otherChat)
  {
  }

  /** Any other code is translated: the result is the trimmed reply of the translator to
      the fenceless brochure, and a code other than "hi" or "es" asks for English. */
  lemma BrochureTranslated(companyName: string, url: string, lang: string,
                           fetch: string -> FetchOutcome,
                           classify: (string, string) -> Option<LinksReply>,
                           chat: (string, string) -> string)
    requires lang != DefaultLanguage
    requires AllDetails(url, fetch, classify).Ok?
    ensures var details := AllDetails(url, fetch, classify).value;
      var markdown := StripCodeBlock(BrochureReply(companyName, url, lang, details, chat));
      var asked := TranslationPrompt(markdown, LanguageName(lang));
      Brochure(companyName, url, lang, fetch, classify, chat) == Ok(Strip(chat(TranslatorSystemPrompt, asked)))
      && IsSliceOf(Brochure(companyName, url, lang, fetch, classify, chat).value, chat(TranslatorSystemPrompt, asked))
  {
  }

  /** A failed aggregation ends the request before any model is consulted: the error is
      that of `get_all_details` whatever the chat model would say. */
  lemma BrochureFailure(companyName: string, url: string, lang: string,
                        fetch: string -> FetchOutcome,
                        classify: (string, string) -> Option<LinksReply>,
                        chat: (string, string) -> string,
                        otherChat: (string, string) -> string)
    requires AllDetails(url, fetch, classify).Err?
    ensures Brochure(companyName, url, lang, fetch, classify, chat)
            == Brochure(companyName, url, lang, fetch, classify, otherChat)
            == Err(AllDetails(url, fetch, classify).error)
  {
  }
}
