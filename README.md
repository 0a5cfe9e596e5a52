# Brochure pipeline of ai-website-brochure, in Dafny

This project models the deterministic core of the brochure generator in
`backend/summariser.py` and `backend/prompts.py`. The generator scrapes a company's
landing page and asks a language model which of its links matter. It then aggregates
the landing page and the chosen pages into one text and asks the model for a Markdown
brochure. Finally it strips a code fence that wraps the reply and translates the result
when a language other than English is requested.

Modules:

- `Wrappers` (wrappers.dfy): `Option` and `Result`.
- `Text` (text.dfy): Python's string operations as the core uses them.
  - `str.strip()` with Python's whitespace set.
  - `"\n".join`, and `split` on one character.
  - `str.replace` of one character.
  - `str.title()` over ASCII.
- `Prompts` (prompts.py): the system prompts, the classifier's user prompt and the
  brochure prompt with its 5,000-character cut.
- `Scraping`: the `Website` class and `_scrape`, with the parsed page as input.
  - A fetch failure degrades to the placeholder triple.
  - Only anchors with a non-empty href become links.
  - `get_contents()` lays out a page block.
- `Fences`: `strip_code_block`, the anchored regular expression
  ```` ^```(?:\w+\n)?(.*)```$ ```` with DOTALL, on the trimmed reply.
- `LinksMarkdown`: the classifier's `{"links": [...]}` value and `links_to_markdown`.
- `Summariser`:
  - the API-key test;
  - the language map and `translate_text`;
  - `get_links`;
  - `get_all_details`, with its `result +=` loop;
  - `create_brochure`, with its translation gate.

The outside world enters as parameters:

- `fetch(url)` is the outcome of the GET request and the HTML parse.
- `classify(system, user)` is the JSON-mode completion after `json.loads`. It is `None` when the reply is not valid JSON.
- `chat(system, user)` is the text of a plain completion.

`get_all_details` loops over the classified links and appends a section per link, and
`links_to_markdown` loops over the same links and appends one line per link before
joining the lines. Both are methods with loops. Each is proved equal to a
specification function (`AllDetails`, `UsefulLinks`), and the lemmas are stated about
those functions. `Website` is a class whose fields are set once by its constructor.
Everything else is a function.

The model follows the code, which has no degrade-to-empty paths:

- A classifier reply that is not valid JSON raises; there is no degrade-to-empty path.
  A null `"links"` also raises. So does an entry without `"type"` or `"url"`.
  These are the `Err` outcomes of `AllDetails`.
- The scraper drops `script`, `style`, `img` and `input` nodes only.
- The classified URLs are not validated before they are fetched.

## Model

| member | source | states |
|---|---|---|
| Text.IsSpaceIsListed | backend/summariser.py:123 | the whitespace `str.strip()` removes is exactly the code points for which Python's `str.isspace()` holds, listed in two tables |
| Text.Strip | backend/summariser.py:123 | `str.strip()`: the result has no whitespace at either end, is a contiguous piece of the input, and an already trimmed string is unchanged |
| Text.StripRemovesOnlySpaces | backend/summariser.py:126 | trimming removes only whitespace: everything before and after the kept piece is whitespace |
| Text.TitleCaseAt | backend/summariser.py:73 | `str.title()` on ASCII: a letter is upper-cased when the previous character is not a letter and lower-cased otherwise, and other characters are kept |
| Fences.TagLength | backend/summariser.py:122 | the optional group `(?:\w+\n)?` consumes one or more word characters and a newline, and nothing else |
| Fences.FenceBody | backend/summariser.py:122-123 | the regex matches exactly when the trimmed reply has at least six characters and starts and ends with a triple backtick; the body lies between the tag and the closing fence |
| Fences.StripCodeBlock | backend/summariser.py:120-126 | the result is always a contiguous piece of the input, so never longer, and never has whitespace at either end |
| Fences.StripCodeBlockUnfenced | backend/summariser.py:122-126 | a reply that does not both start and end with a fence, or is shorter than six characters, comes back trimmed and otherwise unchanged, so a fence in mid-document is kept |
| Fences.StripCodeBlockTagged | backend/summariser.py:122-125 | fence + word-character tag + newline + body + fence gives the trimmed body |
| Fences.StripCodeBlockUntagged | backend/summariser.py:122-125 | fence + body + fence gives the trimmed body, when the body does not itself open with a word run and a newline |
| Fences.StripCodeBlockTagOnly | backend/summariser.py:122-125 | a tag line followed directly by the closing fence gives the empty string, because the tag is always consumed |
| Fences.StripCodeBlockMarkdownExample | backend/summariser.py:120-125 | a reply fenced with the `markdown` tag loses its tag line and its final newline |
| Fences.StripCodeBlockPlainExamples | backend/summariser.py:122-126 | plain text is only trimmed, and a fence inside a document is left alone |
| LinksMarkdown.LinksToMarkdown | backend/summariser.py:67-76 | the method's accumulate-then-join loop returns exactly the reference rendering `UsefulLinks` |
| LinksMarkdown.LinkListIsJoin | backend/summariser.py:71-76 | joining the header and one item per link with newlines equals the header followed by a newline and an item for each link |
| LinksMarkdown.UsefulLinksEmptyIff | backend/summariser.py:69-70 | the rendering is empty exactly when "links" is missing, null or an empty list |
| LinksMarkdown.UsefulLinksLines | backend/summariser.py:71-76 | split on newlines, the rendering is "## Useful Links", a blank line, then one `- [Name](url)` item per link in input order, when no field holds a newline |
| LinksMarkdown.LinkLineDefaults | backend/summariser.py:73-75 | a link with no type and no url renders as `- [Link]()` |
| LinksMarkdown.DisplayNameExample | backend/summariser.py:73 | underscores become spaces and each word is capitalised: `about_us` is shown as `About Us` |
| Scraping.HrefLinks | backend/summariser.py:59 | there are no more links than anchors, and every link is non-empty |
| Scraping.HrefLinksAppend | backend/summariser.py:59 | filtering distributes over concatenation, so document order is kept |
| Scraping.HrefLinksMembers | backend/summariser.py:59 | a string is a link exactly when it is non-empty and some anchor carries it as its href |
| Scraping.HrefLinksAllPresent | backend/summariser.py:59 | when every anchor has a non-empty href, the links are the hrefs one for one |
| Scraping.ScrapeAsWritten | backend/summariser.py:43-60 | `_scrape` as written raises exactly when the page was fetched and its title element has no string |
| Scraping.ScrapeAsWrittenRaisesOnEmptyTitle | backend/summariser.py:52 | a fetched page with a body and an empty title element makes `_scrape` raise |
| Scraping.Scrape | backend/summariser.py:43-60 | a failed fetch gives ("No title found", "", []). Otherwise the links are the filtered hrefs and the text is the body text or "". A readable title is the title string trimmed, and the title is the placeholder when there is no readable title |
| Scraping.ScrapeAgreesWhereCodeReturns | backend/summariser.py:52 | the corrected scrape equals the code's result wherever the code returns, and maps an unreadable title to the placeholder |
| Scraping.PageContentsRoundTrip | backend/summariser.py:62-63 | the `get_contents()` block reads back as the page's title and text when the title is one line |
| Scraping.Website.constructor | backend/summariser.py:39-41 | the object keeps its url, and its title, text and links are the scrape of the fetch outcome |
| Prompts.LinksUserPromptListsLinks | backend/prompts.py:23-31 | after the fixed head, the classifier prompt splits on newlines into exactly the page's links, verbatim and in order |
| Prompts.LinksUserPromptNoLinks | backend/prompts.py:24-30 | with no links the prompt is the fixed head, ending in "Links (may be relative):\n" |
| Prompts.BrochureUserPrompt | backend/prompts.py:33-40 | the prompt has at most 5,000 characters and is a prefix of the untruncated prompt. It equals that prompt when it fits, and otherwise has exactly 5,000 characters |
| Prompts.BrochurePromptTruncatesDetailsOnly | backend/prompts.py:34-40 | when the preamble fits, the prompt is the whole preamble followed by as much of the page contents as fits |
| Prompts.BrochurePreambleLayout | backend/prompts.py:34-37 | the preamble opens with the company line and ends with the language line |
| Prompts.BrochurePromptEndsWithDetails | backend/prompts.py:34-40 | whenever the whole prompt fits, it ends with the page contents |
| Summariser.ApiKeyLooksValidIff | backend/summariser.py:21-22 | a key passes exactly when it starts with "sk-" and has at least eleven characters; an unset key fails |
| Summariser.LanguageName | backend/summariser.py:129-134 | "hi" resolves to Hindi and "es" to Spanish, each exactly, and every other code to English |
| Summariser.TranslationPromptLayout | backend/summariser.py:134-138 | the translation request names the resolved language and then carries the text verbatim; an unknown code asks for English |
| Summariser.TranslateText | backend/summariser.py:128-148 | the translation is trimmed and is a piece of the translator's reply to the translation request |
| Summariser.GetLinks | backend/summariser.py:78-89 | the classifier receives the links system prompt and the user prompt built from the scraped links of the page |
| Summariser.SectionOfPage | backend/summariser.py:98-99 | a complete link's section is its header line followed by the page block of its url |
| Summariser.SectionsExtend | backend/summariser.py:97-99 | one more link either appends its section or fails with its missing key |
| Summariser.SectionsStopAtFailure | backend/summariser.py:97-99 | once a prefix of the links fails, the whole list fails with the same error |
| Summariser.SectionsAppend | backend/summariser.py:97-99 | the sections of two lists joined are those of the first followed by those of the second |
| Summariser.SectionsSingle | backend/summariser.py:98-99 | one complete link contributes exactly its own section |
| Summariser.SectionsOkIff | backend/summariser.py:97-99 | the loop completes exactly when every entry has both "type" and "url" |
| Summariser.SectionsFirstFailure | backend/summariser.py:97-99 | the loop fails with the missing key of the first incomplete entry |
| Summariser.GetAllDetails | backend/summariser.py:91-101 | the `result +=` loop returns or raises exactly what `AllDetails` specifies |
| Summariser.AggregateFrame | backend/summariser.py:93-100 | once the reply is known, a successful aggregate starts with the landing block and ends with "\n\n" and the links Markdown of the reply |
| Summariser.AllDetailsFrame | backend/summariser.py:93-101 | the aggregate starts with "Landing page:\n" and the landing page block, and ends with "\n\n" and the links Markdown |
| Summariser.AllDetailsOutcomes | backend/summariser.py:89-100 | malformed JSON raises, and so does a null "links". A missing or empty "links" gives the landing block, "\n\n" and no sections |
| Summariser.AggregateEntries | backend/summariser.py:96-100 | with entries, the aggregate succeeds exactly when all are complete, and is landing + sections + "\n\n" + Markdown |
| Summariser.AllDetailsEntries | backend/summariser.py:96-101 | `get_all_details` on a list of entries succeeds exactly when every entry is complete, and then holds one section per entry in order |
| Summariser.Brochure | backend/summariser.py:103-118 | a brochure is always trimmed, and fails exactly when the aggregation fails |
| Summariser.CreateBrochure | backend/summariser.py:103-118 | the method returns or raises exactly what `Brochure` specifies |
| Summariser.BrochureInEnglish | backend/summariser.py:113-118 | for "en" the result is exactly `strip_code_block` of the brochure reply, a piece of that reply |
| Summariser.BrochureInEnglishSkipsTranslation | backend/summariser.py:116-117 | for "en" no translation is requested: chat models that agree on the brochure writer's prompt give the same result |
| Summariser.BrochureTranslated | backend/summariser.py:114-117 | for any other code the result is the trimmed translator reply for the fenceless brochure, in the resolved language |
| Summariser.BrochureFailure | backend/summariser.py:105 | when the aggregation fails, the error propagates and no completion is consulted |

## Findings

| source | as written | input that shows it | evidently intended | confidence | as-written member | corrected member |
|---|---|---|---|---|---|---|
| backend/summariser.py:52 | `soup.title.string.strip()` is guarded only by `soup.title`; `.string` is None when the title element has no single string child, and the call raises outside the try block, so the whole brochure request fails | a fetched page with `<title></title>` and any body | an unreadable title falls back to "No title found", as a missing one does | high (not executed) | Scraping.ScrapeAsWritten, Scraping.ScrapeAsWrittenRaisesOnEmptyTitle | Scraping.Scrape, Scraping.ScrapeAgreesWhereCodeReturns |

The rest of the model (the `Website` constructor and `get_all_details`) uses the corrected scrape.

## Left out

- The three OpenAI completions (backend/summariser.py:80-87, 106-112, 139-147) are parameters.
  - Their model name, `max_tokens=1200` and `temperature=0.2` are not modelled.
  - The same messages are assumed to give the same reply.
  - An API error, which propagates, is not modelled.
- HTTP and HTML parsing (backend/summariser.py:45-56) are replaced by the parsed page they produce.
  - That parsed page is the title element, the body text and the anchors' hrefs.
  - The request headers, the timeout, node decomposition and `get_text` are not modelled.
- Scraping.Website.constructor: a fetched page whose <title> has no string raises AttributeError in the source (backend/summariser.py:41, 52). The constructor uses the corrected `Scrape` and gives that page the placeholder title instead (see Findings).
- Summariser.GetAllDetails: the raise above propagates through backend/summariser.py:79, 94 and 99, and so through `create_brochure`. `GetAllDetails`, `AllDetails`, `GetLinks`, `CreateBrochure` and `Brochure` return the placeholder-titled result instead; there is no `Failure` case for it.
- `get_all_details` fetches the landing page twice, once directly and once in `get_links`. `fetch` gives the same outcome both times.
- `Fences.IsWordChar`: `\w` is modelled over ASCII letters, digits and `_`. Python also counts non-ASCII letters and digits.
- `Text.TitleCase`: `str.title()` is modelled over ASCII letters only. Python also cases non-ASCII letters.
- JSON values of unexpected types are not modelled. This covers a "links" value that is a string or number, a "type" or "url" that is not a string, and a "type" that is null in `links_to_markdown`. They raise or misrender in the source.
- Logging with `print` is not modelled.
- `Prompts.SystemPromptLinks` and `Prompts.SystemPromptBrochure` carry no contract. Having no parameters, they are constants by construction. Their text appears only in their bodies.
- The exclusion of Terms, Privacy and email links is an instruction to the model (backend/prompts.py:27). It is not a property of the code, so no invariant states it.
- Module-level environment loading is not modelled. Only the key predicate is (backend/summariser.py:18-24).
- `WebsiteSummariser`, its chunking and its summarisation pass are not part of this model. Nor are backend/server.py, backend/models.py, backend/pdf_utils.py and the frontend.
