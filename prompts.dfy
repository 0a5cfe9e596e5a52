/** The prompt texts sent to the language model (backend/prompts.py). */
module Prompts {
  import opened Text

  /** The brochure prompt is cut to this many characters before it is sent. */
  const MaxPromptChars: nat := 5000

  /** `system_prompt_links()`: the classifier's instruction, which shows the model the
      JSON shape `{"links": [{"type": ..., "url": ...}]}` that the pipeline reads back. */
  function SystemPromptLinks(): string {
    LinksTaskText + LinksReplyShape
  }

  const LinksTaskText: string :=
    "You are provided with a list of links found on a webpage. "
    + "Decide which are most relevant for a company brochure: About, Company, Careers/Jobs, etc.\n"

  const LinksReplyShape: string :=
    "Respond in JSON like:\n"
    + "{\n"
    + "  \"links\": [\n"
    + "    {\"type\": \"about page\", \"url\": \"https://example.com/about\"},\n"
    + "    {\"type\": \"careers page\", \"url\": \"https://example.com/careers\"}\n"
    + "  ]\n"
    + "}"

  /** `system_prompt_brochure()`: the brochure writer's instruction, asking for Markdown. */
  function SystemPromptBrochure(): string {
    BrochureSystemText
  }

  const BrochureSystemText: string :=
    "You are an assistant that analyzes the contents of relevant pages from a company website "
    + "and creates a short brochure in Markdown for prospective customers, investors, and recruits. "
    + "Include details of company culture, customers, and careers/jobs if available."

  /** The fixed text that precedes the list of links in the classifier's user message. */
  function LinksPromptHead(url: string): string {
    "Here is the list of links on the website of " + url + " - " + LinksInstruction + LinksListLabel
  }

  const LinksInstruction: string :=
    "Please decide which are relevant for a company brochure. "
    + "Respond in JSON with full https URLs. Exclude Terms, Privacy, or email links.\n"

  const LinksListLabel: string := "Links (may be relative):\n"

  /** `get_links_user_prompt(website)`, given the page's URL and its raw links. */
  function LinksUserPrompt(url: string, links: seq<string>): string {
    LinksPromptHead(url) + Join(links, "\n")
  }

  /** The links follow the fixed head verbatim, in page order, one per line: splitting
      what follows the head on newlines gives back exactly the page's links, with no
      filtering, resolution or reordering. */
  lemma LinksUserPromptListsLinks(url: string, links: seq<string>)
    requires |links| >= 1
    requires forall i :: 0 <= i < |links| ==> '\n' !in links[i]
    ensures var r, head := LinksUserPrompt(url, links), LinksPromptHead(url);
      StartsWith(r, head) && Split(r[|head|..], '\n') == links
  {
    var r, head := LinksUserPrompt(url, links), LinksPromptHead(url);
    assert r[|head|..] == Join(links, "\n");
    assert r[..|head|] == head;
    SplitJoin(links, '\n');
  }

  /** A page without links yields the fixed head alone, ending in the "Links" line. */
  lemma LinksUserPromptNoLinks(url: string)
    ensures LinksUserPrompt(url, []) == LinksPromptHead(url)
    ensures EndsWith(LinksUserPrompt(url, []), LinksListLabel)
  {
    var r := LinksUserPrompt(url, []);
    assert r == LinksPromptHead(url) + "";
  }

  /** What the brochure prompt says before the aggregated page contents. */
  function BrochurePreamble(companyName: string, lang: string): string {
    "You are looking at a company called: " + companyName + "\n"
    + BrochureInstructionLine
    + "Write the brochure in " + lang + ".\n"
  }

  const BrochureInstructionLine: string :=
    "Here are the contents of its landing page and other relevant pages; use this information to build a short brochure of the company in markdown.\n"

  /** The brochure prompt before truncation: the preamble, then the page contents. */
  function UntruncatedBrochurePrompt(companyName: string, lang: string, allDetails: string): string {
    BrochurePreamble(companyName, lang) + allDetails
  }

  /** `get_brochure_user_prompt(company_name, url, lang, all_details)`: the prompt cut by
      a prefix slice to at most `MaxPromptChars` characters. The URL is not used. */
  function BrochureUserPrompt(companyName: string, url: string, lang: string, allDetails: string): (r: string)
    ensures |r| <= MaxPromptChars
    ensures var full := UntruncatedBrochurePrompt(companyName, lang, allDetails);
      StartsWith(full, r)
      && (|full| <= MaxPromptChars ==> r == full)
      && (|full| > MaxPromptChars ==> |r| == MaxPromptChars)
  {
    var full := UntruncatedBrochurePrompt(companyName, lang, allDetails);
    if |full| <= MaxPromptChars then full else full[..MaxPromptChars]
  }

  /** When the preamble fits, truncation falls on the page contents only: the prompt is
      the whole preamble (company name first, then the language line) followed by as much
      of the contents as fits; when everything fits it ends with all of them. */
  lemma BrochurePromptTruncatesDetailsOnly(companyName: string, url: string, lang: string, allDetails: string)
    requires |BrochurePreamble(companyName, lang)| <= MaxPromptChars
    ensures var pre := BrochurePreamble(companyName, lang);
      var keep := MaxPromptChars - |pre|;
      BrochureUserPrompt(companyName, url, lang, allDetails)
        == pre + (if |allDetails| <= keep then allDetails else allDetails[..keep])
  {
    var pre := BrochurePreamble(companyName, lang);
    var full := UntruncatedBrochurePrompt(companyName, lang, allDetails);
    var keep := MaxPromptChars - |pre|;
    if |allDetails| > keep {
      assert full[..MaxPromptChars] == pre + allDetails[..keep];
    }
  }

  /** The preamble opens with the company line and closes with the language line, so the
      language instruction always comes before the page contents. */
  lemma BrochurePreambleLayout(companyName: string, lang: string)
    ensures StartsWith(BrochurePreamble(companyName, lang),
                       "You are looking at a company called: " + companyName + "\n")
    ensures EndsWith(BrochurePreamble(companyName, lang), "Write the brochure in " + lang + ".\n")
  {
    var head := "You are looking at a company called: " + companyName + "\n";
    var pre := BrochurePreamble(companyName, lang);
    assert pre[..|head|] == head;
  }

  /** Whenever the whole prompt fits, the page contents are its final characters. */
  lemma BrochurePromptEndsWithDetails(companyName: string, url: string, lang: string, allDetails: string)
    requires |UntruncatedBrochurePrompt(companyName, lang, allDetails)| <= MaxPromptChars
    ensures EndsWith(BrochureUserPrompt(companyName, url, lang, allDetails), allDetails)
  {
    var r := BrochureUserPrompt(companyName, url, lang, allDetails);
    assert r == BrochurePreamble(companyName, lang) + allDetails;
  }
}
