/** The classifier's reply `{"links": [{"type": ..., "url": ...}]}` and `links_to_markdown`,
    which renders it as a "## Useful Links" Markdown list. */
module LinksMarkdown {
  import opened Text
  import opened Wrappers

  /** One element of the "links" array; a field is None when its key is absent. */
  datatype LinkEntry = LinkEntry(kind: Option<string>, url: Option<string>)

  /** The value stored under "links": missing, JSON null, or an array of entries. */
  datatype LinksField = Absent | Null | Entries(entries: seq<LinkEntry>)

  /** Python truthiness of `links_json.get("links")`: a non-empty array. */
  predicate HasLinks(field: LinksField) {
    field.Entries? && |field.entries| > 0
  }

  const Header: string := "## Useful Links\n"

  /** `link.get("type", "Link").replace("_", " ").title()` */
  function DisplayName(link: LinkEntry): string {
    TitleCase(ReplaceChar(link.kind.GetOr("Link"), '_', ' '))
  }

  /** The list item `- [Name](url)`, the url defaulting to the empty string. */
  function LinkLine(link: LinkEntry): string {
    "- [" + DisplayName(link) + "](" + link.url.GetOr("") + ")"
  }

  function LinkLines(links: seq<LinkEntry>): (lines: seq<string>)
    ensures |lines| == |links|
    ensures forall i :: 0 <= i < |links| ==> lines[i] == LinkLine(links[i])
  {
    seq(|links|, i requires 0 <= i < |links| => LinkLine(links[i]))
  }

  /** Reference rendering: each link contributes a newline and its list item. */
  function LinkList(links: seq<LinkEntry>): string {
    if links == [] then "" else "\n" + LinkLine(links[0]) + LinkList(links[1..])
  }

  /** What `links_to_markdown` returns: nothing without links, otherwise the header
      (which ends in a newline) followed by the list. */
  function UsefulLinks(field: LinksField): string {
    if HasLinks(field) then Header + LinkList(field.entries) else ""
  }

  /** `links_to_markdown(links_json)`: collects the header and one item per link in a
      list, then joins the list with newlines. */
  method LinksToMarkdown(linksJson: LinksField) returns (md: string)
    ensures md == UsefulLinks(linksJson)
  {
    if !HasLinks(linksJson) {
      return "";
    }
    var links := linksJson.entries;
    var lines := [Header];
    for i := 0 to |links|
      invariant lines == [Header] + LinkLines(links[..i])
    {
      lines := lines + [LinkLine(links[i])];
    }
    assert links[..|links|] == links;
    LinkListIsJoin(Header, links);
    md := Join(lines, "\n");
  }

  /** Joining a first line and the link items with newlines is the reference rendering. */
  lemma {:induction false} LinkListIsJoin(first: string, links: seq<LinkEntry>)
    ensures Join([first] + LinkLines(links), "\n") == first + LinkList(links)
    decreases |links|
  {
    if links == [] {
      assert [first] + LinkLines(links) == [first];
    } else {
      var rest := LinkLines(links[1..]);
      assert LinkLines(links) == [LinkLine(links[0])] + rest;
      assert ([first] + LinkLines(links))[1..] == [LinkLine(links[0])] + rest;
      LinkListIsJoin(LinkLine(links[0]), links[1..]);
    }
  }

  /** The rendering is empty exactly when there are no links. */
  lemma UsefulLinksEmptyIff(field: LinksField)
    ensures UsefulLinks(field) == "" <==> !HasLinks(field)
  {
    if HasLinks(field) {
      assert |UsefulLinks(field)| >= |Header|;
    }
  }

  /** Read line by line, the rendering is the title line, a blank line, then one item per
      link in input order, provided no type or url contains a newline. */
  lemma UsefulLinksLines(field: LinksField)
    requires HasLinks(field)
    requires forall i :: 0 <= i < |field.entries| ==> NoNewline(field.entries[i])
    ensures Split(UsefulLinks(field), '\n') == ["## Useful Links", ""] + LinkLines(field.entries)
  {
    var links := field.entries;
    var parts := ["## Useful Links", ""] + LinkLines(links);
    LinkListIsJoin("", links);
    assert parts[1..] == [""] + LinkLines(links);
    assert Join(parts, "\n") == "## Useful Links" + "\n" + ("" + LinkList(links));
    assert UsefulLinks(field) == Join(parts, "\n");
    forall i | 0 <= i < |parts|
      ensures '\n' !in parts[i]
    {
      if i >= 2 {
        LinkLineSingleLine(links[i - 2]);
      }
    }
    SplitJoin(parts, '\n');
  }

  predicate NoNewline(link: LinkEntry) {
    (link.kind.Some? ==> '\n' !in link.kind.value) && (link.url.Some? ==> '\n' !in link.url.value)
  }

  lemma LinkLineSingleLine(link: LinkEntry)
    requires NoNewline(link)
    ensures '\n' !in LinkLine(link)
  {
    var raw := link.kind.GetOr("Link");
    var spaced := ReplaceChar(raw, '_', ' ');
    forall i | 0 <= i < |spaced|
      ensures spaced[i] != '\n'
    {
      assert raw[i] in raw;
    }
    TitleCaseKeepsNonLetter(spaced, '\n');
  }

  /** A link without a "type" is shown as "Link" and one without a "url" gets an empty target. */
  lemma LinkLineDefaults()
    ensures LinkLine(LinkEntry(None, None)) == "- [Link]()"
  {
    assert ReplaceChar("Link", '_', ' ') == "Link";
    forall i | 0 <= i < 4
      ensures TitleCase("Link")[i] == "Link"[i]
    {
      TitleCaseAt("Link", i);
    }
    assert TitleCase("Link") == "Link";
  }

  /** Underscores become spaces and each word is capitalised. */
  lemma DisplayNameExample()
    ensures DisplayName(LinkEntry(Some("about_us"), None)) == "About Us"
  {
    UnderscoreExample();
    TitleExample();
  }

  lemma UnderscoreExample()
    ensures ReplaceChar("about_us", '_', ' ') == "about us"
  {
  }

  lemma TitleExample()
    ensures TitleCase("about us") == "About Us"
  {
    var s := "about us";
    forall i | 0 <= i < |s|
      ensures TitleCase(s)[i] == "About Us"[i]
    {
      TitleCaseAt(s, i);
      if i == 0 || i == 6 {
        assert i == 0 || s[i - 1] == ' ';
      } else {
        assert IsCasedAscii(s[i - 1]);
      }
    }
  }
}
