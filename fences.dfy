/** `strip_code_block`: removing one Markdown code fence that wraps a whole model reply.
    The source matches the trimmed reply against the regular expression
    ^```(?:\w+\n)?(.*)``` followed by end of text, with `.` also matching newlines, and
    returns group 1 trimmed when it matches, the trimmed reply otherwise. */
module Fences {
  import opened Text
  import opened Wrappers

  const Fence: string := "```"

  /** Python's `\w` in the ASCII range: letters, digits and the underscore. */
  predicate IsWordChar(c: char) {
    ('a' <= c && c <= 'z') || ('A' <= c && c <= 'Z') || ('0' <= c && c <= '9') || c == '_'
  }

  /** Length of the longest run of word characters at the start of `s` (what greedy `\w*`
      consumes). */
  function WordRun(s: string): (n: nat)
    ensures n <= |s|
    ensures forall k :: 0 <= k < n ==> IsWordChar(s[k])
    ensures n < |s| ==> !IsWordChar(s[n])
  {
    if |s| > 0 && IsWordChar(s[0]) then 1 + WordRun(s[1..]) else 0
  }

  /** What the optional group `(?:\w+\n)?` consumes at the start of `s`: the whole word run
      and its newline when the run is non-empty and a newline follows it, otherwise nothing.
      A shorter run cannot do better, since a word character, not a newline, would follow it. */
  function TagLength(s: string): (n: nat)
    ensures n <= |s|
    ensures n != 1
    ensures n > 0 ==> s[n - 1] == '\n' && forall k :: 0 <= k < n - 1 ==> IsWordChar(s[k])
  {
    var k := WordRun(s);
    if 0 < k < |s| && s[k] == '\n' then k + 1 else 0
  }

  /** The text opens with a language tag: one or more word characters and then a newline. */
  predicate OpensWithTag(s: string) {
    exists k :: 0 < k < |s| && s[k] == '\n' && AllWordChars(s[..k])
  }

  predicate AllWordChars(s: string) {
    forall k :: 0 <= k < |s| ==> IsWordChar(s[k])
  }

  /** Start and end of the fenced body inside the trimmed reply. */
  datatype Span = Span(lo: nat, hi: nat)

  /** Where group 1 of the fence regex lies in `t`, or `None` when the regex fails: `t`
      must start and end with a fence that do not overlap (at least six characters); the
      body begins after the opening fence and, when present, the language tag, and ends
      where the closing fence begins. */
  function FenceBody(t: string): (m: Option<Span>)
    ensures m.Some? ==> 3 <= m.value.lo <= m.value.hi == |t| - 3
    ensures m.Some? <==> |t| >= 6 && StartsWith(t, Fence) && EndsWith(t, Fence)
  {
    if |t| >= 6 && StartsWith(t, Fence) && EndsWith(t, Fence) then
      var n := TagLength(t[3..]);
      assert n > 0 ==> t[3 + n - 1] == '\n';
      assert forall k :: |t| - 3 <= k < |t| ==> t[k] == '`' by {
        assert t[|t| - 3..] == Fence;
      }
      Some(Span(3 + n, |t| - 3))
    else None
  }

  /** Python's `strip_code_block(text)`. The result is one contiguous piece of the reply,
      with no whitespace at either end. */
  function StripCodeBlock(text: string): (r: string)
    ensures IsSliceOf(r, text)
    ensures IsStripped(r)
  {
    var t := Strip(text);
    match FenceBody(t)
    case Some(span) =>
      StrippedBodyIsSlice(text, t, span);
      Strip(t[span.lo..span.hi])
    case None => t
  }

  lemma StrippedBodyIsSlice(text: string, t: string, span: Span)
    requires IsSliceOf(t, text)
    requires span.lo <= span.hi <= |t|
    ensures IsSliceOf(Strip(t[span.lo..span.hi]), text)
  {
    var body := t[span.lo..span.hi];
    assert IsSliceAt(body, t, span.lo);
    SliceTransitive(Strip(body), body, t);
    SliceTransitive(Strip(body), t, text);
  }

  /** A reply that does not both begin and end with a fence, or is too short to hold two,
      comes back trimmed and otherwise unchanged; in particular a fence in the middle of a
      document is never touched. */
  lemma StripCodeBlockUnfenced(text: string)
    requires var t := Strip(text);
      !(StartsWith(t, Fence) && EndsWith(t, Fence)) || |t| < 6
    ensures StripCodeBlock(text) == Strip(text)
  {
  }

  /** A reply that is a fence, a language tag, a newline, a body and a closing fence comes
      back as the trimmed body. */
  lemma StripCodeBlockTagged(text: string, tag: string, body: string)
    requires |tag| > 0 && AllWordChars(tag)
    requires Strip(text) == Fence + tag + "\n" + body + Fence
    ensures StripCodeBlock(text) == Strip(body)
  {
    var t := Strip(text);
    FenceBodyTagged(tag, body);
    assert t[|tag| + 4..|t| - 3] == body;
  }

  lemma FenceBodyTagged(tag: string, body: string)
    requires |tag| > 0 && AllWordChars(tag)
    ensures var t := Fence + tag + "\n" + body + Fence;
      FenceBody(t) == Some(Span(|tag| + 4, |t| - 3))
  {
    var t := Fence + tag + "\n" + body + Fence;
    var rest := "\n" + body + Fence;
    assert t[3..] == tag + rest;
    WordRunOfTag(tag, rest);
    assert t[3..][|tag|] == '\n';
  }

  /** A word run stops at the first character that is not a word character. */
  lemma {:induction false} WordRunOfTag(tag: string, rest: string)
    requires AllWordChars(tag)
    requires rest != [] && !IsWordChar(rest[0])
    ensures WordRun(tag + rest) == |tag|
  {
    if tag != [] {
      assert (tag + rest)[1..] == tag[1..] + rest;
      WordRunOfTag(tag[1..], rest);
    } else {
      assert tag + rest == rest;
    }
  }

  /** A fenced reply without a language tag comes back as the trimmed body, provided the
      body does not itself open with what looks like a tag: the regex always takes a
      leading word run followed by a newline to be the tag. */
  lemma StripCodeBlockUntagged(text: string, body: string)
    requires !OpensWithTag(body)
    requires Strip(text) == Fence + body + Fence
    ensures StripCodeBlock(text) == Strip(body)
  {
    var t := Strip(text);
    FenceBodyUntagged(body);
    assert t[3..|t| - 3] == body;
  }

  lemma FenceBodyUntagged(body: string)
    requires !OpensWithTag(body)
    ensures var t := Fence + body + Fence;
      FenceBody(t) == Some(Span(3, |t| - 3))
  {
    var t := Fence + body + Fence;
    assert t[3..] == body + Fence;
    TagBeforeFence(body);
  }

  /** Appending the closing fence cannot create a language tag. */
  lemma TagBeforeFence(body: string)
    ensures TagLength(body + Fence) > 0 ==> OpensWithTag(body)
  {
    var s := body + Fence;
    if TagLength(s) > 0 {
      var k := TagLength(s) - 1;
      assert s[k] == '\n';
      assert k < |body| by {
        assert forall j :: |body| <= j < |s| ==> s[j] == '`';
      }
      assert AllWordChars(body[..k]) by {
        assert forall j :: 0 <= j < k ==> body[..k][j] == s[j];
      }
      assert body[k] == '\n';
    }
  }

  /** The tag run is consumed even when that leaves the body empty. */
  lemma StripCodeBlockTagOnly()
    ensures StripCodeBlock("```python\n```") == ""
  {
    var t := "```python\n```";
    assert IsStripped(t);
    assert t == Fence + "python" + "\n" + "" + Fence;
    StripCodeBlockTagged(t, "python", "");
  }

  /** A Markdown reply wrapped in a fence tagged "markdown", the case the docstring of
      `strip_code_block` names: the tag line and the final newline go. */
  lemma StripCodeBlockMarkdownExample()
    ensures StripCodeBlock("```markdown\n# Hi\n```") == "# Hi"
  {
    var t := "```markdown\n# Hi\n```";
    assert IsStripped(t);
    assert t == Fence + "markdown" + "\n" + "# Hi\n" + Fence;
    StripCodeBlockTagged(t, "markdown", "# Hi\n");
    StripExampleBody();
  }

  lemma StripExampleBody()
    ensures Strip("# Hi\n") == "# Hi"
  {
    var b := "# Hi\n";
    NewlineIsSpace();
    assert TrimStart(b) == b;
    assert TrimEnd(b) == b[..|b| - 1];
  }

  /** Plain text is only trimmed, and a fence inside a document is left in place. */
  lemma StripCodeBlockPlainExamples()
    ensures StripCodeBlock("plain text\n") == "plain text"
    ensures StripCodeBlock("Intro\n```js\nx```\nOutro") == "Intro\n```js\nx```\nOutro"
  {
    var p := "plain text\n";
    NewlineIsSpace();
    assert TrimStart(p) == p;
    assert TrimEnd(p) == p[..|p| - 1];
    assert p[..|p| - 1] == "plain text";
    StripCodeBlockUnfenced(p);
    var u := "Intro\n```js\nx```\nOutro";
    assert IsStripped(u);
    assert u[..3] != Fence;
    StripCodeBlockUnfenced(u);
  }
}
