/**
 * The `SEOSuggestion` record and the fixed template the generator fills in:
 * only the title (from the input text) and the single improvement (the
 * language model's raw reply) vary; description and keywords are constants.
 */
module Suggestions {

  datatype Suggestion = Suggestion(
    title: string,
    description: string,
    keywords: seq<string>,
    improvements: seq<string>)

  const TITLE_PREFIX: string := "Optimized "
  const DESCRIPTION: string := "SEO-optimized version of your content"
  const KEYWORDS: seq<string> := ["viral", "content", "optimization"]

  /** The object literal built from the input text and the language
      model's reply. It loses nothing: the suggestion has the template's
      shape, and the input text and the reply can be read back from it. */
  function MakeSuggestion(content: string, response: string): (s: Suggestion)
    ensures IsTemplated(s)
    ensures ContentOf(s) == content && ResponseOf(s) == response
  {
    var s := Suggestion(TITLE_PREFIX + content, DESCRIPTION, KEYWORDS, [response]);
    assert s.title[..|TITLE_PREFIX|] == TITLE_PREFIX;
    assert s.title[|TITLE_PREFIX|..] == content;
    s
  }

  /** A suggestion of the template's shape: prefixed title, the fixed
      description and keywords, exactly one improvement. */
  predicate IsTemplated(s: Suggestion) {
    && |TITLE_PREFIX| <= |s.title|
    && s.title[..|TITLE_PREFIX|] == TITLE_PREFIX
    && s.description == DESCRIPTION
    && s.keywords == KEYWORDS
    && |s.improvements| == 1
  }

  /** The input text a templated suggestion was made for. */
  function ContentOf(s: Suggestion): (content: string)
    requires IsTemplated(s)
    ensures s.title == TITLE_PREFIX + content
  {
    s.title[|TITLE_PREFIX|..]
  }

  /** The language model's reply a templated suggestion carries. */
  function ResponseOf(s: Suggestion): (response: string)
    requires IsTemplated(s)
    ensures s.improvements == [response]
  {
    s.improvements[0]
  }

  /** Conversely, every templated suggestion is the template filled in with
      its own input text and reply. */
  lemma TemplatedIsMade(s: Suggestion)
    requires IsTemplated(s)
    ensures MakeSuggestion(ContentOf(s), ResponseOf(s)) == s
  {
  }
}
