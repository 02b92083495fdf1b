/**
 * The dataset preparation script: document text is cleaned of HTML tags and
 * redundant whitespace and embedded in an instruction prompt with a fixed
 * placeholder answer. The source documents are a parameter (the script reads
 * them from a directory and writes JSON lines).
 */
module Dataset {
  import opened Wrappers
  import opened Text

  /** `TAG_RE.sub(" ", text)` with `TAG_RE = <[^>]+>`. Scanning left to right, a
      '<' followed by at least one character and then a '>', with no '>' in
      between, is a tag and becomes one space; any other character is kept. */
  function StripTags(s: string): (r: string)
    ensures |r| <= |s|
    decreases |s|
  {
    if s == [] then []
    else if s[0] == '<' then
      match IndexOf(s[1..], '>')
      case Some(j) => if j > 0 then " " + StripTags(s[j + 2..]) else [s[0]] + StripTags(s[1..])
      case None => [s[0]] + StripTags(s[1..])
    else [s[0]] + StripTags(s[1..])
  }

  /** Text without any '>' holds no tag and is left unchanged. */
  lemma {:induction false} NoCloseUnchanged(s: string)
    requires '>' !in s
    ensures StripTags(s) == s
  {
    if s != [] {
      assert '>' !in s[1..];
      NoCloseUnchanged(s[1..]);
    }
  }

  /** No tag is left: every '<' of the output is followed directly by '>' or by
      no '>' at all. */
  ghost predicate TagFree(r: string)
  {
    forall i :: 0 <= i < |r| && r[i] == '<' ==> (i + 1 < |r| && r[i + 1] == '>') || '>' !in r[i + 1..]
  }

  lemma TagFreeCons(c: char, r: string)
    requires TagFree(r)
    requires c == '<' ==> (r != [] && r[0] == '>') || '>' !in r
    ensures TagFree([c] + r)
  {
    var t := [c] + r;
    forall i | 0 < i < |t| && t[i] == '<'
      ensures (i + 1 < |t| && t[i + 1] == '>') || '>' !in t[i + 1..]
    {
      assert t[i + 1..] == r[i..];
    }
    assert t[1..] == r;
  }

  lemma {:induction false} StripTagsTagFree(s: string)
    ensures TagFree(StripTags(s))
    decreases |s|
  {
    if s != [] {
      if s[0] == '<' && IndexOf(s[1..], '>').Some? && IndexOf(s[1..], '>').value > 0 {
        var j := IndexOf(s[1..], '>').value;
        StripTagsTagFree(s[j + 2..]);
        TagFreeCons(' ', StripTags(s[j + 2..]));
      } else {
        var rest := StripTags(s[1..]);
        StripTagsTagFree(s[1..]);
        if s[0] == '<' {
          if IndexOf(s[1..], '>').None? {
            NoCloseUnchanged(s[1..]);
          } else {
            assert s[1..][0] == '>';
          }
        }
        TagFreeCons(s[0], rest);
      }
    }
  }

  /** No match of `<[^>]+>` survives the substitution: after a '<' of the output,
      the first '>' comes right after it. */
  lemma NoTagLeft(s: string, i: int, j: int)
    requires 0 <= i && i + 1 < j < |StripTags(s)|
    requires StripTags(s)[i] == '<' && StripTags(s)[j] == '>'
    ensures StripTags(s)[i + 1] == '>'
  {
    var r := StripTags(s);
    StripTagsTagFree(s);
    assert r[j] == r[i + 1..][j - i - 1];
  }

  /** A tag at the front is replaced by one space. */
  lemma TagBecomesSpace(inner: string, rest: string)
    requires inner != [] && '>' !in inner
    ensures StripTags("<" + inner + ">" + rest) == " " + StripTags(rest)
  {
    var s := "<" + inner + ">" + rest;
    assert s[1..] == inner + ">" + rest;
    assert s[1..][..|inner|] == inner;
    IndexOfFirst(s[1..], '>', |inner|);
    assert s[|inner| + 2..] == rest;
  }

  /** `clean`: tags become spaces, whitespace runs become one space, and the
      ends are stripped. */
  function Clean(text: string): (r: string)
    ensures r == [] || (!IsSpace(r[0]) && !IsSpace(r[|r| - 1]))
    ensures forall k :: 0 <= k < |r| - 1 ==> !(IsSpace(r[k]) && IsSpace(r[k + 1]))
  {
    var collapsed := CollapseSpaces(StripTags(text));
    TrimIsSlice(collapsed);
    Trim(collapsed)
  }

  /** A source document; each field may be missing. */
  datatype SourceDoc = SourceDoc(text: Option<string>, title: Option<string>, industry: Option<string>)

  /** One instruction example. */
  datatype Example = Example(instruction: string, output: string)

  const PlaceholderAnswer: string := "Summary: (to fill) Impacts: (to fill)"

  /** The instruction text for one document. */
  function Prompt(industry: string, title: string, excerpt: string): string
  {
    "Summarize the following regulation for a small " + industry +
    " business and list potential operational impacts.\nTitle: " + title + "\nText: " + excerpt
  }

  /** The prompt ends with the excerpt and names the title and the industry. */
  lemma PromptParts(industry: string, title: string, excerpt: string)
    ensures |excerpt| <= |Prompt(industry, title, excerpt)|
    ensures Prompt(industry, title, excerpt)[|Prompt(industry, title, excerpt)| - |excerpt|..] == excerpt
    ensures Contains(Prompt(industry, title, excerpt), title)
    ensures Contains(Prompt(industry, title, excerpt), industry)
  {
    SixParts("Summarize the following regulation for a small ", industry,
             " business and list potential operational impacts.\nTitle: ", title, "\nText: ", excerpt);
  }

  lemma SixParts(a: string, b: string, c: string, d: string, e: string, f: string)
    ensures var s := a + b + c + d + e + f;
      && Contains(s, b) && Contains(s, d)
      && |f| <= |s| && s[|s| - |f|..] == f
  {
    ContainsInMiddle(a + b + c, d, e + f);
    assert a + b + c + d + e + f == (a + b + c) + d + (e + f);
    ContainsInMiddle(a, b, c + d + e + f);
    assert a + b + c + d + e + f == a + b + (c + d + e + f);
  }

  /** The example of one document: the text defaults to "", the title to
      "Untitled" and the industry to "general", and at most 5000 characters of
      the cleaned text are kept. */
  function ExampleOf(doc: SourceDoc): (e: Example)
    ensures e.output == PlaceholderAnswer
    ensures Contains(e.instruction, doc.title.GetOr("Untitled"))
    ensures Contains(e.instruction, doc.industry.GetOr("general"))
    ensures var body := Clean(doc.text.GetOr(""));
      var n := if |body| <= 5000 then |body| else 5000;
      n <= |e.instruction| && e.instruction[|e.instruction| - n..] == body[..n]
  {
    var excerpt := Take(Clean(doc.text.GetOr("")), 5000);
    PromptParts(doc.industry.GetOr("general"), doc.title.GetOr("Untitled"), excerpt);
    Example(Prompt(doc.industry.GetOr("general"), doc.title.GetOr("Untitled"), excerpt), PlaceholderAnswer)
  }

  /** The examples built from the documents `docs`: one per document, in order,
      each with the placeholder answer. */
  function Examples(docs: seq<SourceDoc>): (r: seq<Example>)
    ensures |r| == |docs|
    ensures forall k :: 0 <= k < |docs| ==> r[k] == ExampleOf(docs[k])
    ensures forall k :: 0 <= k < |docs| ==> r[k].output == PlaceholderAnswer
  {
    Map(docs, ExampleOf)
  }

  /** The script's main loop: one example per document. */
  method BuildExamples(docs: seq<SourceDoc>) returns (examples: seq<Example>)
    ensures examples == Examples(docs)
  {
    examples := [];
    var i := 0;
    while i < |docs|
      invariant 0 <= i <= |docs|
      invariant examples == Examples(docs[..i])
    {
      var doc := docs[i];
      var body := Clean(doc.text.GetOr(""));
      var title := doc.title.GetOr("Untitled");
      var prompt := Prompt(doc.industry.GetOr("general"), title, Take(body, 5000));
      MapSnoc(docs, i, ExampleOf);
      examples := examples + [Example(prompt, PlaceholderAnswer)];
      i := i + 1;
    }
    assert docs[..i] == docs;
  }
}
