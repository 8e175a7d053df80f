/** generate_app_code and generate_test_app_code.

    The generative model is a parameter `backend` from prompt to the text of
    its answer; None stands for every way the call can fail (a client or
    network error, or a response without text). The JSON parser is a
    parameter `parse`, a partial function from text to a file set; None
    stands for every text json.loads rejects. */
module LlmGenerator {
  import opened Common
  import opened Text

  const PromptHead: string :=
    "\nYou are an assistant that generates a minimal, functional HTML/CSS/JS web app\n"
    + "based on the following brief. Return the output as a JSON object with filenames\n"
    + "as keys and file contents as values.\n\nBrief:\n"

  const PromptTail: string :=
    "\n\nRequirements:\n- index.html must exist\n- Include main.js and style.css if needed\n"
    + "- Include a README.md with: summary, setup, usage, and license\n"
    + "- Output as a JSON object where keys are filenames and values are contents\n"
    + "- Keep code minimal and functional\n"

  /** The prompt sent to the model: the fixed instructions with the brief
      in the middle, from where it can be read back. */
  function Prompt(brief: Option<string>): (r: string)
    ensures PromptBrief(r) == Some(Show(brief))
  {
    var r := PromptHead + Show(brief) + PromptTail;
    assert r[..|PromptHead|] == PromptHead;
    assert r[|r| - |PromptTail|..] == PromptTail;
    assert r[|PromptHead|..|r| - |PromptTail|] == Show(brief);
    r
  }

  /** The brief of a text shaped as a prompt: what lies between the fixed
      head and tail, or None when the text is not a prompt. */
  function PromptBrief(s: string): Option<string>
  {
    if |s| >= |PromptHead| + |PromptTail| && s[..|PromptHead|] == PromptHead
       && s[|s| - |PromptTail|..] == PromptTail
    then Some(s[|PromptHead|..|s| - |PromptTail|])
    else None
  }

  const FallbackIndex: string :=
    "<!DOCTYPE html><html><head><title>Fallback App</title></head><body><h1>Fallback App</h1></body></html>"

  const FallbackReadme: string :=
    "# Fallback App\nThis is a fallback README generated due to LLM error."

  /** The constant answer on any failure. */
  const Fallback: CodeFiles := [("index.html", FallbackIndex), ("README.md", FallbackReadme)]

  /** The fallback is the two-entry file set index.html, README.md. */
  lemma FallbackShape()
    ensures Names(Fallback) == {"index.html", "README.md"}
    ensures Lookup(Fallback, "index.html") == Some(FallbackIndex)
    ensures Lookup(Fallback, "README.md") == Some(FallbackReadme)
  {
  }

  // ---------------------------------------------------------------------
  // The JSON span of the answer
  // ---------------------------------------------------------------------

  /** `content[content.index('{'):content.rindex('}') + 1]`, or content itself
      when either call raises ValueError. The slice is Python's: it is empty
      when the last '}' comes before the first '{'. */
  function ExtractJsonSpan(s: string): (r: string)
    ensures exists a :: InfixAt(r, s, a)
    ensures '{' !in s || '}' !in s ==> r == s
    ensures '{' in s && '}' in s && r != [] ==> r[0] == '{' && r[|r| - 1] == '}'
  {
    match (IndexOf(s, '{'), LastIndexOf(s, '}'))
    case (Some(i), Some(j)) =>
      if i <= j then
        assert InfixAt(s[i..j + 1], s, i);
        s[i..j + 1]
      else
        assert InfixAt([], s, 0);
        []
    case _ =>
      assert InfixAt(s, s, 0);
      s
  }

  /** The text handed to json.loads: the stripped answer, cut to its span. */
  function JsonCandidate(answer: string): string
  {
    ExtractJsonSpan(Strip(answer))
  }

  /** Stated without index/rindex: when a is the first '{' and b the last
      '}', the span is s[a..b+1], or empty when b < a. */
  lemma ExtractFromFirstToLast(s: string, a: nat, b: nat)
    requires a < |s| && s[a] == '{' && forall k :: 0 <= k < a ==> s[k] != '{'
    requires b < |s| && s[b] == '}' && forall k :: b < k < |s| ==> s[k] != '}'
    ensures a <= b ==> ExtractJsonSpan(s) == s[a..b + 1]
    ensures b < a ==> ExtractJsonSpan(s) == ""
  {
    FirstOccurrence(s, '{', a);
    LastOccurrence(s, '}', b);
    var found := (IndexOf(s, '{'), LastIndexOf(s, '}'));
    assert found == (Some(a), Some(b));
    if a <= b {
      assert ExtractJsonSpan(s) == s[a..b + 1];
    } else {
      assert ExtractJsonSpan(s) == [];
    }
  }

  lemma FirstOccurrence(s: string, c: char, a: nat)
    requires a < |s| && s[a] == c && forall k :: 0 <= k < a ==> s[k] != c
    ensures IndexOf(s, c) == Some(a)
  {
    assert c in s;
  }

  lemma LastOccurrence(s: string, c: char, b: nat)
    requires b < |s| && s[b] == c && forall k :: b < k < |s| ==> s[k] != c
    ensures LastIndexOf(s, c) == Some(b)
  {
    assert c in s;
  }

  /** The span is a fixed point: extracting from it changes nothing. */
  lemma ExtractIdempotent(s: string)
    ensures ExtractJsonSpan(ExtractJsonSpan(s)) == ExtractJsonSpan(s)
  {
    var r := ExtractJsonSpan(s);
    if '{' in s && '}' in s && r != [] {
      var i, j := IndexOf(s, '{').value, LastIndexOf(s, '}').value;
      assert r == s[i..j + 1];
      assert forall k :: 0 <= k < |r| ==> r[k] == s[i + k];
      ExtractFromFirstToLast(r, 0, |r| - 1);
      assert r[0..|r|] == r;
    }
  }

  // ---------------------------------------------------------------------
  // generate_app_code
  // ---------------------------------------------------------------------

  /** Never fails: the answer's parsed span, or the fallback on any failure. */
  function GenerateAppCode(brief: Option<string>, backend: string -> Option<string>,
                           parse: string -> Option<CodeFiles>): (r: CodeFiles)
    ensures backend(Prompt(brief)).None? ==> r == Fallback
    ensures backend(Prompt(brief)).Some? && parse(JsonCandidate(backend(Prompt(brief)).value)).None?
            ==> r == Fallback
    ensures backend(Prompt(brief)).Some? && parse(JsonCandidate(backend(Prompt(brief)).value)).Some?
            ==> r == parse(JsonCandidate(backend(Prompt(brief)).value)).value
  {
    match backend(Prompt(brief))
    case None => Fallback
    case Some(answer) =>
      match parse(JsonCandidate(answer))
      case None => Fallback
      case Some(files) => files
  }

  /** Whatever the brief, a failed generation gives the same files. */
  lemma FallbackIndependentOfBrief(b1: Option<string>, b2: Option<string>,
                                   backend: string -> Option<string>, parse: string -> Option<CodeFiles>)
    requires backend(Prompt(b1)).None? || parse(JsonCandidate(backend(Prompt(b1)).value)).None?
    requires backend(Prompt(b2)).None? || parse(JsonCandidate(backend(Prompt(b2)).value)).None?
    ensures GenerateAppCode(b1, backend, parse) == GenerateAppCode(b2, backend, parse) == Fallback
  {
  }

  // ---------------------------------------------------------------------
  // generate_test_app_code
  // ---------------------------------------------------------------------

  const TestPageTop: string :=
    "\n<!DOCTYPE html>\n<html>\n<head>\n    <title>Dummy App</title>\n</head>\n<body>\n    "

  const TestPageBottom: string :=
    "\n    <p>This is a dummy app for testing GitHub push & Pages.</p>\n</body>\n</html>\n"

  /** One file, index.html, whose page shows the brief as its heading. */
  function GenerateTestAppCode(brief: Option<string>): (r: CodeFiles)
    ensures |r| == 1 && r[0].0 == "index.html"
    ensures |r[0].1| >= |TestPageTop| && r[0].1[..|TestPageTop|] == TestPageTop
    ensures InfixAt("<h1>" + Show(brief) + "</h1>", r[0].1, |TestPageTop|)
    ensures |r[0].1| == |TestPageTop| + |Show(brief)| + 9 + |TestPageBottom|
    ensures r[0].1[|TestPageTop| + |Show(brief)| + 9..] == TestPageBottom
  {
    var heading := "<h1>" + Show(brief) + "</h1>";
    var page := TestPageTop + heading + TestPageBottom;
    assert page[..|TestPageTop|] == TestPageTop;
    assert page[|TestPageTop|..|TestPageTop| + |heading|] == heading;
    assert page[|TestPageTop| + |heading|..] == TestPageBottom;
    [("index.html", page)]
  }

  /** The heading determines the brief's text: different briefs give
      different pages. */
  lemma TestAppShowsBrief(b1: Option<string>, b2: Option<string>)
    requires GenerateTestAppCode(b1) == GenerateTestAppCode(b2)
    ensures Show(b1) == Show(b2)
  {
    var page := GenerateTestAppCode(b1)[0].1;
    var h1, h2 := "<h1>" + Show(b1) + "</h1>", "<h1>" + Show(b2) + "</h1>";
    assert |h1| == |h2|;
    assert h1 == page[|TestPageTop|..|TestPageTop| + |h1|] == h2;
    assert Show(b1) == h1[4..|h1| - 5];
  }
}
