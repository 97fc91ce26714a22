/**
 * The decision logic of the AI quiz in `main.py`: validation of the page range
 * and question count, the page-range text extraction loop, the check on the
 * AI's reply, the outcome of `run_quiz`, and what the quiz window shows at a
 * cursor position. The PDF pages, the AI's reply and the JSON parser are
 * parameters.
 */
module Quiz {
  import opened Wrappers
  import opened PyStr
  import CardStore
  import SessionSpec

  /** A generated question: a JSON object with "pitanje" and "odgovor". */
  type QuizItem = map<string, string>

  const QuestionKey: string := "pitanje"
  const QuizAnswerKey: string := "odgovor"
  const NoQuestionText: string := "Nema pitanja."
  const NoQuizAnswer: string := "Nema odgovora"
  const NoDocumentChosen: string := "Nije odabran PDF fajl"
  const JsonFence: string := "```json"
  const Fence: string := "```"

  // ---------------------------------------------------------------------------
  // Validation of the quiz settings

  /** The range and count `run_quiz` accepts. */
  predicate ValidQuizNumbers(startPage: int, endPage: int, numQuestions: int) {
    startPage >= 1 && endPage >= startPage && numQuestions >= 1
  }

  datatype QuizSettings = QuizSettings(startPage: int, endPage: int, numQuestions: int)

  /**
   * The three entry fields as `int()` read them (`None` where `int()` raises)
   * turned into settings, or `None` for the "Greška u unosu" message.
   */
  function ReadQuizSettings(startPage: Option<int>, endPage: Option<int>, numQuestions: Option<int>): (r: Option<QuizSettings>)
    ensures r.Some? <==>
      && startPage.Some? && endPage.Some? && numQuestions.Some?
      && ValidQuizNumbers(startPage.value, endPage.value, numQuestions.value)
    ensures r.Some? ==> r.value == QuizSettings(startPage.value, endPage.value, numQuestions.value)
    ensures r.Some? ==> 0 <= r.value.startPage - 1 < r.value.endPage
  {
    if startPage.Some? && endPage.Some? && numQuestions.Some?
       && ValidQuizNumbers(startPage.value, endPage.value, numQuestions.value)
    then Some(QuizSettings(startPage.value, endPage.value, numQuestions.value))
    else None
  }

  // ---------------------------------------------------------------------------
  // Text of a page range

  /** The pages' texts joined in order. */
  function Concat(pages: seq<string>): string {
    if pages == [] then "" else Concat(pages[..|pages| - 1]) + pages[|pages| - 1]
  }

  function Min(a: int, b: int): int {
    if a <= b then a else b
  }

  function Max(a: int, b: int): int {
    if a >= b then a else b
  }

  /**
   * The text `extract_text_from_pdf` gathers: pages `startPage-1 ..
   * endPage-1` in order, leaving out the indices at or past the page count.
   */
  function PageRangeText(pages: seq<string>, startPage: int, endPage: int): string
    requires startPage >= 1
  {
    var lo := Min(startPage - 1, |pages|);
    var hi := Max(lo, Min(endPage, |pages|));
    Concat(pages[lo..hi])
  }

  /** `extract_text_from_pdf`: the loop over `range(start_page - 1, end_page)`. */
  method ExtractTextFromPdf(pages: seq<string>, startPage: int, endPage: int) returns (text: string)
    requires startPage >= 1
    ensures text == PageRangeText(pages, startPage, endPage)
  {
    var lo := Min(startPage - 1, |pages|);
    text := "";
    var i := startPage - 1;
    while i < endPage
      invariant startPage - 1 <= i
      invariant i <= Max(startPage - 1, endPage)
      invariant text == Concat(pages[lo..Max(lo, Min(i, |pages|))])
    {
      if i < |pages| {
        assert Max(lo, Min(i, |pages|)) == i && Max(lo, Min(i + 1, |pages|)) == i + 1;
        assert pages[lo..i + 1] == pages[lo..i] + [pages[i]];
        text := text + pages[i];
      } else {
        assert Max(lo, Min(i + 1, |pages|)) == Max(lo, Min(i, |pages|));
      }
      i := i + 1;
    }
  }

  /** Every page of the range that exists is in the text, in order: the range splits at any page. */
  lemma {:induction false} ConcatSplit(pages: seq<string>, k: nat)
    requires k <= |pages|
    decreases |pages|
    ensures Concat(pages) == Concat(pages[..k]) + Concat(pages[k..])
  {
    if k < |pages| {
      var init := pages[..|pages| - 1];
      ConcatSplit(init, k);
      assert init[..k] == pages[..k];
      assert init[k..] == pages[k..|pages| - 1];
      assert pages[k..][..|pages[k..]| - 1] == pages[k..|pages| - 1];
    } else {
      assert pages[..k] == pages;
    }
  }

  /** A range that lies wholly inside the document yields exactly its pages; one past the end yields "". */
  lemma PageRangeInside(pages: seq<string>, startPage: int, endPage: int)
    requires 1 <= startPage
    ensures startPage - 1 <= endPage <= |pages| ==>
      PageRangeText(pages, startPage, endPage) == Concat(pages[startPage - 1..endPage])
    ensures startPage > |pages| ==> PageRangeText(pages, startPage, endPage) == ""
  {
  }

  // ---------------------------------------------------------------------------
  // The AI reply

  /**
   * The reply as `generate_questions_with_ai` cleans it:
   * `.strip().replace('```json', '').replace('```', '')`.
   */
  function CleanAiOutputAsWritten(reply: string): string {
    RemoveAll(RemoveAll(Strip(reply), JsonFence), Fence)
  }

  /**
   * The cleaning the fence removal is there for: the text between the
   * fences, without the whitespace around it.
   */
  function CleanAiOutput(reply: string): string {
    Strip(CleanAiOutputAsWritten(reply))
  }

  /** The bracket check: the text must start with '[' or end with ']' (one of the two suffices). */
  predicate LooksLikeArray(text: string) {
    StartsWith(text, "[") || EndsWith(text, "]")
  }

  /**
   * The part of `generate_questions_with_ai` after the request, as written:
   * the cleaned reply is rejected unless it passes the bracket check, and is
   * otherwise handed to the JSON parser (`None` = the parser raised).
   */
  function ReadAiReplyAsWritten(reply: string, parse: string -> Option<seq<QuizItem>>): Option<seq<QuizItem>> {
    var text := CleanAiOutputAsWritten(reply);
    if !LooksLikeArray(text) then None else parse(text)
  }

  /** The same steps on the corrected cleaning. */
  function ReadAiReply(reply: string, parse: string -> Option<seq<QuizItem>>): Option<seq<QuizItem>> {
    var text := CleanAiOutput(reply);
    if !LooksLikeArray(text) then None else parse(text)
  }

  /** The cleaning `run_quiz` goes through: as written, or with the fence correction. */
  function CleanReply(reply: string, fixFences: bool): string {
    if fixFences then CleanAiOutput(reply) else CleanAiOutputAsWritten(reply)
  }

  /** The reading `run_quiz` goes through: as written, or with the fence correction. */
  function ReadReply(reply: string, parse: string -> Option<seq<QuizItem>>, fixFences: bool): Option<seq<QuizItem>> {
    if fixFences then ReadAiReply(reply, parse) else ReadAiReplyAsWritten(reply, parse)
  }

  /** Removing a pattern whose first character does not occur leaves the text as it is. */
  lemma {:induction false} RemoveAllAbsent(s: string, pat: string)
    requires pat != [] && pat[0] !in s
    decreases |s|
    ensures RemoveAll(s, pat) == s
  {
    if |s| >= |pat| {
      assert s[..|pat|][0] == s[0];
      RemoveAllAbsent(s[1..], pat);
      assert [s[0]] + s[1..] == s;
    }
  }

  /** A text without surrounding whitespace is its own `strip()`. */
  lemma StripTrimmed(s: string)
    requires s != [] && !IsSpace(s[0]) && !IsSpace(s[|s| - 1])
    ensures Strip(s) == s
  {
  }

  /** `strip()` only removes characters: a character absent from the text is absent from its `strip()`. */
  lemma StripKeepsAbsence(s: string, c: char)
    requires c !in s
    ensures c !in Strip(s)
  {
    var l := LStrip(s);
    assert c !in l by {
      assert l == s[|s| - |l|..];
    }
    var r := RStrip(l);
    assert r == l[..|r|];
  }

  /**
   * The correction changes nothing for a reply without backticks: both
   * cleanings give its `strip()`, so both readings agree.
   */
  lemma CorrectionKeepsUnfencedReplies(reply: string, parse: string -> Option<seq<QuizItem>>)
    requires '`' !in reply
    ensures CleanAiOutput(reply) == CleanAiOutputAsWritten(reply) == Strip(reply)
    ensures ReadAiReply(reply, parse) == ReadAiReplyAsWritten(reply, parse)
  {
    var t := Strip(reply);
    StripKeepsAbsence(reply, '`');
    RemoveAllAbsent(t, JsonFence);
    RemoveAllAbsent(t, Fence);
    if t != [] {
      StripTrimmed(t);
    }
  }

  /**
   * A reply without backticks and without surrounding whitespace is accepted
   * exactly when it starts with '[' or ends with ']' and the parser accepts
   * it; one that does neither (such as "not an array") is rejected whatever
   * the parser would make of it.
   */
  lemma PlainReply(reply: string, parse: string -> Option<seq<QuizItem>>)
    requires reply != [] && !IsSpace(reply[0]) && !IsSpace(reply[|reply| - 1])
    requires '`' !in reply
    ensures CleanAiOutput(reply) == reply
    ensures ReadAiReply(reply, parse).Some? <==> LooksLikeArray(reply) && parse(reply).Some?
    ensures reply[0] != '[' && reply[|reply| - 1] != ']' ==> ReadAiReply(reply, parse) == None
  {
    CorrectionKeepsUnfencedReplies(reply, parse);
    StripTrimmed(reply);
    assert reply[..1][0] == reply[0];
    assert reply[|reply| - 1..][0] == reply[|reply| - 1];
  }

  /** A leading part free of the pattern's first character survives removal unchanged. */
  lemma {:induction false} RemoveAllAfterAbsent(a: string, b: string, pat: string)
    requires pat != [] && pat[0] !in a
    decreases |a|
    ensures RemoveAll(a + b, pat) == a + RemoveAll(b, pat)
  {
    if a != [] {
      var s := a + b;
      if |s| >= |pat| {
        assert s[..|pat|][0] == a[0];
      }
      assert s[1..] == a[1..] + b;
      RemoveAllAfterAbsent(a[1..], b, pat);
      assert [a[0]] + a[1..] == a;
    } else {
      assert a + b == b;
    }
  }

  /** An occurrence at the front is dropped. */
  lemma RemoveAllAtFront(pat: string, rest: string)
    requires pat != []
    ensures RemoveAll(pat + rest, pat) == RemoveAll(rest, pat)
  {
    assert (pat + rest)[..|pat|] == pat;
    assert (pat + rest)[|pat|..] == rest;
  }

  /**
   * A reply wrapped in a "```json" and a "```" fence is cleaned, as written,
   * to exactly what lies between the fences, when that holds no backtick.
   */
  lemma CleanFencedReply(body: string)
    requires '`' !in body
    ensures CleanAiOutputAsWritten(JsonFence + (body + Fence)) == body
  {
    var reply := JsonFence + (body + Fence);
    StripTrimmed(reply);
    RemoveAllAtFront(JsonFence, body + Fence);
    RemoveAllAfterAbsent(body, Fence, JsonFence);
    assert RemoveAll(Fence, JsonFence) == Fence;
    RemoveAllAfterAbsent(body, Fence, Fence);
    assert Fence == Fence + [];
    RemoveAllAtFront(Fence, []);
  }

  /**
   * As written, a reply fenced as a markdown block with the fences on lines
   * of their own is always rejected: the reply is stripped before the fences
   * are removed, so the newlines inside the fences remain around the
   * brackets.
   */
  lemma FencedBlockRejectedAsWritten(items: string, parse: string -> Option<seq<QuizItem>>)
    requires '`' !in items
    ensures ReadAiReplyAsWritten(JsonFence + ("\n" + items + "\n" + Fence), parse) == None
  {
    var body := "\n" + items + "\n";
    CleanFencedReply(body);
    assert !StartsWith(body, "[") by { assert body[..1][0] == '\n'; }
    assert !EndsWith(body, "]") by { assert body[|body| - 1..][0] == '\n'; }
    assert CleanAiOutputAsWritten(JsonFence + ("\n" + items + "\n" + Fence)) == body;
  }

  /** `strip()` removes the line breaks around a text that has no surrounding whitespace of its own. */
  lemma StripLineBreaks(t: string)
    requires t != [] && !IsSpace(t[0]) && !IsSpace(t[|t| - 1])
    ensures Strip("\n" + t + "\n") == t
  {
    var body := "\n" + t + "\n";
    assert body[0] == '\n' && body[1..] == t + "\n";
    assert LStrip(body) == LStrip(t + "\n");
    assert LStrip(t + "\n") == t + "\n" by {
      assert (t + "\n")[0] == t[0];
    }
    assert (t + "\n")[..|t|] == t;
    assert RStrip(t + "\n") == RStrip(t);
  }

  /** With the correction, a fenced block cleans to the text on the lines between the fences. */
  lemma CleanFencedBlock(t: string)
    requires t != [] && !IsSpace(t[0]) && !IsSpace(t[|t| - 1])
    requires '`' !in t
    ensures CleanAiOutput(JsonFence + ("\n" + t + "\n" + Fence)) == t
  {
    var body := "\n" + t + "\n";
    assert '`' !in body;
    CleanFencedReply(body);
    StripLineBreaks(t);
  }

  /** A text made of an opening and a closing bracket around anything passes the bracket check. */
  lemma BracketedLooksLikeArray(items: string)
    ensures LooksLikeArray("[" + items + "]")
  {
    var arr := "[" + items + "]";
    assert arr[..1] == "[";
  }

  /** With the correction, the array inside a fenced markdown block reaches the parser. */
  lemma FencedBlockAccepted(items: string, parse: string -> Option<seq<QuizItem>>)
    requires '`' !in items
    ensures ReadAiReply(JsonFence + ("\n" + ("[" + items + "]") + "\n" + Fence), parse) == parse("[" + items + "]")
  {
    var arr := "[" + items + "]";
    assert CleanAiOutput(JsonFence + ("\n" + arr + "\n" + Fence)) == arr by {
      assert '`' !in arr && arr[0] == '[' && arr[|arr| - 1] == ']';
      CleanFencedBlock(arr);
    }
    BracketedLooksLikeArray(items);
  }

  /** With the fences on the same line as the brackets, the array reaches the parser. */
  lemma FencedOneLineAccepted(items: string, parse: string -> Option<seq<QuizItem>>)
    requires '`' !in items
    ensures ReadAiReply(JsonFence + ("[" + items + "]" + Fence), parse) == parse("[" + items + "]")
  {
    var arr := "[" + items + "]";
    assert CleanAiOutput(JsonFence + (arr + Fence)) == arr by {
      CleanFencedReply(arr);
      StripTrimmed(arr);
    }
    BracketedLooksLikeArray(items);
  }

  // ---------------------------------------------------------------------------
  // run_quiz

  datatype QuizOutcome =
    | NoDocument          // no PDF chosen, or the path does not exist
    | InvalidSettings     // a number failed to parse or the range/count is invalid
    | NoApiKey            // GEMINI_API_KEY is not set
    | ExtractionFailed    // the PDF could not be read
    | NoText              // the range holds only whitespace
    | AiRequestFailed     // the request to the AI service raised
    | AiReplyInvalid      // the reply failed the bracket check or the JSON parse
    | NoQuestions         // the reply parsed to an empty list
    | QuizReady(questions: seq<QuizItem>)

  /**
   * The checks of `run_quiz`, in the order it makes them. `pages` is `None`
   * when the PDF cannot be read, `reply` is `None` when the request fails.
   * With `fixFences` false the reply is read as the program does; with it
   * true, with the fence correction.
   */
  function DecideQuiz(docPath: string, docExists: bool,
                      startPage: Option<int>, endPage: Option<int>, numQuestions: Option<int>,
                      hasApiKey: bool, pages: Option<seq<string>>, reply: Option<string>,
                      parse: string -> Option<seq<QuizItem>>, fixFences: bool): QuizOutcome
  {
    if !docExists || docPath == NoDocumentChosen then NoDocument
    else
      var settings := ReadQuizSettings(startPage, endPage, numQuestions);
      if settings.None? then InvalidSettings
      else if !hasApiKey then NoApiKey
      else if pages.None? then ExtractionFailed
      else if Strip(PageRangeText(pages.value, settings.value.startPage, settings.value.endPage)) == [] then NoText
      else if reply.None? then AiRequestFailed
      else
        var questions := ReadReply(reply.value, parse, fixFences);
        if questions.None? then AiReplyInvalid
        else if questions.value == [] then NoQuestions
        else QuizReady(questions.value)
  }

  /**
   * A quiz opens exactly when every check passes: a chosen existing document,
   * valid numbers, an API key, a readable PDF whose range holds some
   * non-whitespace text, and a reply whose cleaning passes the bracket check
   * and parses to a non-empty list, which is then the quiz. This holds for
   * the program as written and for the corrected one alike.
   */
  lemma QuizOpensIff(docPath: string, docExists: bool,
                     startPage: Option<int>, endPage: Option<int>, numQuestions: Option<int>,
                     hasApiKey: bool, pages: Option<seq<string>>, reply: Option<string>,
                     parse: string -> Option<seq<QuizItem>>, fixFences: bool)
    ensures DecideQuiz(docPath, docExists, startPage, endPage, numQuestions, hasApiKey, pages, reply, parse, fixFences).QuizReady?
      <==>
        && docExists && docPath != NoDocumentChosen
        && startPage.Some? && endPage.Some? && numQuestions.Some?
        && ValidQuizNumbers(startPage.value, endPage.value, numQuestions.value)
        && hasApiKey && pages.Some?
        && !AllSpace(PageRangeText(pages.value, startPage.value, endPage.value))
        && reply.Some?
        && LooksLikeArray(CleanReply(reply.value, fixFences))
        && parse(CleanReply(reply.value, fixFences)).Some?
        && parse(CleanReply(reply.value, fixFences)).value != []
    ensures DecideQuiz(docPath, docExists, startPage, endPage, numQuestions, hasApiKey, pages, reply, parse, fixFences).QuizReady? ==>
      DecideQuiz(docPath, docExists, startPage, endPage, numQuestions, hasApiKey, pages, reply, parse, fixFences).questions
        == parse(CleanReply(reply.value, fixFences)).value
  {
  }

  /**
   * The finding at the level of `run_quiz`: when every other check passes and
   * the AI answers with a non-empty array in a fenced markdown block, the
   * program as written reports an invalid reply, while the corrected program
   * opens the quiz on that array.
   */
  lemma FencedBlockQuiz(docPath: string, startPage: int, endPage: int, numQuestions: int,
                        pages: seq<string>, items: string, parse: string -> Option<seq<QuizItem>>)
    requires docPath != NoDocumentChosen && ValidQuizNumbers(startPage, endPage, numQuestions)
    requires !AllSpace(PageRangeText(pages, startPage, endPage))
    requires '`' !in items
    requires parse("[" + items + "]").Some? && parse("[" + items + "]").value != []
    ensures DecideQuiz(docPath, true, Some(startPage), Some(endPage), Some(numQuestions), true, Some(pages),
                       Some(JsonFence + ("\n" + ("[" + items + "]") + "\n" + Fence)), parse, false) == AiReplyInvalid
    ensures DecideQuiz(docPath, true, Some(startPage), Some(endPage), Some(numQuestions), true, Some(pages),
                       Some(JsonFence + ("\n" + ("[" + items + "]") + "\n" + Fence)), parse, true)
              == QuizReady(parse("[" + items + "]").value)
  {
    FencedBlockRejectedAsWritten("[" + items + "]", parse);
    FencedBlockAccepted(items, parse);
  }

  // ---------------------------------------------------------------------------
  // The quiz window

  datatype QuestionView = QuestionView(progress: string, question: string)

  /** What `next_quiz_question` shows at cursor `i`: `None` once the quiz is over. */
  function QuestionAt(questions: seq<QuizItem>, i: int): Option<QuestionView> {
    if 0 <= i < |questions| then
      Some(QuestionView(SessionSpec.Progress(i + 1, |questions|), CardStore.Get(questions[i], QuestionKey, NoQuestionText)))
    else None
  }

  /** What `reveal_quiz_answer` shows at cursor `i`: nothing outside `0 <= i < len(questions)`. */
  function AnswerAt(questions: seq<QuizItem>, i: int): Option<string> {
    if 0 <= i < |questions| then Some(CardStore.Get(questions[i], QuizAnswerKey, NoQuizAnswer)) else None
  }

  /**
   * An answer can be revealed exactly while a question is shown, and it is
   * the answer of the question shown; the progress counts questions from 1.
   */
  lemma AnswerWhileQuestionShown(questions: seq<QuizItem>, i: int)
    ensures AnswerAt(questions, i).Some? <==> QuestionAt(questions, i).Some?
    ensures QuestionAt(questions, i).Some? ==>
      && QuestionAt(questions, i).value.progress == SessionSpec.Progress(i + 1, |questions|)
      && QuestionAt(questions, i).value.question == CardStore.Get(questions[i], QuestionKey, NoQuestionText)
      && AnswerAt(questions, i).value == CardStore.Get(questions[i], QuizAnswerKey, NoQuizAnswer)
  {
  }
}
