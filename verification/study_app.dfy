/**
 * The application window of `main.py` without its widgets: the open subject,
 * the flashcard window's steps, adding a card, creating a subject, the
 * question database, and the AI quiz with its cursor. The "data" directory is
 * the `files` field; the user's entries, the chosen PDF's pages, the AI's
 * reply and the JSON parser are parameters.
 */
module StudyApp {
  import opened Wrappers
  import opened PyStr
  import opened CardStore
  import PyPath
  import opened SessionSpec
  import opened Flashcards
  import opened Quiz
  import QuestionDb

  /** What `save_new_card` reports. */
  datatype SaveOutcome = MissingField | SaveFailed | Saved

  /** What `add_new_subject` reports. */
  datatype SubjectOutcome = Cancelled | AlreadyExists | CreateFailed | Created(path: string)

  class StudyAssistant {
    /** The files under "data", by path. */
    var files: Files
    var currentSubjectFile: Option<string>
    var flashcards: FlashcardProgram?
    var quizQuestions: seq<QuizItem>
    var quizIndex: int

    /**
     * The quiz cursor starts at -1 and only moves forward, so once advanced it
     * indexes `quizQuestions` from the front, never from the end as a
     * negative Python index would.
     */
    ghost predicate QuizCursorValid()
      reads this
    {
      quizIndex >= -1
    }

    /** `__init__`: no subject is open and no quiz has been shown. */
    constructor (files: Files)
      ensures this.files == files && currentSubjectFile == None && flashcards == null
      ensures quizQuestions == [] && quizIndex == -1
      ensures QuizCursorValid()
    {
      this.files := files;
      currentSubjectFile := None;
      flashcards := null;
      quizQuestions := [];
      quizIndex := -1;
    }

    /** `load_subject(filename)`: a fresh flashcard program over the subject's file. */
    method LoadSubject(filename: string)
      modifies this
      ensures currentSubjectFile == Some(filename)
      ensures flashcards != null && fresh(flashcards) && flashcards.Valid()
      ensures flashcards.filename == PyPath.Join(DataDir, filename)
      ensures flashcards.cards == LenientLoad(files, flashcards.filename)
      ensures flashcards.State() == Initial
      ensures files == old(files) && quizQuestions == old(quizQuestions) && quizIndex == old(quizIndex)
    {
      currentSubjectFile := Some(filename);
      flashcards := new FlashcardProgram(filename, files);
    }

    /**
     * `restart_session`: a new session, then the first draw. On a non-empty
     * deck the first card shown is the last of a shuffled copy of the deck.
     */
    method RestartSession(pick: nat -> nat) returns (title: Option<string>, progress: string)
      requires flashcards != null && flashcards.Valid()
      modifies flashcards
      ensures flashcards.Valid()
      ensures flashcards.cards == old(flashcards.cards) && flashcards.filename == old(flashcards.filename)
      ensures old(flashcards.cards) == [] ==>
        DrawResult(flashcards.State(), title, progress) == Draw(old(flashcards.State()))
      ensures old(flashcards.cards) != [] ==>
        && multiset(flashcards.shuffled) == multiset(flashcards.cards)
        && DrawResult(flashcards.State(), title, progress) == Draw(Started(flashcards.shuffled))
    {
      flashcards.StartSession(pick);
      title, progress := flashcards.GetNextCardInSession();
    }

    /**
     * `show_flashcard_window`: refused when the subject has no cards;
     * otherwise a session starts and its first card is drawn.
     */
    method OpenFlashcards(pick: nat -> nat) returns (shown: bool, title: Option<string>, progress: string)
      requires flashcards != null && flashcards.Valid()
      modifies flashcards
      ensures flashcards.Valid()
      ensures shown <==> old(flashcards.cards) != []
      ensures flashcards.cards == old(flashcards.cards) && flashcards.filename == old(flashcards.filename)
      ensures !shown ==> flashcards.State() == old(flashcards.State())
      ensures shown ==>
        && multiset(flashcards.shuffled) == multiset(flashcards.cards)
        && DrawResult(flashcards.State(), title, progress) == Draw(Started(flashcards.shuffled))
    {
      if flashcards.cards == [] {
        return false, None, "";
      }
      shown := true;
      title, progress := RestartSession(pick);
    }

    /** `handle_feedback(was_correct)`: a miss is recorded first, then the next card is drawn. */
    method HandleFeedback(wasCorrect: bool) returns (title: Option<string>, progress: string)
      requires flashcards != null && flashcards.Valid()
      modifies flashcards
      ensures flashcards.Valid()
      ensures flashcards.cards == old(flashcards.cards) && flashcards.filename == old(flashcards.filename)
      ensures DrawResult(flashcards.State(), title, progress)
        == Draw(if wasCorrect then old(flashcards.State()) else Mark(old(flashcards.State())))
    {
      if !wasCorrect {
        flashcards.MarkCurrentIncorrect();
      }
      title, progress := flashcards.GetNextCardInSession();
    }

    /**
     * `save_new_card(title, answer)`: both fields are stripped and must be
     * non-empty; the card is appended to what a lenient load of the subject's
     * file gives and the list is written back. `writeOk` is whether opening
     * the file for writing succeeds. The open flashcard program keeps its
     * cards: the reload after saving is discarded.
     */
    method SaveNewCard(title: string, answer: string, writeOk: bool) returns (outcome: SaveOutcome)
      requires flashcards != null
      modifies this
      ensures flashcards == old(flashcards) && flashcards.cards == old(flashcards.cards)
      ensures outcome.MissingField? <==> Strip(title) == [] || Strip(answer) == []
      ensures outcome.SaveFailed? <==> Strip(title) != [] && Strip(answer) != [] && !writeOk
      ensures outcome.Saved? ==>
        files == AppendCard(old(files), flashcards.filename, NewCard(Strip(title), Strip(answer)))
      ensures !outcome.Saved? ==> files == old(files)
      ensures currentSubjectFile == old(currentSubjectFile)
      ensures quizQuestions == old(quizQuestions) && quizIndex == old(quizIndex)
    {
      var t := Strip(title);
      var a := Strip(answer);
      if t == [] || a == [] {
        return MissingField;
      }
      var card := NewCard(t, a);
      var data := LenientLoad(files, flashcards.filename);
      if !writeOk {
        return SaveFailed;
      }
      files := files[flashcards.filename := CardList(data + [card])];
      outcome := Saved;
    }

    /**
     * `add_new_subject`: `name` is the dialog's answer (`None` when it is
     * closed). A non-empty name gives the path "data/<file name>"; an existing
     * file is never overwritten, and otherwise an empty card list is written.
     */
    method AddNewSubject(name: Option<string>, writeOk: bool) returns (outcome: SubjectOutcome)
      modifies this
      ensures outcome.Cancelled? <==> name.None? || name.value == []
      ensures outcome.AlreadyExists? <==>
        name.Some? && name.value != [] && PyPath.Join(DataDir, SubjectFileName(name.value)) in old(files)
      ensures outcome.CreateFailed? <==>
        name.Some? && name.value != [] && PyPath.Join(DataDir, SubjectFileName(name.value)) !in old(files) && !writeOk
      ensures outcome.Created? ==>
        && outcome.path == PyPath.Join(DataDir, SubjectFileName(name.value))
        && files == old(files)[outcome.path := CardList([])]
        && LenientLoad(files, outcome.path) == []
      ensures !outcome.Created? ==> files == old(files)
      ensures forall p :: p in old(files) ==> p in files && files[p] == old(files)[p]
      ensures flashcards == old(flashcards) && currentSubjectFile == old(currentSubjectFile)
      ensures quizQuestions == old(quizQuestions) && quizIndex == old(quizIndex)
    {
      if name.None? || name.value == [] {
        return Cancelled;
      }
      var path := PyPath.Join(DataDir, SubjectFileName(name.value));
      if path in files {
        return AlreadyExists;
      }
      if !writeOk {
        return CreateFailed;
      }
      files := files[path := CardList([])];
      outcome := Created(path);
    }

    /**
     * `show_question_database`: the window is built from the program's
     * cards as they were loaded when the subject was opened (the reload it
     * asks for is discarded).
     */
    method ShowQuestionDatabase() returns (view: QuestionDb.DatabaseView)
      requires flashcards != null
      ensures view.EmptyDatabase? <==> flashcards.cards == []
      ensures view.Database? ==>
        && QuestionDb.BuildQuestionMap(flashcards.cards).Some?
        && view.questions == QuestionDb.BuildQuestionMap(flashcards.cards).value
        && view.listed == view.questions.titles
      ensures view.BrokenDatabase? ==> QuestionDb.BuildQuestionMap(flashcards.cards).None?
    {
      view := QuestionDb.OpenDatabase(flashcards.cards);
    }

    /** `show_generated_quiz(questions)`: the cursor is set to -1 and advanced to the first question. */
    method ShowGeneratedQuiz(questions: seq<QuizItem>) returns (view: Option<QuestionView>)
      modifies this
      ensures QuizCursorValid()
      ensures quizQuestions == questions && quizIndex == 0
      ensures view == QuestionAt(questions, 0)
      ensures files == old(files) && flashcards == old(flashcards) && currentSubjectFile == old(currentSubjectFile)
    {
      quizIndex := -1;
      quizQuestions := questions;
      view := NextQuizQuestion();
    }

    /** `next_quiz_question`: the cursor moves on, and the question there is shown while there is one. */
    method NextQuizQuestion() returns (view: Option<QuestionView>)
      requires QuizCursorValid()
      modifies this
      ensures QuizCursorValid()
      ensures quizQuestions == old(quizQuestions) && quizIndex == old(quizIndex) + 1
      ensures view == QuestionAt(quizQuestions, quizIndex)
      ensures files == old(files) && flashcards == old(flashcards) && currentSubjectFile == old(currentSubjectFile)
    {
      quizIndex := quizIndex + 1;
      if quizIndex < |quizQuestions| {
        view := Some(QuestionView(Progress(quizIndex + 1, |quizQuestions|),
                                  Get(quizQuestions[quizIndex], QuestionKey, NoQuestionText)));
      } else {
        view := None;
      }
    }

    /** `reveal_quiz_answer`: the answer at the cursor, when the cursor is on a question. */
    method RevealQuizAnswer() returns (answer: Option<string>)
      ensures answer.Some? <==> 0 <= quizIndex < |quizQuestions|
      ensures answer.Some? ==> answer.value == Get(quizQuestions[quizIndex], QuizAnswerKey, NoQuizAnswer)
    {
      if 0 <= quizIndex < |quizQuestions| {
        answer := Some(Get(quizQuestions[quizIndex], QuizAnswerKey, NoQuizAnswer));
      } else {
        answer := None;
      }
    }

    /**
     * `run_quiz`: the checks in the order of `DecideQuiz`, with the page text
     * gathered by `ExtractTextFromPdf` and the reply read as written or with
     * the fence correction (`fixFences`); when a quiz results it is shown
     * from its first question, and otherwise the quiz fields are untouched.
     */
    method RunQuiz(docPath: string, docExists: bool,
                   startPage: Option<int>, endPage: Option<int>, numQuestions: Option<int>,
                   hasApiKey: bool, pages: Option<seq<string>>, reply: Option<string>,
                   parse: string -> Option<seq<QuizItem>>, fixFences: bool)
      returns (outcome: QuizOutcome, view: Option<QuestionView>)
      requires QuizCursorValid()
      modifies this
      ensures QuizCursorValid()
      ensures outcome == DecideQuiz(docPath, docExists, startPage, endPage, numQuestions, hasApiKey, pages, reply, parse, fixFences)
      ensures outcome.QuizReady? ==>
        && quizQuestions == outcome.questions && quizIndex == 0
        && view.Some? && view == QuestionAt(quizQuestions, 0)
      ensures !outcome.QuizReady? ==>
        quizQuestions == old(quizQuestions) && quizIndex == old(quizIndex) && view == None
      ensures files == old(files) && flashcards == old(flashcards) && currentSubjectFile == old(currentSubjectFile)
    {
      view := None;
      if !docExists || docPath == NoDocumentChosen {
        return NoDocument, None;
      }
      var settings := ReadQuizSettings(startPage, endPage, numQuestions);
      if settings.None? {
        return InvalidSettings, None;
      }
      if !hasApiKey {
        return NoApiKey, None;
      }
      if pages.None? {
        return ExtractionFailed, None;
      }
      var text := ExtractTextFromPdf(pages.value, settings.value.startPage, settings.value.endPage);
      if Strip(text) == [] {
        return NoText, None;
      }
      if reply.None? {
        return AiRequestFailed, None;
      }
      var questions := ReadReply(reply.value, parse, fixFences);
      if questions.None? {
        return AiReplyInvalid, None;
      }
      if questions.value == [] {
        return NoQuestions, None;
      }
      outcome := QuizReady(questions.value);
      view := ShowGeneratedQuiz(questions.value);
    }
  }
}
