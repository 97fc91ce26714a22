# Study assistant: flashcard sessions, card store and AI quiz

A Dafny model of the core of a desktop study assistant written in Python.
Each subject is a JSON file `data/<name>.json` holding a list of cards. A card
is an object with a title (`naslov`) and a full answer (`puni_odgovor`). The
model covers these parts:

- **Flashcard sessions** (`flashcards.py`). `FlashcardProgram` shuffles a copy
  of the deck and pops cards from its end. It shows "Pitanje: i / n" progress,
  records each missed card once, and summarises the misses.
- **Card store** (`main.py`). Adding a card appends it to the subject file.
  Creating a subject writes an empty list and never overwrites a file. The
  subject menu lists the `.json` files.
- **Question database** (`main.py`). This is a title-to-answer dictionary with
  a case-insensitive substring search.
- **AI quiz** (`main.py`). The quiz settings are validated, the text of a page
  range is gathered and the AI's reply is checked. The quiz window then walks
  a cursor through the questions.

Files:

- `wrappers.dfy`: `Option`.
- `pystr.dfy`: the Python string builtins used (`strip`, `lower`,
  `capitalize`, `replace`, `join`, `in`, decimal formatting).
- `pypath.dfy`: POSIX `os.path.join`, `basename` and `splitext`.
- `cardstore.dfy`: cards, the data directory as a map from path to file
  content, lenient loading, subject file names and the subject menu.
- `session.dfy`: the session state as a value, one function per session
  operation, and lemmas about single draws and whole sessions.
- `flashcards.dfy`: the class `FlashcardProgram`. Its fields are updated in
  place. Each method is proved against the matching function of
  `session.dfy`, and an object invariant ties the queue, the cards drawn and
  the misses to the shuffled deck.
- `question_db.dfy`: the question dictionary, the search filter and the answer
  lookup.
- `quiz.dfy`: quiz settings, page text extraction, AI reply checking, the
  `run_quiz` decision, and what the quiz window shows at a cursor position.
- `study_app.dfy`: the class `StudyAssistant`, the application window without
  its widgets. Its fields are the data directory, the open subject, the
  flashcard program and the quiz cursor.

Inputs from outside the program are parameters:

- the directory listing, and whether each file write succeeds;
- the random draws of `random.shuffle`;
- the user's entries;
- the PDF's page texts;
- whether `GEMINI_API_KEY` is set;
- the AI's reply and the JSON parser applied to it.

`save_new_card` calls `self.flashcards._load_cards()` after writing
(`main.py:376`), which shows that a reload of the open card set was intended.
The call discards the list it returns, so the open card set is not
refreshed; `show_question_database` does the same (`main.py:254`). The model follows the code. After a
save, the open `FlashcardProgram` keeps its cards until the subject is opened
again (`StudyApp.StudyAssistant.SaveNewCard`, `ShowQuestionDatabase`).

## Model

| member | source | states |
|---|---|---|
| PyStr.Strip | main.py:354-355 | `strip()` gives the empty text exactly when the input is all whitespace; otherwise the result starts and ends with non-whitespace and is no longer than the input |
| PyStr.ParseNatToString | flashcards.py:66 | the decimal digits printed for a counter in a progress text read back as that counter |
| CardStore.LoadReadsWhatWasWritten | flashcards.py:30-36 | loading gives back the list last written to the file; a missing file and one `json.load` rejects both load as the empty list; other files play no part |
| CardStore.NewCard | main.py:361 | the new card has exactly the keys `naslov` and `puni_odgovor`, holding the given title and answer, so it is truthy |
| CardStore.AppendThenLoad | main.py:363-369 | after a save, loading the file gives the previous lenient load followed by the new card; every other file loads as before |
| CardStore.SubjectFileName | main.py:389 | a new subject's file name ends in ".json", has one character per character of the name, turns every space into '_', and lower-cases every other character |
| CardStore.JsonFiles | flashcards.py:13-14 | a listing entry is kept exactly when it ends with ".json"; the result is no longer than the listing |
| CardStore.SubjectEntriesAreJsonFiles | flashcards.py:13-16 | the subject menu has one entry per ".json" file, in listing order, each paired with its capitalised stem |
| CardStore.MenuNameMatchesSubjectName | flashcards.py:38-41 | a subject opened from the menu shows inside it the same name the menu showed |
| CardStore.CreatedSubjectDisplayName | main.py:389-390 | a newly created subject is listed as the capitalised, lower-cased name with spaces turned into '_' (for a name with no '/' and not made only of dots) |
| CardStore.DotNameKeepsExtension | main.py:389 | a subject whose name is made only of dots (such as ".") is created as that name plus ".json"; `splitext` cannot split it, so the menu lists the whole file name |
| SessionSpec.DrawKeepsInv | flashcards.py:57-68 | a draw keeps `index + len(queue) == total`, the total and the miss list, and the index never exceeds the total |
| SessionSpec.DrawPopsLast | flashcards.py:63-74 | a draw from a non-empty queue removes its last card and makes it the active card; it returns that card's title and "Pitanje: i / n" with `i` one more than before; the answer shown is then that card's |
| SessionSpec.DrawPastEnd | flashcards.py:59-61 | on an empty queue a draw clears the active card and returns no title and "Sesija završena!"; repeating it changes nothing, and the answer is then "Nema odgovora." |
| SessionSpec.MarkKeepsNoDup | flashcards.py:76-79 | marking adds at most the active card, keeps the miss list free of duplicates, and changes no other field |
| SessionSpec.MarkIdempotent | flashcards.py:78-79 | marking twice is marking once; with no truthy active card marking does nothing; otherwise the active card is then in the miss list |
| SessionSpec.AfterRun | flashcards.py:57-68 | after `k` draws that stay within the queue, the last `k` cards are gone from it, the index has grown by `k`, and the total and misses are unchanged |
| SessionSpec.RunPopsQueueBackwards | flashcards.py:63-68 | draw `j` of a run pops `queue[len-1-j]`, shows its title, and shows progress `index+j+1 / total` |
| SessionSpec.SessionDrawsBackwards | flashcards.py:44-68 | a whole session makes the shuffled cards active in reverse order |
| SessionSpec.SessionProgress | flashcards.py:66 | draw `j` of a whole session of `n` cards shows "Pitanje: j+1 / n" |
| SessionSpec.SessionEnds | flashcards.py:57-61 | after `n` draws the queue is empty and index == total == n; the next draw reports "Sesija završena!" |
| SessionSpec.WholeSession | flashcards.py:44-68 | a session started on a shuffled copy of the deck draws every card as many times as it occurs in the deck |
| SessionSpec.ReverseSameMultiset | flashcards.py:64 | popping from the end visits exactly the cards of the queue |
| SessionSpec.SummaryShape | flashcards.py:81-87 | with no misses the summary is the congratulation; otherwise it is the header followed by one "\n- title" line per missed card |
| Flashcards.Shuffle | flashcards.py:49-50 | `random.shuffle` returns a permutation of the deck, whatever the random draws |
| Flashcards.GetAvailableSubjects | flashcards.py:8-19 | a missing data directory gives no subjects; otherwise the loop builds the menu of `.json` files with their display names |
| Flashcards.FlashcardProgram.constructor | flashcards.py:21-28 | the file path is "data/<name>", the cards are loaded leniently, and no session is active; the object invariant holds |
| Flashcards.FlashcardProgram.StartSession | flashcards.py:44-55 | with no cards nothing changes; otherwise the queue is a permutation of the deck, the counters, misses and active card are reset, and the deck is unchanged |
| Flashcards.FlashcardProgram.GetNextCardInSession | flashcards.py:57-68 | the new state and the returned title and progress are those of `Draw`; the object invariant is kept |
| Flashcards.FlashcardProgram.MarkCurrentIncorrect | flashcards.py:76-79 | the new state is that of `Mark`; the object invariant is kept |
| Quiz.ReadQuizSettings | main.py:470-479 | the settings are accepted exactly when all three numbers parse, the start page is at least 1, the end page is not before it, and at least one question is asked for |
| Quiz.ExtractTextFromPdf | main.py:514-527 | the text is the pages from `start_page` to `end_page` joined in order, leaving out pages past the end of the document |
| Quiz.ConcatSplit | main.py:519-522 | the joined text of pages splits at any page into the text before it and the text from it |
| Quiz.PageRangeInside | main.py:519-522 | a range inside the document gives exactly its pages; a range starting past the end gives "" |
| Quiz.CleanFencedReply | main.py:567 | as written, a stripped reply fenced by "```json" and "```" cleans to exactly what lies between the fences |
| Quiz.FencedBlockRejectedAsWritten | main.py:567-570 | as written, a reply fenced as a markdown block on lines of its own is always rejected |
| Quiz.CorrectionKeepsUnfencedReplies | main.py:567-572 | for a reply without backticks, the corrected reading agrees with the code as written |
| Quiz.PlainReply | main.py:569-572 | a plain reply is accepted exactly when it starts with '[' or ends with ']' and parses; one that does neither, such as "not an array", is rejected |
| Quiz.FencedBlockAccepted | main.py:567-572 | with the correction, the array inside a fenced markdown block reaches the parser |
| Quiz.FencedOneLineAccepted | main.py:567-572 | an array fenced on a single line reaches the parser |
| Quiz.QuizOpensIff | main.py:462-511 | both as written and with the fence correction, a quiz opens exactly when all of these hold: a chosen document exists, the numbers are valid, the API key is set, the PDF is readable, the range has non-whitespace text, and the reply, cleaned the way that version cleans it, passes the bracket check and parses to a non-empty list, which becomes the quiz |
| Quiz.FencedBlockQuiz | main.py:462-511 | when every other check passes and the AI wraps a non-empty array in a fenced markdown block, the program as written reports an invalid reply, and the corrected program opens the quiz on that array |
| Quiz.AnswerWhileQuestionShown | main.py:611-635 | an answer can be revealed exactly while a question is shown; it is that question's `odgovor` ("Nema odgovora" if missing), and the progress counts questions from 1 |
| QuestionDb.BuildQuestionMap | main.py:301 | the dictionary exists exactly when every card has both keys (otherwise `KeyError`); its key order lists each key once |
| QuestionDb.QuestionMapKeys | main.py:301 | the dictionary's keys are exactly the cards' titles |
| QuestionDb.TitlesInFirstCardOrder | main.py:301 | the titles are listed in the order of their first card, each once |
| QuestionDb.FirstOccurrencesMembership | main.py:301 | removing repeats keeps every title and adds none |
| QuestionDb.LastAnswerWins | main.py:301 | a title's answer is the one on the last card with that title |
| QuestionDb.MatchingIsFilter | main.py:303-310 | a title is listed exactly when it is a key and contains the search term case-insensitively; the list has no repeats and is no longer than the key list |
| QuestionDb.EmptyTermListsAll | main.py:328 | the empty search term, which the window opens with, lists every title |
| QuestionDb.UpdateList | main.py:303-310 | the loop fills the list with exactly the matching titles, in key order |
| QuestionDb.SelectedTitleShowsLastAnswer | main.py:312-317 | selecting a listed title never reaches "Odgovor nije pronađen."; it shows the answer of the last card with that title |
| QuestionDb.OpenDatabase | main.py:251-259 | an empty subject shows the "no questions" message; a card missing a key breaks the window; otherwise every title is listed |
| StudyApp.StudyAssistant.constructor | main.py:23-30 | no subject is open at start |
| StudyApp.StudyAssistant.LoadSubject | main.py:101-106 | opening a subject creates a fresh program over "data/<file>", with its cards loaded from the current files |
| StudyApp.StudyAssistant.OpenFlashcards | main.py:149-202 | the flashcard window refuses a subject without cards; otherwise a session starts on a permutation of the deck and its first draw is shown |
| StudyApp.StudyAssistant.RestartSession | main.py:243-248 | a restart starts a new session and shows its first draw; with no cards the first draw is taken from the old state |
| StudyApp.StudyAssistant.HandleFeedback | main.py:227-231 | "did not know" marks the active card before the next draw; "knew it" only draws |
| StudyApp.StudyAssistant.SaveNewCard | main.py:352-380 | the save is refused exactly when the stripped title or answer is empty; otherwise the card is appended to the lenient load of the subject file unless the write fails; the open program's cards do not change |
| StudyApp.StudyAssistant.AddNewSubject | main.py:384-403 | a closed dialog or an empty name cancels; an existing file is reported and never overwritten; otherwise an empty list is written at "data/<file name>" unless the write fails; no existing file changes |
| StudyApp.StudyAssistant.ShowQuestionDatabase | main.py:251-259 | the database window uses the cards loaded when the subject was opened |
| StudyApp.StudyAssistant.ShowGeneratedQuiz | main.py:579-609 | the quiz starts with the cursor on the first question and shows it |
| StudyApp.StudyAssistant.NextQuizQuestion | main.py:619-635 | the cursor moves forward by one; the question there is shown while one remains |
| StudyApp.StudyAssistant.RevealQuizAnswer | main.py:611-617 | an answer is revealed exactly when the cursor is on a question, and it is that question's answer |
| StudyApp.StudyAssistant.RunQuiz | main.py:462-511 | the outcome is that of the checks in `run_quiz` in order, with the reply read as written or with the fence correction; a quiz is shown from its first question, and any other outcome leaves the quiz fields untouched |

## Left out

- The Tk user interface is not modelled: windows, widgets, message boxes and
  styling. This covers `apply_modern_style`, `show_subject_selection_menu`,
  `show_subject_options_menu`, `show_add_card_window`, `show_quiz_setup_window`,
  `select_pdf`, and the widget updates of `next_card`, `reveal_answer` and
  `end_session`. The values these show are modelled by the functions they
  display: `GetCurrentAnswer`, `GetIncorrectSummary`, `GetSubjectName`.
- File I/O is abstracted. The data directory is a map from path to content, so
  `os.makedirs('data')` at startup has no counterpart. `os.listdir` is a
  parameter (`None` when the directory is missing). A write either fails when
  the file is opened (`writeOk` false, nothing changes) or succeeds whole;
  a write that fails partway is not modelled.
- JSON parsing and serialisation are abstracted. A subject file holds either a
  list of objects with string values or malformed text. Valid JSON that is not
  a list, or values that are not strings, are not modelled. That includes the
  uncaught error `data.append` raises on such a file in `save_new_card`.
- Read errors other than a missing file are not modelled. `_load_cards` and
  `save_new_card` catch only `FileNotFoundError` and `json.JSONDecodeError`
  (`flashcards.py:35`, `main.py:366`). A file that is not valid UTF-8 raises
  `UnicodeDecodeError`, and an unreadable path raises `PermissionError` or
  `IsADirectoryError`. Such errors escape opening the subject and escape
  `save_new_card` before anything is written. `FileContent` has no case for
  such a file, so the model always loads, and always saves, a readable file.
- `random.shuffle` is modelled only as a permutation for any sequence of
  draws; its distribution is not.
- `lower()` and `capitalize()` map only ASCII letters; the rest of Unicode case
  mapping is not modelled. `strip()` uses Python's full whitespace set.
- The PDF library is abstracted: the page texts are a parameter, and an
  unreadable PDF is `None`.
- The AI service is abstracted. The prompt and the client are not modelled,
  and the reply is a parameter. The requested question count is only
  validated; nothing checks how many questions come back.
- The `AI_ENABLED` import check in `show_quiz_setup_window` and the
  `load_dotenv` call are not modelled. The API key lookup is the `hasApiKey`
  parameter.
- Items in the AI's array that are not objects are not modelled: the parser
  returns a list of string-valued objects.
- Quiz.ExtractTextFromPdf: requires `startPage >= 1`. `run_quiz` ensures this
  before calling it; a smaller start page would make Python read pages from
  the end.
- StudyApp.StudyAssistant.NextQuizQuestion: closing the quiz window after the
  last question is not modelled; the cursor just moves past the end and
  nothing is shown.

## Findings

| source | as written | input that shows it | evidently intended | confidence | as-written member | corrected member |
|---|---|---|---|---|---|---|
| main.py:567-570 | the reply is stripped before the "```json" and "```" fences are removed, so the line breaks inside a fenced block remain and the bracket check fails | the reply "```json\n[]\n```" (a markdown code block on lines of its own) | the fences are removed and the array between them reaches the JSON parser | medium; not executed | Quiz.FencedBlockRejectedAsWritten | Quiz.FencedBlockAccepted |

`Quiz.DecideQuiz` and `StudyApp.StudyAssistant.RunQuiz` take a `fixFences`
flag. With `false` the reply is read as the program reads it; with `true` it
is read with the correction. `Quiz.QuizOpensIff` holds for both.
