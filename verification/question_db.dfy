/**
 * The question database window of `main.py`: the title-to-answer dictionary
 * built from the subject's cards, the search filter over its titles and the
 * answer shown for a selected title.
 */
module QuestionDb {
  import opened Wrappers
  import opened PyStr
  import opened CardStore
  import SessionSpec

  const NoAnswerFound: string := "Odgovor nije pronađen."

  /** A Python dictionary from titles to answers: its keys in insertion order, and its entries. */
  datatype QuestionMap = QuestionMap(titles: seq<string>, answers: map<string, string>)

  /** The key order lists each key of the dictionary exactly once. */
  ghost predicate WellFormed(m: QuestionMap) {
    SessionSpec.NoDup(m.titles) && forall t :: t in m.answers <==> t in m.titles
  }

  /** `d[title] = answer`: a new key goes to the end, an existing key keeps its place. */
  function Put(m: QuestionMap, title: string, answer: string): QuestionMap {
    QuestionMap(if title in m.answers then m.titles else m.titles + [title], m.answers[title := answer])
  }

  /** `card['naslov']` and `card['puni_odgovor']` both succeed. */
  predicate HasBothKeys(card: Card) {
    TitleKey in card && AnswerKey in card
  }

  /** The titles of the cards, in card order. */
  function Titles(cards: seq<Card>): (r: seq<string>)
    requires forall i :: 0 <= i < |cards| ==> TitleKey in cards[i]
    ensures |r| == |cards| && forall i :: 0 <= i < |cards| ==> r[i] == cards[i][TitleKey]
  {
    seq(|cards|, i requires 0 <= i < |cards| => cards[i][TitleKey])
  }

  /**
   * `{card['naslov']: card['puni_odgovor'] for card in cards}`, or `None` for
   * the `KeyError` raised when some card lacks either key.
   */
  function BuildQuestionMap(cards: seq<Card>): (r: Option<QuestionMap>)
    decreases |cards|
    ensures r.Some? <==> forall i :: 0 <= i < |cards| ==> HasBothKeys(cards[i])
    ensures r.Some? ==> WellFormed(r.value)
  {
    if cards == [] then Some(QuestionMap([], map[]))
    else
      var init := cards[..|cards| - 1];
      var last := cards[|cards| - 1];
      assert forall i :: 0 <= i < |init| ==> init[i] == cards[i];
      var m := BuildQuestionMap(init);
      if m.None? || !HasBothKeys(last) then None
      else Some(Put(m.value, last[TitleKey], last[AnswerKey]))
  }

  /** The dictionary's keys are exactly the cards' titles. */
  lemma {:induction false} QuestionMapKeys(cards: seq<Card>)
    requires BuildQuestionMap(cards).Some?
    ensures forall t :: t in BuildQuestionMap(cards).value.answers <==> t in Titles(cards)
  {
    if cards != [] {
      var init := cards[..|cards| - 1];
      QuestionMapKeys(init);
      assert Titles(cards) == Titles(init) + [cards[|cards| - 1][TitleKey]];
    }
  }

  /** The first occurrence of each element, in order: the reference for the dictionary's key order. */
  function FirstOccurrences(s: seq<string>): seq<string> {
    if s == [] then []
    else
      var d := FirstOccurrences(s[..|s| - 1]);
      if s[|s| - 1] in s[..|s| - 1] then d else d + [s[|s| - 1]]
  }

  lemma {:induction false} FirstOccurrencesMembership(s: seq<string>)
    ensures forall t :: t in FirstOccurrences(s) <==> t in s
  {
    if s != [] {
      FirstOccurrencesMembership(s[..|s| - 1]);
      assert s == s[..|s| - 1] + [s[|s| - 1]];
    }
  }

  /** The window lists the titles in the order of their first card, each once. */
  lemma {:induction false} TitlesInFirstCardOrder(cards: seq<Card>)
    requires BuildQuestionMap(cards).Some?
    ensures BuildQuestionMap(cards).value.titles == FirstOccurrences(Titles(cards))
  {
    if cards != [] {
      var init := cards[..|cards| - 1];
      TitlesInFirstCardOrder(init);
      var ts := Titles(cards);
      assert ts[..|ts| - 1] == Titles(init);
      FirstOccurrencesMembership(Titles(init));
    }
  }

  /** A title's answer is that of the last card with the title. */
  lemma {:induction false} LastAnswerWins(cards: seq<Card>, i: nat)
    requires BuildQuestionMap(cards).Some?
    requires i < |cards|
    requires forall j :: i < j < |cards| ==> cards[j][TitleKey] != cards[i][TitleKey]
    ensures cards[i][TitleKey] in BuildQuestionMap(cards).value.answers
    ensures BuildQuestionMap(cards).value.answers[cards[i][TitleKey]] == cards[i][AnswerKey]
  {
    if i < |cards| - 1 {
      var init := cards[..|cards| - 1];
      assert init[i] == cards[i];
      LastAnswerWins(init, i);
    }
  }

  /** Whether `search_term.lower() in title.lower()`. */
  predicate Matches(term: string, title: string) {
    Contains(Lower(title), Lower(term))
  }

  /** The titles that match the search term, in order. */
  function Matching(titles: seq<string>, term: string): seq<string> {
    if titles == [] then []
    else
      var rest := Matching(titles[..|titles| - 1], term);
      if Matches(term, titles[|titles| - 1]) then rest + [titles[|titles| - 1]] else rest
  }

  /** A title is listed exactly when it is a key and it matches; the list keeps the keys' order and has no repeats. */
  lemma {:induction false} MatchingIsFilter(titles: seq<string>, term: string)
    ensures forall t :: t in Matching(titles, term) <==> t in titles && Matches(term, t)
    ensures SessionSpec.NoDup(titles) ==> SessionSpec.NoDup(Matching(titles, term))
    ensures |Matching(titles, term)| <= |titles|
  {
    if titles != [] {
      var init := titles[..|titles| - 1];
      MatchingIsFilter(init, term);
      assert titles == init + [titles[|titles| - 1]];
      if SessionSpec.NoDup(titles) {
        assert SessionSpec.NoDup(init) by {
          forall i, j | 0 <= i < j < |init| ensures init[i] != init[j] {
            assert init[i] == titles[i] && init[j] == titles[j];
          }
        }
        assert titles[|titles| - 1] !in init;
      }
    }
  }

  /** The empty search term, with which the window opens, lists every title. */
  lemma {:induction false} EmptyTermListsAll(titles: seq<string>)
    ensures Matching(titles, "") == titles
  {
    if titles != [] {
      EmptyTermListsAll(titles[..|titles| - 1]);
      assert StartsWith(Lower(titles[|titles| - 1]), Lower(""));
      assert titles[..|titles| - 1] + [titles[|titles| - 1]] == titles;
    }
  }

  /** `update_list`: the loop that fills the list box with the matching titles. */
  method UpdateList(m: QuestionMap, term: string) returns (listed: seq<string>)
    ensures listed == Matching(m.titles, term)
  {
    listed := [];
    var i := 0;
    while i < |m.titles|
      invariant 0 <= i <= |m.titles|
      invariant listed == Matching(m.titles[..i], term)
    {
      assert m.titles[..i + 1][..i] == m.titles[..i];
      if Matches(term, m.titles[i]) {
        listed := listed + [m.titles[i]];
      }
      i := i + 1;
    }
    assert m.titles[..i] == m.titles;
  }

  /** `show_answer`: the answer for the selected title, with the dictionary's fallback. */
  function AnswerFor(m: QuestionMap, title: string): string {
    if title in m.answers then m.answers[title] else NoAnswerFound
  }

  /**
   * Selecting a listed title never reaches the fallback: it shows the answer
   * of the last card with that title.
   */
  lemma SelectedTitleShowsLastAnswer(cards: seq<Card>, term: string, i: nat)
    requires BuildQuestionMap(cards).Some?
    requires i < |cards|
    requires forall j :: i < j < |cards| ==> cards[j][TitleKey] != cards[i][TitleKey]
    requires cards[i][TitleKey] in Matching(BuildQuestionMap(cards).value.titles, term)
    ensures AnswerFor(BuildQuestionMap(cards).value, cards[i][TitleKey]) == cards[i][AnswerKey]
  {
    LastAnswerWins(cards, i);
  }

  datatype DatabaseView =
    | EmptyDatabase                   // "Nema pitanja u bazi za ovaj predmet."
    | BrokenDatabase                  // some card lacks a key: the dictionary raises
    | Database(questions: QuestionMap, listed: seq<string>)

  /** `show_question_database` on the subject's cards: the window opens listing every title. */
  function OpenDatabase(cards: seq<Card>): (v: DatabaseView)
    ensures v.EmptyDatabase? <==> cards == []
    ensures v.BrokenDatabase? <==> cards != [] && BuildQuestionMap(cards).None?
    ensures v.Database? ==> v.questions == BuildQuestionMap(cards).value && v.listed == v.questions.titles
  {
    if cards == [] then EmptyDatabase
    else
      var m := BuildQuestionMap(cards);
      if m.None? then BrokenDatabase
      else
        EmptyTermListsAll(m.value.titles);
        Database(m.value, Matching(m.value.titles, ""))
  }
}
