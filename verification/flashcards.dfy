/**
 * `FlashcardProgram` from `flashcards.py`: the session engine as a class whose
 * methods update its fields in place. Each method is specified by the
 * corresponding function of SessionSpec; ghost fields record the shuffled
 * order and the cards drawn so far, so that the object invariant can say
 * where every card of the session came from.
 */
module Flashcards {
  import opened Wrappers
  import opened CardStore
  import opened SessionSpec
  import PyPath

  /**
   * `random.shuffle(x)` as CPython runs it: for i from len(x)-1 down to 1,
   * swap x[i] with x[j] for a j drawn from range(i + 1). The draws are the
   * parameter `pick` (j is `pick(i) % (i + 1)`); the result is a permutation
   * of the input whatever the draws are.
   */
  method Shuffle(s: seq<Card>, pick: nat -> nat) returns (r: seq<Card>)
    ensures |r| == |s|
    ensures multiset(r) == multiset(s)
  {
    r := s;
    var i := |r| - 1;
    while i > 0
      invariant i < |r| == |s|
      invariant multiset(r) == multiset(s)
    {
      var j := pick(i) % (i + 1);
      r := r[i := r[j]][j := r[i]];
      i := i - 1;
    }
  }

  /** The subject listing of `get_available_subjects()`: `None` when the data directory does not exist. */
  method GetAvailableSubjects(listing: Option<seq<string>>) returns (subjects: seq<(string, string)>)
    ensures listing.None? ==> subjects == []
    ensures listing.Some? ==> subjects == SubjectEntries(listing.value)
  {
    subjects := [];
    if listing.None? {
      return;
    }
    var names := listing.value;
    var k := 0;
    while k < |names|
      invariant 0 <= k <= |names|
      invariant subjects == SubjectEntries(names[..k])
    {
      var filename := names[k];
      SubjectEntriesStep(names, k);
      if PyStr.EndsWith(filename, JsonSuffix) {
        subjects := subjects + [(DisplayName(filename), filename)];
      }
      k := k + 1;
    }
    assert names[..k] == names;
  }

  class FlashcardProgram {
    var filename: string
    var cards: seq<Card>
    var sessionCards: seq<Card>
    var totalInSession: nat
    var currentSessionIndex: nat
    var incorrectCardsList: seq<Card>
    var currentCard: Option<Card>

    /** The shuffled copy the current session started from (empty before any session). */
    ghost var shuffled: seq<Card>
    /** The cards drawn in the current session, the latest first. */
    ghost var popped: seq<Card>

    /** The session fields as a SessionSpec value. */
    function State(): Session
      reads this
    {
      Session(sessionCards, totalInSession, currentSessionIndex, incorrectCardsList, currentCard)
    }

    /**
     * The object invariant: the session invariant of SessionSpec; the queue
     * followed by the drawn cards (latest first) is the shuffled copy the
     * session was dealt from (which `StartSession` makes a permutation of the
     * deck); every missed card was drawn; the active card is the latest drawn.
     */
    ghost predicate Valid()
      reads this
    {
      && Inv(State())
      && sessionCards + popped == shuffled
      && |shuffled| == totalInSession
      && (forall i :: 0 <= i < |incorrectCardsList| ==> incorrectCardsList[i] in popped)
      && (currentCard.Some? ==> popped != [] && currentCard.value == popped[0])
    }

    /** `__init__(filename)`: the path under "data", the cards loaded leniently, no session. */
    constructor (name: string, files: Files)
      ensures Valid()
      ensures filename == PyPath.Join(DataDir, name)
      ensures cards == LenientLoad(files, filename)
      ensures State() == Initial
    {
      filename := PyPath.Join(DataDir, name);
      cards := LenientLoad(files, PyPath.Join(DataDir, name));
      sessionCards := [];
      totalInSession := 0;
      currentSessionIndex := 0;
      incorrectCardsList := [];
      currentCard := None;
      shuffled := [];
      popped := [];
    }

    /** `get_subject_name()`. */
    function GetSubjectName(): string
      reads this
    {
      SubjectName(filename)
    }

    /**
     * `start_session()`: with no cards nothing changes; otherwise the queue is
     * a shuffled copy of the deck and the counters, the miss list and the
     * active card are reset. The deck itself is left as it was.
     */
    method StartSession(pick: nat -> nat)
      requires Valid()
      modifies this
      ensures Valid()
      ensures cards == old(cards) && filename == old(filename)
      ensures old(cards) == [] ==> State() == old(State())
      ensures old(cards) != [] ==>
        && multiset(sessionCards) == multiset(cards)
        && State() == Started(sessionCards)
        && shuffled == sessionCards && popped == []
    {
      if cards == [] {
        return;
      }
      sessionCards := Shuffle(cards, pick);
      totalInSession := |sessionCards|;
      currentSessionIndex := 0;
      incorrectCardsList := [];
      currentCard := None;
      shuffled := sessionCards;
      popped := [];
    }

    /**
     * `get_next_card_in_session()`: `Draw` of SessionSpec. A draw pops the
     * last queued card, makes it active and returns its title and the progress
     * text; on an empty queue it returns no title and "Sesija završena!".
     */
    method GetNextCardInSession() returns (title: Option<string>, progress: string)
      requires Valid()
      modifies this
      ensures Valid()
      ensures DrawResult(State(), title, progress) == Draw(old(State()))
      ensures cards == old(cards) && filename == old(filename) && shuffled == old(shuffled)
    {
      if sessionCards == [] {
        currentCard := None;
        return None, FinishedText;
      }
      ghost var before := State();
      var card := sessionCards[|sessionCards| - 1];
      var rest := sessionCards[..|sessionCards| - 1];
      assert rest + ([card] + popped) == shuffled by {
        assert rest + [card] == sessionCards;
      }
      currentSessionIndex, sessionCards, currentCard := currentSessionIndex + 1, rest, Some(card);
      popped := [card] + popped;
      progress := Progress(currentSessionIndex, totalInSession);
      title := Some(Get(card, TitleKey, NoTitle));
      assert State() == before.(queue := rest, index := before.index + 1, current := Some(card));
      DrawKeepsInv(before);
    }

    /** `get_current_answer()`. */
    function GetCurrentAnswer(): string
      reads this
    {
      Answer(currentCard)
    }

    /** `mark_current_incorrect()`: `Mark` of SessionSpec. */
    method MarkCurrentIncorrect()
      requires Valid()
      modifies this
      ensures Valid()
      ensures State() == Mark(old(State()))
      ensures cards == old(cards) && filename == old(filename) && shuffled == old(shuffled) && popped == old(popped)
    {
      if currentCard.Some? && Truthy(currentCard.value) && currentCard.value !in incorrectCardsList {
        incorrectCardsList := incorrectCardsList + [currentCard.value];
      }
    }

    /** `get_incorrect_summary()`. */
    function GetIncorrectSummary(): string
      reads this
    {
      Summary(incorrectCardsList)
    }
  }

  /** Extending the listing by one entry extends the menu by at most that entry. */
  lemma SubjectEntriesStep(names: seq<string>, k: nat)
    requires k < |names|
    ensures SubjectEntries(names[..k + 1]) ==
      SubjectEntries(names[..k]) + (if PyStr.EndsWith(names[k], JsonSuffix) then [(DisplayName(names[k]), names[k])] else [])
  {
    assert names[..k + 1][..k] == names[..k];
  }
}
