/**
 * The flashcard session engine of `flashcards.py` as a state machine over
 * values. `FlashcardProgram` (module Flashcards) is specified by these
 * functions; the lemmas here follow a session over many calls.
 */
module SessionSpec {
  import opened Wrappers
  import opened PyStr
  import opened CardStore

  const FinishedText: string := "Sesija završena!"
  const NoTitle: string := "Nema naslova"
  const NoAnswerField: string := "Nema odgovora"
  const NoCurrentCard: string := "Nema odgovora."
  const UnknownTitle: string := "Nepoznato"
  const AllKnownText: string := "Sva pitanja ste znali! Čestitamo!"
  const MissHeader: string := "Pitanja koja niste znali:"
  const MissBullet: string := "\n- "

  /**
   * The session fields: the queue still to be drawn (drawn from its end), the
   * total fixed at start, the number drawn so far, the miss list and the
   * active card.
   */
  datatype Session = Session(queue: seq<Card>, total: nat, index: nat, misses: seq<Card>, current: Option<Card>)

  /** No element occurs twice. */
  predicate NoDup<T(==)>(s: seq<T>) {
    forall i, j :: 0 <= i < j < |s| ==> s[i] != s[j]
  }

  /** What every reachable session satisfies. */
  predicate Inv(s: Session) {
    s.index + |s.queue| == s.total && NoDup(s.misses)
  }

  /** The fields before any session: what `__init__` sets. */
  const Initial: Session := Session([], 0, 0, [], None)

  /** The fields `start_session` sets from the shuffled copy of the deck. */
  function Started(shuffled: seq<Card>): Session {
    Session(shuffled, |shuffled|, 0, [], None)
  }

  /** The progress text `"Pitanje: i / n"`. */
  function Progress(i: nat, n: nat): string {
    "Pitanje: " + NatToString(i) + " / " + NatToString(n)
  }

  /** The title shown for a card. */
  function Title(c: Card): string {
    Get(c, TitleKey, NoTitle)
  }

  datatype DrawResult = DrawResult(next: Session, title: Option<string>, progress: string)

  /** `get_next_card_in_session()`: pop the last queued card, or report the end. */
  function Draw(s: Session): DrawResult {
    if s.queue == [] then
      DrawResult(s.(current := None), None, FinishedText)
    else
      var c := s.queue[|s.queue| - 1];
      var i := s.index + 1;
      DrawResult(s.(queue := s.queue[..|s.queue| - 1], index := i, current := Some(c)), Some(Title(c)), Progress(i, s.total))
  }

  /** `get_current_answer()` for the active card. */
  function Answer(current: Option<Card>): string {
    if current.Some? && Truthy(current.value) then Get(current.value, AnswerKey, NoAnswerField)
    else NoCurrentCard
  }

  /** `mark_current_incorrect()`: remember the active card once. */
  function Mark(s: Session): Session {
    if s.current.Some? && Truthy(s.current.value) && s.current.value !in s.misses
    then s.(misses := s.misses + [s.current.value])
    else s
  }

  /** The titles listed in the summary, in marking order. */
  function MissTitles(misses: seq<Card>): seq<string> {
    seq(|misses|, i requires 0 <= i < |misses| => Get(misses[i], TitleKey, UnknownTitle))
  }

  /** `get_incorrect_summary()`. */
  function Summary(misses: seq<Card>): string {
    if misses == [] then AllKnownText
    else MissHeader + MissBullet + Join(MissBullet, MissTitles(misses))
  }

  // ---------------------------------------------------------------------------
  // One call

  /** A draw keeps `index + |queue| == total` and the miss list. */
  lemma DrawKeepsInv(s: Session)
    requires Inv(s)
    ensures Inv(Draw(s).next)
    ensures Draw(s).next.total == s.total && Draw(s).next.misses == s.misses
    ensures Draw(s).next.index <= Draw(s).next.total
  {
  }

  /**
   * A draw from a non-empty queue moves the index up by one, removes the last
   * queued card and makes it the active card; the answer then comes from that card.
   */
  lemma DrawPopsLast(s: Session)
    requires s.queue != []
    ensures var d := Draw(s); var c := s.queue[|s.queue| - 1];
      && d.next.index == s.index + 1
      && d.next.queue + [c] == s.queue
      && d.next.current == Some(c)
      && d.title == Some(Title(c))
      && d.progress == Progress(s.index + 1, s.total)
      && Answer(d.next.current) == (if Truthy(c) then Get(c, AnswerKey, NoAnswerField) else NoCurrentCard)
  {
  }

  /** Past the end a draw reports "Sesija završena!", clears the active card, and repeating it changes nothing. */
  lemma DrawPastEnd(s: Session)
    requires s.queue == []
    ensures Draw(s).title == None && Draw(s).progress == FinishedText
    ensures Draw(s).next == s.(current := None)
    ensures Draw(Draw(s).next) == Draw(s)
    ensures Answer(Draw(s).next.current) == NoCurrentCard
  {
  }

  /** Marking keeps the miss list free of duplicates and adds at most the active card. */
  lemma MarkKeepsNoDup(s: Session)
    requires NoDup(s.misses)
    ensures NoDup(Mark(s).misses)
    ensures Mark(s).misses == s.misses || (s.current.Some? && Mark(s).misses == s.misses + [s.current.value])
    ensures Mark(s).(misses := s.misses) == s
  {
  }

  /** Marking twice is marking once; with no (or an empty) active card marking does nothing. */
  lemma MarkIdempotent(s: Session)
    ensures Mark(Mark(s)) == Mark(s)
    ensures s.current.None? || !Truthy(s.current.value) ==> Mark(s) == s
    ensures s.current.Some? && Truthy(s.current.value) ==> s.current.value in Mark(s).misses
  {
  }

  // ---------------------------------------------------------------------------
  // Many calls

  /** The results of `k` consecutive draws starting from `s`. */
  function Run(s: Session, k: nat): (results: seq<DrawResult>)
    ensures |results| == k
    decreases k
  {
    if k == 0 then [] else [Draw(s)] + Run(Draw(s).next, k - 1)
  }

  /** The session after `k` consecutive draws. */
  function After(s: Session, k: nat): Session
    decreases k
  {
    if k == 0 then s else After(Draw(s).next, k - 1)
  }

  /** Draw `j` (counting from 0) of a run is a draw from the session left by the first `j` draws. */
  lemma {:induction false} RunAt(s: Session, k: nat, j: nat)
    requires j < k
    decreases j
    ensures Run(s, k)[j] == Draw(After(s, j))
  {
    if j > 0 {
      RunAt(Draw(s).next, k - 1, j - 1);
    }
  }

  /**
   * After `k` draws that do not pass the end, `k` cards are gone from the end
   * of the queue, the index has grown by `k`, the total and the miss list are
   * as they were.
   */
  lemma {:induction false} AfterRun(s: Session, k: nat)
    requires k <= |s.queue|
    decreases k
    ensures After(s, k).queue == s.queue[..|s.queue| - k]
    ensures After(s, k).index == s.index + k
    ensures After(s, k).total == s.total && After(s, k).misses == s.misses
  {
    if k > 0 {
      var t := Draw(s).next;
      AfterRun(t, k - 1);
      assert t.queue == s.queue[..|s.queue| - 1];
      assert t.queue[..|t.queue| - (k - 1)] == s.queue[..|s.queue| - k];
    }
  }

  /**
   * Draw `j` (counting from 0) of a run that does not pass the end pops
   * `queue[|queue| - 1 - j]`, shows its title and the progress
   * `index + j + 1 / total`.
   */
  lemma RunPopsQueueBackwards(s: Session, k: nat, j: nat)
    requires j < k <= |s.queue|
    ensures Run(s, k)[j].next.current == Some(s.queue[|s.queue| - 1 - j])
    ensures Run(s, k)[j].title == Some(Title(s.queue[|s.queue| - 1 - j]))
    ensures Run(s, k)[j].progress == Progress(s.index + j + 1, s.total)
  {
    RunAt(s, k, j);
    AfterRun(s, j);
  }

  /** The cards of `s.queue` in the order a run draws them. */
  function Reverse(q: seq<Card>): (r: seq<Card>)
    ensures |r| == |q|
    ensures forall j :: 0 <= j < |q| ==> r[j] == q[|q| - 1 - j]
  {
    if q == [] then [] else [q[|q| - 1]] + Reverse(q[..|q| - 1])
  }

  lemma {:induction false} ReverseSameMultiset(q: seq<Card>)
    ensures multiset(Reverse(q)) == multiset(q)
  {
    if q != [] {
      ReverseSameMultiset(q[..|q| - 1]);
      assert q == q[..|q| - 1] + [q[|q| - 1]];
    }
  }

  /** The cards made active by the draws of a run, one per draw. */
  function DrawnCards(results: seq<DrawResult>): (cards: seq<Option<Card>>)
    ensures |cards| == |results|
    ensures forall j :: 0 <= j < |results| ==> cards[j] == results[j].next.current
  {
    seq(|results|, j requires 0 <= j < |results| => results[j].next.current)
  }

  /** The draws of a whole session make the shuffled cards active, last one first. */
  lemma SessionDrawsBackwards(shuffled: seq<Card>)
    ensures var n := |shuffled|;
      forall j :: 0 <= j < n ==> DrawnCards(Run(Started(shuffled), n))[j] == Some(Reverse(shuffled)[j])
  {
    var n := |shuffled|;
    forall j | 0 <= j < n ensures DrawnCards(Run(Started(shuffled), n))[j] == Some(Reverse(shuffled)[j]) {
      RunAt(Started(shuffled), n, j);
      AfterRun(Started(shuffled), j);
    }
  }

  /** The i-th draw of a whole session shows "Pitanje: i / n". */
  lemma SessionProgress(shuffled: seq<Card>)
    ensures var n := |shuffled|;
      forall j :: 0 <= j < n ==> Run(Started(shuffled), n)[j].progress == Progress(j + 1, n)
  {
    var n := |shuffled|;
    forall j | 0 <= j < n ensures Run(Started(shuffled), n)[j].progress == Progress(j + 1, n) {
      RunPopsQueueBackwards(Started(shuffled), n, j);
    }
  }

  /** After a whole session the queue is empty, the index equals the total, and the next draw reports the end. */
  lemma SessionEnds(shuffled: seq<Card>)
    ensures var n := |shuffled|; var a := After(Started(shuffled), n);
      && a.queue == [] && a.index == a.total == n
      && Draw(a).title == None && Draw(a).progress == FinishedText
  {
    AfterRun(Started(shuffled), |shuffled|);
  }

  /**
   * A whole session: start on a shuffled copy of the deck and draw until the
   * queue is empty. The cards drawn are the shuffled list read backwards, so
   * each card of the deck is drawn exactly as often as it occurs in the deck
   * (SessionProgress and SessionEnds give the progress texts and the end).
   */
  lemma WholeSession(deck: seq<Card>, shuffled: seq<Card>)
    requires multiset(shuffled) == multiset(deck)
    ensures |shuffled| == |deck|
    ensures forall j :: 0 <= j < |shuffled| ==>
      DrawnCards(Run(Started(shuffled), |shuffled|))[j] == Some(Reverse(shuffled)[j])
    ensures multiset(Reverse(shuffled)) == multiset(deck)
  {
    assert |shuffled| == |multiset(deck)| == |deck|;
    SessionDrawsBackwards(shuffled);
    ReverseSameMultiset(shuffled);
  }

  // ---------------------------------------------------------------------------
  // The summary

  /** One "\n- title" line per missed card. */
  function Lines(titles: seq<string>): string {
    if titles == [] then "" else MissBullet + titles[0] + Lines(titles[1..])
  }

  lemma {:induction false} JoinAsLines(titles: seq<string>)
    requires titles != []
    ensures MissBullet + Join(MissBullet, titles) == Lines(titles)
  {
    if |titles| > 1 {
      JoinAsLines(titles[1..]);
    }
  }

  /**
   * With no misses the summary is the congratulation; otherwise it is the
   * header followed by one "\n- title" line per missed card in marking order
   * ("Nepoznato" for a card without a title).
   */
  lemma SummaryShape(misses: seq<Card>)
    ensures misses == [] ==> Summary(misses) == AllKnownText
    ensures misses != [] ==> Summary(misses) == MissHeader + Lines(MissTitles(misses))
  {
    if misses != [] {
      JoinAsLines(MissTitles(misses));
    }
  }
}
