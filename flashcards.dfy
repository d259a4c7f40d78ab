/** The review screen of the flashcards: a cursor over a non-empty deck, with a flip flag. */
module FlashcardReview {
  import opened Queries

  /** The review state: which card is shown, and whether its answer side is up. */
  datatype Cursor = Cursor(index: int, flipped: bool)

  /** The cursor bounds for a deck of `n` cards. */
  predicate InDeck(c: Cursor, n: int) {
    0 <= c.index < n
  }

  const Start: Cursor := Cursor(0, false)

  /** `handleNext`: a step forward, question side up, unless the last card is shown. */
  function Next(c: Cursor, n: int): (r: Cursor)
    requires InDeck(c, n)
    ensures InDeck(r, n)
    ensures c.index < n - 1 ==> r == Cursor(c.index + 1, false)
    ensures c.index == n - 1 ==> r == c
  {
    if c.index < n - 1 then Cursor(c.index + 1, false) else c
  }

  /** `handlePrevious`: a step back, question side up, unless the first card is shown. */
  function Previous(c: Cursor, n: int): (r: Cursor)
    requires InDeck(c, n)
    ensures InDeck(r, n)
    ensures c.index > 0 ==> r == Cursor(c.index - 1, false)
    ensures c.index == 0 ==> r == c
  {
    if c.index > 0 then Cursor(c.index - 1, false) else c
  }

  /** `handleFlip`: the other side up, on the same card. */
  function Flip(c: Cursor): (r: Cursor)
    ensures r.index == c.index && r.flipped != c.flipped
  {
    Cursor(c.index, !c.flipped)
  }

  lemma FlipTwice(c: Cursor)
    ensures Flip(Flip(c)) == c
  {
  }

  /** Stepping back undoes a step forward that moved, except that the question side is up. */
  lemma PreviousUndoesNext(c: Cursor, n: int)
    requires InDeck(c, n) && c.index < n - 1
    ensures Previous(Next(c, n), n) == Cursor(c.index, false)
  {
  }

  /** `k` presses of "Next": the cursor moves `k` cards on, and stops at the last card. */
  function Forward(c: Cursor, n: int, k: nat): (r: Cursor)
    requires InDeck(c, n)
    ensures InDeck(r, n)
    decreases k
  {
    if k == 0 then c else Forward(Next(c, n), n, k - 1)
  }

  lemma {:induction false} ForwardReaches(c: Cursor, n: int, k: nat)
    requires InDeck(c, n)
    ensures Forward(c, n, k).index == if c.index + k < n then c.index + k else n - 1
    ensures k > 0 && c.index < n - 1 ==> !Forward(c, n, k).flipped
    ensures c.index == n - 1 ==> Forward(c, n, k) == c
    decreases k
  {
    if k > 0 {
      ForwardReaches(Next(c, n), n, k - 1);
    }
  }

  /** `progress`: the share of the deck seen so far, as a percentage. */
  function ReviewProgress(index: int, n: int): (p: real)
    requires 0 <= index < n
    ensures 0.0 < p <= 100.0
    ensures p == 100.0 <==> index == n - 1
  {
    var q := (index + 1) as real / n as real;
    assert q * n as real == (index + 1) as real;
    assert (index + 1) as real <= n as real;
    assert q <= 1.0;
    assert q == 1.0 <==> index == n - 1;
    q * 100.0
  }

  /** Which side is up, as its label says. */
  datatype Side = Question | Answer

  /** The side that is shown, and its text. */
  function ShownSide(c: Cursor): (s: Side)
    ensures s == Answer <==> c.flipped
  {
    if c.flipped then Answer else Question
  }

  function ShownText(card: Flashcard, c: Cursor): (t: string)
    ensures ShownSide(c) == Answer ==> t == card.answer
    ensures ShownSide(c) == Question ==> t == card.question
  {
    if c.flipped then card.answer else card.question
  }

  /** The review screen of a deck. */
  class Review {
    const cards: seq<Flashcard>
    var currentIndex: int
    var isFlipped: bool

    function State(): Cursor
      reads this
    {
      Cursor(currentIndex, isFlipped)
    }

    ghost predicate Valid()
      reads this
    {
      InDeck(State(), |cards|)
    }

    /** Entered only with a non-empty deck, at the first card with its question up. */
    constructor(cards: seq<Flashcard>)
      requires |cards| > 0
      ensures Valid() && this.cards == cards && State() == Start
    {
      this.cards := cards;
      currentIndex := 0;
      isFlipped := false;
    }

    method HandleNext()
      requires Valid()
      modifies this
      ensures Valid() && State() == Next(old(State()), |cards|)
    {
      if currentIndex < |cards| - 1 {
        currentIndex := currentIndex + 1;
        isFlipped := false;
      }
    }

    method HandlePrevious()
      requires Valid()
      modifies this
      ensures Valid() && State() == Previous(old(State()), |cards|)
    {
      if currentIndex > 0 {
        currentIndex := currentIndex - 1;
        isFlipped := false;
      }
    }

    method HandleFlip()
      requires Valid()
      modifies this
      ensures Valid() && State() == Flip(old(State()))
    {
      isFlipped := !isFlipped;
    }

    /** The "Previous" and "Next" buttons are disabled exactly where their handlers do nothing. */
    function PreviousDisabled(): (b: bool)
      reads this
      requires Valid()
      ensures b <==> Previous(State(), |cards|) == State()
    {
      currentIndex == 0
    }

    function NextDisabled(): (b: bool)
      reads this
      requires Valid()
      ensures b <==> Next(State(), |cards|) == State()
    {
      currentIndex == |cards| - 1
    }

    /** The text on the card face. */
    function Shown(): (t: string)
      reads this
      requires Valid()
      ensures isFlipped ==> t == cards[currentIndex].answer
      ensures !isFlipped ==> t == cards[currentIndex].question
    {
      ShownText(cards[currentIndex], State())
    }

    function Progress(): (p: real)
      reads this
      requires Valid()
      ensures 0.0 < p <= 100.0
      ensures p == 100.0 <==> NextDisabled()
    {
      ReviewProgress(currentIndex, |cards|)
    }
  }
}
