/** The page's handlers as one object: the grid is an array of cards that the handlers update in
    place, and the closure variables of `setup` (and the globals `clickCount` and
    `selectedDifficulty`) are fields. Each handler method is specified by the transition of
    `Engine` it performs and keeps the game invariant `Engine.Inv`. The sub-steps `Reveal`,
    `Compare`, `UpdateMatchedCount` and `ResetTurn` are specified by their transitions alone,
    `ResetGame` establishes the invariant from the pair shape, and `EditAll`/`EditOne` are
    specified by `Edited`/`EditAt` on the array. */
module MatchGame {
  import opened Options
  import opened Deck
  import opened Engine

  /** The `for` loop of `generateCards` that appends one card per deck entry (index.js lines 34-40). */
  method BuildGrid(deck: seq<Pokemon>) returns (a: array<Card>)
    ensures fresh(a) && a[..] == Grid(deck)
  {
    a := new Card[|deck|];
    for k := 0 to |deck|
      invariant forall j :: 0 <= j < k ==> a[j] == Card(deck[j].id, false, false, false)
    {
      a[k] := Card(deck[k].id, false, false, false);
    }
  }

  class Game {
    var cards: array<Card>
    var firstCard: Option<FrontFace>
    var secondCard: Option<FrontFace>
    var lockBoard: bool
    var matchedPairs: nat
    var clickCount: nat
    var timeLimit: int
    var timerRunning: bool
    var mismatchPending: bool
    var powerUpsPending: nat
    var selectedDifficulty: string

    ghost function State(): GameState
      reads this, cards
    {
      GameState(cards[..], firstCard, secondCard, lockBoard, matchedPairs, clickCount,
                timeLimit, timerRunning, mismatchPending, powerUpsPending, selectedDifficulty)
    }

    ghost predicate Valid()
      reads this, cards
    {
      Inv(State())
    }

    /** `setup` and the global initialisers. */
    constructor ()
      ensures Valid() && State() == Initial()
    {
      cards := new Card[0];
      firstCard, secondCard, lockBoard := None, None, false;
      matchedPairs, clickCount := 0, 0;
      timeLimit, timerRunning := DefaultTimeLimit, false;
      mismatchPending, powerUpsPending := false, 0;
      selectedDifficulty := "";
    }

    /** Applies one edit to every card, in grid order. */
    method EditAll(e: CardEdit)
      modifies cards
      ensures cards[..] == Edited(old(cards[..]), e)
    {
      for k := 0 to cards.Length
        invariant forall j :: 0 <= j < k ==> cards[j] == Apply(e, old(cards[j]))
        invariant forall j :: k <= j < cards.Length ==> cards[j] == old(cards[j])
      {
        cards[k] := Apply(e, cards[k]);
      }
    }

    /** Applies one edit to the card `$('#img' + j)`, if the grid has it. */
    method EditOne(j: nat, e: CardEdit)
      modifies cards
      ensures cards[..] == EditAt(old(cards[..]), j, e)
    {
      if j < cards.Length {
        cards[j] := Apply(e, cards[j]);
      }
    }

    /** The difficulty buttons (index.js lines 147-156). */
    method SelectDifficulty(difficulty: string)
      requires Valid()
      modifies this
      ensures Valid() && cards == old(cards)
      ensures State() == DifficultySelected(old(State()), difficulty)
    {
      selectedDifficulty := difficulty;
      if difficulty == "easy" {
        timeLimit := 100;
      } else if difficulty == "medium" {
        timeLimit := 200;
      } else if difficulty == "hard" {
        timeLimit := 300;
      }
    }

    /** The start and reset buttons (index.js lines 52-76), given the random draws, the species
        lookup and the shuffle's exchanges. Without a difficulty nothing happens; when the draws
        run out before the deck is complete the round does not start. */
    method Start(rolls: seq<int>, artwork: int -> Option<string>, swaps: seq<(int, int)>)
      returns (deck: Option<seq<Pokemon>>)
      requires Valid() && ValidRolls(rolls)
      modifies this
      ensures Valid()
      ensures var d := old(selectedDifficulty);
        var chosen := Pick(PairCount(d), rolls, artwork, {}, []);
        (deck.Some? <==> d != "" && |chosen| == PairCount(d)) &&
        (deck.Some? ==> deck.value == Shuffled(chosen + chosen, swaps) &&
                        fresh(cards) && State() == Begun(old(State()), deck.value))
      ensures deck.None? ==> cards == old(cards) && State() == old(State())
    {
      if selectedDifficulty == "" {
        return None;
      }
      deck := GenerateCards(selectedDifficulty, rolls, artwork, swaps);
      if deck.Some? {
        Begin(deck.value);
      }
    }

    /** What the start and reset buttons do after `generateCards`: the new grid, then
        `resetGame`, `shuffleCards` and `startTimer`. */
    method Begin(deck: seq<Pokemon>)
      requires Valid() && |deck| % 2 == 0 && Paired(IdsOf(deck))
      modifies this
      ensures Valid() && fresh(cards)
      ensures State() == Begun(old(State()), deck)
    {
      BegunKeepsInv(State(), deck);
      cards := BuildGrid(deck);
      ResetGame();
      ShuffleCards();
      StartTimer();
    }

    /** `resetGame` (index.js lines 191-204). */
    method ResetGame()
      requires Shape(State())
      modifies this, cards
      ensures Valid() && cards == old(cards)
      ensures State() == GameReset(old(State()))
    {
      matchedPairs := 0;
      clickCount := 0;
      EditAll(RemoveFlip);
      EditAll(UnbindClick);
    }

    /** `shuffleCards` (index.js lines 159-164): the page reorders the card elements, which only
        changes where they are drawn, and `initCardClicks` binds a handler to every card. */
    method ShuffleCards()
      requires Valid() && matchedPairs == 0 && NoneMatched(cards[..])
      modifies cards
      ensures Valid()
      ensures State() == CardsShuffled(old(State()))
    {
      EditAll(BindClick);
      assert cards.Length > 0 ==> matchedPairs < TotalPairs(State());
    }

    /** `startTimer` (index.js lines 119-134): any earlier interval is cleared and a new one scheduled. */
    method StartTimer()
      requires Valid()
      modifies this
      ensures Valid() && cards == old(cards)
      ensures State() == TimerStarted(old(State()))
    {
      timerRunning := true;
    }

    /** The click handler of `initCardClicks` (index.js lines 80-109), on card `i`. */
    method Click(i: nat)
      requires Valid() && i < cards.Length
      modifies this, cards
      ensures Valid() && cards == old(cards)
      ensures State() == Clicked(old(State()), i)
    {
      ghost var before := State();
      ClickedKeepsInv(before, i);
      // Without a bound handler the click does not reach the handler at all.
      if !cards[i].listening || lockBoard || cards[i].flipped {
        return;
      }
      EditOne(i, AddFlip);
      clickCount := clickCount + 1;
      assert State() == before.(cards := EditAt(before.cards, i, AddFlip), clickCount := before.clickCount + 1);
      Reveal(FrontFace(i, cards[i].id));
    }

    /** The branch on `firstCard` of the click handler (index.js lines 87-92). */
    method Reveal(face: FrontFace)
      modifies this, cards
      ensures cards == old(cards)
      ensures State() == Revealed(old(State()), face)
    {
      if firstCard.None? {
        firstCard := Some(face);
      } else {
        secondCard := Some(face);
        lockBoard := true;
        Compare();
      }
    }

    /** The comparison of the two remembered faces (index.js lines 93-107). */
    method Compare()
      requires firstCard.Some? && secondCard.Some?
      modifies this, cards
      ensures cards == old(cards)
      ensures State() == Compared(old(State()))
    {
      if firstCard.value.id == secondCard.value.id {
        EditOne(firstCard.value.index, Match);
        EditOne(secondCard.value.index, Match);
        matchedPairs := matchedPairs + 1;
        UpdateMatchedCount();
        ResetTurn();
      } else {
        mismatchPending := true;
      }
    }

    /** `updateMatchedCount` (index.js lines 167-181). */
    method UpdateMatchedCount()
      modifies this, cards
      ensures cards == old(cards)
      ensures State() == MatchCountUpdated(old(State()))
    {
      if matchedPairs == cards.Length / 2 {
        timerRunning := false;
        EditAll(UnbindClick);
      }
    }

    /** `resetTurn` (index.js lines 184-188). */
    method ResetTurn()
      modifies this
      ensures cards == old(cards)
      ensures State() == TurnReset(old(State()))
    {
      firstCard := None;
      secondCard := None;
      lockBoard := false;
    }

    /** The timeout scheduled after a mismatch (index.js lines 102-106). */
    method ResolveMismatch()
      requires Valid() && mismatchPending
      modifies this, cards
      ensures Valid() && cards == old(cards)
      ensures old(firstCard).Some? && old(secondCard).Some?
      ensures State() == MismatchResolved(old(State()))
    {
      MismatchResolvedKeepsInv(State());
      EditOne(firstCard.value.index, RemoveFlip);
      EditOne(secondCard.value.index, RemoveFlip);
      mismatchPending := false;
      ResetTurn();
    }

    /** One firing of the countdown interval (index.js lines 123-133), `elapsed` whole seconds
        after it was started; `gameOver` is the "Game Over!" branch. */
    method Tick(elapsed: int) returns (gameOver: bool)
      requires Valid() && timerRunning
      modifies this, cards
      ensures Valid() && cards == old(cards)
      ensures gameOver == (elapsed >= old(timeLimit))
      ensures State() == Ticked(old(State()), elapsed)
    {
      gameOver := elapsed >= timeLimit;
      if gameOver {
        timerRunning := false;
        EditAll(UnbindClick);
      }
    }

    /** The power-up button (index.js lines 137-140). */
    method PowerUp()
      requires Valid()
      modifies this, cards
      ensures Valid() && cards == old(cards)
      ensures State() == PoweredUp(old(State()))
    {
      EditAll(AddFlip);
      powerUpsPending := powerUpsPending + 1;
    }

    /** The timeout the power-up button schedules (index.js lines 141-143). */
    method PowerUpEnd()
      requires Valid() && powerUpsPending > 0
      modifies this, cards
      ensures Valid() && cards == old(cards)
      ensures State() == PowerUpEnded(old(State()))
    {
      EditAll(RemoveFlipUnlessMatched);
      powerUpsPending := powerUpsPending - 1;
    }
  }
}
