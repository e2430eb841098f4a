/** Concrete plays on small boards, derived from the contracts of `MatchGame.Game` alone. */
module Scenarios {
  import opened Options
  import opened Deck
  import opened Engine
  import opened MatchGame

  /** Species A at positions 0 and 2, species B at 1 and 3. */
  function BoardAB(): seq<Pokemon> {
    [Pokemon(25, "a.png"), Pokemon(7, "b.png"), Pokemon(25, "a.png"), Pokemon(7, "b.png")]
  }

  lemma BoardABIsPaired()
    ensures |BoardAB()| % 2 == 0 && Paired(IdsOf(BoardAB()))
  {
    assert IdsOf(BoardAB()) == [25, 7, 25, 7];
  }

  /** A fresh game whose first round is dealt from `BoardAB` with no difficulty chosen. */
  method NewRoundAB() returns (g: Game)
    ensures fresh(g) && fresh(g.cards) && g.Valid()
    ensures g.State() == GameState(
      [Card(25, false, false, true), Card(7, false, false, true), Card(25, false, false, true), Card(7, false, false, true)],
      None, None, false, 0, 0, DefaultTimeLimit, true, false, 0, "")
  {
    g := new Game();
    BoardABIsPaired();
    g.Begin(BoardAB());
  }

  /** The reset button on a running game, dealing `BoardAB` again: a new grid, both counters
      zero, the countdown running, and the turn state left as it was. */
  method RedealAB(g: Game)
    requires g.Valid()
    modifies g
    ensures g.Valid() && fresh(g.cards)
    ensures g.State() == old(g.State()).(
      cards := [Card(25, false, false, true), Card(7, false, false, true), Card(25, false, false, true), Card(7, false, false, true)],
      matchedPairs := 0, clickCount := 0, timerRunning := true)
  {
    BoardABIsPaired();
    g.Begin(BoardAB());
  }

  /** Two different species: both stay face up and the board is locked until the timeout, which
      turns both face down and unlocks; two clicks, no pair. */
  method MismatchThenTimeout() returns (lockedBefore: bool, upBefore: bool, lockedAfter: bool,
                                        upAfter: bool, clicks: nat, pairs: nat)
    ensures lockedBefore && upBefore && !lockedAfter && !upAfter && clicks == 2 && pairs == 0
  {
    var g := NewRoundAB();
    g.Click(0);
    g.Click(1);
    lockedBefore, upBefore := g.lockBoard, g.cards[0].flipped && g.cards[1].flipped;
    g.ResolveMismatch();
    lockedAfter, upAfter := g.lockBoard, g.cards[0].flipped || g.cards[1].flipped;
    clicks, pairs := g.clickCount, g.matchedPairs;
  }

  /** Two cards of one species: both matched at once, one pair, the turn already cleared. */
  method MatchAtOnce() returns (bothMatched: bool, pairs: nat, locked: bool, turnOpen: bool)
    ensures bothMatched && pairs == 1 && !locked && !turnOpen
  {
    var g := NewRoundAB();
    g.Click(0);
    g.Click(2);
    bothMatched := g.cards[0].matched && g.cards[2].matched;
    pairs, locked, turnOpen := g.matchedPairs, g.lockBoard, g.firstCard.Some?;
  }

  /** A click on a third card while a mismatch is pending changes nothing. */
  method LockedClickIgnored() returns (clicks: nat, thirdUp: bool)
    ensures clicks == 2 && !thirdUp
  {
    var g := NewRoundAB();
    g.Click(0);
    g.Click(1);
    g.Click(2);
    clicks, thirdUp := g.clickCount, g.cards[2].flipped;
  }

  /** With the easy limit of 100 seconds the tick at 99 does nothing and the tick at 150
      ends the game; the countdown is then cleared, and a click afterwards is not taken. */
  method TimeRunsOutOnce() returns (first: bool, second: bool, running: bool, clicks: nat)
    ensures !first && second && !running && clicks == 0
  {
    var g := NewRoundAB();
    g.SelectDifficulty("easy");
    first := g.Tick(99);
    second := g.Tick(150);
    running := g.timerRunning;
    g.Click(0);
    clicks := g.clickCount;
  }

  /** A fresh game whose first round is dealt from a single pair. */
  method NewRoundOnePair() returns (g: Game)
    ensures fresh(g) && fresh(g.cards) && g.Valid()
    ensures g.State() == GameState([Card(150, false, false, true), Card(150, false, false, true)],
                                  None, None, false, 0, 0, DefaultTimeLimit, true, false, 0, "")
  {
    g := new Game();
    var deck := [Pokemon(150, "m.png"), Pokemon(150, "m.png")];
    assert IdsOf(deck) == [150, 150];
    g.Begin(deck);
  }

  /** Matching the only pair of a one-pair board stops the countdown and unbinds every card,
      so a click afterwards is not taken, even after a power-up. */
  method WinFreezesBoard() returns (pairs: nat, running: bool, anyListening: bool, clicks: nat)
    ensures pairs == 1 && !running && !anyListening && clicks == 2
  {
    var g := NewRoundOnePair();
    g.Click(1);
    g.Click(0);
    pairs, running := g.matchedPairs, g.timerRunning;
    anyListening := g.cards[0].listening || g.cards[1].listening;
    g.PowerUp();
    g.PowerUpEnd();
    g.Click(0);
    clicks := g.clickCount;
  }

  /** `resetGame` leaves the turn state alone: a first card clicked before a restart is still
      remembered, so the first click of the new round is taken as the second card of the old turn. */
  method StaleFirstCardAfterRestart() returns (locked: bool, clicks: nat)
    ensures locked && clicks == 1
  {
    var g := NewRoundAB();
    g.Click(0);
    RedealAB(g);
    g.Click(1);
    locked, clicks := g.lockBoard, g.clickCount;
  }

  /** The same species at other places: B at positions 0 and 2, A at 1 and 3. */
  function BoardBA(): seq<Pokemon> {
    [Pokemon(7, "b.png"), Pokemon(25, "a.png"), Pokemon(7, "b.png"), Pokemon(25, "a.png")]
  }

  lemma BoardBAIsPaired()
    ensures |BoardBA()| % 2 == 0 && Paired(IdsOf(BoardBA()))
  {
    assert IdsOf(BoardBA()) == [7, 25, 7, 25];
  }

  /** The reset button on a running game, dealing `BoardBA`. */
  method RedealBA(g: Game)
    requires g.Valid()
    modifies g
    ensures g.Valid() && fresh(g.cards)
    ensures g.State() == old(g.State()).(
      cards := [Card(7, false, false, true), Card(25, false, false, true), Card(7, false, false, true), Card(25, false, false, true)],
      matchedPairs := 0, clickCount := 0, timerRunning := true)
  {
    BoardBAIsPaired();
    g.Begin(BoardBA());
  }

  /** A first card (species A, position 0) remembered across a restart onto `BoardBA`: clicking
      the new A card at position 1 matches the remembered id, so `#img0` (now a face-down B) and
      position 1 are marked matched and a pair is counted; the two remaining cards, one A and
      one B, can never be matched with each other. */
  method StaleFirstCardMatchesOtherSpecies() returns (pairs: nat, staleMatched: bool, staleUp: bool,
                                                      staleId: int, clickedMatched: bool)
    ensures pairs == 1 && staleMatched && !staleUp && staleId == 7 && clickedMatched
  {
    var g := NewRoundAB();
    g.Click(0);
    RedealBA(g);
    g.Click(1);
    pairs, clickedMatched := g.matchedPairs, g.cards[1].matched;
    staleMatched, staleUp, staleId := g.cards[0].matched, g.cards[0].flipped, g.cards[0].id;
  }

  /** A power-up timeout firing while a mismatch is pending turns both pending cards face down,
      and the board stays locked until the mismatch timeout. */
  method PowerUpDuringMismatch() returns (locked: bool, firstUp: bool, secondUp: bool)
    ensures locked && !firstUp && !secondUp
  {
    var g := NewRoundAB();
    g.Click(0);
    g.Click(1);
    g.PowerUp();
    g.PowerUpEnd();
    locked, firstUp, secondUp := g.lockBoard, g.cards[0].flipped, g.cards[1].flipped;
  }

  /** A mismatch timeout pending at a restart is not cancelled: the new board stays locked until
      it fires, and then it turns the new round's cards 0 and 1 face down. */
  method PendingMismatchSurvivesRestart() returns (lockedAfterRestart: bool, clicksWhileLocked: nat,
                                                   lockedAfterTimeout: bool)
    ensures lockedAfterRestart && clicksWhileLocked == 0 && !lockedAfterTimeout
  {
    var g := NewRoundAB();
    g.Click(0);
    g.Click(1);
    RedealAB(g);
    lockedAfterRestart := g.lockBoard;
    g.Click(2);
    clicksWhileLocked := g.clickCount;
    g.ResolveMismatch();
    lockedAfterTimeout := g.lockBoard;
  }

  /** A power-up in the middle of a turn turns the remembered first card face down again, so
      clicking it once more matches it with itself: one pair counted, its partner unmatched. */
  method PowerUpSelfMatch() returns (pairs: nat, cardMatched: bool, partnerMatched: bool)
    ensures pairs == 1 && cardMatched && !partnerMatched
  {
    var g := NewRoundAB();
    g.Click(0);
    g.PowerUp();
    g.PowerUpEnd();
    g.Click(0);
    pairs, cardMatched, partnerMatched := g.matchedPairs, g.cards[0].matched, g.cards[2].matched;
  }
}
