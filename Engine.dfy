/** The turn and matching state machine of `setup` (index.js lines 43-210), on values.
    Each handler of the page becomes a transition function on a `GameState`; the class
    `MatchGame.Game` runs the same handlers in place and is specified by these functions.

    A card is identified by its position in the generated grid, the `<i>` of its front face's
    element id `img<i>`: every later lookup (`$('#img' + i)`) goes by that id, so the
    reordering `shuffleCards` does on the page is not part of the state. */
module Engine {
  import opened Options
  import opened Deck

  /** One card: the species id of its front face (`data-id`), whether it carries the CSS class
      `flip`, whether it carries `matched`, and whether a click handler is bound to it. */
  datatype Card = Card(id: int, flipped: bool, matched: bool, listening: bool)

  /** The front-face element a turn remembers: its grid position and its `data-id`. */
  datatype FrontFace = FrontFace(index: nat, id: int)

  /** Everything the handlers read or write: the grid, the closure variables `firstCard`,
      `secondCard`, `lockBoard`, `matchedPairs`, `timeLimit`, the global `clickCount` and
      `selectedDifficulty`, whether the countdown interval is scheduled, whether a mismatch
      timeout is scheduled, and how many power-up timeouts are scheduled. */
  datatype GameState = GameState(
    cards: seq<Card>,
    firstCard: Option<FrontFace>,
    secondCard: Option<FrontFace>,
    lockBoard: bool,
    matchedPairs: nat,
    clickCount: nat,
    timeLimit: int,
    timerRunning: bool,
    mismatchPending: bool,
    powerUpsPending: nat,
    selectedDifficulty: string)

  const DefaultTimeLimit := 100

  /** The jQuery class and handler changes applied to a card. */
  datatype CardEdit =
    | AddFlip                  // addClass("flip")
    | RemoveFlip               // removeClass("flip")
    | RemoveFlipUnlessMatched  // not(".matched").removeClass("flip")
    | Match                    // addClass("matched").off("click")
    | BindClick                // on("click", ...)
    | UnbindClick              // off("click")

  function Apply(e: CardEdit, c: Card): Card {
    match e
    case AddFlip => c.(flipped := true)
    case RemoveFlip => c.(flipped := false)
    case RemoveFlipUnlessMatched => if c.matched then c else c.(flipped := false)
    case Match => c.(matched := true, listening := false)
    case BindClick => c.(listening := true)
    case UnbindClick => c.(listening := false)
  }

  function CardIds(cards: seq<Card>): seq<int> {
    seq(|cards|, k requires 0 <= k < |cards| => cards[k].id)
  }

  /** An edit applied to every card (`$(".card")...`): the ids stay where they are. */
  function Edited(cards: seq<Card>, e: CardEdit): (r: seq<Card>)
    ensures |r| == |cards| && CardIds(r) == CardIds(cards)
  {
    seq(|cards|, k requires 0 <= k < |cards| => Apply(e, cards[k]))
  }

  /** An edit applied to the card `$('#img' + j)`; when the grid has no such card, nothing changes. */
  function EditAt(cards: seq<Card>, j: nat, e: CardEdit): (r: seq<Card>)
    ensures |r| == |cards| && CardIds(r) == CardIds(cards)
    ensures forall k :: 0 <= k < |cards| ==> r[k] == if k == j then Apply(e, cards[k]) else cards[k]
  {
    if j < |cards| then cards[j := Apply(e, cards[j])] else cards
  }

  /** The cards `generateCards` appends: face down, unmatched, no handler bound yet. */
  function Grid(deck: seq<Pokemon>): (r: seq<Card>)
    ensures |r| == |deck| && CardIds(r) == IdsOf(deck)
  {
    seq(|deck|, k requires 0 <= k < |deck| => Card(deck[k].id, false, false, false))
  }

  /** `$(".card").length / 2` (the grid always has an even number of cards). */
  function TotalPairs(s: GameState): nat {
    |s.cards| / 2
  }

  predicate Frozen(cards: seq<Card>) {
    forall k :: 0 <= k < |cards| ==> !cards[k].listening
  }

  predicate NoneMatched(cards: seq<Card>) {
    forall k :: 0 <= k < |cards| ==> !cards[k].matched
  }

  /** The lock is held exactly while a mismatch timeout is scheduled, which is exactly while a
      second card is remembered, and then a first card is remembered too. */
  predicate TurnInv(s: GameState) {
    s.lockBoard == s.mismatchPending &&
    (s.lockBoard <==> s.secondCard.Some?) &&
    (s.lockBoard ==> s.firstCard.Some?)
  }

  /** A grid with the pair invariant, and a consistent turn state. */
  predicate Shape(s: GameState) {
    |s.cards| % 2 == 0 && Paired(CardIds(s.cards)) && TurnInv(s)
  }

  /** The game invariant: `matchedPairs` never exceeds the number of pairs, reaching it
      leaves no handler bound, and a matched card has no handler. */
  predicate Inv(s: GameState) {
    Shape(s) &&
    s.matchedPairs <= TotalPairs(s) &&
    (s.matchedPairs == TotalPairs(s) ==> Frozen(s.cards)) &&
    (forall k :: 0 <= k < |s.cards| && s.cards[k].matched ==> !s.cards[k].listening)
  }

  /** The state after `setup` runs: an empty grid, no turn, timeLimit 100, no difficulty chosen. */
  function Initial(): (s: GameState)
    ensures Inv(s) && s.cards == [] && s.timeLimit == DefaultTimeLimit && !s.timerRunning
    ensures s.firstCard.None? && s.secondCard.None? && !s.lockBoard && !s.mismatchPending
    ensures s.matchedPairs == 0 && s.clickCount == 0 && s.powerUpsPending == 0 && s.selectedDifficulty == ""
  {
    GameState([], None, None, false, 0, 0, DefaultTimeLimit, false, false, 0, "")
  }

  /** The difficulty handler: the time limit of a known difficulty; otherwise the limit is kept. */
  function DifficultySelected(s: GameState, difficulty: string): (r: GameState)
    ensures r.selectedDifficulty == difficulty
    ensures difficulty == "easy" ==> r.timeLimit == 100
    ensures difficulty == "medium" ==> r.timeLimit == 200
    ensures difficulty == "hard" ==> r.timeLimit == 300
    ensures difficulty !in {"easy", "medium", "hard"} ==> r.timeLimit == s.timeLimit
    ensures r.(timeLimit := s.timeLimit, selectedDifficulty := s.selectedDifficulty) == s
  {
    var limit :=
      if difficulty == "easy" then 100
      else if difficulty == "medium" then 200
      else if difficulty == "hard" then 300
      else s.timeLimit;
    s.(selectedDifficulty := difficulty, timeLimit := limit)
  }

  /** `resetTurn`. */
  function TurnReset(s: GameState): (r: GameState)
    ensures r.firstCard.None? && r.secondCard.None? && !r.lockBoard
    ensures r.(firstCard := s.firstCard, secondCard := s.secondCard, lockBoard := s.lockBoard) == s
  {
    s.(firstCard := None, secondCard := None, lockBoard := false)
  }

  /** `updateMatchedCount`: once `matchedPairs` reaches the number of pairs the countdown is
      cleared and every handler removed; otherwise nothing changes. */
  function MatchCountUpdated(s: GameState): (r: GameState)
    ensures r.matchedPairs == s.matchedPairs && CardIds(r.cards) == CardIds(s.cards) && |r.cards| == |s.cards|
    ensures s.matchedPairs == TotalPairs(s) ==>
      Frozen(r.cards) && !r.timerRunning &&
      (forall k :: 0 <= k < |s.cards| ==> r.cards[k] == s.cards[k].(listening := false)) &&
      r.(cards := s.cards, timerRunning := s.timerRunning) == s
    ensures s.matchedPairs != TotalPairs(s) ==> r == s
  {
    if s.matchedPairs == TotalPairs(s) then
      s.(timerRunning := false, cards := Edited(s.cards, UnbindClick))
    else s
  }

  /** The click handler takes a click on card `i` when a handler is bound to it, the board is
      not locked and the card is not already flipped. */
  predicate Accepts(s: GameState, i: nat)
    requires i < |s.cards|
  {
    s.cards[i].listening && !s.lockBoard && !s.cards[i].flipped
  }

  /** The click handler of `initCardClicks` on card `i` (index.js lines 81-85): a click that is
      taken flips the card, counts, and reveals its front face to the turn. */
  function Clicked(s: GameState, i: nat): (r: GameState)
    requires i < |s.cards|
    ensures |r.cards| == |s.cards| && CardIds(r.cards) == CardIds(s.cards)
  {
    if !Accepts(s, i) then s
    else Revealed(s.(cards := EditAt(s.cards, i, AddFlip), clickCount := s.clickCount + 1),
                  FrontFace(i, s.cards[i].id))
  }

  /** The turn receives a front face (index.js lines 87-92): the first one is remembered; the
      second one is remembered, locks the board and is compared with the first. */
  function Revealed(s: GameState, face: FrontFace): (r: GameState)
    ensures |r.cards| == |s.cards| && CardIds(r.cards) == CardIds(s.cards)
  {
    if s.firstCard.None? then s.(firstCard := Some(face))
    else Compared(s.(secondCard := Some(face), lockBoard := true))
  }

  /** The comparison of the two remembered faces (index.js lines 93-107): equal ids are a
      match, counted and cleared at once; different ids schedule the mismatch timeout. */
  function Compared(s: GameState): (r: GameState)
    requires s.firstCard.Some? && s.secondCard.Some?
    ensures |r.cards| == |s.cards| && CardIds(r.cards) == CardIds(s.cards)
  {
    if s.firstCard.value.id == s.secondCard.value.id then
      var cards := EditAt(EditAt(s.cards, s.firstCard.value.index, Match), s.secondCard.value.index, Match);
      TurnReset(MatchCountUpdated(s.(cards := cards, matchedPairs := s.matchedPairs + 1)))
    else s.(mismatchPending := true)
  }

  /** A click on a card without a handler, on a flipped card or while the board is locked
      changes nothing: no card, no counter, no turn state. */
  lemma ClickIgnored(s: GameState, i: nat)
    requires i < |s.cards| && !Accepts(s, i)
    ensures Clicked(s, i) == s
  {
  }

  /** A click that is taken flips exactly that card and counts once. The first card of a turn
      is remembered and the board stays open; a second card is remembered and locks the board
      when the ids differ, and a mismatch timeout is scheduled. */
  lemma ClickTaken(s: GameState, i: nat)
    requires i < |s.cards| && Accepts(s, i)
    ensures var r := Clicked(s, i);
      r.clickCount == s.clickCount + 1 && r.cards[i].flipped &&
      r.timeLimit == s.timeLimit && r.powerUpsPending == s.powerUpsPending &&
      r.selectedDifficulty == s.selectedDifficulty
    ensures s.firstCard.None? ==>
      Clicked(s, i) == s.(cards := s.cards[i := s.cards[i].(flipped := true)], clickCount := s.clickCount + 1,
                          firstCard := Some(FrontFace(i, s.cards[i].id)))
    ensures s.firstCard.Some? && s.firstCard.value.id != s.cards[i].id ==>
      Clicked(s, i) == s.(cards := s.cards[i := s.cards[i].(flipped := true)], clickCount := s.clickCount + 1,
                          secondCard := Some(FrontFace(i, s.cards[i].id)), lockBoard := true, mismatchPending := true)
  {
  }

  /** A second card with the first card's id: both cards matched and unbound, exactly one more
      pair, and the turn cleared at once. When that was the last pair, every handler goes and
      the countdown stops; otherwise no other card changes. */
  lemma ClickMatches(s: GameState, i: nat)
    requires i < |s.cards| && Accepts(s, i) && s.firstCard.Some? && s.firstCard.value.id == s.cards[i].id
    ensures var r := Clicked(s, i);
      var f := s.firstCard.value.index;
      var won := s.matchedPairs + 1 == TotalPairs(s);
      r.matchedPairs == s.matchedPairs + 1 &&
      r.firstCard.None? && r.secondCard.None? && !r.lockBoard && r.mismatchPending == s.mismatchPending &&
      r.timerRunning == (s.timerRunning && !won) &&
      (forall k :: 0 <= k < |s.cards| ==>
         r.cards[k] == if k == i || k == f then s.cards[k].(flipped := s.cards[k].flipped || k == i, matched := true, listening := false)
                       else if won then s.cards[k].(listening := false)
                       else s.cards[k])
  {
  }

  /** The mismatch timeout: the two remembered cards are turned face down and the turn is
      cleared; no other card and no counter changes. */
  function MismatchResolved(s: GameState): (r: GameState)
    requires s.mismatchPending && s.firstCard.Some? && s.secondCard.Some?
    ensures var f := s.firstCard.value.index; var g := s.secondCard.value.index;
      |r.cards| == |s.cards| && CardIds(r.cards) == CardIds(s.cards) &&
      (forall k :: 0 <= k < |s.cards| ==>
         r.cards[k] == if k == f || k == g then s.cards[k].(flipped := false) else s.cards[k]) &&
      r.firstCard.None? && r.secondCard.None? && !r.lockBoard && !r.mismatchPending &&
      r.(cards := s.cards, firstCard := s.firstCard, secondCard := s.secondCard,
         lockBoard := s.lockBoard, mismatchPending := s.mismatchPending) == s
  {
    var cards := EditAt(EditAt(s.cards, s.firstCard.value.index, RemoveFlip), s.secondCard.value.index, RemoveFlip);
    TurnReset(s.(cards := cards, mismatchPending := false))
  }

  /** The countdown interval: once `elapsed` reaches the time limit the interval is cleared
      and every handler removed; before that nothing changes. */
  function Ticked(s: GameState, elapsed: int): (r: GameState)
    requires s.timerRunning
    ensures elapsed >= s.timeLimit ==>
      !r.timerRunning && Frozen(r.cards) && |r.cards| == |s.cards| &&
      (forall k :: 0 <= k < |s.cards| ==> r.cards[k] == s.cards[k].(listening := false)) &&
      r.(cards := s.cards, timerRunning := true) == s
    ensures elapsed < s.timeLimit ==> r == s
  {
    if elapsed >= s.timeLimit then s.(timerRunning := false, cards := Edited(s.cards, UnbindClick))
    else s
  }

  /** The power-up button: every card is flipped and one more timeout is scheduled. */
  function PoweredUp(s: GameState): (r: GameState)
    ensures |r.cards| == |s.cards| &&
      (forall k :: 0 <= k < |s.cards| ==> r.cards[k] == s.cards[k].(flipped := true)) &&
      r.powerUpsPending == s.powerUpsPending + 1 &&
      r.(cards := s.cards, powerUpsPending := s.powerUpsPending) == s
  {
    s.(cards := Edited(s.cards, AddFlip), powerUpsPending := s.powerUpsPending + 1)
  }

  /** The power-up timeout: every card that is not matched is turned face down; matched cards
      keep their face up. */
  function PowerUpEnded(s: GameState): (r: GameState)
    requires s.powerUpsPending > 0
    ensures |r.cards| == |s.cards| &&
      (forall k :: 0 <= k < |s.cards| ==>
         r.cards[k] == if s.cards[k].matched then s.cards[k] else s.cards[k].(flipped := false)) &&
      r.powerUpsPending == s.powerUpsPending - 1 &&
      r.(cards := s.cards, powerUpsPending := s.powerUpsPending) == s
  {
    s.(cards := Edited(s.cards, RemoveFlipUnlessMatched), powerUpsPending := s.powerUpsPending - 1)
  }

  /** `resetGame`: both counters to zero, every card face down and unbound. The turn state
      (`firstCard`, `secondCard`, `lockBoard`) and a scheduled mismatch timeout are left as they are. */
  function GameReset(s: GameState): (r: GameState)
    ensures r.matchedPairs == 0 && r.clickCount == 0 && |r.cards| == |s.cards|
    ensures CardIds(r.cards) == CardIds(s.cards) && Frozen(r.cards)
    ensures forall k :: 0 <= k < |s.cards| ==>
      r.cards[k] == s.cards[k].(flipped := false, listening := false)
    ensures r.(cards := s.cards, matchedPairs := s.matchedPairs, clickCount := s.clickCount) == s
  {
    s.(matchedPairs := 0, clickCount := 0, cards := Edited(Edited(s.cards, RemoveFlip), UnbindClick))
  }

  /** `shuffleCards`: a handler is bound to every card again. */
  function CardsShuffled(s: GameState): (r: GameState)
    ensures |r.cards| == |s.cards| && CardIds(r.cards) == CardIds(s.cards)
    ensures forall k :: 0 <= k < |s.cards| ==> r.cards[k] == s.cards[k].(listening := true)
    ensures r.(cards := s.cards) == s
  {
    s.(cards := Edited(s.cards, BindClick))
  }

  /** `startTimer`. */
  function TimerStarted(s: GameState): (r: GameState)
    ensures r.timerRunning && r.(timerRunning := s.timerRunning) == s
  {
    s.(timerRunning := true)
  }

  /** The start and reset buttons once `generateCards` has produced `deck`: the new grid,
      `resetGame`, `shuffleCards`, `startTimer`. Every card is face down, unmatched and bound,
      the counters are zero and the countdown runs; the turn state carries over from before. */
  function Begun(s: GameState, deck: seq<Pokemon>): (r: GameState)
    ensures |r.cards| == |deck| && CardIds(r.cards) == IdsOf(deck)
    ensures forall k :: 0 <= k < |deck| ==> r.cards[k] == Card(deck[k].id, false, false, true)
    ensures r.matchedPairs == 0 && r.clickCount == 0 && r.timerRunning
    ensures r.(cards := s.cards, matchedPairs := s.matchedPairs, clickCount := s.clickCount,
               timerRunning := s.timerRunning) == s
  {
    TimerStarted(CardsShuffled(GameReset(s.(cards := Grid(deck)))))
  }

  lemma ClickedKeepsInv(s: GameState, i: nat)
    requires Inv(s) && i < |s.cards|
    ensures Inv(Clicked(s, i))
  {
  }

  lemma MismatchResolvedKeepsInv(s: GameState)
    requires Inv(s) && s.mismatchPending
    ensures s.firstCard.Some? && s.secondCard.Some?
    ensures Inv(MismatchResolved(s))
  {
  }

  lemma BegunKeepsInv(s: GameState, deck: seq<Pokemon>)
    requires TurnInv(s) && |deck| % 2 == 0 && Paired(IdsOf(deck))
    ensures Inv(Begun(s, deck))
  {
  }

  /** An event the page can deliver: a click, one of the scheduled callbacks, or a button. */
  datatype Event =
    | CardClicked(index: nat)
    | MismatchTimeout
    | TimerInterval(elapsed: int)
    | PowerUpClicked
    | PowerUpTimeout
    | DifficultyClicked(difficulty: string)
    | RoundStarted(deck: seq<Pokemon>)

  /** One event. A callback that is not scheduled, a click on a card that is not in the grid and
      a round started from a deck without the pair invariant cannot happen, and leave the state as it is. */
  function Step(s: GameState, e: Event): (r: GameState)
    ensures e.CardClicked? && e.index >= |s.cards| ==> r == s
    ensures e.MismatchTimeout? && !s.mismatchPending ==> r == s
    ensures e.TimerInterval? && !s.timerRunning ==> r == s
    ensures e.PowerUpTimeout? && s.powerUpsPending == 0 ==> r == s
    ensures e.RoundStarted? && !Paired(IdsOf(e.deck)) ==> r == s
    ensures !e.RoundStarted? ==> |r.cards| == |s.cards| && CardIds(r.cards) == CardIds(s.cards)
  {
    match e
    case CardClicked(i) => if i < |s.cards| then Clicked(s, i) else s
    case MismatchTimeout =>
      if s.mismatchPending && s.firstCard.Some? && s.secondCard.Some? then MismatchResolved(s) else s
    case TimerInterval(elapsed) => if s.timerRunning then Ticked(s, elapsed) else s
    case PowerUpClicked => PoweredUp(s)
    case PowerUpTimeout => if s.powerUpsPending > 0 then PowerUpEnded(s) else s
    case DifficultyClicked(d) => DifficultySelected(s, d)
    case RoundStarted(deck) => if |deck| % 2 == 0 && Paired(IdsOf(deck)) then Begun(s, deck) else s
  }

  function Run(s: GameState, events: seq<Event>): (r: GameState)
    ensures NoRestart(events) ==> |r.cards| == |s.cards| && CardIds(r.cards) == CardIds(s.cards)
    decreases |events|
  {
    if |events| == 0 then s
    else
      assert NoRestart(events) ==> NoRestart(events[1..]) by {
        assert forall k :: 0 <= k < |events| - 1 ==> events[1..][k] == events[k + 1];
      }
      Run(Step(s, events[0]), events[1..])
  }

  predicate NoRestart(events: seq<Event>) {
    forall k :: 0 <= k < |events| ==> !events[k].RoundStarted?
  }

  lemma StepKeepsInv(s: GameState, e: Event)
    requires Inv(s)
    ensures Inv(Step(s, e))
  {
    match e
    case CardClicked(i) => if i < |s.cards| { ClickedKeepsInv(s, i); }
    case MismatchTimeout => if s.mismatchPending { MismatchResolvedKeepsInv(s); }
    case TimerInterval(_) =>
    case PowerUpClicked =>
    case PowerUpTimeout =>
    case DifficultyClicked(_) =>
    case RoundStarted(deck) => if |deck| % 2 == 0 && Paired(IdsOf(deck)) { BegunKeepsInv(s, deck); }
  }

  /** Whatever the page delivers, the invariant holds: in particular `matchedPairs` never
      exceeds the number of pairs. */
  lemma {:induction false} RunKeepsInv(s: GameState, events: seq<Event>)
    requires Inv(s)
    ensures Inv(Run(s, events))
    ensures Run(s, events).matchedPairs <= TotalPairs(Run(s, events))
    decreases |events|
  {
    if |events| > 0 {
      StepKeepsInv(s, events[0]);
      RunKeepsInv(Step(s, events[0]), events[1..]);
    }
  }

  /** With no handler bound, an event other than a new round leaves the counters and the
      matched marks alone, and still no handler is bound. (A pending mismatch timeout may
      still fire and clear the turn.) */
  lemma FrozenStep(s: GameState, e: Event)
    requires Frozen(s.cards) && !e.RoundStarted?
    ensures var r := Step(s, e);
      Frozen(r.cards) && |r.cards| == |s.cards| &&
      r.clickCount == s.clickCount && r.matchedPairs == s.matchedPairs
    ensures var r := Step(s, e);
      |r.cards| == |s.cards| && forall k :: 0 <= k < |s.cards| ==> r.cards[k].matched == s.cards[k].matched
  {
  }

  /** Once no handler is bound (time is up or `matchedPairs` reached the number of pairs), no
      click is taken any more until a new round: the click count, the matched pairs and which
      cards are matched stay as they are. */
  lemma {:induction false} FrozenRun(s: GameState, events: seq<Event>)
    requires Frozen(s.cards) && NoRestart(events)
    ensures var r := Run(s, events);
      Frozen(r.cards) && |r.cards| == |s.cards| &&
      r.clickCount == s.clickCount && r.matchedPairs == s.matchedPairs &&
      forall k :: 0 <= k < |s.cards| ==> r.cards[k].matched == s.cards[k].matched
    decreases |events|
  {
    if |events| > 0 {
      FrozenStep(s, events[0]);
      FrozenRun(Step(s, events[0]), events[1..]);
    }
  }

  /** The "Game Over" branch of the countdown ends the round: afterwards no click is taken
      and the countdown does not run again until a new round. */
  lemma ExpiryIsFinal(s: GameState, elapsed: int, events: seq<Event>)
    requires s.timerRunning && elapsed >= s.timeLimit && NoRestart(events)
    ensures var r := Run(Ticked(s, elapsed), events);
      Frozen(r.cards) && !r.timerRunning && r.clickCount == s.clickCount && r.matchedPairs == s.matchedPairs
  {
    FrozenRun(Ticked(s, elapsed), events);
    StoppedTimerRun(Ticked(s, elapsed), events);
  }

  /** Nothing but a new round restarts a cleared countdown. */
  lemma {:induction false} StoppedTimerRun(s: GameState, events: seq<Event>)
    requires !s.timerRunning && NoRestart(events)
    ensures !Run(s, events).timerRunning
    decreases |events|
  {
    if |events| > 0 {
      StoppedTimerRun(Step(s, events[0]), events[1..]);
    }
  }

  /** Once `matchedPairs` reaches the number of pairs (every pair matched, or fewer after a
      self-match), no click is taken any more until a new round. */
  lemma WinIsFinal(s: GameState, events: seq<Event>)
    requires Inv(s) && s.matchedPairs == TotalPairs(s) && NoRestart(events)
    ensures var r := Run(s, events);
      Frozen(r.cards) && r.clickCount == s.clickCount && r.matchedPairs == TotalPairs(r)
  {
    FrozenRun(s, events);
  }

  /** The number of "Game Over" notices a run of events produces. */
  function Expirations(s: GameState, events: seq<Event>): nat
    decreases |events|
  {
    if |events| == 0 then 0
    else
      var e := events[0];
      (if e.TimerInterval? && s.timerRunning && e.elapsed >= s.timeLimit then 1 else 0)
      + Expirations(Step(s, e), events[1..])
  }

  /** Within one round time runs out at most once, and never once the countdown is cleared. */
  lemma {:induction false} AtMostOneExpiry(s: GameState, events: seq<Event>)
    requires NoRestart(events)
    ensures Expirations(s, events) <= if s.timerRunning then 1 else 0
    decreases |events|
  {
    if |events| > 0 {
      var e := events[0];
      AtMostOneExpiry(Step(s, e), events[1..]);
      if e.TimerInterval? && s.timerRunning && e.elapsed >= s.timeLimit {
        StoppedTimerRun(Step(s, e), events[1..]);
      }
    }
  }

  /** The number of "You win!" notices a run of events produces: steps whose match brings
      `matchedPairs` up to the number of pairs. */
  function Wins(s: GameState, events: seq<Event>): nat
    decreases |events|
  {
    if |events| == 0 then 0
    else
      var r := Step(s, events[0]);
      (if r.matchedPairs == TotalPairs(r) && s.matchedPairs != TotalPairs(s) then 1 else 0)
      + Wins(r, events[1..])
  }

  /** Within one round the win is announced at most once, and never again once it was. */
  lemma {:induction false} AtMostOneWin(s: GameState, events: seq<Event>)
    requires Inv(s) && NoRestart(events)
    ensures Wins(s, events) <= if s.matchedPairs < TotalPairs(s) then 1 else 0
    decreases |events|
  {
    if |events| > 0 {
      var e := events[0];
      var r := Step(s, e);
      StepKeepsInv(s, e);
      AtMostOneWin(r, events[1..]);
      if s.matchedPairs == TotalPairs(s) {
        FrozenStep(s, e);
      }
    }
  }

  predicate OnlyInput(events: seq<Event>) {
    forall k :: 0 <= k < |events| ==>
      events[k].CardClicked? || events[k].TimerInterval? || events[k].PowerUpClicked? || events[k].DifficultyClicked?
  }

  /** While a mismatch is pending, clicks, countdown ticks, power-up clicks and difficulty
      changes neither turn a card face down nor change the turn. A power-up timeout (see
      `PowerUpTimeoutHidesPending`), a new round and the mismatch timeout can turn cards face
      down; only the mismatch timeout ends the turn (see `LockHeld`). */
  lemma {:induction false} MismatchHeld(s: GameState, events: seq<Event>)
    requires Inv(s) && s.lockBoard && OnlyInput(events)
    ensures var r := Run(s, events);
      |r.cards| == |s.cards| &&
      (forall k :: 0 <= k < |s.cards| && s.cards[k].flipped ==> r.cards[k].flipped) &&
      r.firstCard == s.firstCard && r.secondCard == s.secondCard && r.lockBoard && r.mismatchPending &&
      r.clickCount == s.clickCount && r.matchedPairs == s.matchedPairs
    decreases |events|
  {
    if |events| > 0 {
      var r := Step(s, events[0]);
      StepKeepsInv(s, events[0]);
      MismatchHeld(r, events[1..]);
    }
  }

  /** The lock and the remembered turn of a pending mismatch persist through every event but
      the mismatch timeout itself, restarts and power-up timeouts included. */
  lemma {:induction false} LockHeld(s: GameState, events: seq<Event>)
    requires Inv(s) && s.lockBoard
    requires forall k :: 0 <= k < |events| ==> !events[k].MismatchTimeout?
    ensures var r := Run(s, events);
      r.lockBoard && r.mismatchPending && r.firstCard == s.firstCard && r.secondCard == s.secondCard
    decreases |events|
  {
    if |events| > 0 {
      StepKeepsInv(s, events[0]);
      LockHeld(Step(s, events[0]), events[1..]);
    }
  }

  /** A power-up timeout firing while a mismatch is pending turns every unmatched card face
      down, the two pending ones included, and the board stays locked on the same turn. */
  lemma PowerUpTimeoutHidesPending(s: GameState)
    requires s.mismatchPending && s.lockBoard && s.powerUpsPending > 0
    ensures var r := Step(s, PowerUpTimeout);
      r.lockBoard && r.mismatchPending && r.firstCard == s.firstCard && r.secondCard == s.secondCard &&
      |r.cards| == |s.cards| &&
      forall k :: 0 <= k < |s.cards| && !s.cards[k].matched ==> !r.cards[k].flipped
  {
  }
}
