/** The match engine of the memory game: the round state and the transitions
    driven by card clicks, by the two delayed callbacks, and by the two buttons.

    Each transition is a pure function from the current state to the next one.
    Updates that the component requests one after another are applied in that
    order. A click that completes a pair also schedules delayed callbacks;
    these are returned as `Timer` values and fired later as separate events.
 */
module Engine {
  import opened Deck
  import opened Persistence

  /** Knowledge points earned per matched pair. */
  const POINTS_PER_MATCH: int := 10

  /** The two delayed callbacks a click can schedule: the flip-back fires
      1000 ms after the pair is completed, the summary 500 ms after the last
      pair is matched. */
  datatype Timer =
    | FlipBack     // turn the face-up cards down again
    | ShowSummary  // open the round summary

  /** The component's state. `flipped` lists the face-up but unresolved card
      positions in the order they were clicked; `matched` lists the positions
      of matched pairs, each pair in click order. */
  datatype Game = Game(
    cards: seq<Emoji>,
    flipped: seq<int>,
    matched: seq<int>,
    moves: nat,
    misses: nat,
    roundsPlayed: int,
    knowledgePoints: int,
    showSummary: bool)

  /** The state after a click, and the callbacks the click scheduled. */
  datatype Clicked = Clicked(game: Game, timers: multiset<Timer>)

  /** The state after a button, and the store it leaves behind. */
  datatype Outcome = Outcome(game: Game, store: Store)

  /** The card at position k; `None` stands for the `undefined` an
      out-of-range lookup yields. */
  function CardAt(cards: seq<Emoji>, k: int): Option<Emoji> {
    if 0 <= k < |cards| then Some(cards[k]) else None
  }

  /** The guard under which a click is ignored: two cards already await
      resolution, or the card is already face up, or already matched. */
  predicate Ignored(g: Game, i: int) {
    |g.flipped| == 2 || i in g.flipped || i in g.matched
  }

  /** The click turns up the second card of a pair. */
  predicate Completes(g: Game, i: int) {
    !Ignored(g, i) && |g.flipped| == 1
  }

  /** The pair the click completes shows the same symbol twice. */
  predicate CompletesMatch(g: Game, i: int) {
    Completes(g, i) && CardAt(g.cards, g.flipped[0]) == CardAt(g.cards, i)
  }

  /** The round is won once every card is matched. */
  predicate Won(g: Game) {
    |g.matched| == |g.cards|
  }

  /** Resolves a pair that has just been turned up: counts the move, then
      either records the match and its points, or counts the miss. */
  function Resolve(g: Game): Clicked
    requires |g.flipped| == 2
  {
    var first, second := g.flipped[0], g.flipped[1];
    var counted := g.(moves := g.moves + 1);
    if CardAt(g.cards, first) == CardAt(g.cards, second) then
      var matched := g.matched + [first, second];
      var summary := if |matched| == |g.cards| then multiset{ShowSummary} else multiset{};
      Clicked(counted.(matched := matched,
                       knowledgePoints := g.knowledgePoints + POINTS_PER_MATCH),
              multiset{FlipBack} + summary)
    else
      Clicked(counted.(misses := g.misses + 1), multiset{FlipBack})
  }

  /** A click on the card at position i. */
  function Click(g: Game, i: int): (r: Clicked)
    // an ignored click changes nothing and schedules nothing
    ensures Ignored(g, i) ==> r == Clicked(g, multiset{})
    // otherwise the card joins the end of the face-up list
    ensures !Ignored(g, i) ==> r.game.flipped == g.flipped + [i]
    // a click never deals cards, starts a round or opens the summary
    ensures r.game.cards == g.cards && r.game.roundsPlayed == g.roundsPlayed
    ensures r.game.showSummary == g.showSummary
    // a move is counted exactly when the click completes a pair
    ensures r.game.moves == if Completes(g, i) then g.moves + 1 else g.moves
    // a click that does not complete a pair has no other effect
    ensures !Completes(g, i) ==>
              r.timers == multiset{} && r.game.matched == g.matched && r.game.misses == g.misses
              && r.game.knowledgePoints == g.knowledgePoints
    // a matching pair is recorded first card first, earns the reward, and is no miss
    ensures CompletesMatch(g, i) ==>
              r.game.matched == g.matched + [g.flipped[0], i]
              && r.game.knowledgePoints == g.knowledgePoints + POINTS_PER_MATCH
              && r.game.misses == g.misses
    // a differing pair is a miss and leaves the matched list and the points alone
    ensures Completes(g, i) && !CompletesMatch(g, i) ==>
              r.game.matched == g.matched && r.game.knowledgePoints == g.knowledgePoints
              && r.game.misses == g.misses + 1
    // completing a pair always schedules the flip-back, and the summary exactly
    // when every card is now matched
    ensures Completes(g, i) ==> FlipBack in r.timers
    ensures ShowSummary in r.timers <==> CompletesMatch(g, i) && Won(r.game)
    ensures r.timers <= multiset{FlipBack, ShowSummary}
  {
    if Ignored(g, i) then
      Clicked(g, multiset{})
    else
      var flipped := g.flipped + [i];
      var turned := g.(flipped := flipped);
      if |flipped| == 2 then Resolve(turned) else Clicked(turned, multiset{})
  }

  /** The flip-back callback: the face-up cards turn down. */
  function ClearFlipped(g: Game): (r: Game)
    ensures r.flipped == []
    ensures r.(flipped := g.flipped) == g
  {
    g.(flipped := [])
  }

  /** The summary callback: the summary opens. */
  function RevealSummary(g: Game): (r: Game)
    ensures r.showSummary
    ensures r.(showSummary := g.showSummary) == g
  {
    g.(showSummary := true)
  }

  /** A fresh round on the deck dealt by `order`, carrying the given statistics. */
  function NewRound(order: seq<nat>, s: Stats): (g: Game)
    requires IsPermutation(order, |Pairs|)
    ensures |g.cards| == DeckSize && multiset(g.cards) == multiset(Pairs)
  {
    Game(Shuffle(order), [], [], 0, 0, s.roundsPlayed, s.knowledgePoints, false)
  }

  /** The round is fresh: no card face up or matched, no counted move or miss,
      and no summary. */
  predicate IsFresh(g: Game) {
    g.flipped == [] && g.matched == [] && g.moves == 0 && g.misses == 0 && !g.showSummary
  }

  /** The component as first mounted: a fresh round on a shuffled deck, with
      the statistics loaded from the store. */
  function Mount(order: seq<nat>, store: Store): (g: Game)
    requires IsPermutation(order, |Pairs|)
    ensures IsFresh(g)
    ensures multiset(g.cards) == multiset(Pairs)
    ensures Saved(store).None? ==> g.roundsPlayed == 1 && g.knowledgePoints == 0
    ensures Stats(g.roundsPlayed, g.knowledgePoints) == LoadStats(Saved(store))
  {
    NewRound(order, LoadStats(Saved(store)))
  }

  /** The "New Game" button: a fresh round on a new deck, one more round
      played, the points kept, and the new statistics saved. */
  function ResetGame(g: Game, store: Store, order: seq<nat>): (r: Outcome)
    requires IsPermutation(order, |Pairs|)
    ensures IsFresh(r.game)
    ensures |r.game.cards| == DeckSize && multiset(r.game.cards) == multiset(Pairs)
    ensures r.game.roundsPlayed == g.roundsPlayed + 1
    ensures r.game.knowledgePoints == g.knowledgePoints
    ensures Saved(r.store) == Some(SavedStats(Some(g.roundsPlayed + 1), Some(g.knowledgePoints)))
    ensures r.store.Keys == store.Keys + {STORAGE_KEY}
    ensures forall key :: key in store && key != STORAGE_KEY ==> key in r.store && r.store[key] == store[key]
  {
    var s := Stats(g.roundsPlayed + 1, g.knowledgePoints);
    Outcome(NewRound(order, s), SaveStats(store, s))
  }

  /** The "Clear Storage" button: the stored entry is removed and the game
      starts over from the initial statistics, whatever they were before. */
  function ClearStorage(g: Game, store: Store, order: seq<nat>): (r: Outcome)
    requires IsPermutation(order, |Pairs|)
    ensures IsFresh(r.game)
    ensures |r.game.cards| == DeckSize && multiset(r.game.cards) == multiset(Pairs)
    ensures r.game.roundsPlayed == 1 && r.game.knowledgePoints == 0
    ensures Saved(r.store) == None
    ensures r.store.Keys == store.Keys - {STORAGE_KEY}
    ensures forall key :: key in r.store ==> key in store && r.store[key] == store[key]
    ensures forall key :: key in store && key != STORAGE_KEY ==> key in r.store
  {
    Outcome(NewRound(order, InitialStats), RemoveStats(store))
  }

  /** The accuracy percentage: 0 before any move, otherwise the share of
      moves that were not misses, as a percentage rounded to the nearest
      integer with halves rounded up. */
  function Accuracy(moves: nat, misses: nat): (pct: int)
    ensures moves == 0 ==> pct == 0
    // pct - 1/2 <= 100 * (moves - misses) / moves < pct + 1/2
    ensures moves > 0 ==>
              2 * moves * pct - moves <= 200 * (moves - misses) < 2 * moves * pct + moves
    ensures misses <= moves ==> 0 <= pct <= 100
  {
    if moves == 0 then 0
    else
      var pct := (200 * (moves - misses) + moves) / (2 * moves);
      AccuracyRounds(moves, misses, pct);
      pct
  }

  /** The division in `Accuracy` rounds half up, and stays within 0..100
      when there are no more misses than moves. */
  lemma AccuracyRounds(moves: nat, misses: nat, pct: int)
    requires moves > 0
    requires pct == (200 * (moves - misses) + moves) / (2 * moves)
    ensures 2 * moves * pct - moves <= 200 * (moves - misses) < 2 * moves * pct + moves
    ensures misses <= moves ==> 0 <= pct <= 100
  {
    var n, d := 200 * (moves - misses) + moves, 2 * moves;
    FloorDivision(n, d);
    assert d * pct == 2 * moves * pct;
    if misses <= moves {
      if pct < 0 {
        ScaleMonotone(d, pct, -1);
      }
      if pct > 100 {
        ScaleMonotone(d, 101, pct);
      }
    }
  }

  /** Euclidean division by a positive divisor is the floor of the quotient. */
  lemma FloorDivision(n: int, d: int)
    requires d > 0
    ensures d * (n / d) <= n < d * (n / d) + d
  {
  }

  /** Scaling by a positive factor preserves order. */
  lemma ScaleMonotone(d: int, a: int, b: int)
    requires d > 0 && a <= b
    ensures d * a <= d * b
  {
    assert d * b - d * a == d * (b - a);
  }
}
