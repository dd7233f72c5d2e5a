/** Runs of the memory game: sequences of events applied to the component
    state, the store, and the callbacks still waiting to fire.

    Callbacks are fire-and-forget: starting a new round or clearing storage
    does not cancel them, so a callback scheduled in one round may fire in a
    later one. The invariants below hold for every interleaving of clicks on
    the board, pending callbacks and buttons.
 */
module Play {
  import opened Deck
  import opened Persistence
  import opened Engine

  /** One input to the component. */
  datatype Event =
    | Tap(index: int)             // a click on the card at a board position
    | Fire(timer: Timer)          // a pending callback fires
    | NewGame(order: seq<nat>)    // the "New Game" button, with the deal it gets
    | ClearSaved(order: seq<nat>) // the "Clear Storage" button, with the deal it gets

  /** The component state, the store, and the callbacks still pending. */
  datatype World = World(game: Game, store: Store, pending: multiset<Timer>)

  /** The world right after the component is mounted. */
  function Start(order: seq<nat>, store: Store): World
    requires IsPermutation(order, |Pairs|)
  {
    World(Mount(order, store), store, multiset{})
  }

  /** Events that can happen: clicks come only from cards on the board,
      only pending callbacks fire, and every deal is a permutation. */
  predicate Enabled(w: World, e: Event) {
    match e
    case Tap(i) => 0 <= i < |w.game.cards|
    case Fire(t) => t in w.pending
    case NewGame(order) => IsPermutation(order, |Pairs|)
    case ClearSaved(order) => IsPermutation(order, |Pairs|)
  }

  function Step(w: World, e: Event): World
    requires Enabled(w, e)
  {
    match e
    case Tap(i) =>
      var c := Click(w.game, i);
      World(c.game, w.store, w.pending + c.timers)
    case Fire(t) =>
      var g := if t == FlipBack then ClearFlipped(w.game) else RevealSummary(w.game);
      World(g, w.store, w.pending - multiset{t})
    case NewGame(order) =>
      var o := ResetGame(w.game, w.store, order);
      World(o.game, o.store, w.pending)
    case ClearSaved(order) =>
      var o := ClearStorage(w.game, w.store, order);
      World(o.game, o.store, w.pending)
  }

  /** Every event of the sequence is enabled when it happens. */
  predicate Valid(w: World, events: seq<Event>)
    decreases |events|
  {
    |events| == 0 || (Enabled(w, events[0]) && Valid(Step(w, events[0]), events[1..]))
  }

  function Run(w: World, events: seq<Event>): World
    requires Valid(w, events)
    decreases |events|
  {
    if |events| == 0 then w else Run(Step(w, events[0]), events[1..])
  }

  /** Every entry of s is a board position. */
  predicate OnBoard(s: seq<int>) {
    forall k :: 0 <= k < |s| ==> 0 <= s[k] < DeckSize
  }

  /** No entry of s occurs twice. */
  predicate Distinct(s: seq<int>) {
    forall a, b :: 0 <= a < b < |s| ==> s[a] != s[b]
  }

  /** The matched list is a sequence of pairs, each showing one symbol twice. */
  predicate PairedUp(cards: seq<Emoji>, matched: seq<int>) {
    && |matched| % 2 == 0
    && forall k :: 0 <= k < |matched| && k % 2 == 0 ==> CardAt(cards, matched[k]) == CardAt(cards, matched[k + 1])
  }

  /** No face-up card is also matched. */
  predicate Disjoint(flipped: seq<int>, matched: seq<int>) {
    forall k :: 0 <= k < |flipped| ==> flipped[k] !in matched
  }

  /** What holds of every world a run reaches. Face-up and matched cards are
      disjoint only while fewer than two cards are face up: a matching pair
      stays in both lists until the flip-back fires. */
  predicate Inv(w: World) {
    var g := w.game;
    && |g.cards| == DeckSize && multiset(g.cards) == multiset(Pairs)
    && |g.flipped| <= 2 && OnBoard(g.flipped) && Distinct(g.flipped)
    && OnBoard(g.matched) && Distinct(g.matched) && PairedUp(g.cards, g.matched)
    && g.moves == g.misses + |g.matched| / 2
    && (|g.flipped| < 2 ==> Disjoint(g.flipped, g.matched))
    && (|g.flipped| == 2 ==> FlipBack in w.pending)
  }

  lemma StartSatisfiesInv(order: seq<nat>, store: Store)
    requires IsPermutation(order, |Pairs|)
    ensures Inv(Start(order, store))
  {
  }

  /** Appending two fresh, different positions keeps a list free of repeats. */
  lemma AppendKeepsDistinct(m: seq<int>, a: int, b: int)
    requires Distinct(m) && a !in m && b !in m && a != b
    ensures Distinct(m + [a, b])
  {
    var m' := m + [a, b];
    forall x, y | 0 <= x < y < |m'|
      ensures m'[x] != m'[y]
    {
      if y == |m| + 1 && x == |m| {
      } else if y >= |m| {
        assert m'[x] == m[x];
      }
    }
  }

  /** Appending a pair of positions that show one symbol keeps the pairing. */
  lemma AppendKeepsPairedUp(cards: seq<Emoji>, m: seq<int>, a: int, b: int)
    requires PairedUp(cards, m) && CardAt(cards, a) == CardAt(cards, b)
    ensures PairedUp(cards, m + [a, b])
  {
    var m' := m + [a, b];
    forall k | 0 <= k < |m'| && k % 2 == 0
      ensures CardAt(cards, m'[k]) == CardAt(cards, m'[k + 1])
    {
      if k < |m| {
        assert m'[k] == m[k] && m'[k + 1] == m[k + 1];
      }
    }
  }

  /** A click that completes a matching pair keeps the invariant. */
  lemma MatchPreservesInv(w: World, i: int)
    requires Inv(w) && 0 <= i < DeckSize && CompletesMatch(w.game, i)
    ensures Inv(Step(w, Tap(i)))
  {
    var g := w.game;
    var first := g.flipped[0];
    assert first !in g.matched;
    AppendKeepsDistinct(g.matched, first, i);
    AppendKeepsPairedUp(g.cards, g.matched, first, i);
  }

  /** A click that turns up the first card of a pair keeps the invariant. */
  lemma FirstCardPreservesInv(w: World, i: int)
    requires Inv(w) && 0 <= i < DeckSize && !Ignored(w.game, i) && |w.game.flipped| == 0
    ensures Inv(Step(w, Tap(i)))
  {
    assert Click(w.game, i).game.flipped == [i];
  }

  /** A click that completes a differing pair keeps the invariant. */
  lemma MissPreservesInv(w: World, i: int)
    requires Inv(w) && 0 <= i < DeckSize && Completes(w.game, i) && !CompletesMatch(w.game, i)
    ensures Inv(Step(w, Tap(i)))
  {
    var c := Click(w.game, i);
    assert c.game.flipped == [w.game.flipped[0], i];
    assert FlipBack in w.pending + c.timers;
  }

  /** An ignored click leaves the world as it is. */
  lemma IgnoredTapChangesNothing(w: World, i: int)
    requires 0 <= i < |w.game.cards| && Ignored(w.game, i)
    ensures Step(w, Tap(i)) == w
  {
    assert w.pending + multiset{} == w.pending;
  }

  /** A click on the board keeps the invariant. */
  lemma TapPreservesInv(w: World, i: int)
    requires Inv(w) && 0 <= i < DeckSize
    ensures Inv(Step(w, Tap(i)))
  {
    if Ignored(w.game, i) {
      IgnoredTapChangesNothing(w, i);
    } else if CompletesMatch(w.game, i) {
      MatchPreservesInv(w, i);
    } else if Completes(w.game, i) {
      MissPreservesInv(w, i);
    } else {
      FirstCardPreservesInv(w, i);
    }
  }

  /** A pending callback firing keeps the invariant. */
  lemma FirePreservesInv(w: World, t: Timer)
    requires Inv(w) && t in w.pending
    ensures Inv(Step(w, Fire(t)))
  {
    if t == ShowSummary {
      assert (w.pending - multiset{t})[FlipBack] == w.pending[FlipBack];
    }
  }

  /** Every enabled event keeps the invariant. */
  lemma StepPreservesInv(w: World, e: Event)
    requires Inv(w) && Enabled(w, e)
    ensures Inv(Step(w, e))
  {
    match e
    case Tap(i) => TapPreservesInv(w, i);
    case Fire(t) => FirePreservesInv(w, t);
    case NewGame(_) =>
    case ClearSaved(_) =>
  }

  lemma {:induction false} RunPreservesInv(w: World, events: seq<Event>)
    requires Inv(w) && Valid(w, events)
    ensures Inv(Run(w, events))
    decreases |events|
  {
    if |events| > 0 {
      StepPreservesInv(w, events[0]);
      RunPreservesInv(Step(w, events[0]), events[1..]);
    }
  }

  /** The invariant holds in every world reachable from mounting. */
  lemma ReachableSatisfiesInv(order: seq<nat>, store: Store, events: seq<Event>)
    requires IsPermutation(order, |Pairs|)
    requires Valid(Start(order, store), events)
    ensures Inv(Run(Start(order, store), events))
  {
    StartSatisfiesInv(order, store);
    RunPreservesInv(Start(order, store), events);
  }

  /** The positions listed in s, as a set. */
  function Elements(s: seq<int>): set<int> {
    set x | x in s
  }

  /** The board positions 0..n-1, as a set. */
  function Board(n: nat): set<int> {
    if n == 0 then {} else Board(n - 1) + {n - 1}
  }

  lemma {:induction false} ElementsOfDistinct(s: seq<int>)
    requires Distinct(s)
    ensures |Elements(s)| == |s|
    decreases |s|
  {
    if |s| > 0 {
      var init, last := s[..|s| - 1], s[|s| - 1];
      assert s == init + [last];
      assert Elements(s) == Elements(init) + {last};
      assert last !in Elements(init);
      ElementsOfDistinct(init);
    }
  }

  lemma {:induction false} BoardSize(n: nat)
    ensures |Board(n)| == n
  {
    if n > 0 {
      InBoard(n - 1, n - 1);
      BoardSize(n - 1);
    }
  }

  lemma {:induction false} InBoard(n: nat, k: int)
    ensures k in Board(n) <==> 0 <= k < n
  {
    if n > 0 {
      InBoard(n - 1, k);
    }
  }

  lemma SubsetSize(a: set<int>, b: set<int>)
    requires a <= b
    ensures |a| <= |b|
  {
    assert b == a + (b - a);
  }

  /** A repeat-free list of board positions has at most one entry per card. */
  lemma OnBoardBound(s: seq<int>)
    requires Distinct(s) && OnBoard(s)
    ensures |Elements(s)| == |s| <= DeckSize
  {
    ElementsOfDistinct(s);
    BoardSize(DeckSize);
    ElementsOnBoard(s);
    SubsetSize(Elements(s), Board(DeckSize));
  }

  /** The entries of a list of board positions lie on the board. */
  lemma ElementsOnBoard(s: seq<int>)
    requires OnBoard(s)
    ensures Elements(s) <= Board(DeckSize)
  {
    forall x | x in Elements(s)
      ensures x in Board(DeckSize)
    {
      var j :| 0 <= j < |s| && s[j] == x;
      InBoard(DeckSize, x);
    }
  }

  /** The board without one of its positions. */
  lemma BoardWithout(k: int)
    requires 0 <= k < DeckSize
    ensures |Board(DeckSize) - {k}| == DeckSize - 1
  {
    BoardSize(DeckSize);
    InBoard(DeckSize, k);
    assert Board(DeckSize) == (Board(DeckSize) - {k}) + {k};
  }

  /** A repeat-free list with one entry per card lists every card. */
  lemma FullListCovers(s: seq<int>, k: int)
    requires Distinct(s) && OnBoard(s) && |s| == DeckSize && 0 <= k < DeckSize
    ensures k in s
  {
    if k !in s {
      ElementsOnBoard(s);
      assert Elements(s) <= Board(DeckSize) - {k};
      BoardWithout(k);
      ElementsOfDistinct(s);
      SubsetSize(Elements(s), Board(DeckSize) - {k});
      assert false;
    }
  }

  /** A repeat-free list of board positions that lists every card has one
      entry per card. */
  lemma CoveringListIsFull(s: seq<int>)
    requires Distinct(s) && OnBoard(s)
    requires forall k :: 0 <= k < DeckSize ==> k in s
    ensures |s| == DeckSize
  {
    OnBoardBound(s);
    BoardSize(DeckSize);
    forall k | k in Board(DeckSize)
      ensures k in Elements(s)
    {
      InBoard(DeckSize, k);
    }
    SubsetSize(Board(DeckSize), Elements(s));
  }

  /** A repeat-free list of board positions covers the board exactly when it
      has one entry per card. */
  lemma CoverageOfBoard(s: seq<int>)
    requires Distinct(s) && OnBoard(s)
    ensures |s| <= DeckSize
    ensures |s| == DeckSize <==> forall k :: 0 <= k < DeckSize ==> k in s
  {
    OnBoardBound(s);
    if |s| == DeckSize {
      forall k | 0 <= k < DeckSize
        ensures k in s
      {
        FullListCovers(s, k);
      }
    }
    if forall k :: 0 <= k < DeckSize ==> k in s {
      CoveringListIsFull(s);
    }
  }

  /** Bounds every reachable world satisfies: at most two cards face up, at
      most one matched entry per card, no more misses than moves, and an
      accuracy between 0 and 100. */
  lemma InvBounds(w: World)
    requires Inv(w)
    ensures |w.game.flipped| <= 2
    ensures |w.game.matched| <= DeckSize
    ensures w.game.misses <= w.game.moves
    ensures 0 <= Accuracy(w.game.moves, w.game.misses) <= 100
  {
    CoverageOfBoard(w.game.matched);
  }

  /** A reachable round is won exactly when every card of the board is
      matched, and then every click on the board is ignored. */
  lemma WonIffAllMatched(w: World)
    requires Inv(w)
    ensures Won(w.game) <==> forall k :: 0 <= k < DeckSize ==> k in w.game.matched
    ensures Won(w.game) ==> forall k :: 0 <= k < DeckSize ==> Ignored(w.game, k)
  {
    CoverageOfBoard(w.game.matched);
  }

  /** No button is pressed during the events: they all belong to one round. */
  predicate WithinRound(events: seq<Event>) {
    forall k :: 0 <= k < |events| ==> events[k].Tap? || events[k].Fire?
  }

  /** The facts `RoundScore` states, for the worlds before and after. */
  predicate ScoredWithinRound(w: World, w': World) {
    && w.game.matched <= w'.game.matched
    && w'.game.cards == w.game.cards
    && w'.game.roundsPlayed == w.game.roundsPlayed
    && w'.store == w.store
    && w'.game.knowledgePoints - w.game.knowledgePoints
       == POINTS_PER_MATCH * ((|w'.game.matched| - |w.game.matched|) / 2)
  }

  lemma StepScore(w: World, e: Event)
    requires Enabled(w, e) && (e.Tap? || e.Fire?)
    ensures ScoredWithinRound(w, Step(w, e))
  {
    if e.Tap? {
      var g, g' := w.game, Step(w, e).game;
      if CompletesMatch(g, e.index) {
        assert |g'.matched| - |g.matched| == 2;
      } else {
        assert g'.matched == g.matched;
      }
    }
  }

  lemma ScoreTransitive(w0: World, w1: World, w2: World)
    requires |w0.game.matched| % 2 == 0 && |w1.game.matched| % 2 == 0
    requires ScoredWithinRound(w0, w1) && ScoredWithinRound(w1, w2)
    ensures ScoredWithinRound(w0, w2)
  {
    var a, b, c := |w0.game.matched|, |w1.game.matched|, |w2.game.matched|;
    assert (c - a) / 2 == (b - a) / 2 + (c - b) / 2;
  }

  /** Within one round the matched list only grows, the round count, the
      deal and the store stay as they are, and the knowledge points grow by exactly the
      reward for each newly matched pair. */
  lemma {:induction false} RoundScore(w: World, events: seq<Event>)
    requires Inv(w) && Valid(w, events) && WithinRound(events)
    ensures ScoredWithinRound(w, Run(w, events))
    decreases |events|
  {
    if |events| == 0 {
    } else {
      var w1 := Step(w, events[0]);
      StepPreservesInv(w, events[0]);
      StepScore(w, events[0]);
      assert WithinRound(events[1..]) by {
        forall k | 0 <= k < |events[1..]|
          ensures events[1..][k].Tap? || events[1..][k].Fire?
        {
          assert events[1..][k] == events[k + 1];
        }
      }
      RoundScore(w1, events[1..]);
      ScoreTransitive(w, w1, Run(w, events));
    }
  }

  /** Turning up two unmatched cards from an empty slot: one move; a match
      records both cards and the reward, a mismatch counts a miss; either way
      the flip-back is pending and, when it fires, the slot is empty again. */
  lemma TwoTaps(w: World, a: int, b: int)
    requires |w.game.cards| == DeckSize && w.game.flipped == []
    requires 0 <= a < DeckSize && 0 <= b < DeckSize && a != b
    requires a !in w.game.matched && b !in w.game.matched
    ensures var w2 := Step(Step(w, Tap(a)), Tap(b));
      && w2.game.moves == w.game.moves + 1
      && w2.game.flipped == [a, b]
      && (w.game.cards[a] == w.game.cards[b] ==>
            && w2.game.matched == w.game.matched + [a, b]
            && w2.game.knowledgePoints == w.game.knowledgePoints + POINTS_PER_MATCH
            && w2.game.misses == w.game.misses)
      && (w.game.cards[a] != w.game.cards[b] ==>
            && w2.game.matched == w.game.matched
            && w2.game.knowledgePoints == w.game.knowledgePoints
            && w2.game.misses == w.game.misses + 1)
      && Enabled(w2, Fire(FlipBack))
      && Step(w2, Fire(FlipBack)).game.flipped == []
  {
    var w1 := Step(w, Tap(a));
    assert w1.game.flipped == [a] && w1.game.matched == w.game.matched;
    assert w1.game.cards == w.game.cards;
    assert Completes(w1.game, b);
    assert CompletesMatch(w1.game, b) <==> w.game.cards[a] == w.game.cards[b];
  }

  /** Callbacks are not cancelled by a new round: a summary callback left
      pending when "New Game" is pressed opens the summary on the new round,
      where nothing is matched. */
  lemma StaleSummaryAfterNewGame(w: World, order: seq<nat>)
    requires ShowSummary in w.pending && IsPermutation(order, |Pairs|)
    ensures Enabled(Step(w, NewGame(order)), Fire(ShowSummary))
    ensures var w2 := Step(Step(w, NewGame(order)), Fire(ShowSummary));
      w2.game.showSummary && w2.game.matched == [] && !Won(w2.game)
  {
  }

  /** Mounting again after "New Game" starts from the statistics that button
      saved: one more round played and the same knowledge points (a saved
      round count of 0 would read back as 1). */
  lemma ReloadAfterNewGame(w: World, order: seq<nat>, again: seq<nat>)
    requires IsPermutation(order, |Pairs|) && IsPermutation(again, |Pairs|)
    requires w.game.roundsPlayed + 1 != 0
    ensures var reloaded := Mount(again, Step(w, NewGame(order)).store);
      reloaded.roundsPlayed == w.game.roundsPlayed + 1
      && reloaded.knowledgePoints == w.game.knowledgePoints
  {
  }

  /** Mounting again after "Clear Storage" starts from the initial statistics,
      whatever was stored before. */
  lemma ReloadAfterClearSaved(w: World, order: seq<nat>, again: seq<nat>)
    requires IsPermutation(order, |Pairs|) && IsPermutation(again, |Pairs|)
    ensures var reloaded := Mount(again, Step(w, ClearSaved(order)).store);
      reloaded.roundsPlayed == 1 && reloaded.knowledgePoints == 0
  {
  }
}
