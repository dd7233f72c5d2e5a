# Emoji memory game: match engine model

This project models the logic of the `MemoryGame` component of an emoji
memory-matching game, and proves properties of that model in Dafny. Twelve
cards (six emoji, each twice) are dealt face down. The player turns cards up
two at a time. A pair showing the same emoji is matched for good and earns
knowledge points. A pair that differs counts as a miss. A delayed callback
turns the face-up cards down again, and a second delayed callback opens a
round summary once every card is matched. A "New Game" button starts a new
round and saves the session statistics (rounds played and knowledge points)
in the browser's storage. A "Clear Storage" button removes the saved entry
and resets the session.

Modules, leaf first:

- `Deck` (`deck.dfy`): the palette, the doubled deck, and the shuffle. The
  shuffle's result is modelled as any permutation of the twelve positions.
  Every property is proved for every permutation.
- `Persistence` (`persistence.dfy`): the key-value store under the key
  `emoji-memory-stats`, the parsed record with fields that may be missing,
  and the rule that reads it with `||` defaults.
- `Engine` (`engine.dfy`): the component state as an immutable `Game` record,
  and one pure function per event: `Click`, `ClearFlipped` (the 1000 ms
  callback), `RevealSummary` (the 500 ms callback), `ResetGame`,
  `ClearStorage`, and the mount that loads saved statistics. It also holds
  the accuracy percentage.
- `Play` (`play.dfy`): runs of events. A `World` holds the game, the store and
  the callbacks still pending. Clicks on the board, pending callbacks and the
  two buttons interleave freely. The invariant `Inv` is proved to hold in
  every reachable world.

Clocks, randomness and the store are parameters. A deal is an explicit
permutation argument. The store is a map argument and a map result. A delayed
callback is a `Timer` value that a click returns and a later `Fire` event
consumes. State updates that the component requests one after another are
applied in that order.

Points of the code's behaviour the model keeps:

- Face-up and matched cards are not always disjoint. After a match, both
  cards stay in the face-up list until the flip-back fires. `Inv` states
  disjointness only while fewer than two cards are face up.
- Pending callbacks are never cancelled, and a new round does not cancel
  them either. `Play.StaleSummaryAfterNewGame` shows the effect: a summary
  callback still pending when "New Game" is pressed opens the summary on the
  new, empty round.
- Knowledge points are saved only by "New Game". Clicks and callbacks never
  touch the store (`Play.RoundScore`). So points earned in the current round
  are not restored by a reload.
- Every falsy field value falls back to its default on its own: a missing
  field, `null`, `0`, `""` and `false`. A stored empty string behaves like no
  entry at all (`if (savedStats)` skips it), which `Saved(store) == None`
  covers. Non-empty unparsable stored text is not defaulted: the parse would
  throw.

## Model

| member | source | states |
|---|---|---|
| `Deck.Shuffle` | src/components/MemoryGame.tsx:124 | the deal is the doubled palette rearranged by any permutation: 12 cards with exactly the multiset of the doubled palette |
| `Deck.PickRespectsMultiset` | src/components/MemoryGame.tsx:8-9 | rearranging positions by any list with the same multiset yields the same multiset of cards, so the model never depends on which permutation the shuffle returns |
| `Deck.ShuffleDealsEachSymbolTwice` | src/components/MemoryGame.tsx:6 | for every permutation, each of the six emoji is dealt exactly twice and nothing outside the palette is dealt |
| `Persistence.LoadStats` | src/components/MemoryGame.tsx:137-142 | with no saved entry the statistics are 1 round and 0 points; otherwise each field keeps its saved value when truthy and falls back on its own to 1 or 0 when falsy (missing, `null`, 0, `""` or `false`); the round count read is never 0 |
| `Persistence.SaveStats` | src/components/MemoryGame.tsx:193-196 | saving writes the record under the game's key, which then reads back as that record, and leaves every other key untouched |
| `Persistence.RemoveStats` | src/components/MemoryGame.tsx:204 | removing deletes only the game's key; afterwards nothing is saved under it |
| `Persistence.LoadAfterSave` | src/components/MemoryGame.tsx:140-141 | a load after a save returns the saved statistics, except that a saved round count of 0 reads back as 1 |
| `Persistence.LoadAfterRemove` | src/components/MemoryGame.tsx:203-204 | a load after the entry is removed returns the initial statistics |
| `Engine.Click` | src/components/MemoryGame.tsx:146-182 | a click with two cards face up, or on a face-up or matched card, changes nothing; otherwise the card joins the end of the face-up list; a move is counted exactly on the click that completes a pair; a matching pair is appended first card first, earns 10 points and is no miss; a differing pair counts one miss and leaves matches and points alone; completing a pair schedules the flip-back, and the summary exactly when the match fills the board |
| `Engine.ClearFlipped` | src/components/MemoryGame.tsx:178-180 | the flip-back empties the face-up list and changes nothing else |
| `Engine.RevealSummary` | src/components/MemoryGame.tsx:166-168 | the summary callback opens the summary and changes nothing else |
| `Engine.Mount` | src/components/MemoryGame.tsx:124-143 | the mounted component holds a fresh round on a shuffled deck, with the statistics the load rule gives for what is stored |
| `Engine.ResetGame` | src/components/MemoryGame.tsx:185-200 | "New Game" empties face-up and matched lists, zeroes moves and misses, closes the summary, deals a new permutation of the doubled palette, adds one round, keeps the points, saves exactly that round count and those points, and leaves other keys alone |
| `Engine.ClearStorage` | src/components/MemoryGame.tsx:203-213 | "Clear Storage" does the same per-round reset, sets 1 round and 0 points whatever they were, and removes only the game's entry |
| `Engine.Accuracy` | src/components/MemoryGame.tsx:215 | accuracy is 0 before any move; otherwise it is within one half of 100 × (moves − misses) / moves, with halves rounded up, and it lies in 0..100 when misses do not exceed moves |
| `Engine.AccuracyRounds` | src/components/MemoryGame.tsx:215 | the integer division used for the rounding lands on the nearest integer, halves up, and within 0..100 |
| `Play.IgnoredTapChangesNothing` | src/components/MemoryGame.tsx:147-152 | a click with two cards face up, or on a face-up or matched card, leaves the whole world unchanged: state, store and pending callbacks |
| `Play.TapPreservesInv` | src/components/MemoryGame.tsx:147-180 | a click on a board card keeps the invariant: at most two face-up cards, no repeated face-up or matched card, matched cards in same-emoji pairs, moves = misses + matched/2, disjointness while fewer than two are face up, and a pending flip-back while two are face up |
| `Play.StepPreservesInv` | src/components/MemoryGame.tsx:146-213 | every event (a click, a pending callback firing, either button) keeps the invariant |
| `Play.RunPreservesInv` | src/components/MemoryGame.tsx:146-213 | any sequence of enabled events keeps the invariant |
| `Play.ReachableSatisfiesInv` | src/components/MemoryGame.tsx:123-143 | every world reachable from mounting satisfies the invariant |
| `Play.InvBounds` | src/components/MemoryGame.tsx:147-158 | in a reachable world at most two cards are face up, at most 12 entries are matched, misses never exceed moves, and accuracy lies in 0..100 |
| `Play.WonIffAllMatched` | src/components/MemoryGame.tsx:165 | a reachable round has as many matched entries as cards exactly when every board position is matched, and then every click is ignored |
| `Play.RoundScore` | src/components/MemoryGame.tsx:158-176 | over any events within one round, matched only grows, the deal, the round count and the store are unchanged, and points grow by exactly 10 per newly matched pair |
| `Play.TwoTaps` | src/components/MemoryGame.tsx:154-180 | two clicks on unmatched cards from an empty slot count one move; a match appends both and earns 10, a mismatch counts one miss; the flip-back is pending and empties the slot when it fires |
| `Play.StaleSummaryAfterNewGame` | src/components/MemoryGame.tsx:166-168 | a summary callback pending when "New Game" is pressed still fires and opens the summary on a round with nothing matched |
| `Play.ReloadAfterNewGame` | src/components/MemoryGame.tsx:191-198 | mounting again after "New Game" starts from one more round played and the same points |
| `Play.ReloadAfterClearSaved` | src/components/MemoryGame.tsx:203-204 | mounting again after "Clear Storage" starts from 1 round and 0 points |

## Left out

- Styling, layout and rendering (the styled components, the JSX, `Card`, `App`, the global style): presentation only. The card's `disabled` flag repeats the matched check that `Click` already models.
- The `LEVEL` constant: it is only displayed.
- `document.title`: a side effect with no bearing on the state.
- The random comparator and the sort algorithm of the shuffle: not visible. Only their result, a permutation, is modelled.
- The real timing of the callbacks: the 1000 ms and 500 ms delays are only documented on `Engine.Timer`, and a `Fire` event may happen at any point after scheduling. This admits more interleavings than real time does, so the invariants hold a fortiori.
- The summary overlay (src/components/MemoryGame.tsx:245-257) covers the whole screen while open and so blocks card clicks and both main buttons; `Play.Enabled` still allows every event then. This admits more runs than the real page does, so the invariants hold a fortiori.
- React's batching and stale-closure behaviour: the updates of one handler are applied in order, each seeing the previous one.
- JSON encoding and parsing: the store holds parsed records. A stored empty string is skipped like a missing entry and is modelled as no entry. Non-empty unparsable text and a stored `null` record (both would throw) are not modelled, nor are truthy non-numeric field values such as `"abc"` or `true`, which would flow into the counters unchanged. Falsy non-numeric field values are modelled as `None` and take the default.
- Number precision of the counters: in the source `roundsPlayed` and `knowledgePoints` are JavaScript numbers (doubles); the model makes them unbounded integers. A fractional stored value such as 2.5 (truthy, so kept by `|| 1`, and then saved as 3.5 by "New Game") is not modelled, nor are values from 2^53 on, where `prev + 1` and `prev + POINTS_PER_MATCH` (src/components/MemoryGame.tsx:173, 192) stop being exact. Both need a hand-edited store.
- Engine.ResetGame: its `roundsPlayed + 1` is exact integer addition; for counts from 2^53 on the source's double addition no longer adds one.
- Engine.Accuracy: computed exactly on rationals. The source computes in double precision, which can differ from the exact value by a rounding error at exact halves.
- Clicks from outside the board: `Click` accepts any integer position (an out-of-range card reads as `undefined`), but runs only click positions 0..11, as the rendered board does.
