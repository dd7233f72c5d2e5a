/** Session statistics and their persistence in the browser's key-value store.

    The store is modelled as a map from keys to already-parsed records; the
    game uses a single key. A field of a parsed record is either an integer or
    `None`, which stands for a missing field and for every falsy non-numeric
    value (`null`, `""`, `false`). Reading a field uses the language's `||`
    operator, so every falsy field value (missing, `null`, 0, `""`, `false`)
    falls back to the default. The language's numbers are doubles; the
    model's counters are unbounded integers.
 */
module Persistence {

  datatype Option<T> = None | Some(value: T)

  /** The key under which the game keeps its statistics. */
  const STORAGE_KEY: string := "emoji-memory-stats"

  /** A stored statistics record as parsed back from the store; `None` is a
      missing field or a falsy non-numeric value. */
  datatype SavedStats = SavedStats(roundsPlayed: Option<int>, knowledgePoints: Option<int>)

  /** The browser's key-value store, with values already parsed. */
  type Store = map<string, SavedStats>

  /** The statistics that survive across rounds. */
  datatype Stats = Stats(roundsPlayed: int, knowledgePoints: int)

  /** What a session starts with when nothing is stored. */
  const InitialStats: Stats := Stats(1, 0)

  /** A field value that the `||` operator keeps: present and non-zero. */
  predicate Truthy(field: Option<int>) {
    field.Some? && field.value != 0
  }

  /** `field || fallback` on a numeric field. */
  function OrElse(field: Option<int>, fallback: int): int {
    if Truthy(field) then field.value else fallback
  }

  /** The record stored under the game's key, if any. */
  function Saved(store: Store): Option<SavedStats> {
    if STORAGE_KEY in store then Some(store[STORAGE_KEY]) else None
  }

  /** The statistics a session starts with, given what is stored: the defaults
      when nothing is stored, otherwise each field falling back to its default
      on its own when it is missing or zero. */
  function LoadStats(saved: Option<SavedStats>): (s: Stats)
    ensures saved.None? ==> s == InitialStats
    ensures s.roundsPlayed != 0
    ensures saved.Some? && Truthy(saved.value.roundsPlayed) ==> s.roundsPlayed == saved.value.roundsPlayed.value
    ensures saved.Some? && !Truthy(saved.value.roundsPlayed) ==> s.roundsPlayed == InitialStats.roundsPlayed
    ensures saved.Some? && Truthy(saved.value.knowledgePoints) ==> s.knowledgePoints == saved.value.knowledgePoints.value
    ensures saved.Some? && !Truthy(saved.value.knowledgePoints) ==> s.knowledgePoints == InitialStats.knowledgePoints
  {
    match saved
    case None => InitialStats
    case Some(record) =>
      Stats(OrElse(record.roundsPlayed, InitialStats.roundsPlayed),
            OrElse(record.knowledgePoints, InitialStats.knowledgePoints))
  }

  /** The record written for a given set of statistics. */
  function Record(s: Stats): SavedStats {
    SavedStats(Some(s.roundsPlayed), Some(s.knowledgePoints))
  }

  /** Writing the statistics under the game's key; every other key is untouched. */
  function SaveStats(store: Store, s: Stats): (store': Store)
    ensures store'.Keys == store.Keys + {STORAGE_KEY}
    ensures Saved(store') == Some(Record(s))
    ensures forall key :: key in store && key != STORAGE_KEY ==> store'[key] == store[key]
  {
    store[STORAGE_KEY := Record(s)]
  }

  /** Removing the game's entry; every other key is untouched. */
  function RemoveStats(store: Store): (store': Store)
    ensures store'.Keys == store.Keys - {STORAGE_KEY}
    ensures Saved(store') == None
    ensures forall key :: key in store' ==> store'[key] == store[key]
  {
    store - {STORAGE_KEY}
  }

  /** Saving and then loading gives back the saved statistics, except that a
      saved round count of 0 reads back as 1. */
  lemma LoadAfterSave(store: Store, s: Stats)
    ensures s.roundsPlayed != 0 ==> LoadStats(Saved(SaveStats(store, s))) == s
    ensures s.roundsPlayed == 0 ==> LoadStats(Saved(SaveStats(store, s))) == Stats(1, s.knowledgePoints)
  {
  }

  /** After the entry is removed, a load yields the initial statistics. */
  lemma LoadAfterRemove(store: Store)
    ensures LoadStats(Saved(RemoveStats(store))) == InitialStats
  {
  }
}
