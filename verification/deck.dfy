/** The deck of the emoji memory game: a palette of six symbols, doubled,
    and dealt in an order chosen by a shuffle.

    The shuffle itself (a comparator-based sort driven by a random number
    generator) is not visible to the model. What it returns is a rearrangement
    of its input, so the model takes the rearrangement as a parameter: a
    permutation `order` of the positions 0..11, where the card dealt at
    position k is the symbol at position order[k] of the doubled palette.
    Every fact proved about the deck holds for every such permutation.
 */
module Deck {

  /** The six symbols of the palette. */
  datatype Emoji = Dog | Cat | Lion | Frog | Monkey | Rabbit

  /** The palette, in the order the game lists it. */
  const Palette: seq<Emoji> := [Dog, Cat, Lion, Frog, Monkey, Rabbit]

  /** The palette followed by itself: the unshuffled deck. */
  const Pairs: seq<Emoji> := Palette + Palette

  /** Number of cards on the board. */
  const DeckSize: nat := 12

  /** The positions 0, 1, ..., n-1 in increasing order: n entries, the one
      at index k being k. */
  function Positions(n: nat): seq<nat> {
    seq(n, k requires 0 <= k < n => k as nat)
  }

  /** `order` lists every position below n exactly once. */
  predicate IsPermutation(order: seq<nat>, n: nat) {
    multiset(order) == multiset(Positions(n))
  }

  /** Every entry of `order` selects a position of `source`. */
  predicate Selects<T>(order: seq<nat>, source: seq<T>) {
    forall k :: 0 <= k < |order| ==> order[k] < |source|
  }

  /** The entries of `source` at the positions listed by `order`, in that order. */
  function Pick<T>(source: seq<T>, order: seq<nat>): (r: seq<T>)
    requires Selects(order, source)
    ensures |r| == |order|
  {
    seq(|order|, k requires 0 <= k < |order| => source[order[k]])
  }

  /** A permutation of the positions below n has n entries, each below n. */
  lemma PermutationSelects<T>(order: seq<nat>, source: seq<T>)
    requires IsPermutation(order, |source|)
    ensures |order| == |source|
    ensures Selects(order, source)
  {
    calc {
      |order|;
      |multiset(order)|;
      |multiset(Positions(|source|))|;
      |source|;
    }
    forall k | 0 <= k < |order|
      ensures order[k] < |source|
    {
      assert order[k] in multiset(order);
      assert order[k] in multiset(Positions(|source|));
      var j :| 0 <= j < |source| && Positions(|source|)[j] == order[k];
    }
  }

  /** Picking distributes over concatenation of the position lists. */
  lemma PickAppend<T>(source: seq<T>, a: seq<nat>, b: seq<nat>)
    requires Selects(a, source) && Selects(b, source)
    ensures Selects(a + b, source)
    ensures Pick(source, a + b) == Pick(source, a) + Pick(source, b)
  {
    assert Selects(a + b, source) by {
      forall k | 0 <= k < |a + b|
        ensures (a + b)[k] < |source|
      {
        if k >= |a| {
          assert (a + b)[k] == b[k - |a|];
        }
      }
    }
  }

  /** Removing one position from the list removes its entry from the picked multiset. */
  lemma PickRemove<T>(source: seq<T>, ys: seq<nat>, j: nat)
    requires Selects(ys, source) && j < |ys|
    ensures Selects(ys[..j] + ys[j + 1..], source)
    ensures multiset(Pick(source, ys))
         == multiset(Pick(source, ys[..j] + ys[j + 1..])) + multiset{source[ys[j]]}
  {
    var front, back := ys[..j], ys[j + 1..];
    assert ys == front + [ys[j]] + back;
    PickAppend(source, front, back);
    PickAppend(source, front, [ys[j]]);
    PickAppend(source, front + [ys[j]], back);
  }

  /** Removing one occurrence of ys[j] from ys removes it from its multiset. */
  lemma RemoveOccurrence(ys: seq<nat>, j: nat)
    requires j < |ys|
    ensures multiset(ys[..j] + ys[j + 1..]) == multiset(ys) - multiset{ys[j]}
  {
    assert ys == ys[..j] + [ys[j]] + ys[j + 1..];
  }

  /** The multiset of picked entries depends only on the multiset of positions. */
  lemma {:induction false} PickRespectsMultiset<T>(source: seq<T>, xs: seq<nat>, ys: seq<nat>)
    requires Selects(xs, source) && Selects(ys, source)
    requires multiset(xs) == multiset(ys)
    ensures multiset(Pick(source, xs)) == multiset(Pick(source, ys))
    decreases |xs|
  {
    if |xs| == 0 {
      assert |ys| == |multiset(ys)| == 0;
    } else {
      assert xs[0] in multiset(ys);
      var j :| 0 <= j < |ys| && ys[j] == xs[0];
      var xr, yr := xs[..0] + xs[1..], ys[..j] + ys[j + 1..];
      RemoveOccurrence(xs, 0);
      RemoveOccurrence(ys, j);
      PickRemove(source, xs, 0);
      PickRemove(source, ys, j);
      PickRespectsMultiset(source, xr, yr);
    }
  }

  /** A freshly shuffled deck: the doubled palette rearranged by `order`. */
  function Shuffle(order: seq<nat>): (deck: seq<Emoji>)
    requires IsPermutation(order, |Pairs|)
    ensures |deck| == DeckSize
    ensures multiset(deck) == multiset(Pairs)
  {
    PermutationSelects(order, Pairs);
    var identity := Positions(|Pairs|);
    assert Pick(Pairs, identity) == Pairs;
    PickRespectsMultiset(Pairs, order, identity);
    Pick(Pairs, order)
  }

  /** Each of the six symbols occurs exactly once in the palette. */
  lemma PaletteHasEachSymbolOnce(e: Emoji)
    ensures multiset(Palette)[e] == 1
  {
    var m := multiset{Dog} + multiset{Cat} + multiset{Lion} + multiset{Frog} + multiset{Monkey} + multiset{Rabbit};
    assert multiset(Palette) == m by {
      assert Palette == [Dog] + [Cat] + [Lion] + [Frog] + [Monkey] + [Rabbit];
    }
    match e
    case Dog => assert m[Dog] == 1;
    case Cat => assert m[Cat] == 1;
    case Lion => assert m[Lion] == 1;
    case Frog => assert m[Frog] == 1;
    case Monkey => assert m[Monkey] == 1;
    case Rabbit => assert m[Rabbit] == 1;
  }

  /** Each of the six symbols occurs exactly twice in the doubled palette. */
  lemma PairsHasEachSymbolTwice(e: Emoji)
    ensures multiset(Pairs)[e] == 2
  {
    assert multiset(Pairs) == multiset(Palette) + multiset(Palette);
    PaletteHasEachSymbolOnce(e);
  }

  /** Whatever the permutation, every symbol of the palette is dealt exactly twice
      and nothing else is dealt. */
  lemma ShuffleDealsEachSymbolTwice(order: seq<nat>)
    requires IsPermutation(order, |Pairs|)
    ensures |Shuffle(order)| == 2 * |Palette|
    ensures forall e: Emoji :: multiset(Shuffle(order))[e] == 2
    ensures forall e: Emoji :: e in Shuffle(order) <==> e in Palette
  {
    forall e: Emoji
      ensures multiset(Shuffle(order))[e] == 2
      ensures e in Shuffle(order) <==> e in Palette
    {
      PairsHasEachSymbolTwice(e);
      PaletteHasEachSymbolOnce(e);
      assert e in multiset(Shuffle(order));
      assert e in multiset(Palette);
    }
  }
}
