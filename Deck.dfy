/** Deck construction (`generateCards`, index.js lines 5-41): choosing `pairCount` distinct
    species ids by difficulty, keeping only those the species lookup gives artwork for,
    doubling the list and permuting it.

    The random draws are an input sequence `rolls` (each the value of
    `Math.floor(Math.random() * 898)`), the species lookup is an oracle `artwork` from id to an
    optional URL, and the random-comparator sort is an input sequence of exchanges `swaps`. */
module Deck {
  import opened Options

  /** A species drawn for the board: its national index number and its artwork URL. */
  datatype Pokemon = Pokemon(id: int, img: string)

  /** The number of species in the id range drawn from. */
  const MaxSpecies := 898

  /** Pairs per difficulty; any other name leaves `pairCount` undefined, and the selection loop
      `pokemons.length < undefined` never runs, so it behaves as 0. */
  function PairCount(difficulty: string): (r: nat)
    ensures r == 0 <==> difficulty !in {"easy", "medium", "hard"}
    ensures r in {0, 3, 6, 12}
  {
    if difficulty == "easy" then 3
    else if difficulty == "medium" then 6
    else if difficulty == "hard" then 12
    else 0
  }

  /** `if (imgUrl)`: a missing URL or the empty string is falsy. */
  predicate HasArtwork(url: Option<string>) {
    url.Some? && url.value != ""
  }

  /** Every draw is a value of `Math.floor(Math.random() * 898)`. */
  predicate ValidRolls(rolls: seq<int>) {
    forall k :: 0 <= k < |rolls| ==> 0 <= rolls[k] < MaxSpecies
  }

  function IdsOf(s: seq<Pokemon>): seq<int> {
    seq(|s|, k requires 0 <= k < |s| => s[k].id)
  }

  predicate Distinct(s: seq<int>) {
    forall j, k :: 0 <= j < k < |s| ==> s[j] != s[k]
  }

  /** The pair invariant: every id that occurs, occurs exactly twice. */
  predicate Paired(ids: seq<int>) {
    forall k :: 0 <= k < |ids| ==> multiset(ids)[ids[k]] == 2
  }

  /** A species the selection may keep: an id in [1, 898] whose lookup gave artwork, with that URL. */
  predicate Drawn(p: Pokemon, artwork: int -> Option<string>) {
    1 <= p.id <= MaxSpecies && HasArtwork(artwork(p.id)) && p.img == artwork(p.id).value
  }

  /** What the selection loop keeps, given the draws still to come, the ids already used and
      the species already picked: it stops once `pairCount` are picked (or the draws run out),
      skips an id already used, and marks a fresh id used whether or not it has artwork. */
  function Pick(pairCount: nat, rolls: seq<int>, artwork: int -> Option<string>,
                used: set<int>, picked: seq<Pokemon>): seq<Pokemon>
    decreases |rolls|
  {
    if |picked| >= pairCount || |rolls| == 0 then picked
    else
      var id := rolls[0] + 1;
      if id in used then Pick(pairCount, rolls[1..], artwork, used, picked)
      else if HasArtwork(artwork(id)) then
        Pick(pairCount, rolls[1..], artwork, used + {id}, picked + [Pokemon(id, artwork(id).value)])
      else Pick(pairCount, rolls[1..], artwork, used + {id}, picked)
  }

  /** The selection never picks more than `pairCount`, never picks an id twice, and only
      picks ids in range that have artwork. */
  lemma {:induction false} PickSound(pairCount: nat, rolls: seq<int>, artwork: int -> Option<string>,
                                     used: set<int>, picked: seq<Pokemon>)
    requires ValidRolls(rolls) && |picked| <= pairCount && Distinct(IdsOf(picked))
    requires forall k :: 0 <= k < |picked| ==> Drawn(picked[k], artwork) && picked[k].id in used
    ensures var r := Pick(pairCount, rolls, artwork, used, picked);
      |r| <= pairCount && Distinct(IdsOf(r)) && forall k :: 0 <= k < |r| ==> Drawn(r[k], artwork)
    decreases |rolls|
  {
    if |picked| >= pairCount || |rolls| == 0 {
    } else {
      var id := rolls[0] + 1;
      if id in used {
        PickSound(pairCount, rolls[1..], artwork, used, picked);
      } else if HasArtwork(artwork(id)) {
        var next := picked + [Pokemon(id, artwork(id).value)];
        assert IdsOf(next) == IdsOf(picked) + [id];
        assert forall k :: 0 <= k < |picked| ==> IdsOf(picked)[k] != id;
        PickSound(pairCount, rolls[1..], artwork, used + {id}, next);
      } else {
        PickSound(pairCount, rolls[1..], artwork, used + {id}, picked);
      }
    }
  }

  /** The selection only appends: what was picked before stays a prefix of the result. */
  lemma {:induction false} PickExtends(pairCount: nat, rolls: seq<int>, artwork: int -> Option<string>,
                                       used: set<int>, picked: seq<Pokemon>)
    ensures picked <= Pick(pairCount, rolls, artwork, used, picked)
    decreases |rolls|
  {
    if |picked| >= pairCount || |rolls| == 0 {
    } else {
      var id := rolls[0] + 1;
      if id in used {
        PickExtends(pairCount, rolls[1..], artwork, used, picked);
      } else if HasArtwork(artwork(id)) {
        PickExtends(pairCount, rolls[1..], artwork, used + {id}, picked + [Pokemon(id, artwork(id).value)]);
      } else {
        PickExtends(pairCount, rolls[1..], artwork, used + {id}, picked);
      }
    }
  }

  lemma PrefixIds(p: seq<Pokemon>, r: seq<Pokemon>, id: int)
    requires p <= r && id in IdsOf(p)
    ensures id in IdsOf(r)
  {
    var j :| 0 <= j < |p| && IdsOf(p)[j] == id;
    assert IdsOf(r)[j] == id;
  }

  /** The converse of `PickSound`: while fewer than `pairCount` species are kept, every drawn id
      that is fresh and has artwork is kept. */
  lemma {:induction false} PickKeepsGood(pairCount: nat, rolls: seq<int>, artwork: int -> Option<string>,
                                         used: set<int>, picked: seq<Pokemon>)
    ensures var r := Pick(pairCount, rolls, artwork, used, picked);
      |r| < pairCount ==>
        forall k :: 0 <= k < |rolls| && rolls[k] + 1 !in used && HasArtwork(artwork(rolls[k] + 1)) ==>
          rolls[k] + 1 in IdsOf(r)
    decreases |rolls|
  {
    var r := Pick(pairCount, rolls, artwork, used, picked);
    if |picked| >= pairCount || |rolls| == 0 {
    } else {
      var id := rolls[0] + 1;
      var rest := rolls[1..];
      assert forall k :: 1 <= k < |rolls| ==> rolls[k] == rest[k - 1];
      if id in used {
        PickKeepsGood(pairCount, rest, artwork, used, picked);
      } else if HasArtwork(artwork(id)) {
        var next := picked + [Pokemon(id, artwork(id).value)];
        PickKeepsGood(pairCount, rest, artwork, used + {id}, next);
        PickExtends(pairCount, rest, artwork, used + {id}, next);
        assert IdsOf(next)[|picked|] == id;
        PrefixIds(next, r, id);
      } else {
        PickKeepsGood(pairCount, rest, artwork, used + {id}, picked);
      }
    }
  }

  lemma {:induction false} IdSetSize(s: seq<int>)
    ensures |set x | x in s| <= |s|
    decreases |s|
  {
    if |s| > 0 {
      IdSetSize(s[1..]);
      var tail := set x | x in s[1..];
      if s[0] in tail {
        assert (set x | x in s) == tail;
      } else {
        assert (set x | x in s) == tail + {s[0]};
      }
    }
  }

  lemma SubsetSize(a: set<int>, b: set<int>)
    requires a <= b
    ensures |a| <= |b|
  {
    assert b == a + (b - a);
    assert a * (b - a) == {};
  }

  /** When the draws name at least `pairCount` distinct ids that have artwork, the selection is
      full: `generateCards` then produces its deck. */
  lemma PickFills(pairCount: nat, rolls: seq<int>, artwork: int -> Option<string>, usable: set<int>)
    requires ValidRolls(rolls) && |usable| >= pairCount
    requires forall x :: x in usable ==> x - 1 in rolls && HasArtwork(artwork(x))
    ensures |Pick(pairCount, rolls, artwork, {}, [])| == pairCount
  {
    var r := Pick(pairCount, rolls, artwork, {}, []);
    PickSound(pairCount, rolls, artwork, {}, []);
    if |r| < pairCount {
      PickKeepsGood(pairCount, rolls, artwork, {}, []);
      forall x | x in usable
        ensures x in IdsOf(r)
      {
        var k :| 0 <= k < |rolls| && rolls[k] == x - 1;
      }
      SubsetSize(usable, set x | x in IdsOf(r));
      IdSetSize(IdsOf(r));
      assert false;
    }
  }

  /** The `while (pokemons.length < pairCount)` loop of index.js lines 14-29. When the draws run
      out first, the result holds fewer than `pairCount` species. */
  method SelectPokemons(pairCount: nat, rolls: seq<int>, artwork: int -> Option<string>)
    returns (pokemons: seq<Pokemon>)
    requires ValidRolls(rolls)
    ensures pokemons == Pick(pairCount, rolls, artwork, {}, [])
    ensures |pokemons| <= pairCount && Distinct(IdsOf(pokemons))
    ensures forall k :: 0 <= k < |pokemons| ==> Drawn(pokemons[k], artwork)
  {
    var usedIds: set<int> := {};
    pokemons := [];
    var next := 0;
    while |pokemons| < pairCount && next < |rolls|
      invariant 0 <= next <= |rolls|
      invariant Pick(pairCount, rolls[next..], artwork, usedIds, pokemons) == Pick(pairCount, rolls, artwork, {}, [])
      decreases |rolls| - next
    {
      assert rolls[next..][1..] == rolls[next + 1..];
      var randomId := rolls[next] + 1;
      if randomId !in usedIds {
        usedIds := usedIds + {randomId};
        var imgUrl := artwork(randomId);
        if HasArtwork(imgUrl) {
          pokemons := pokemons + [Pokemon(randomId, imgUrl.value)];
        }
      }
      next := next + 1;
    }
    PickSound(pairCount, rolls, artwork, {}, []);
  }

  function Swap(s: seq<Pokemon>, i: nat, j: nat): seq<Pokemon>
    requires i < |s| && j < |s|
  {
    s[i := s[j]][j := s[i]]
  }

  /** The deck after the given exchanges; an exchange naming a position outside the deck is skipped. */
  function Shuffled(s: seq<Pokemon>, swaps: seq<(int, int)>): seq<Pokemon>
    decreases |swaps|
  {
    if |swaps| == 0 then s
    else
      var (i, j) := swaps[0];
      Shuffled(if 0 <= i < |s| && 0 <= j < |s| then Swap(s, i, j) else s, swaps[1..])
  }

  lemma SwapPermutes(s: seq<Pokemon>, i: nat, j: nat)
    requires i < |s| && j < |s|
    ensures |Swap(s, i, j)| == |s|
    ensures multiset(Swap(s, i, j)) == multiset(s)
    ensures multiset(IdsOf(Swap(s, i, j))) == multiset(IdsOf(s))
  {
    var ids := IdsOf(s);
    assert IdsOf(Swap(s, i, j)) == ids[i := ids[j]][j := ids[i]];
  }

  /** Shuffling only reorders: the cards, and therefore their ids, form the same multiset. */
  lemma {:induction false} ShuffledPermutes(s: seq<Pokemon>, swaps: seq<(int, int)>)
    ensures |Shuffled(s, swaps)| == |s|
    ensures multiset(Shuffled(s, swaps)) == multiset(s)
    ensures multiset(IdsOf(Shuffled(s, swaps))) == multiset(IdsOf(s))
    decreases |swaps|
  {
    if |swaps| > 0 {
      var (i, j) := swaps[0];
      if 0 <= i < |s| && 0 <= j < |s| {
        SwapPermutes(s, i, j);
        ShuffledPermutes(Swap(s, i, j), swaps[1..]);
      } else {
        ShuffledPermutes(s, swaps[1..]);
      }
    }
  }

  /** `[...].sort(() => 0.5 - Math.random())`, in place: the random comparator decides a sequence of exchanges. */
  method Shuffle(a: array<Pokemon>, swaps: seq<(int, int)>)
    modifies a
    ensures a[..] == Shuffled(old(a[..]), swaps)
  {
    var n := 0;
    while n < |swaps|
      invariant 0 <= n <= |swaps|
      invariant Shuffled(a[..], swaps[n..]) == Shuffled(old(a[..]), swaps)
    {
      assert swaps[n..][1..] == swaps[n + 1..];
      var (i, j) := swaps[n];
      if 0 <= i < a.Length && 0 <= j < a.Length {
        var t := a[i];
        a[i] := a[j];
        a[j] := t;
      }
      n := n + 1;
    }
  }

  lemma {:induction false} DistinctCount(s: seq<int>, x: int)
    requires Distinct(s) && x in s
    ensures multiset(s)[x] == 1
  {
    assert s == [s[0]] + s[1..];
    if s[0] == x {
      assert x !in s[1..];
    } else {
      DistinctCount(s[1..], x);
    }
  }

  /** The deck `[...pokemons, ...pokemons]` in any order has the pair invariant, provided the
      species have distinct ids; it holds exactly the chosen species, each twice. */
  lemma DoubledIsPaired(pokemons: seq<Pokemon>, swaps: seq<(int, int)>)
    requires Distinct(IdsOf(pokemons))
    ensures var deck := Shuffled(pokemons + pokemons, swaps);
      |deck| == 2 * |pokemons| && multiset(deck) == multiset(pokemons + pokemons) && Paired(IdsOf(deck))
  {
    var doubled := pokemons + pokemons;
    var deck := Shuffled(doubled, swaps);
    ShuffledPermutes(doubled, swaps);
    var ids := IdsOf(pokemons);
    assert IdsOf(doubled) == ids + ids;
    var deckIds := IdsOf(deck);
    forall k | 0 <= k < |deckIds|
      ensures multiset(deckIds)[deckIds[k]] == 2
    {
      var x := deckIds[k];
      assert x in multiset(deckIds);
      assert x in ids;
      DistinctCount(ids, x);
    }
  }

  /** `generateCards` without its DOM work: `Some(deck)` once `pairCount` species are chosen,
      `None` when the draws supplied run out first (the source would keep drawing). */
  method GenerateCards(difficulty: string, rolls: seq<int>, artwork: int -> Option<string>,
                       swaps: seq<(int, int)>) returns (deck: Option<seq<Pokemon>>)
    requires ValidRolls(rolls)
    ensures var chosen := Pick(PairCount(difficulty), rolls, artwork, {}, []);
      (deck.Some? <==> |chosen| == PairCount(difficulty)) &&
      (deck.Some? ==> deck.value == Shuffled(chosen + chosen, swaps) &&
                      multiset(deck.value) == multiset(chosen + chosen))
    ensures deck.Some? ==>
      |deck.value| == 2 * PairCount(difficulty) && Paired(IdsOf(deck.value)) &&
      forall k :: 0 <= k < |deck.value| ==> Drawn(deck.value[k], artwork)
  {
    var pairCount := PairCount(difficulty);
    var pokemons := SelectPokemons(pairCount, rolls, artwork);
    if |pokemons| < pairCount {
      return None;
    }
    var doubled := pokemons + pokemons;
    var cards := new Pokemon[|doubled|](k requires 0 <= k < |doubled| => doubled[k]);
    assert cards[..] == doubled;
    Shuffle(cards, swaps);
    DoubledIsPaired(pokemons, swaps);
    forall k | 0 <= k < cards.Length
      ensures Drawn(cards[..][k], artwork)
    {
      assert cards[..][k] in multiset(doubled);
    }
    deck := Some(cards[..]);
  }
}
