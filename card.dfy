/** Italian playing cards: a card is a number from 1 to 10 in one of four seeds, and a deck
    is the list of the 40 such cards, dealt from its end. */
module Cards {
  import opened Wrappers

  /** The four Italian seeds, declared in the order of the source's enumeration. */
  datatype Seed = Bastoni | Spade | Coppe | Denari

  /** The seeds in enumeration order, the order `for seed in Seed` visits them. */
  const Seeds: seq<Seed> := [Bastoni, Spade, Coppe, Denari]

  /** The enumeration value of a seed (1 to 4), which breaks ties between equal numbers. */
  function SeedValue(s: Seed): int
  {
    match s
    case Bastoni => 1
    case Spade => 2
    case Coppe => 3
    case Denari => 4
  }

  /** The enumeration member's name, the form a seed takes in a card dictionary. */
  function SeedName(s: Seed): string
  {
    match s
    case Bastoni => "BASTONI"
    case Spade => "SPADE"
    case Coppe => "COPPE"
    case Denari => "DENARI"
  }

  /** Lookup of an enumeration member by name (`Seed[name]`); `None` where Python raises
      `KeyError`. */
  function SeedFromName(name: string): (r: Option<Seed>)
    ensures r.Some? ==> SeedName(r.value) == name
    ensures forall s :: SeedName(s) == name ==> r == Some(s)
  {
    if name == "BASTONI" then Some(Bastoni)
    else if name == "SPADE" then Some(Spade)
    else if name == "COPPE" then Some(Coppe)
    else if name == "DENARI" then Some(Denari)
    else None
  }

  lemma SeedValueInjective(a: Seed, b: Seed)
    ensures SeedValue(a) == SeedValue(b) <==> a == b
  {
  }

  /** A card. Only values built by `NewCard` (or by the deck) occur in the engine, so the
      number is always in 1..10 there; `IsValid` names that fact. */
  datatype Card = Card(number: int, seed: Seed)

  predicate IsValid(c: Card)
  {
    1 <= c.number <= 10
  }

  /** The constructor `Card(number, seed)`: it raises for a number outside 1..10. */
  function NewCard(number: int, seed: Seed): (r: Result<Card>)
    ensures r.Ok? <==> 1 <= number <= 10
    ensures r.Ok? ==> r.value.number == number && r.value.seed == seed && IsValid(r.value)
  {
    if number < 1 || number > 10 then Err("Card number must be between 1 and 10")
    else Ok(Card(number, seed))
  }

  /** `==` on cards: same number and same seed, which is exactly value equality. */
  function Equal(a: Card, b: Card): (r: bool)
    ensures r <==> a == b
  {
    a.number == b.number && a.seed == b.seed
  }

  /** `<`: by number, then by seed value. */
  function Less(a: Card, b: Card): bool
  {
    if a.number != b.number then a.number < b.number
    else SeedValue(a.seed) < SeedValue(b.seed)
  }

  /** `<=`, defined in the source as `<` or `==`. */
  function LessEq(a: Card, b: Card): bool
  {
    Less(a, b) || Equal(a, b)
  }

  /** `>`, defined in the source as the negation of `<=`. */
  function Greater(a: Card, b: Card): bool
  {
    !LessEq(a, b)
  }

  /** `>=`, defined in the source as the negation of `<`. */
  function GreaterEq(a: Card, b: Card): bool
  {
    !Less(a, b)
  }

  /** `<` is a strict total order on cards: irreflexive, asymmetric, transitive, and any two
      different cards are comparable. */
  lemma LessIsStrictTotalOrder(a: Card, b: Card, c: Card)
    ensures !Less(a, a)
    ensures Less(a, b) ==> !Less(b, a)
    ensures Less(a, b) && Less(b, c) ==> Less(a, c)
    ensures a != b ==> Less(a, b) || Less(b, a)
  {
    if a != b && a.number == b.number {
      SeedValueInjective(a.seed, b.seed);
    }
  }

  /** The derived comparisons agree with `<`: `a > b` is `b < a`, `a >= b` is `b <= a`,
      and of two different cards exactly one is greater than the other. */
  lemma ComparisonsAgree(a: Card, b: Card)
    ensures Greater(a, b) <==> Less(b, a)
    ensures GreaterEq(a, b) <==> LessEq(b, a)
    ensures a != b ==> (Greater(a, b) <==> !Greater(b, a))
  {
    LessIsStrictTotalOrder(a, b, a);
    LessIsStrictTotalOrder(b, a, b);
  }

  /** The dictionary form of a card: its number and its seed's name. */
  datatype CardDict = CardDict(number: int, seed: string)

  function ToDict(c: Card): CardDict
  {
    CardDict(c.number, SeedName(c.seed))
  }

  /** `Card.from_dict`: looks up the seed by name, then runs the constructor, so it fails
      for an unknown seed name and for a number outside 1..10. */
  function FromDict(d: CardDict): (r: Result<Card>)
    ensures r.Ok? ==> IsValid(r.value)
  {
    match SeedFromName(d.seed)
    case None => Err("KeyError")
    case Some(s) => NewCard(d.number, s)
  }

  /** Converting a valid card to a dictionary and back gives the card. */
  lemma DictRoundTrip(c: Card)
    requires IsValid(c)
    ensures FromDict(ToDict(c)) == Ok(c)
  {
  }

  /** A dictionary that converts to a card is that card's dictionary. */
  lemma DictInverse(d: CardDict)
    requires FromDict(d).Ok?
    ensures ToDict(FromDict(d).value) == d
  {
  }

  /** The reverse of a sequence: the order in which popping from the end visits it. */
  function Reverse<T>(s: seq<T>): (r: seq<T>)
    ensures |r| == |s|
    ensures forall i :: 0 <= i < |s| ==> r[i] == s[|s| - 1 - i]
  {
    if s == [] then [] else Reverse(s[1..]) + [s[0]]
  }

  lemma {:induction false} ReversePreservesMultiset<T>(s: seq<T>)
    ensures multiset(Reverse(s)) == multiset(s)
  {
    if s != [] {
      ReversePreservesMultiset(s[1..]);
      assert s == [s[0]] + s[1..];
    }
  }

  /** The cards of a fresh deck in creation order: for each seed in enumeration order, the
      numbers 1 to 10. */
  function FullDeck(): seq<Card>
  {
    seq(40, i requires 0 <= i < 40 => Card(i % 10 + 1, Seeds[i / 10]))
  }

  /** A fresh deck holds 40 cards, no card twice, and exactly the valid cards. */
  lemma FullDeckIsEveryCardOnce()
    ensures |FullDeck()| == 40
    ensures forall i, j :: 0 <= i < j < 40 ==> FullDeck()[i] != FullDeck()[j]
    ensures forall c :: c in FullDeck() <==> IsValid(c)
  {
    var d := FullDeck();
    forall i, j | 0 <= i < j < 40
      ensures d[i] != d[j]
    {
      if i / 10 == j / 10 {
        assert i % 10 != j % 10;
      } else {
        assert Seeds[i / 10] != Seeds[j / 10];
      }
    }
    forall c | IsValid(c)
      ensures c in d
    {
      var k := match c.seed case Bastoni => 0 case Spade => 1 case Coppe => 2 case Denari => 3;
      var i := 10 * k + c.number - 1;
      assert i / 10 == k && i % 10 == c.number - 1;
      assert d[i] == c;
    }
  }

  /** The number of cards `deal(n)` pops: `range(n)` is empty for a negative `n`. */
  function PopCount(n: int): nat
  {
    if n < 0 then 0 else n
  }

  /** The cards `deal(n)` returns from `cards`: the last `n`, in the order they are popped. */
  function Dealt(cards: seq<Card>, n: int): seq<Card>
    requires n <= |cards|
  {
    Reverse(cards[|cards| - PopCount(n)..])
  }

  /** The cards left after `deal(n)`. */
  function Kept(cards: seq<Card>, n: int): seq<Card>
    requires n <= |cards|
  {
    cards[..|cards| - PopCount(n)]
  }

  lemma PopStep(c: seq<Card>, k: nat)
    requires k < |c|
    ensures Reverse(c[|c| - (k + 1)..]) == Reverse(c[|c| - k..]) + [c[|c| - k - 1]]
  {
    assert c[|c| - (k + 1)..][1..] == c[|c| - k..];
  }

  /** Dealing neither creates nor loses cards. */
  lemma DealConserves(c: seq<Card>, k: nat)
    requires k <= |c|
    ensures multiset(Reverse(c[|c| - k..])) + multiset(c[..|c| - k]) == multiset(c)
  {
    ReversePreservesMultiset(c[|c| - k..]);
    assert c == c[..|c| - k] + c[|c| - k..];
  }

  /** The deck (`Deck`): its cards are dealt from the end of the list. */
  class Deck {
    var cards: seq<Card>

    /** A new deck holds the 40 cards of `FullDeck`. */
    constructor ()
      ensures cards == FullDeck()
      ensures RemainingCards() == 40
    {
      cards := [];
      new;
      CreateDeck();
    }

    /** `_create_deck`: rebuilds the list, seed by seed and number by number. */
    method CreateDeck()
      modifies this
      ensures cards == FullDeck()
    {
      cards := [];
      var si := 0;
      while si < |Seeds|
        invariant 0 <= si <= |Seeds|
        invariant cards == FullDeck()[..10 * si]
      {
        var number := 1;
        while number <= 10
          invariant 1 <= number <= 11
          invariant cards == FullDeck()[..10 * si + number - 1]
        {
          ghost var k := 10 * si + number - 1;
          assert k / 10 == si && k % 10 == number - 1;
          assert FullDeck()[..k + 1] == FullDeck()[..k] + [Card(number, Seeds[si])];
          cards := cards + [Card(number, Seeds[si])];
          number := number + 1;
        }
        si := si + 1;
      }
    }

    /** `remaining_cards`. */
    function RemainingCards(): nat
      reads this
    {
      |cards|
    }

    /** `shuffle`, with the random permutation supplied by the caller as the new arrangement
        of the same cards. */
    method Shuffle(arrangement: seq<Card>)
      requires multiset(arrangement) == multiset(cards)
      modifies this
      ensures cards == arrangement
      ensures multiset(cards) == old(multiset(cards))
    {
      cards := arrangement;
    }

    /** `deal(n)`: raises, leaving the deck as it was, when `n` exceeds the remaining cards;
        otherwise pops `n` cards (none for a negative `n`) from the end, so the dealt list is
        the deck's last `n` cards in reverse and the deck keeps its first part. */
    method Deal(n: int) returns (r: Result<seq<Card>>)
      modifies this
      ensures n > |old(cards)| ==> r.Err? && cards == old(cards)
      ensures n <= |old(cards)| ==> r.Ok?
      ensures r.Ok? ==> r.value == Dealt(old(cards), n) && cards == Kept(old(cards), n)
      ensures r.Ok? ==> multiset(r.value) + multiset(cards) == old(multiset(cards))
    {
      if n > |cards| {
        return Err("Not enough cards in deck");
      }
      ghost var c0 := cards;
      var dealt: seq<Card> := [];
      var k := 0;
      while k < n
        invariant 0 <= k <= (if n < 0 then 0 else n) <= |c0|
        invariant cards == c0[..|c0| - k]
        invariant dealt == Reverse(c0[|c0| - k..])
      {
        PopStep(c0, k);
        dealt := dealt + [cards[|cards| - 1]];
        cards := cards[..|cards| - 1];
        k := k + 1;
      }
      DealConserves(c0, k);
      r := Ok(dealt);
    }

    /** `reset`: the deck holds the 40 fresh cards again. */
    method Reset()
      modifies this
      ensures cards == FullDeck()
      ensures RemainingCards() == 40
    {
      CreateDeck();
    }
  }
}
