/** A player of the game: lives, the cards in hand, the guess for the current phase and the
    number of hands won in it. */
module Players {
  import opened Wrappers
  import opened Cards

  /** Lives a new player starts with. */
  const InitialLives: int := 5

  /** Everything a `Player` object holds, as one value. */
  datatype PlayerState = PlayerState(
    id: string,
    name: string,
    lives: int,
    hand: seq<Card>,
    guess: Option<int>,
    turnsWon: int,
    isEliminated: bool)

  /** The state of a freshly constructed player. */
  function NewPlayerState(id: string, name: string): PlayerState
  {
    PlayerState(id, name, InitialLives, [], None, 0, false)
  }

  /** `reset_for_new_phase` on a state: empty hand, no guess, no hands won. */
  function ResetState(st: PlayerState): PlayerState
  {
    st.(hand := [], guess := None, turnsWon := 0)
  }

  /** `win_turn` on a state. */
  function WinTurnState(st: PlayerState): PlayerState
  {
    st.(turnsWon := st.turnsWon + 1)
  }

  /** `lose_life` on a state: one life fewer, eliminated once no life is left. */
  function LoseLifeState(st: PlayerState): PlayerState
  {
    st.(lives := st.lives - 1, isEliminated := st.isEliminated || st.lives - 1 <= 0)
  }

  /** The `hand` entry of a player dictionary: the cards themselves for the requesting player,
      only their number for everyone else. */
  datatype HandField = Hand(cards: seq<CardDict>) | HandSize(size: nat)

  /** The dictionary form of a player (`to_dict`). */
  datatype PlayerDict = PlayerDict(
    playerId: string,
    name: string,
    lives: int,
    guess: Option<int>,
    turnsWon: int,
    isEliminated: bool,
    hand: HandField)

  /** The card dictionaries of a hand, in hand order. */
  function CardDicts(cs: seq<Card>): (ds: seq<CardDict>)
    ensures |ds| == |cs|
    ensures forall i :: 0 <= i < |cs| ==> ds[i] == ToDict(cs[i])
  {
    if cs == [] then [] else [ToDict(cs[0])] + CardDicts(cs[1..])
  }

  /** Converting a list of card dictionaries: the first one that does not convert raises. */
  function CardsFromDicts(ds: seq<CardDict>): (r: Result<seq<Card>>)
    ensures r.Ok? <==> forall i :: 0 <= i < |ds| ==> FromDict(ds[i]).Ok?
    ensures r.Ok? ==> |r.value| == |ds| && forall i :: 0 <= i < |ds| ==> r.value[i] == FromDict(ds[i]).value
  {
    if ds == [] then Ok([])
    else
      match FromDict(ds[0])
      case Err(e) => Err(e)
      case Ok(c) =>
        match CardsFromDicts(ds[1..])
        case Err(e) => Err(e)
        case Ok(cs) => Ok([c] + cs)
  }

  /** `to_dict(include_hand)`. */
  function StateToDict(st: PlayerState, includeHand: bool): PlayerDict
  {
    PlayerDict(st.id, st.name, st.lives, st.guess, st.turnsWon, st.isEliminated,
               if includeHand then Hand(CardDicts(st.hand)) else HandSize(|st.hand|))
  }

  /** `from_dict`: a dictionary without its hand leaves the new player's hand empty; a hand
      card that does not convert makes the whole call raise. */
  function StateFromDict(d: PlayerDict): Result<PlayerState>
  {
    var st := NewPlayerState(d.playerId, d.name).(lives := d.lives, guess := d.guess,
                                                   turnsWon := d.turnsWon, isEliminated := d.isEliminated);
    match d.hand
    case HandSize(_) => Ok(st)
    case Hand(ds) =>
      match CardsFromDicts(ds)
      case Err(e) => Err(e)
      case Ok(cs) => Ok(st.(hand := cs))
  }

  /** Serialising a player with its hand and reading the dictionary back gives the same
      player, provided every card in hand is a valid card. */
  lemma PlayerDictRoundTrip(st: PlayerState)
    requires forall i :: 0 <= i < |st.hand| ==> IsValid(st.hand[i])
    ensures StateFromDict(StateToDict(st, true)) == Ok(st)
  {
    var ds := CardDicts(st.hand);
    forall i | 0 <= i < |ds|
      ensures FromDict(ds[i]) == Ok(st.hand[i])
    {
      DictRoundTrip(st.hand[i]);
    }
    assert CardsFromDicts(ds).value == st.hand;
  }

  /** Serialising without the hand and reading back keeps everything but the hand, which comes
      back empty. */
  lemma PlayerDictHiddenHand(st: PlayerState)
    ensures StateFromDict(StateToDict(st, false)) == Ok(st.(hand := []))
  {
  }

  /** A card matches the `(number, seed name)` pair a client sends when it plays a card. */
  predicate Matches(c: Card, number: int, seedName: string)
  {
    c.number == number && SeedName(c.seed) == seedName
  }

  /** The position of the first card in `hand` matching `(number, seedName)`, if any. */
  function FirstMatch(hand: seq<Card>, number: int, seedName: string): (r: Option<nat>)
    ensures r.Some? ==> r.value < |hand| && Matches(hand[r.value], number, seedName)
    ensures r.Some? ==> forall j :: 0 <= j < r.value ==> !Matches(hand[j], number, seedName)
    ensures r.None? ==> forall j :: 0 <= j < |hand| ==> !Matches(hand[j], number, seedName)
  {
    if hand == [] then None
    else if Matches(hand[0], number, seedName) then Some(0)
    else
      match FirstMatch(hand[1..], number, seedName)
      case None => None
      case Some(k) => Some(k + 1)
  }

  /** `hand` without the card at position `i`, the rest in order (`list.pop(i)`). */
  function RemoveAt(hand: seq<Card>, i: nat): seq<Card>
    requires i < |hand|
  {
    hand[..i] + hand[i + 1..]
  }

  /** The scan of `play_card_by_value`: the position of the first card in `hand` with that
      number and seed name, if any. */
  method FindCard(hand: seq<Card>, number: int, seedName: string) returns (r: Option<nat>)
    ensures r == FirstMatch(hand, number, seedName)
  {
    var i := 0;
    while i < |hand|
      invariant 0 <= i <= |hand|
      invariant forall j :: 0 <= j < i ==> !Matches(hand[j], number, seedName)
    {
      if hand[i].number == number && SeedName(hand[i].seed) == seedName {
        FirstMatchIs(hand, number, seedName, i);
        return Some(i);
      }
      i := i + 1;
    }
    return None;
  }

  /** A scan that stops at the first matching card finds position `i`. */
  lemma FirstMatchIs(hand: seq<Card>, number: int, seedName: string, i: nat)
    requires i < |hand| && Matches(hand[i], number, seedName)
    requires forall j :: 0 <= j < i ==> !Matches(hand[j], number, seedName)
    ensures FirstMatch(hand, number, seedName) == Some(i)
  {
  }

  class Player {
    const id: string
    const name: string
    var lives: int
    var hand: seq<Card>
    var guess: Option<int>
    var turnsWon: int
    var isEliminated: bool

    function State(): PlayerState
      reads this
    {
      PlayerState(id, name, lives, hand, guess, turnsWon, isEliminated)
    }

    /** A new player has 5 lives, an empty hand, no guess, no hands won and is in the game. */
    constructor (id: string, name: string)
      ensures State() == NewPlayerState(id, name)
    {
      this.id := id;
      this.name := name;
      lives := InitialLives;
      hand := [];
      guess := None;
      turnsWon := 0;
      isEliminated := false;
    }

    /** `add_card`: appends one card to the hand. */
    method AddCard(c: Card)
      modifies this
      ensures State() == old(State()).(hand := old(hand) + [c])
    {
      hand := hand + [c];
    }

    /** `add_cards`: appends the cards to the hand, in order. */
    method AddCards(cs: seq<Card>)
      modifies this
      ensures State() == old(State()).(hand := old(hand) + cs)
    {
      hand := hand + cs;
    }

    /** `play_card(i)`: raises, changing nothing, for a position outside the hand; otherwise
        removes and returns the card at that position. */
    method PlayCard(i: int) returns (r: Result<Card>)
      modifies this
      ensures !(0 <= i < |old(hand)|) ==> r.Err? && State() == old(State())
      ensures 0 <= i < |old(hand)| ==>
        r == Ok(old(hand)[i]) && State() == old(State()).(hand := RemoveAt(old(hand), i))
      ensures r.Ok? ==> |hand| == |old(hand)| - 1
    {
      if i < 0 || i >= |hand| {
        return Err("Invalid card index");
      }
      r := Ok(hand[i]);
      hand := hand[..i] + hand[i + 1..];
    }

    /** `play_card_by_value`: removes and returns the first card with that number and seed
        name; raises, changing nothing, when no card matches. */
    method PlayCardByValue(number: int, seedName: string) returns (r: Result<Card>)
      modifies this
      ensures match FirstMatch(old(hand), number, seedName)
              case None => r.Err? && State() == old(State())
              case Some(k) => r == Ok(old(hand)[k]) && State() == old(State()).(hand := RemoveAt(old(hand), k))
    {
      var k := FindCard(hand, number, seedName);
      if k.None? {
        return Err("Card not found in hand");
      }
      r := Ok(hand[k.value]);
      hand := RemoveAt(hand, k.value);
    }

    /** `make_guess`: a negative guess raises and changes nothing; any other is recorded. */
    method MakeGuess(g: int) returns (r: Outcome)
      modifies this
      ensures g < 0 ==> r.Fail? && State() == old(State())
      ensures g >= 0 ==> r.Pass? && State() == old(State()).(guess := Some(g))
    {
      if g < 0 {
        return Fail("Guess cannot be negative");
      }
      guess := Some(g);
      r := Pass;
    }

    /** `win_turn`: one more hand won. */
    method WinTurn()
      modifies this
      ensures State() == WinTurnState(old(State()))
    {
      turnsWon := turnsWon + 1;
    }

    /** `lose_life`: one life fewer; at zero or below the player is eliminated, and an
        eliminated player stays eliminated. */
    method LoseLife()
      modifies this
      ensures lives == old(lives) - 1
      ensures isEliminated <==> old(isEliminated) || lives <= 0
      ensures State() == LoseLifeState(old(State()))
    {
      lives := lives - 1;
      if lives <= 0 {
        isEliminated := true;
      }
    }

    /** `reset_for_new_phase`: empty hand, no guess, no hands won; lives and elimination are
        kept. */
    method ResetForNewPhase()
      modifies this
      ensures State() == ResetState(old(State()))
    {
      hand := [];
      guess := None;
      turnsWon := 0;
    }

    /** `to_dict(include_hand)`. */
    function ToDict(includeHand: bool): PlayerDict
      reads this
    {
      StateToDict(State(), includeHand)
    }

    /** `Player.from_dict`: a new player built from a dictionary, or the error its hand's
        conversion raised. */
    static method FromDict(d: PlayerDict) returns (r: Result<Player>)
      ensures r.Ok? <==> StateFromDict(d).Ok?
      ensures r.Ok? ==> fresh(r.value) && r.value.State() == StateFromDict(d).value
    {
      var p := new Player(d.playerId, d.name);
      p.lives := d.lives;
      p.guess := d.guess;
      p.turnsWon := d.turnsWon;
      p.isEliminated := d.isEliminated;
      match d.hand {
        case HandSize(_) =>
          r := Ok(p);
        case Hand(ds) =>
          match CardsFromDicts(ds) {
            case Err(e) =>
              r := Err(e);
            case Ok(cs) =>
              p.hand := cs;
              r := Ok(p);
          }
      }
    }
  }
}
