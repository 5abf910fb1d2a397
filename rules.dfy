/** The rules of the game engine stated on values: a `GameState` holds everything a `Game`
    object holds, and each function below is one engine operation. The `Game` class is proved
    to change its fields exactly as these functions say, and the lemmas here state what the
    operations promise. */
module GameRules {
  import opened Wrappers
  import opened Cards
  import opened Players

  /** Cards dealt to each player in the six phases, in order. */
  const PhaseSequence: seq<int> := [2, 3, 4, 5, 4, 3]

  const MaxPlayers: int := 8
  const MinPlayers: int := 2

  datatype GamePhase = Waiting | Guessing | Playing | PhaseEnd | GameOver

  /** The enumeration values, the form a phase takes in a game dictionary. */
  function PhaseValue(p: GamePhase): string
  {
    match p
    case Waiting => "waiting"
    case Guessing => "guessing"
    case Playing => "playing"
    case PhaseEnd => "phase_end"
    case GameOver => "game_over"
  }

  /** One entry of `played_cards`: who played which card. */
  datatype Play = Play(playerId: string, card: Card)

  /** What `make_guess` and `play_card` do with a request: return `True`, return `False`, or
      raise (an `IndexError` when the seat counter points outside the active players). */
  datatype Reply = Accepted | Rejected | Raised(error: string)

  /** The outcome of the checks both `make_guess` and `play_card` start with: the phase, the
      player's existence and elimination, and whose turn it is. `YourTurn` carries the
      player's position in `players`. */
  datatype Seat = NotYourTurn | NoSuchSeat | YourTurn(position: nat)

  const IndexError: string := "IndexError: list index out of range"

  datatype GameState = GameState(
    players: seq<PlayerState>,
    deck: seq<Card>,
    currentPhaseIndex: int,
    currentTurn: int,
    currentPlayerIndex: int,
    phase: GamePhase,
    playedCards: seq<Play>,
    turnResults: seq<string>,
    winner: Option<string>,
    guessingOrderStart: int,
    currentGuessingPlayer: int)

  /** The state of a newly constructed game. */
  function NewGame(): GameState
  {
    GameState([], FullDeck(), 0, 0, 0, Waiting, [], [], None, 0, 0)
  }

  /** The number of cards each player holds in the current phase. */
  function CardsInPhase(G: GameState): int
    requires 0 <= G.currentPhaseIndex < |PhaseSequence|
  {
    PhaseSequence[G.currentPhaseIndex]
  }

  // ---------------------------------------------------------------------------------------
  // Players, ids and the active list

  function IdsOf(S: seq<PlayerState>): seq<string>
  {
    seq(|S|, i requires 0 <= i < |S| => S[i].id)
  }

  predicate IdsDistinct(S: seq<PlayerState>)
  {
    forall i, j :: 0 <= i < j < |S| ==> S[i].id != S[j].id
  }

  /** The first position of `id` in `ids`: the source's scans of the player list by id. */
  function FindId(ids: seq<string>, id: string): (r: Option<nat>)
    ensures r.Some? ==> r.value < |ids| && ids[r.value] == id
    ensures r.Some? ==> forall j :: 0 <= j < r.value ==> ids[j] != id
    ensures r.None? <==> id !in ids
  {
    if ids == [] then None
    else if ids[0] == id then Some(0)
    else
      match FindId(ids[1..], id)
      case None => None
      case Some(k) => Some(k + 1)
  }

  /** A scan that stops at the first `id` finds position `i`. */
  lemma FindIdIs(ids: seq<string>, id: string, i: nat)
    requires i < |ids| && ids[i] == id
    requires forall j :: 0 <= j < i ==> ids[j] != id
    ensures FindId(ids, id) == Some(i)
  {
  }

  /** Python's `xs[k]` on a list of length `len`: a negative position counts from the end;
      `None` where Python raises `IndexError`. */
  function PyIndex(len: nat, k: int): (r: Option<nat>)
    ensures r.Some? ==> r.value < len
    ensures r.Some? <==> -(len as int) <= k < len
    ensures 0 <= k < len ==> r == Some(k)
  {
    if 0 <= k < len then Some(k)
    else if -(len as int) <= k < 0 then Some(len + k)
    else None
  }

  /** The positions of the players not eliminated, in table order: the source's
      `[p for p in self.players if not p.is_eliminated]`. */
  function ActiveIndices(S: seq<PlayerState>): (A: seq<nat>)
    ensures |A| <= |S|
    ensures forall k :: 0 <= k < |A| ==> A[k] < |S| && !S[A[k]].isEliminated
  {
    if S == [] then []
    else
      var A0 := ActiveIndices(S[..|S| - 1]);
      if S[|S| - 1].isEliminated then A0 else A0 + [|S| - 1]
  }

  /** The active list keeps table order. */
  lemma {:induction false} ActiveIndicesIncreasing(S: seq<PlayerState>)
    ensures forall k, l :: 0 <= k < l < |ActiveIndices(S)| ==> ActiveIndices(S)[k] < ActiveIndices(S)[l]
  {
    if S != [] {
      ActiveIndicesIncreasing(S[..|S| - 1]);
    }
  }

  /** Every player not eliminated is in the active list. */
  lemma {:induction false} ActiveIndicesComplete(S: seq<PlayerState>)
    ensures forall i :: 0 <= i < |S| && !S[i].isEliminated ==> i in ActiveIndices(S)
  {
    if S != [] {
      ActiveIndicesComplete(S[..|S| - 1]);
      assert forall i :: 0 <= i < |S| - 1 ==> S[..|S| - 1][i] == S[i];
    }
  }

  /** The active players themselves, in table order. */
  function ActiveStates(S: seq<PlayerState>): (a: seq<PlayerState>)
    ensures |a| == |ActiveIndices(S)|
    ensures forall k :: 0 <= k < |a| ==> a[k] == S[ActiveIndices(S)[k]]
  {
    var A := ActiveIndices(S);
    seq(|A|, k requires 0 <= k < |A| => S[A[k]])
  }

  /** The active list depends only on who is eliminated. */
  lemma {:induction false} ActiveIndicesFollowElimination(S: seq<PlayerState>, T: seq<PlayerState>)
    requires |S| == |T|
    requires forall i :: 0 <= i < |S| ==> S[i].isEliminated == T[i].isEliminated
    ensures ActiveIndices(S) == ActiveIndices(T)
  {
    if S != [] {
      ActiveIndicesFollowElimination(S[..|S| - 1], T[..|T| - 1]);
    }
  }

  /** Everyone who is not eliminated is active, and the active list has no repeats: an
      active player's position appears exactly once. */
  lemma ActivePositionUnique(S: seq<PlayerState>, k: nat, l: nat)
    requires k < |ActiveIndices(S)| && l < |ActiveIndices(S)|
    requires ActiveIndices(S)[k] == ActiveIndices(S)[l]
    ensures k == l
  {
    ActiveIndicesIncreasing(S);
  }

  // ---------------------------------------------------------------------------------------
  // The guessing rule

  function GuessesOf(S: seq<PlayerState>): seq<Option<int>>
  {
    seq(|S|, i requires 0 <= i < |S| => S[i].guess)
  }

  /** The sum of the guesses made so far. */
  function SumGuesses(gs: seq<Option<int>>): int
  {
    if gs == [] then 0
    else SumGuesses(gs[..|gs| - 1]) + (match gs[|gs| - 1] case None => 0 case Some(g) => g)
  }

  /** How many players have guessed so far. */
  function CountGuessed(gs: seq<Option<int>>): nat
  {
    if gs == [] then 0
    else CountGuessed(gs[..|gs| - 1]) + (if gs[|gs| - 1].Some? then 1 else 0)
  }

  /** `_is_guess_valid`: the first guess of a phase is free; after that a guess may not bring
      the total to exactly the number of cards, unless the total already exceeds it. */
  predicate GuessAllowed(cards: int, gs: seq<Option<int>>, g: int)
  {
    var total := SumGuesses(gs);
    CountGuessed(gs) == 0 || total > cards || total + g != cards
  }

  /** The single guess the rule forbids, when it forbids one. */
  function Forbidden(cards: int, gs: seq<Option<int>>): Option<int>
  {
    if CountGuessed(gs) > 0 && SumGuesses(gs) <= cards then Some(cards - SumGuesses(gs)) else None
  }

  /** The rule forbids at most one value, and exactly `Forbidden`. */
  lemma GuessAllowedExceptForbidden(cards: int, gs: seq<Option<int>>, g: int)
    ensures GuessAllowed(cards, gs, g) <==> Forbidden(cards, gs) != Some(g)
  {
  }

  /** The allowed guesses among `0 .. n-1`, in increasing order: the loop of
      `get_valid_guesses` after `n` rounds. */
  function ValidUpTo(cards: int, gs: seq<Option<int>>, n: nat): seq<int>
  {
    if n == 0 then []
    else ValidUpTo(cards, gs, n - 1) + (if GuessAllowed(cards, gs, n - 1) then [n - 1] else [])
  }

  /** The list `get_valid_guesses` returns to the player whose turn it is. */
  function ValidGuesses(cards: int, gs: seq<Option<int>>): seq<int>
    requires cards >= 0
  {
    ValidUpTo(cards, gs, cards + 1)
  }

  lemma {:induction false} ValidUpToMembers(cards: int, gs: seq<Option<int>>, n: nat, g: int)
    ensures g in ValidUpTo(cards, gs, n) <==> 0 <= g < n && GuessAllowed(cards, gs, g)
  {
    if n > 0 {
      ValidUpToMembers(cards, gs, n - 1, g);
    }
  }

  lemma {:induction false} ValidUpToIncreasing(cards: int, gs: seq<Option<int>>, n: nat)
    ensures forall k, l :: 0 <= k < l < |ValidUpTo(cards, gs, n)| ==>
      ValidUpTo(cards, gs, n)[k] < ValidUpTo(cards, gs, n)[l]
  {
    if n > 0 {
      ValidUpToIncreasing(cards, gs, n - 1);
      var v := ValidUpTo(cards, gs, n - 1);
      forall k | 0 <= k < |v|
        ensures v[k] < n - 1
      {
        ValidUpToMembers(cards, gs, n - 1, v[k]);
      }
    }
  }

  lemma {:induction false} ValidUpToSize(cards: int, gs: seq<Option<int>>, n: nat)
    ensures |ValidUpTo(cards, gs, n)| ==
      n - (if Forbidden(cards, gs).Some? && 0 <= Forbidden(cards, gs).value < n then 1 else 0)
  {
    if n > 0 {
      ValidUpToSize(cards, gs, n - 1);
      GuessAllowedExceptForbidden(cards, gs, n - 1);
    }
  }

  /** The list of valid guesses: exactly the allowed values from 0 to the number of cards,
      each once and in increasing order, missing at most one of them. */
  lemma ValidGuessesCharacterised(cards: int, gs: seq<Option<int>>)
    requires cards >= 0
    ensures forall g :: g in ValidGuesses(cards, gs) <==> 0 <= g <= cards && GuessAllowed(cards, gs, g)
    ensures forall k, l :: 0 <= k < l < |ValidGuesses(cards, gs)| ==>
      ValidGuesses(cards, gs)[k] < ValidGuesses(cards, gs)[l]
    ensures |ValidGuesses(cards, gs)| >= cards
  {
    forall g
      ensures g in ValidGuesses(cards, gs) <==> 0 <= g <= cards && GuessAllowed(cards, gs, g)
    {
      ValidUpToMembers(cards, gs, cards + 1, g);
    }
    ValidUpToIncreasing(cards, gs, cards + 1);
    ValidUpToSize(cards, gs, cards + 1);
  }

  /** A sequence of guesses as present values. */
  function Somes(bids: seq<int>): seq<Option<int>>
  {
    seq(|bids|, i requires 0 <= i < |bids| => Some(bids[i]))
  }

  /** Guesses made one after another, each in `0..cards` and allowed by the rule given the
      ones before it. */
  predicate AllowedBids(cards: int, bids: seq<int>)
  {
    bids == [] ||
    (AllowedBids(cards, bids[..|bids| - 1]) && 0 <= bids[|bids| - 1] <= cards &&
     GuessAllowed(cards, Somes(bids[..|bids| - 1]), bids[|bids| - 1]))
  }

  lemma SomesPrefix(bids: seq<int>)
    requires bids != []
    ensures Somes(bids)[..|bids| - 1] == Somes(bids[..|bids| - 1])
  {
  }

  lemma {:induction false} SumSomes(bids: seq<int>)
    requires bids != []
    ensures SumGuesses(Somes(bids)) == SumGuesses(Somes(bids[..|bids| - 1])) + bids[|bids| - 1]
    ensures CountGuessed(Somes(bids)) == |bids|
  {
    SomesPrefix(bids);
    if |bids| > 1 {
      SumSomes(bids[..|bids| - 1]);
      assert bids[..|bids| - 1][..|bids| - 2] == bids[..|bids| - 2];
    }
  }

  /** The consequence of the rule: once two or more players have guessed under it, the
      guesses never add up to the number of cards, so some player must miss. */
  lemma {:induction false} BidsNeverTotalCards(cards: int, bids: seq<int>)
    requires AllowedBids(cards, bids)
    requires |bids| >= 2
    ensures SumGuesses(Somes(bids)) != cards
  {
    var pre := bids[..|bids| - 1];
    SumSomes(bids);
    SumSomes(pre);
    if |bids| > 2 {
      BidsNeverTotalCards(cards, pre);
    } else {
      assert pre[..0] == [];
    }
  }

  // ---------------------------------------------------------------------------------------
  // Starting a phase: reset the active players, deal to each of them in table order

  function ResetIfActive(st: PlayerState): PlayerState
  {
    if st.isEliminated then st else ResetState(st)
  }

  /** The reset loop of `_start_new_phase`. */
  function ResetAll(S: seq<PlayerState>): (r: seq<PlayerState>)
    ensures |r| == |S|
  {
    seq(|S|, i requires 0 <= i < |S| => ResetIfActive(S[i]))
  }

  /** The first `j` rounds of the dealing loop, `n` cards each, from deck `d0`: the hands dealt
      and the deck left. */
  function DealFirst(d0: seq<Card>, j: nat, n: nat): (r: (seq<seq<Card>>, seq<Card>))
    requires j * n <= |d0|
    ensures |r.0| == j && |r.1| == |d0| - j * n
    ensures forall k :: 0 <= k < j ==> |r.0[k]| == n
    decreases j
  {
    if j == 0 then ([], d0)
    else
      var prev := DealFirst(d0, j - 1, n);
      (prev.0 + [Dealt(prev.1, n)], Kept(prev.1, n))
  }

  /** The cards of a list of hands, one after the other. */
  function Flatten(hs: seq<seq<Card>>): seq<Card>
  {
    if hs == [] then [] else Flatten(hs[..|hs| - 1]) + hs[|hs| - 1]
  }

  /** One round of dealing moves `n` cards from the deck to a new hand. */
  lemma DealRoundConserves(hs: seq<seq<Card>>, c: seq<Card>, n: nat)
    requires n <= |c|
    ensures multiset(Flatten(hs + [Dealt(c, n)])) + multiset(Kept(c, n)) ==
            multiset(Flatten(hs)) + multiset(c)
  {
    var hs' := hs + [Dealt(c, n)];
    assert hs'[..|hs'| - 1] == hs;
    DealConserves(c, n);
  }

  /** Dealing loses and creates no cards: hands and rest together are the deck dealt from. */
  lemma {:induction false} DealFirstConserves(d0: seq<Card>, j: nat, n: nat)
    requires j * n <= |d0|
    ensures multiset(Flatten(DealFirst(d0, j, n).0)) + multiset(DealFirst(d0, j, n).1) == multiset(d0)
  {
    if j > 0 {
      assert (j - 1) * n == j * n - n;
      DealFirstConserves(d0, j - 1, n);
      var prev := DealFirst(d0, j - 1, n);
      DealRoundConserves(prev.0, prev.1, n);
    }
  }

  /** Appends `hs[k]` to the hand of the player at position `A[k]`, for every `k`: the
      `add_cards` calls of the dealing loop. */
  function GiveHands(S: seq<PlayerState>, A: seq<nat>, hs: seq<seq<Card>>): (r: seq<PlayerState>)
    requires |A| == |hs|
    requires forall k :: 0 <= k < |A| ==> A[k] < |S|
    ensures |r| == |S|
  {
    if hs == [] then S
    else
      var T := GiveHands(S, A[..|A| - 1], hs[..|hs| - 1]);
      var a := A[|A| - 1];
      T[a := T[a].(hand := T[a].hand + hs[|hs| - 1])]
  }

  /** The player at `A[k]` receives `hs[k]`; everyone else is unchanged. */
  lemma {:induction false} GiveHandsPointwise(S: seq<PlayerState>, A: seq<nat>, hs: seq<seq<Card>>)
    requires |A| == |hs|
    requires forall k :: 0 <= k < |A| ==> A[k] < |S|
    requires forall k, l :: 0 <= k < l < |A| ==> A[k] < A[l]
    ensures forall k :: 0 <= k < |A| ==>
      GiveHands(S, A, hs)[A[k]] == S[A[k]].(hand := S[A[k]].hand + hs[k])
    ensures forall i :: 0 <= i < |S| && i !in A ==> GiveHands(S, A, hs)[i] == S[i]
  {
    if hs != [] {
      var A' := A[..|A| - 1];
      GiveHandsPointwise(S, A', hs[..|hs| - 1]);
      assert forall k :: 0 <= k < |A'| ==> A'[k] == A[k];
    }
  }

  /** The seat after seat `k` at a table of `a` seats: `(k + 1) % a`, where Python's `%` and
      Dafny's agree because `a` is positive. */
  function NextSeat(k: int, a: int): (r: int)
    requires a > 0
    ensures 0 <= r < a
  {
    (k + 1) % a
  }

  /** The phase after phase `i` of the sequence, wrapping after the last. */
  function NextPhaseIndex(i: int): (r: int)
    ensures 0 <= r < |PhaseSequence|
  {
    (i + 1) % |PhaseSequence|
  }

  /** Every phase deals between 2 and 5 cards to each player, so a full table's hands always
      fit in a fresh deck: at most 8 players with at most 5 cards each need at most 40 cards. */
  lemma DealFits(a: int, i: int)
    requires 0 <= a <= MaxPlayers && 0 <= i < |PhaseSequence|
    ensures 2 <= PhaseSequence[i] <= 5
    ensures a * PhaseSequence[i] <= |FullDeck()|
  {
    if i < 3 {
      assert i == 0 || i == 1 || i == 2;
    } else {
      assert i == 3 || i == 4 || i == 5;
    }
    var n := PhaseSequence[i];
    assert a * n <= 8 * n;
  }

  /** `_start_new_phase`: resets the active players, deals the phase's number of cards to each
      of them in table order (from a freshly `reshuffled` deck when the deck is short), clears
      the hands played, and moves the first guesser one seat on. */
  function StartNewPhase(G: GameState, reshuffled: seq<Card>): GameState
    requires 0 <= G.currentPhaseIndex < |PhaseSequence|
    requires |G.players| <= MaxPlayers
    requires |ActiveIndices(G.players)| >= 1
    requires |reshuffled| == |FullDeck()|
  {
    var S1 := ResetAll(G.players);
    ActiveIndicesFollowElimination(S1, G.players);
    var n := CardsInPhase(G);
    var A := ActiveIndices(S1);
    var d0 := if |G.deck| < |A| * n then reshuffled else G.deck;
    DealFits(|A|, G.currentPhaseIndex);
    var dealt := DealFirst(d0, |A|, n);
    var gos := NextSeat(G.guessingOrderStart, |A|);
    G.(players := GiveHands(S1, A, dealt.0), deck := dealt.1, currentTurn := 0,
       currentPlayerIndex := 0, playedCards := [], turnResults := [],
       guessingOrderStart := gos, currentGuessingPlayer := gos, phase := Guessing)
  }

  /** The active list and the deck a new phase deals from: every active position is a seat
      and the deck holds enough cards for everyone. */
  lemma {:induction false} StartNewPhaseFits(G: GameState, reshuffled: seq<Card>, A: seq<nat>, d0: seq<Card>)
    requires 0 <= G.currentPhaseIndex < |PhaseSequence|
    requires |G.players| <= MaxPlayers
    requires |reshuffled| == |FullDeck()|
    requires A == ActiveIndices(ResetAll(G.players))
    requires d0 == if |G.deck| < |A| * CardsInPhase(G) then reshuffled else G.deck
    ensures |A| == |ActiveIndices(G.players)| && |A| * CardsInPhase(G) <= |d0|
    ensures forall k :: 0 <= k < |A| ==> A[k] < |G.players|
  {
    ActiveIndicesFollowElimination(ResetAll(G.players), G.players);
    DealFits(|A|, G.currentPhaseIndex);
  }

  /** `StartNewPhase` with the active list `A` and the deck `d0` it deals from named. */
  lemma {:induction false} StartNewPhaseUnfolds(G: GameState, reshuffled: seq<Card>, A: seq<nat>, d0: seq<Card>)
    requires 0 <= G.currentPhaseIndex < |PhaseSequence|
    requires |G.players| <= MaxPlayers
    requires |ActiveIndices(G.players)| >= 1
    requires |reshuffled| == |FullDeck()|
    requires A == ActiveIndices(ResetAll(G.players))
    requires d0 == if |G.deck| < |A| * CardsInPhase(G) then reshuffled else G.deck
    requires |A| == |ActiveIndices(G.players)| && |A| * CardsInPhase(G) <= |d0|
    requires forall k :: 0 <= k < |A| ==> A[k] < |G.players|
    ensures var dealt := DealFirst(d0, |A|, CardsInPhase(G));
      var gos := NextSeat(G.guessingOrderStart, |A|);
      StartNewPhase(G, reshuffled) ==
      G.(players := GiveHands(ResetAll(G.players), A, dealt.0), deck := dealt.1, currentTurn := 0,
         currentPlayerIndex := 0, playedCards := [], turnResults := [],
         guessingOrderStart := gos, currentGuessingPlayer := gos, phase := Guessing)
  {
  }

  /** `can_start`. */
  predicate CanStart(G: GameState)
  {
    |G.players| >= MinPlayers && G.phase == Waiting
  }

  // ---------------------------------------------------------------------------------------
  // The invariant every reachable game keeps

  predicate Inv(G: GameState)
  {
    |G.players| <= MaxPlayers &&
    IdsDistinct(G.players) &&
    0 <= G.currentPhaseIndex < |PhaseSequence| &&
    G.phase != PhaseEnd &&
    |G.turnResults| == G.currentTurn &&
    (forall i :: 0 <= i < |G.players| ==>
       0 <= G.players[i].lives <= InitialLives &&
       (G.players[i].isEliminated <==> G.players[i].lives == 0)) &&
    (G.phase == Waiting ==> forall i :: 0 <= i < |G.players| ==> !G.players[i].isEliminated)
  }

  lemma NewGameInv()
    ensures Inv(NewGame())
    ensures PhaseValue(NewGame().phase) == "waiting" && |NewGame().deck| == 40
  {
    FullDeckIsEveryCardOnce();
  }

  // ---------------------------------------------------------------------------------------
  // Joining, leaving, starting

  /** `add_player`: refused when the table is full or the id is taken; otherwise a new player
      joins at the end of the table, in whatever phase the game is. */
  function AddPlayer(G: GameState, id: string, name: string): (GameState, bool)
  {
    if |G.players| >= MaxPlayers then (G, false)
    else if id in IdsOf(G.players) then (G, false)
    else (G.(players := G.players + [NewPlayerState(id, name)]), true)
  }

  /** `remove_player`: removes the first player with that id, if any. */
  function RemovePlayer(G: GameState, id: string): (GameState, bool)
  {
    match FindId(IdsOf(G.players), id)
    case None => (G, false)
    case Some(i) => (G.(players := G.players[..i] + G.players[i + 1..]), true)
  }

  /** `start_game`: refused unless `can_start`; otherwise the deck is `arrangement` (the
      shuffle) and the first phase starts. */
  function StartGame(G: GameState, arrangement: seq<Card>, reshuffled: seq<Card>): (GameState, bool)
    requires Inv(G)
    requires |reshuffled| == |FullDeck()|
  {
    if !CanStart(G) then (G, false)
    else
      ActiveIndicesComplete(G.players);
      assert 0 in ActiveIndices(G.players);
      (StartNewPhase(G.(deck := arrangement), reshuffled), true)
  }

  lemma AddPlayerKeepsInv(G: GameState, id: string, name: string)
    requires Inv(G)
    ensures Inv(AddPlayer(G, id, name).0)
    ensures AddPlayer(G, id, name).1 <==> |G.players| < MaxPlayers && id !in IdsOf(G.players)
  {
    var S := G.players + [NewPlayerState(id, name)];
    if |G.players| < MaxPlayers && id !in IdsOf(G.players) {
      forall i, j | 0 <= i < j < |S|
        ensures S[i].id != S[j].id
      {
        if j == |G.players| {
          assert IdsOf(G.players)[i] == S[i].id;
        }
      }
    }
  }

  /** A join extends the active list by the newcomer's position at its end and moves no
      counter, so the seat counters that were in range stay in range; only a removal can leave
      them stale. */
  lemma AddPlayerKeepsSeats(G: GameState, id: string, name: string)
    ensures var G' := AddPlayer(G, id, name).0;
      G'.currentGuessingPlayer == G.currentGuessingPlayer &&
      G'.currentPlayerIndex == G.currentPlayerIndex &&
      ActiveIndices(G'.players) ==
        (if AddPlayer(G, id, name).1 then ActiveIndices(G.players) + [|G.players|]
         else ActiveIndices(G.players))
    ensures var G' := AddPlayer(G, id, name).0;
      (0 <= G.currentGuessingPlayer < |ActiveIndices(G.players)| ==>
         0 <= G'.currentGuessingPlayer < |ActiveIndices(G'.players)|) &&
      (0 <= G.currentPlayerIndex < |ActiveIndices(G.players)| ==>
         0 <= G'.currentPlayerIndex < |ActiveIndices(G'.players)|)
  {
    if AddPlayer(G, id, name).1 {
      var S := G.players + [NewPlayerState(id, name)];
      assert S[..|S| - 1] == G.players;
    }
  }

  /** Removing the player at position `i` keeps the others, in order. */
  lemma RemovalShifts(S: seq<PlayerState>, i: nat, T: seq<PlayerState>)
    requires i < |S| && T == S[..i] + S[i + 1..]
    ensures |T| == |S| - 1
    ensures forall j :: 0 <= j < i ==> T[j] == S[j]
    ensures forall j :: i <= j < |T| ==> T[j] == S[j + 1]
  {
  }

  /** Removing a player from a table with distinct ids leaves distinct ids, none of them the
      removed player's. */
  lemma RemovalKeepsIdsDistinct(S: seq<PlayerState>, i: nat, T: seq<PlayerState>)
    requires i < |S| && T == S[..i] + S[i + 1..]
    requires IdsDistinct(S)
    ensures IdsDistinct(T)
    ensures S[i].id !in IdsOf(T)
  {
    RemovalShifts(S, i, T);
    assert IdsDistinct(T) by {
      forall a, b | 0 <= a < b < |T|
        ensures T[a].id != T[b].id
      {
        assert T[a] == S[if a < i then a else a + 1];
        assert T[b] == S[if b < i then b else b + 1];
      }
    }
    forall j | 0 <= j < |T|
      ensures IdsOf(T)[j] != S[i].id
    {
      assert T[j] == S[if j < i then j else j + 1];
    }
  }

  lemma RemovePlayerKeepsInv(G: GameState, id: string)
    requires Inv(G)
    ensures Inv(RemovePlayer(G, id).0)
    ensures RemovePlayer(G, id).1 <==> id in IdsOf(G.players)
    ensures RemovePlayer(G, id).1 ==> |RemovePlayer(G, id).0.players| == |G.players| - 1
    ensures id !in IdsOf(RemovePlayer(G, id).0.players)
  {
    match FindId(IdsOf(G.players), id)
    case None =>
    case Some(i) =>
      var S := G.players[..i] + G.players[i + 1..];
      RemovalShifts(G.players, i, S);
      RemovalKeepsIdsDistinct(G.players, i, S);
      assert forall j :: 0 <= j < |S| ==>
        0 <= S[j].lives <= InitialLives && (S[j].isEliminated <==> S[j].lives == 0);
      assert G.phase == Waiting ==> forall j :: 0 <= j < |S| ==> !S[j].isEliminated;
  }

  /** What starting a phase does to the players: every active player holds exactly the
      phase's number of cards, has no guess and no hand won; eliminated players are untouched;
      lives and eliminations do not change. */
  lemma StartNewPhaseDeals(G: GameState, reshuffled: seq<Card>)
    requires 0 <= G.currentPhaseIndex < |PhaseSequence|
    requires |G.players| <= MaxPlayers
    requires |ActiveIndices(G.players)| >= 1
    requires |reshuffled| == |FullDeck()|
    ensures |StartNewPhase(G, reshuffled).players| == |G.players|
    ensures ActiveIndices(StartNewPhase(G, reshuffled).players) == ActiveIndices(G.players)
    ensures forall i :: 0 <= i < |G.players| ==>
      var p := StartNewPhase(G, reshuffled).players[i];
      p.id == G.players[i].id && p.lives == G.players[i].lives &&
      p.isEliminated == G.players[i].isEliminated &&
      (G.players[i].isEliminated ==> p == G.players[i]) &&
      (!G.players[i].isEliminated ==> |p.hand| == CardsInPhase(G) && p.guess.None? && p.turnsWon == 0)
  {
    var S1 := ResetAll(G.players);
    ActiveIndicesFollowElimination(S1, G.players);
    ActiveIndicesIncreasing(S1);
    var n := CardsInPhase(G);
    var A := ActiveIndices(S1);
    var d0 := if |G.deck| < |A| * n then reshuffled else G.deck;
    DealFits(|A|, G.currentPhaseIndex);
    var dealt := DealFirst(d0, |A|, n);
    DealtPlayers(G.players, dealt.0, n);
    var ps := StartNewPhase(G, reshuffled).players;
    assert ps == GiveHands(S1, A, dealt.0);
    ActiveIndicesFollowElimination(ps, G.players);
  }

  /** What starting a phase does to the round: guessing starts with no hand played and no
      result, and the first guesser is a valid seat, one on from the previous phase's. */
  lemma StartNewPhaseRound(G: GameState, reshuffled: seq<Card>)
    requires 0 <= G.currentPhaseIndex < |PhaseSequence|
    requires |G.players| <= MaxPlayers
    requires |ActiveIndices(G.players)| >= 1
    requires |reshuffled| == |FullDeck()|
    ensures var r := StartNewPhase(G, reshuffled);
      r.phase == Guessing && r.currentTurn == 0 && r.currentPlayerIndex == 0 &&
      r.playedCards == [] && r.turnResults == [] &&
      r.currentGuessingPlayer == r.guessingOrderStart ==
        NextSeat(G.guessingOrderStart, |ActiveIndices(G.players)|) &&
      0 <= r.currentGuessingPlayer < |ActiveIndices(G.players)| &&
      r.currentPhaseIndex == G.currentPhaseIndex && r.winner == G.winner
  {
    ActiveIndicesFollowElimination(ResetAll(G.players), G.players);
  }

  /** The players after the reset and the dealing loop of a phase with `n` cards each. */
  lemma DealtPlayers(S: seq<PlayerState>, hs: seq<seq<Card>>, n: int)
    requires |hs| == |ActiveIndices(S)|
    requires forall k :: 0 <= k < |hs| ==> |hs[k]| == n
    ensures ActiveIndices(ResetAll(S)) == ActiveIndices(S)
    ensures forall k, l :: 0 <= k < l < |ActiveIndices(S)| ==> ActiveIndices(S)[k] < ActiveIndices(S)[l]
    ensures var T := GiveHands(ResetAll(S), ActiveIndices(S), hs);
      |T| == |S| &&
      (forall i :: 0 <= i < |S| ==>
         T[i].id == S[i].id && T[i].lives == S[i].lives && T[i].isEliminated == S[i].isEliminated) &&
      (forall i :: 0 <= i < |S| && S[i].isEliminated ==> T[i] == S[i]) &&
      (forall i :: 0 <= i < |S| && !S[i].isEliminated ==>
         |T[i].hand| == n && T[i].guess.None? && T[i].turnsWon == 0)
  {
    var S1 := ResetAll(S);
    ActiveIndicesFollowElimination(S1, S);
    ActiveIndicesIncreasing(S);
    ActiveIndicesComplete(S);
    var A := ActiveIndices(S);
    var T := GiveHands(S1, A, hs);
    GiveHandsPointwise(S1, A, hs);
    forall i | 0 <= i < |S|
      ensures T[i].id == S[i].id && T[i].lives == S[i].lives && T[i].isEliminated == S[i].isEliminated
      ensures S[i].isEliminated ==> T[i] == S[i]
      ensures !S[i].isEliminated ==> |T[i].hand| == n && T[i].guess.None? && T[i].turnsWon == 0
    {
      if S[i].isEliminated {
        assert i !in A;
        assert T[i] == S1[i];
      } else {
        var k :| 0 <= k < |A| && A[k] == i;
        assert T[i] == S1[i].(hand := S1[i].hand + hs[k]);
      }
    }
  }

  /** Starting a game keeps the invariant. */
  lemma StartNewPhaseKeepsInv(G: GameState, reshuffled: seq<Card>)
    requires Inv(G.(phase := Guessing))
    requires |ActiveIndices(G.players)| >= 1
    requires |reshuffled| == |FullDeck()|
    ensures Inv(StartNewPhase(G, reshuffled))
  {
    StartNewPhaseDeals(G, reshuffled);
    StartNewPhaseRound(G, reshuffled);
  }

  lemma StartGameKeepsInv(G: GameState, arrangement: seq<Card>, reshuffled: seq<Card>)
    requires Inv(G)
    requires |reshuffled| == |FullDeck()|
    ensures Inv(StartGame(G, arrangement, reshuffled).0)
    ensures StartGame(G, arrangement, reshuffled).1 <==> CanStart(G)
    ensures StartGame(G, arrangement, reshuffled).1 ==>
      StartGame(G, arrangement, reshuffled).0.phase == Guessing
  {
    if CanStart(G) {
      ActiveIndicesComplete(G.players);
      assert 0 in ActiveIndices(G.players);
      StartNewPhaseKeepsInv(G.(deck := arrangement), reshuffled);
      StartNewPhaseRound(G.(deck := arrangement), reshuffled);
    }
  }

  // ---------------------------------------------------------------------------------------
  // Whose turn it is

  /** The checks `make_guess` (with `Guessing` and the guessing seat) and `play_card` (with
      `Playing` and the playing seat) open with, in the source's order. */
  function SeatFor(G: GameState, id: string, want: GamePhase, seat: int): (r: Seat)
    ensures r.YourTurn? ==> r.position < |G.players| && G.players[r.position].id == id &&
                            !G.players[r.position].isEliminated
  {
    if G.phase != want then NotYourTurn
    else
      match FindId(IdsOf(G.players), id)
      case None => NotYourTurn
      case Some(i) =>
        if G.players[i].isEliminated then NotYourTurn
        else
          var A := ActiveIndices(G.players);
          match PyIndex(|A|, seat)
          case None => NoSuchSeat
          case Some(k) => if G.players[A[k]].id != id then NotYourTurn else YourTurn(i)
  }

  function GuessTurn(G: GameState, id: string): Seat
  {
    SeatFor(G, id, Guessing, G.currentGuessingPlayer)
  }

  function PlayTurn(G: GameState, id: string): Seat
  {
    SeatFor(G, id, Playing, G.currentPlayerIndex)
  }

  /** Under the invariant, the seat check passes only for the active player the seat counter
      designates, and only in the phase asked for. */
  lemma SeatIsTheDesignatedPlayer(G: GameState, id: string, want: GamePhase, seat: int)
    requires Inv(G)
    requires SeatFor(G, id, want, seat).YourTurn?
    ensures G.phase == want
    ensures var A := ActiveIndices(G.players);
      PyIndex(|A|, seat).Some? && A[PyIndex(|A|, seat).value] == SeatFor(G, id, want, seat).position
  {
    var A := ActiveIndices(G.players);
    var i := SeatFor(G, id, want, seat).position;
    var k := PyIndex(|A|, seat).value;
    assert G.players[A[k]].id == G.players[i].id;
  }

  // ---------------------------------------------------------------------------------------
  // Guessing

  /** `make_guess`'s verdict on a request. */
  function GuessOutcome(G: GameState, id: string, g: int): Reply
    requires 0 <= G.currentPhaseIndex < |PhaseSequence|
  {
    match GuessTurn(G, id)
    case NotYourTurn => Rejected
    case NoSuchSeat => Raised(IndexError)
    case YourTurn(_) =>
      if g < 0 || g > CardsInPhase(G) then Rejected
      else if !GuessAllowed(CardsInPhase(G), GuessesOf(ActiveStates(G.players)), g) then Rejected
      else Accepted
  }

  /** Every active player has guessed. */
  predicate AllGuessed(S: seq<PlayerState>)
  {
    forall k :: 0 <= k < |S| ==> S[k].guess.Some?
  }

  /** `make_guess`: an accepted guess is recorded, the turn passes anticlockwise (one seat
      back, wrapping), and the phase moves to playing once every active player has guessed;
      a refused or failing request changes nothing. */
  function MakeGuess(G: GameState, id: string, g: int): (GameState, Reply)
    requires 0 <= G.currentPhaseIndex < |PhaseSequence|
  {
    var r := GuessOutcome(G, id, g);
    if r != Accepted then (G, r)
    else
      var i := GuessTurn(G, id).position;
      ActiveIndicesComplete(G.players);
      assert i in ActiveIndices(G.players);
      (RecordGuess(G, i, g), Accepted)
  }

  /** The accepted part of `make_guess`: the guess of the player at `i` is recorded, the seat
      moves one back (wrapping), and the phase becomes playing once every active player has
      guessed. */
  function RecordGuess(G: GameState, i: nat, g: int): GameState
    requires i < |G.players|
    requires |ActiveIndices(G.players)| > 0
  {
    var S := G.players[i := G.players[i].(guess := Some(g))];
    G.(players := S,
       currentGuessingPlayer := (G.currentGuessingPlayer - 1) % |ActiveIndices(G.players)|,
       phase := if AllGuessed(ActiveStates(S)) then Playing else G.phase)
  }

  /** An accepted guess is recorded for the player whose turn it is. */
  lemma MakeGuessAccepted(G: GameState, id: string, g: int)
    requires 0 <= G.currentPhaseIndex < |PhaseSequence|
    requires GuessOutcome(G, id, g) == Accepted
    ensures GuessTurn(G, id).YourTurn?
    ensures |ActiveIndices(G.players)| > 0
    ensures MakeGuess(G, id, g) == (RecordGuess(G, GuessTurn(G, id).position, g), Accepted)
  {
    ActiveIndicesComplete(G.players);
    assert GuessTurn(G, id).position in ActiveIndices(G.players);
  }

  /** `RecordGuess` once it is known whether everyone has guessed. */
  lemma RecordGuessUnfolds(G: GameState, i: nat, g: int, all: bool)
    requires i < |G.players|
    requires |ActiveIndices(G.players)| > 0
    requires all == AllGuessed(ActiveStates(G.players[i := G.players[i].(guess := Some(g))]))
    ensures RecordGuess(G, i, g) ==
      G.(players := G.players[i := G.players[i].(guess := Some(g))],
         currentGuessingPlayer := (G.currentGuessingPlayer - 1) % |ActiveIndices(G.players)|,
         phase := if all then Playing else G.phase)
  {
  }

  /** `get_valid_guesses`: the empty list unless it is that player's turn to guess, in which
      case the allowed values; raises where `make_guess` would. */
  function ValidGuessesFor(G: GameState, id: string): Result<seq<int>>
    requires 0 <= G.currentPhaseIndex < |PhaseSequence|
  {
    match GuessTurn(G, id)
    case NotYourTurn => Ok([])
    case NoSuchSeat => Err(IndexError)
    case YourTurn(_) => Ok(ValidGuesses(CardsInPhase(G), GuessesOf(ActiveStates(G.players))))
  }

  /** The list of valid guesses is exactly what `make_guess` accepts from that player, it
      raises exactly when `make_guess` raises, and it is never empty on the player's turn. */
  lemma ValidGuessesAgreeWithMakeGuess(G: GameState, id: string, g: int)
    requires 0 <= G.currentPhaseIndex < |PhaseSequence|
    ensures ValidGuessesFor(G, id).Err? <==> GuessOutcome(G, id, g).Raised?
    ensures (ValidGuessesFor(G, id).Ok? && g in ValidGuessesFor(G, id).value) <==>
            GuessOutcome(G, id, g) == Accepted
    ensures GuessTurn(G, id).YourTurn? ==> |ValidGuessesFor(G, id).value| >= CardsInPhase(G)
  {
    ValidGuessesCharacterised(CardsInPhase(G), GuessesOf(ActiveStates(G.players)));
  }

  /** An accepted guess: the guesser is the active player at the guessing seat, the guess is
      within 0..cards and allowed by the rule; only that player's guess changes, the seat
      moves back by one (wrapping) and stays a valid seat, and the phase becomes playing
      exactly when all active players have guessed. A refused guess changes nothing. */
  lemma MakeGuessEffect(G: GameState, id: string, g: int)
    requires Inv(G)
    ensures var (G', r) := MakeGuess(G, id, g);
      (r != Accepted ==> G' == G) &&
      (r.Raised? <==> GuessTurn(G, id) == NoSuchSeat) &&
      (r == Accepted ==>
         var i := GuessTurn(G, id).position;
         var A := ActiveIndices(G.players);
         G.phase == Guessing &&
         PyIndex(|A|, G.currentGuessingPlayer).Some? &&
         A[PyIndex(|A|, G.currentGuessingPlayer).value] == i &&
         0 <= g <= CardsInPhase(G) &&
         GuessAllowed(CardsInPhase(G), GuessesOf(ActiveStates(G.players)), g) &&
         G'.players == G.players[i := G.players[i].(guess := Some(g))] &&
         0 <= G'.currentGuessingPlayer < |A| &&
         (G'.phase == Playing <==> AllGuessed(ActiveStates(G'.players))) &&
         (G'.phase != Playing ==> G'.phase == Guessing) &&
         G' == G.(players := G'.players, currentGuessingPlayer := G'.currentGuessingPlayer,
                  phase := G'.phase))
  {
    if GuessOutcome(G, id, g) == Accepted {
      SeatIsTheDesignatedPlayer(G, id, Guessing, G.currentGuessingPlayer);
    }
  }

  lemma MakeGuessKeepsInv(G: GameState, id: string, g: int)
    requires Inv(G)
    ensures Inv(MakeGuess(G, id, g).0)
  {
    MakeGuessEffect(G, id, g);
  }

  // ---------------------------------------------------------------------------------------
  // Playing a hand

  /** `play_card`'s verdict on a request. */
  function PlayOutcome(G: GameState, id: string, number: int, seedName: string): Reply
  {
    match PlayTurn(G, id)
    case NotYourTurn => Rejected
    case NoSuchSeat => Raised(IndexError)
    case YourTurn(i) =>
      if FirstMatch(G.players[i].hand, number, seedName).Some? then Accepted else Rejected
  }

  /** The scan of `_resolve_turn` over the first `i` plays: the position of the first play
      whose card is strictly greater than every play before it that won so far. */
  function StrongestUpTo(plays: seq<Play>, i: nat): (r: Option<nat>)
    requires i <= |plays|
    ensures i == 0 <==> r.None?
    ensures r.Some? ==> r.value < i
  {
    if i == 0 then None
    else
      match StrongestUpTo(plays, i - 1)
      case None => Some(i - 1)
      case Some(w) => if Greater(plays[i - 1].card, plays[w].card) then Some(i - 1) else Some(w)
  }

  /** The strongest card wins: no play's card is greater than the winning one, and every play
      before the winning one is strictly smaller (a tie goes to the earlier play). */
  lemma {:induction false} StrongestIsFirstMaximum(plays: seq<Play>, i: nat)
    requires 0 < i <= |plays|
    ensures var w := StrongestUpTo(plays, i).value;
      (forall j :: 0 <= j < i ==> !Greater(plays[j].card, plays[w].card)) &&
      (forall j :: 0 <= j < w ==> Less(plays[j].card, plays[w].card))
  {
    var w := StrongestUpTo(plays, i).value;
    if i > 1 {
      StrongestIsFirstMaximum(plays, i - 1);
      var v := StrongestUpTo(plays, i - 1).value;
      if Greater(plays[i - 1].card, plays[v].card) {
        ComparisonsAgree(plays[i - 1].card, plays[v].card);
        forall j | 0 <= j < i - 1
          ensures Less(plays[j].card, plays[i - 1].card)
        {
          ComparisonsAgree(plays[j].card, plays[v].card);
          LessIsStrictTotalOrder(plays[j].card, plays[v].card, plays[i - 1].card);
        }
        LessIsStrictTotalOrder(plays[i - 1].card, plays[i - 1].card, plays[i - 1].card);
      } else {
        ComparisonsAgree(plays[v].card, plays[v].card);
        LessIsStrictTotalOrder(plays[v].card, plays[v].card, plays[v].card);
      }
    } else {
      LessIsStrictTotalOrder(plays[0].card, plays[0].card, plays[0].card);
    }
  }

  function SettleIfMissed(st: PlayerState): PlayerState
  {
    if !st.isEliminated && st.guess.Some? && st.turnsWon != st.guess.value then LoseLifeState(st) else st
  }

  /** The scoring loop of `_end_phase`. */
  function SettleAll(S: seq<PlayerState>): (r: seq<PlayerState>)
    ensures |r| == |S|
  {
    seq(|S|, i requires 0 <= i < |S| => SettleIfMissed(S[i]))
  }

  /** `_end_phase`: every active player whose number of hands won differs from the guess
      loses a life; with at most one player left the game is over (that player, if any, wins);
      otherwise the next phase of the sequence (wrapping) starts. */
  function EndPhase(G: GameState, reshuffled: seq<Card>): GameState
    requires 0 <= G.currentPhaseIndex < |PhaseSequence|
    requires |G.players| <= MaxPlayers
    requires |reshuffled| == |FullDeck()|
  {
    var S := SettleAll(G.players);
    var A := ActiveIndices(S);
    if |A| <= 1 then
      G.(players := S, phase := GameOver, winner := if |A| == 1 then Some(S[A[0]].id) else G.winner)
    else
      StartNewPhase(G.(players := S, phase := PhaseEnd,
                       currentPhaseIndex := NextPhaseIndex(G.currentPhaseIndex)), reshuffled)
  }

  /** The position of the play that wins a non-empty table. */
  function WinningPlay(plays: seq<Play>): (w: nat)
    requires plays != []
    ensures w < |plays|
  {
    StrongestUpTo(plays, |plays|).value
  }

  /** The id of the player whose card wins a non-empty table. */
  function WinnerOf(plays: seq<Play>): string
    requires plays != []
  {
    plays[WinningPlay(plays)].playerId
  }

  /** `winner.win_turn()` on the first player with the winner's id, if there is one. */
  function CreditWinner(S: seq<PlayerState>, wid: string): (r: seq<PlayerState>)
    ensures |r| == |S|
  {
    match FindId(IdsOf(S), wid)
    case None => S
    case Some(j) => S[j := WinTurnState(S[j])]
  }

  /** Crediting a hand changes no id, no lives and no elimination. */
  lemma CreditWinnerKeeps(S: seq<PlayerState>, wid: string)
    ensures forall i :: 0 <= i < |S| ==>
      var r := CreditWinner(S, wid);
      r[i].id == S[i].id && r[i].lives == S[i].lives && r[i].isEliminated == S[i].isEliminated
  {
  }

  /** With distinct ids, exactly the player with the winner's id is credited. */
  lemma CreditWinnerPointwise(S: seq<PlayerState>, wid: string)
    requires IdsDistinct(S)
    ensures forall i :: 0 <= i < |S| ==>
      CreditWinner(S, wid)[i] == (if S[i].id == wid then WinTurnState(S[i]) else S[i])
  {
    forall i | 0 <= i < |S|
      ensures CreditWinner(S, wid)[i] == (if S[i].id == wid then WinTurnState(S[i]) else S[i])
    {
      assert IdsOf(S)[i] == S[i].id;
    }
  }

  /** The seat of the next hand's leader: the winner's position among the active players, or
      the seat unchanged when the winner is not among them. */
  function LeaderSeat(S: seq<PlayerState>, wid: string, seat: int): int
  {
    match FindId(IdsOf(ActiveStates(S)), wid)
    case None => seat
    case Some(k) => k
  }

  /** `_resolve_turn`: the strongest card wins the hand; its player wins a hand, the winner's
      id is appended to the results, the played cards are cleared and the hand counter moves
      on; after the phase's last hand the phase ends, otherwise the winner leads the next
      hand. */
  function ResolveTurn(G: GameState, reshuffled: seq<Card>): GameState
    requires 0 <= G.currentPhaseIndex < |PhaseSequence|
    requires |G.players| <= MaxPlayers
    requires |reshuffled| == |FullDeck()|
  {
    if G.playedCards == [] then G
    else
      var wid := WinnerOf(G.playedCards);
      var S := CreditWinner(G.players, wid);
      var G1 := G.(players := S, turnResults := G.turnResults + [wid], playedCards := [],
                   currentTurn := G.currentTurn + 1);
      if G1.currentTurn >= CardsInPhase(G) then EndPhase(G1, reshuffled)
      else G1.(currentPlayerIndex := LeaderSeat(S, wid, G.currentPlayerIndex))
  }

  /** `play_card`: an accepted play removes the first matching card from the player's hand,
      records it, passes the turn one seat on (wrapping) and, once every active player has
      played, resolves the hand; a refused or failing request changes nothing. */
  function PlayCard(G: GameState, id: string, number: int, seedName: string, reshuffled: seq<Card>): (GameState, Reply)
    requires 0 <= G.currentPhaseIndex < |PhaseSequence|
    requires |G.players| <= MaxPlayers
    requires |reshuffled| == |FullDeck()|
  {
    var r := PlayOutcome(G, id, number, seedName);
    if r != Accepted then (G, r)
    else
      var i := PlayTurn(G, id).position;
      var k := FirstMatch(G.players[i].hand, number, seedName).value;
      ActiveIndicesComplete(G.players);
      assert i in ActiveIndices(G.players);
      var G1 := PlaceCard(G, id, i, k);
      if |G1.playedCards| == |ActiveIndices(G.players)| then (ResolveTurn(G1, reshuffled), Accepted)
      else (G1, Accepted)
  }

  /** The accepted part of `play_card` before any resolution: the card at position `k` leaves
      the hand of the player at `i` and joins the table under `id`, and the seat moves one on,
      wrapping. */
  function PlaceCard(G: GameState, id: string, i: nat, k: nat): GameState
    requires i < |G.players| && k < |G.players[i].hand|
    requires |ActiveIndices(G.players)| > 0
  {
    var hand := G.players[i].hand;
    G.(players := G.players[i := G.players[i].(hand := RemoveAt(hand, k))],
       playedCards := G.playedCards + [Play(id, hand[k])],
       currentPlayerIndex := NextSeat(G.currentPlayerIndex, |ActiveIndices(G.players)|))
  }

  /** Placing a card changes only a hand, so it keeps the invariant and the active list. */
  lemma PlaceCardKeepsInv(G: GameState, id: string, i: nat, k: nat)
    requires Inv(G)
    requires i < |G.players| && k < |G.players[i].hand|
    requires |ActiveIndices(G.players)| > 0
    ensures Inv(PlaceCard(G, id, i, k))
    ensures ActiveIndices(PlaceCard(G, id, i, k).players) == ActiveIndices(G.players)
  {
    var S := PlaceCard(G, id, i, k).players;
    assert forall j :: 0 <= j < |S| ==>
      S[j].id == G.players[j].id && S[j].lives == G.players[j].lives &&
      S[j].isEliminated == G.players[j].isEliminated;
    ActiveIndicesFollowElimination(S, G.players);
  }

  /** Scoring at the end of a phase: lives and eliminations are those of `SettleIfMissed`
      whichever way the phase ends. */
  lemma EndPhaseLives(G: GameState, reshuffled: seq<Card>)
    requires 0 <= G.currentPhaseIndex < |PhaseSequence|
    requires |G.players| <= MaxPlayers
    requires |reshuffled| == |FullDeck()|
    ensures |EndPhase(G, reshuffled).players| == |G.players|
    ensures forall i :: 0 <= i < |G.players| ==>
      var p := EndPhase(G, reshuffled).players[i];
      p.id == G.players[i].id &&
      p.lives == SettleIfMissed(G.players[i]).lives &&
      p.isEliminated == SettleIfMissed(G.players[i]).isEliminated
  {
    if |ActiveIndices(SettleAll(G.players))| >= 2 {
      EndPhaseLivesNextPhase(G, reshuffled);
    } else {
      EndPhaseGameOver(G, reshuffled);
    }
  }

  lemma EndPhaseLivesNextPhase(G: GameState, reshuffled: seq<Card>)
    requires 0 <= G.currentPhaseIndex < |PhaseSequence|
    requires |G.players| <= MaxPlayers
    requires |reshuffled| == |FullDeck()|
    requires |ActiveIndices(SettleAll(G.players))| >= 2
    ensures |EndPhase(G, reshuffled).players| == |G.players|
    ensures forall i :: 0 <= i < |G.players| ==>
      var p := EndPhase(G, reshuffled).players[i];
      p.id == G.players[i].id &&
      p.lives == SettleIfMissed(G.players[i]).lives &&
      p.isEliminated == SettleIfMissed(G.players[i]).isEliminated
  {
    var G1 := G.(players := SettleAll(G.players), phase := PhaseEnd,
                 currentPhaseIndex := NextPhaseIndex(G.currentPhaseIndex));
    EndPhaseStartsNextPhase(G, reshuffled);
    StartNewPhaseDeals(G1, reshuffled);
  }

  /** With two or more players left after scoring, ending the phase is starting the next. */
  lemma EndPhaseStartsNextPhase(G: GameState, reshuffled: seq<Card>)
    requires 0 <= G.currentPhaseIndex < |PhaseSequence|
    requires |G.players| <= MaxPlayers
    requires |reshuffled| == |FullDeck()|
    requires |ActiveIndices(SettleAll(G.players))| >= 2
    ensures EndPhase(G, reshuffled) ==
      StartNewPhase(G.(players := SettleAll(G.players), phase := PhaseEnd,
                       currentPhaseIndex := NextPhaseIndex(G.currentPhaseIndex)), reshuffled)
  {
    var S := SettleAll(G.players);
    assert !(|ActiveIndices(S)| <= 1);
  }

  /** With at most one player left after scoring, ending the phase ends the game. */
  lemma EndPhaseEndsGame(G: GameState, reshuffled: seq<Card>)
    requires 0 <= G.currentPhaseIndex < |PhaseSequence|
    requires |G.players| <= MaxPlayers
    requires |reshuffled| == |FullDeck()|
    requires |ActiveIndices(SettleAll(G.players))| <= 1
    ensures var S := SettleAll(G.players);
      var A := ActiveIndices(S);
      EndPhase(G, reshuffled) ==
        G.(players := S, phase := GameOver, winner := if |A| == 1 then Some(S[A[0]].id) else G.winner)
  {
  }

  /** With at most one player left after scoring the game is over, and that player, if any,
      is the winner. */
  lemma EndPhaseGameOver(G: GameState, reshuffled: seq<Card>)
    requires 0 <= G.currentPhaseIndex < |PhaseSequence|
    requires |G.players| <= MaxPlayers
    requires |reshuffled| == |FullDeck()|
    requires |ActiveIndices(SettleAll(G.players))| <= 1
    ensures var S := SettleAll(G.players);
      var A := ActiveIndices(S);
      var r := EndPhase(G, reshuffled);
      r.phase == GameOver && r.players == S &&
      r.winner == (if |A| == 1 then Some(S[A[0]].id) else G.winner) &&
      r.currentPhaseIndex == G.currentPhaseIndex
  {
  }

  /** With two or more players left, the next phase of the sequence starts with guessing. */
  lemma EndPhaseNextPhase(G: GameState, reshuffled: seq<Card>)
    requires 0 <= G.currentPhaseIndex < |PhaseSequence|
    requires |G.players| <= MaxPlayers
    requires |reshuffled| == |FullDeck()|
    requires |ActiveIndices(SettleAll(G.players))| >= 2
    ensures var r := EndPhase(G, reshuffled);
      r.phase == Guessing &&
      r.currentPhaseIndex == NextPhaseIndex(G.currentPhaseIndex) &&
      r.winner == G.winner && r.currentTurn == 0 && r.turnResults == []
  {
    var S := SettleAll(G.players);
    var G1 := G.(players := S, phase := PhaseEnd,
                 currentPhaseIndex := NextPhaseIndex(G.currentPhaseIndex));
    EndPhaseStartsNextPhase(G, reshuffled);
    StartNewPhaseRound(G1, reshuffled);
  }

  /** A player who missed loses exactly one life, and one who was not active or guessed right
      keeps them; a player is eliminated exactly when the lives reach zero. */
  lemma SettleKeepsLivesInvariant(st: PlayerState)
    requires 0 <= st.lives <= InitialLives && (st.isEliminated <==> st.lives == 0)
    ensures var s := SettleIfMissed(st);
      0 <= s.lives <= InitialLives && (s.isEliminated <==> s.lives == 0) &&
      s.id == st.id &&
      s.lives == (if !st.isEliminated && st.guess.Some? && st.turnsWon != st.guess.value
                  then st.lives - 1 else st.lives)
  {
  }

  lemma EndPhaseKeepsInv(G: GameState, reshuffled: seq<Card>)
    requires Inv(G.(phase := Playing))
    requires |reshuffled| == |FullDeck()|
    ensures Inv(EndPhase(G, reshuffled))
  {
    var S := SettleAll(G.players);
    forall i | 0 <= i < |S|
      ensures 0 <= S[i].lives <= InitialLives && (S[i].isEliminated <==> S[i].lives == 0)
      ensures S[i].id == G.players[i].id
    {
      SettleKeepsLivesInvariant(G.players[i]);
    }
    assert IdsDistinct(S);
    var A := ActiveIndices(S);
    if |A| >= 2 {
      var G1 := G.(players := S, phase := PhaseEnd,
                   currentPhaseIndex := NextPhaseIndex(G.currentPhaseIndex));
      assert Inv(G1.(phase := Guessing));
      StartNewPhaseKeepsInv(G1, reshuffled);
      EndPhaseStartsNextPhase(G, reshuffled);
    } else {
      EndPhaseGameOver(G, reshuffled);
      assert Inv(G.(players := S, phase := GameOver,
                    winner := if |A| == 1 then Some(S[A[0]].id) else G.winner));
    }
  }

  /** The next hand is led by the winner: among the active players, the winner's position is
      the new seat. */
  lemma LeaderIsWinner(S: seq<PlayerState>, wid: string, seat: int, k: nat)
    requires IdsDistinct(S)
    requires k < |ActiveIndices(S)| && S[ActiveIndices(S)[k]].id == wid
    ensures LeaderSeat(S, wid, seat) == k
  {
    var A := ActiveIndices(S);
    var ids := IdsOf(ActiveStates(S));
    assert ids[k] == wid;
    forall m | 0 <= m < k
      ensures ids[m] != wid
    {
      assert ids[m] == S[A[m]].id;
      ActiveIndicesIncreasing(S);
      assert A[m] < A[k];
    }
  }

  /** Resolving a hand that does not finish the phase: the table is cleared, the winner (the
      player of the strongest card) is appended to the results and has won one more hand,
      nobody else changes, the hand counter moves on and the winner leads the next hand. */
  lemma ResolveTurnContinues(G: GameState, reshuffled: seq<Card>)
    requires 0 <= G.currentPhaseIndex < |PhaseSequence|
    requires |G.players| <= MaxPlayers
    requires |reshuffled| == |FullDeck()|
    requires G.playedCards != []
    requires IdsDistinct(G.players)
    requires G.currentTurn + 1 < CardsInPhase(G)
    ensures var wid := WinnerOf(G.playedCards);
      var r := ResolveTurn(G, reshuffled);
      r.phase == G.phase && r.turnResults == G.turnResults + [wid] && r.playedCards == [] &&
      r.currentTurn == G.currentTurn + 1 && |r.players| == |G.players| &&
      (forall i :: 0 <= i < |G.players| ==>
         r.players[i] == (if G.players[i].id == wid then WinTurnState(G.players[i]) else G.players[i])) &&
      (forall k :: (0 <= k < |ActiveIndices(G.players)| &&
                    G.players[ActiveIndices(G.players)[k]].id == wid) ==> r.currentPlayerIndex == k)
  {
    var wid := WinnerOf(G.playedCards);
    var S := CreditWinner(G.players, wid);
    CreditWinnerPointwise(G.players, wid);
    ActiveIndicesFollowElimination(S, G.players);
    forall k | 0 <= k < |ActiveIndices(G.players)| && G.players[ActiveIndices(G.players)[k]].id == wid
      ensures LeaderSeat(S, wid, G.currentPlayerIndex) == k
    {
      LeaderIsWinner(S, wid, G.currentPlayerIndex, k);
    }
  }

  /** The winner of a hand holds the strongest card on the table, and wins a tie against
      every later play. */
  lemma WinnerHoldsStrongest(plays: seq<Play>)
    requires plays != []
    ensures var w := WinningPlay(plays);
      plays[w].playerId == WinnerOf(plays) &&
      (forall j :: 0 <= j < |plays| ==> !Greater(plays[j].card, plays[w].card)) &&
      (forall j :: 0 <= j < w ==> Less(plays[j].card, plays[w].card))
  {
    StrongestIsFirstMaximum(plays, |plays|);
  }

  lemma ResolveTurnKeepsInv(G: GameState, reshuffled: seq<Card>)
    requires Inv(G)
    requires G.phase == Playing
    requires |reshuffled| == |FullDeck()|
    ensures Inv(ResolveTurn(G, reshuffled))
  {
    if G.playedCards != [] {
      var wid := WinnerOf(G.playedCards);
      var S := CreditWinner(G.players, wid);
      CreditWinnerKeeps(G.players, wid);
      var G1 := G.(players := S, turnResults := G.turnResults + [wid], playedCards := [],
                   currentTurn := G.currentTurn + 1);
      assert IdsDistinct(S);
      if G1.currentTurn >= CardsInPhase(G) {
        assert Inv(G1.(phase := Playing));
        EndPhaseKeepsInv(G1, reshuffled);
      } else {
        assert Inv(G1.(currentPlayerIndex := LeaderSeat(S, wid, G.currentPlayerIndex)));
      }
    }
  }

  /** An accepted play: the player is the active player at the playing seat and holds the
      card; that card leaves the hand and, unless it completes the hand, joins the table while
      the seat moves one on. A refused play changes nothing. */
  lemma PlayCardEffect(G: GameState, id: string, number: int, seedName: string, reshuffled: seq<Card>)
    requires Inv(G)
    requires |reshuffled| == |FullDeck()|
    ensures var (G', r) := PlayCard(G, id, number, seedName, reshuffled);
      (r != Accepted ==> G' == G) &&
      (r.Raised? <==> PlayTurn(G, id) == NoSuchSeat) &&
      (r == Accepted ==>
         var i := PlayTurn(G, id).position;
         var A := ActiveIndices(G.players);
         var k := FirstMatch(G.players[i].hand, number, seedName).value;
         G.phase == Playing &&
         PyIndex(|A|, G.currentPlayerIndex).Some? &&
         A[PyIndex(|A|, G.currentPlayerIndex).value] == i &&
         Matches(G.players[i].hand[k], number, seedName) &&
         (|G.playedCards| + 1 < |A| ==>
            G'.players == G.players[i := G.players[i].(hand := RemoveAt(G.players[i].hand, k))] &&
            G'.playedCards == G.playedCards + [Play(id, G.players[i].hand[k])] &&
            G'.currentPlayerIndex == NextSeat(G.currentPlayerIndex, |A|) &&
            G'.phase == Playing))
  {
    if PlayOutcome(G, id, number, seedName) == Accepted {
      SeatIsTheDesignatedPlayer(G, id, Playing, G.currentPlayerIndex);
    }
  }

  /** An accepted play places the card of the player whose turn it is and, once every active
      player has played, resolves the hand. */
  lemma PlayCardAccepted(G: GameState, id: string, number: int, seedName: string, reshuffled: seq<Card>)
    requires 0 <= G.currentPhaseIndex < |PhaseSequence|
    requires |G.players| <= MaxPlayers
    requires |reshuffled| == |FullDeck()|
    requires PlayOutcome(G, id, number, seedName) == Accepted
    ensures PlayTurn(G, id).YourTurn?
    ensures FirstMatch(G.players[PlayTurn(G, id).position].hand, number, seedName).Some?
    ensures |ActiveIndices(G.players)| > 0
    ensures var i := PlayTurn(G, id).position;
      var G1 := PlaceCard(G, id, i, FirstMatch(G.players[i].hand, number, seedName).value);
      PlayCard(G, id, number, seedName, reshuffled) ==
        (if |G1.playedCards| == |ActiveIndices(G.players)| then ResolveTurn(G1, reshuffled) else G1, Accepted)
  {
    ActiveIndicesComplete(G.players);
    assert PlayTurn(G, id).position in ActiveIndices(G.players);
  }

  lemma PlayCardKeepsInv(G: GameState, id: string, number: int, seedName: string, reshuffled: seq<Card>)
    requires Inv(G)
    requires |reshuffled| == |FullDeck()|
    ensures Inv(PlayCard(G, id, number, seedName, reshuffled).0)
  {
    PlayCardEffect(G, id, number, seedName, reshuffled);
    if PlayOutcome(G, id, number, seedName) == Accepted {
      var i := PlayTurn(G, id).position;
      var k := FirstMatch(G.players[i].hand, number, seedName).value;
      ActiveIndicesComplete(G.players);
      assert i in ActiveIndices(G.players);
      PlaceCardKeepsInv(G, id, i, k);
      var G1 := PlaceCard(G, id, i, k);
      if |G1.playedCards| == |ActiveIndices(G.players)| {
        ResolveTurnKeepsInv(G1, reshuffled);
      }
    }
  }

  // ---------------------------------------------------------------------------------------
  // Reading the game

  /** `get_current_player`: nobody outside the playing phase or with no active player;
      otherwise the active player at the playing seat, raising when it is out of range. */
  function CurrentPlayer(G: GameState): Result<Option<PlayerState>>
  {
    var A := ActiveIndices(G.players);
    if G.phase != Playing || |A| == 0 then Ok(None)
    else
      match PyIndex(|A|, G.currentPlayerIndex)
      case None => Err(IndexError)
      case Some(k) => Ok(Some(G.players[A[k]]))
  }

  /** A played card in a game dictionary. */
  datatype PlayDict = PlayDict(playerId: string, card: CardDict)

  /** The dictionary form of a game (`to_dict`). `validGuesses` is `None` where the source
      leaves the key out. */
  datatype GameDict = GameDict(
    gameId: string,
    phase: string,
    currentPhaseIndex: int,
    cardsInCurrentPhase: int,
    currentTurn: int,
    playedCards: seq<PlayDict>,
    turnResults: seq<string>,
    winner: Option<string>,
    players: seq<PlayerDict>,
    currentGuessingPlayerId: Option<string>,
    validGuesses: Option<seq<int>>,
    currentPlayerId: Option<string>)

  /** Python truthiness of the optional requester id: `None` and `""` are false. */
  predicate Truthy(requester: Option<string>)
  {
    requester.Some? && requester.value != ""
  }

  function PlayDicts(ps: seq<Play>): seq<PlayDict>
  {
    seq(|ps|, i requires 0 <= i < |ps| => PlayDict(ps[i].playerId, ToDict(ps[i].card)))
  }

  /** The players' dictionaries: only the requester's shows the hand. */
  function PlayerDicts(S: seq<PlayerState>, requester: Option<string>): seq<PlayerDict>
  {
    seq(|S|, i requires 0 <= i < |S| =>
      StateToDict(S[i], Truthy(requester) && S[i].id == requester.value))
  }

  /** `to_dict(player_id)`: the game as the requesting player may see it, or the error raised
      by indexing the active players. */
  function GameToDict(G: GameState, gameId: string, requester: Option<string>): Result<GameDict>
    requires 0 <= G.currentPhaseIndex < |PhaseSequence|
  {
    var A := ActiveIndices(G.players);
    var guessing: Result<(Option<string>, Option<seq<int>>)> :=
      if |A| > 0 && G.phase == Guessing then
        match PyIndex(|A|, G.currentGuessingPlayer)
        case None => Err(IndexError)
        case Some(k) =>
          if Truthy(requester) then
            match ValidGuessesFor(G, requester.value)
            case Err(e) => Err(e)
            case Ok(vs) => Ok((Some(G.players[A[k]].id), Some(vs)))
          else Ok((Some(G.players[A[k]].id), None))
      else Ok((None, Some([])));
    match guessing
    case Err(e) => Err(e)
    case Ok(gv) =>
      match CurrentPlayer(G)
      case Err(e) => Err(e)
      case Ok(cp) =>
        Ok(GameDict(gameId, PhaseValue(G.phase), G.currentPhaseIndex, CardsInPhase(G),
                    G.currentTurn, PlayDicts(G.playedCards), G.turnResults, G.winner,
                    PlayerDicts(G.players, requester), gv.0, gv.1,
                    match cp case None => None case Some(p) => Some(p.id)))
  }

  /** What a client can learn from a game dictionary: never another player's cards, only
      their number; its own cards in full; never the transient `phase_end` value; the valid
      guesses agree with `get_valid_guesses`; and the ids named as guesser and as current
      player are those of the active players at the two seats. */
  lemma GameToDictShows(G: GameState, gameId: string, requester: Option<string>)
    requires Inv(G)
    requires GameToDict(G, gameId, requester).Ok?
    ensures var d := GameToDict(G, gameId, requester).value;
      d.phase != "phase_end" &&
      |d.players| == |G.players| &&
      (forall i :: 0 <= i < |G.players| ==>
         d.players[i].playerId == G.players[i].id &&
         d.players[i].hand == (if Truthy(requester) && G.players[i].id == requester.value
                               then Hand(CardDicts(G.players[i].hand))
                               else HandSize(|G.players[i].hand|))) &&
      (Truthy(requester) && G.phase == Guessing && |ActiveIndices(G.players)| > 0 ==>
         d.validGuesses == Some(ValidGuessesFor(G, requester.value).value)) &&
      (d.currentGuessingPlayerId.Some? ==>
         G.phase == Guessing &&
         d.currentGuessingPlayerId.value ==
           G.players[ActiveIndices(G.players)[PyIndex(|ActiveIndices(G.players)|, G.currentGuessingPlayer).value]].id) &&
      (d.currentPlayerId.Some? ==>
         G.phase == Playing &&
         d.currentPlayerId.value ==
           G.players[ActiveIndices(G.players)[PyIndex(|ActiveIndices(G.players)|, G.currentPlayerIndex).value]].id)
  {
  }
}
