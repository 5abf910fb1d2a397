/** The game engine object (`Game`): the player list, the deck and the round counters, updated
    in place by each operation. Every method is proved to change the object exactly as the
    corresponding function of `GameRules` says, so the properties proved there hold of it.
    The players are held as `PlayerState` values: each update below is the state function that
    the matching `Player` method is proved to perform. */
module Games {
  import opened Wrappers
  import opened Cards
  import opened Players
  import opened GameRules

  /** Multiplying by the same count keeps order. */
  lemma MulMonotone(a: nat, b: nat, n: nat)
    requires a <= b
    ensures a * n <= b * n
  {
  }

  class Game {
    const gameId: string
    var players: seq<PlayerState>
    const deck: Deck
    var currentPhaseIndex: int
    var currentTurn: int
    var currentPlayerIndex: int
    var phase: GamePhase
    var playedCards: seq<Play>
    var turnResults: seq<string>
    var winner: Option<string>
    var guessingOrderStart: int
    var currentGuessingPlayer: int

    /** Everything the object holds, as one value. */
    function View(): GameState
      reads this, deck
    {
      GameState(players, deck.cards, currentPhaseIndex, currentTurn, currentPlayerIndex, phase,
                playedCards, turnResults, winner, guessingOrderStart, currentGuessingPlayer)
    }

    /** The invariant of every reachable game. */
    predicate Valid()
      reads this, deck
    {
      Inv(View())
    }

    /** A new game: no players, a fresh deck of 40 cards, waiting for players. */
    constructor (gameId: string)
      ensures View() == NewGame()
      ensures Valid()
      ensures this.gameId == gameId
      ensures fresh(deck)
    {
      this.gameId := gameId;
      players := [];
      deck := new Deck();
      currentPhaseIndex := 0;
      currentTurn := 0;
      currentPlayerIndex := 0;
      phase := Waiting;
      playedCards := [];
      turnResults := [];
      winner := None;
      guessingOrderStart := 0;
      currentGuessingPlayer := 0;
      new;
      NewGameInv();
    }

    /** `add_player`. */
    method AddPlayer(id: string, name: string) returns (ok: bool)
      requires Valid()
      modifies this
      ensures (View(), ok) == GameRules.AddPlayer(old(View()), id, name)
      ensures Valid()
    {
      AddPlayerKeepsInv(View(), id, name);
      if |players| >= MaxPlayers {
        return false;
      }
      var i := 0;
      while i < |players|
        invariant 0 <= i <= |players|
        invariant forall k :: 0 <= k < i ==> IdsOf(players)[k] != id
      {
        if players[i].id == id {
          assert IdsOf(players)[i] == id;
          return false;
        }
        i := i + 1;
      }
      players := players + [NewPlayerState(id, name)];
      ok := true;
    }

    /** `remove_player`: the first player with that id leaves the table. */
    method RemovePlayer(id: string) returns (ok: bool)
      requires Valid()
      modifies this
      ensures (View(), ok) == GameRules.RemovePlayer(old(View()), id)
      ensures Valid()
    {
      RemovePlayerKeepsInv(View(), id);
      var i := 0;
      while i < |players| && players[i].id != id
        invariant 0 <= i <= |players|
        invariant forall k :: 0 <= k < i ==> IdsOf(players)[k] != id
      {
        i := i + 1;
      }
      if i == |players| {
        return false;
      }
      FindIdIs(IdsOf(players), id, i);
      players := players[..i] + players[i + 1..];
      ok := true;
    }

    /** `_get_player`: the position of the first player with that id, if any. */
    method GetPlayer(id: string) returns (r: Option<nat>)
      ensures r == FindId(IdsOf(players), id)
    {
      var i := 0;
      while i < |players|
        invariant 0 <= i <= |players|
        invariant forall k :: 0 <= k < i ==> IdsOf(players)[k] != id
      {
        if players[i].id == id {
          FindIdIs(IdsOf(players), id, i);
          return Some(i);
        }
        i := i + 1;
      }
      return None;
    }

    /** `[p for p in self.players if not p.is_eliminated]`: the positions of the active
        players, in table order. */
    method ActivePlayers() returns (A: seq<nat>)
      ensures A == ActiveIndices(players)
    {
      A := [];
      var i := 0;
      while i < |players|
        invariant 0 <= i <= |players|
        invariant A == ActiveIndices(players[..i])
      {
        assert players[..i + 1][..i] == players[..i];
        if !players[i].isEliminated {
          A := A + [i];
        }
        i := i + 1;
      }
      assert players[..i] == players;
    }

    /** `can_start`. */
    predicate CanStart()
      reads this, deck
      ensures CanStart() <==> GameRules.CanStart(View())
    {
      |players| >= MinPlayers && phase == Waiting
    }

    /** The checks `make_guess`, `get_valid_guesses` and `play_card` open with: the phase, the
        player's existence and elimination, and whether the active player at `seat` has that
        id. Also returns the active positions. */
    method CheckSeat(id: string, want: GamePhase, seat: int) returns (s: Seat, A: seq<nat>)
      ensures s == SeatFor(View(), id, want, seat)
      ensures A == ActiveIndices(players)
    {
      A := ActivePlayers();
      if phase != want {
        return NotYourTurn, A;
      }
      var p := GetPlayer(id);
      if p.None? || players[p.value].isEliminated {
        return NotYourTurn, A;
      }
      match PyIndex(|A|, seat) {
        case None =>
          s := NoSuchSeat;
        case Some(k) =>
          s := if players[A[k]].id != id then NotYourTurn else YourTurn(p.value);
      }
    }

    /** `_is_guess_valid` over the active players `act`, in a phase of `cards` cards. */
    static method IsGuessValid(g: int, act: seq<PlayerState>, cards: int) returns (r: bool)
      ensures r == GuessAllowed(cards, GuessesOf(act), g)
    {
      ghost var gs := GuessesOf(act);
      var total := 0;
      var count := 0;
      var k := 0;
      while k < |act|
        invariant 0 <= k <= |act|
        invariant total == SumGuesses(gs[..k]) && count == CountGuessed(gs[..k])
      {
        assert gs[..k + 1][..k] == gs[..k];
        if act[k].guess.Some? {
          total := total + act[k].guess.value;
          count := count + 1;
        }
        k := k + 1;
      }
      assert gs[..k] == gs;
      if count == 0 {
        return true;
      }
      var newTotal := total + g;
      if total > cards {
        return true;
      }
      if newTotal == cards {
        return false;
      }
      return true;
    }

    /** The loop of `get_valid_guesses`: the values from 0 to `cards` that `_is_guess_valid`
        accepts, in increasing order. */
    static method ValidGuessList(act: seq<PlayerState>, cards: int) returns (valid: seq<int>)
      requires cards >= 0
      ensures valid == ValidGuesses(cards, GuessesOf(act))
    {
      valid := [];
      var g := 0;
      while g < cards + 1
        invariant 0 <= g <= cards + 1
        invariant valid == ValidUpTo(cards, GuessesOf(act), g)
      {
        var ok := IsGuessValid(g, act, cards);
        if ok {
          valid := valid + [g];
        }
        g := g + 1;
      }
    }

    /** `get_valid_guesses`. */
    method GetValidGuesses(id: string) returns (r: Result<seq<int>>)
      requires Valid()
      ensures r == ValidGuessesFor(View(), id)
    {
      var s, A := CheckSeat(id, Guessing, currentGuessingPlayer);
      match s {
        case NotYourTurn =>
          r := Ok([]);
        case NoSuchSeat =>
          r := Err(IndexError);
        case YourTurn(_) =>
          var valid := ValidGuessList(ActiveStates(players), PhaseSequence[currentPhaseIndex]);
          r := Ok(valid);
      }
    }

    /** `all(p.guess is not None for p in active_players)`. */
    static method AllHaveGuessed(act: seq<PlayerState>) returns (r: bool)
      ensures r == AllGuessed(act)
    {
      var k := 0;
      while k < |act|
        invariant 0 <= k <= |act|
        invariant forall j :: 0 <= j < k ==> act[j].guess.Some?
      {
        if act[k].guess.None? {
          return false;
        }
        k := k + 1;
      }
      return true;
    }

    /** `make_guess`. */
    method MakeGuess(id: string, g: int) returns (r: Reply)
      requires Valid()
      modifies this
      ensures (View(), r) == GameRules.MakeGuess(old(View()), id, g)
      ensures Valid()
    {
      MakeGuessKeepsInv(View(), id, g);
      ghost var G0 := View();
      var s, A := CheckSeat(id, Guessing, currentGuessingPlayer);
      if s == NotYourTurn {
        return Rejected;
      }
      if s == NoSuchSeat {
        return Raised(IndexError);
      }
      var cards := PhaseSequence[currentPhaseIndex];
      if g < 0 || g > cards {
        return Rejected;
      }
      var ok := IsGuessValid(g, ActiveStates(players), cards);
      if !ok {
        return Rejected;
      }
      assert GuessOutcome(G0, id, g) == Accepted;
      MakeGuessAccepted(G0, id, g);
      RecordGuess(s.position, g, |A|);
      r := Accepted;
    }

    /** The accepted part of `make_guess` for the player at position `i`, with `a` active
        players. */
    method RecordGuess(i: nat, g: int, a: nat)
      requires i < |players| && a == |ActiveIndices(players)| > 0
      modifies this
      ensures View() == GameRules.RecordGuess(old(View()), i, g)
    {
      ghost var G0 := View();
      players := players[i := players[i].(guess := Some(g))];
      currentGuessingPlayer := (currentGuessingPlayer - 1) % a;
      var all := AllHaveGuessed(ActiveStates(players));
      if all {
        phase := Playing;
      }
      RecordGuessUnfolds(G0, i, g, all);
    }

    /** The reset loop of `_start_new_phase`: every active player starts the phase afresh. */
    method ResetActive()
      modifies this
      ensures View() == old(View()).(players := ResetAll(old(players)))
    {
      var ps := players;
      var i := 0;
      while i < |ps|
        invariant 0 <= i <= |ps| == |players|
        invariant forall k :: 0 <= k < i ==> ps[k] == ResetIfActive(players[k])
        invariant forall k :: i <= k < |ps| ==> ps[k] == players[k]
      {
        if !ps[i].isEliminated {
          ps := ps[i := ResetState(ps[i])];
        }
        i := i + 1;
      }
      assert ps == ResetAll(players);
      players := ps;
    }

    /** The dealing loop of `_start_new_phase`: `n` cards from the deck to each of the players
        at the positions `A`, in order. */
    method DealHands(A: seq<nat>, n: nat)
      requires forall k :: 0 <= k < |A| ==> A[k] < |players|
      requires |A| * n <= |deck.cards|
      modifies this, deck
      ensures var dealt := DealFirst(old(deck.cards), |A|, n);
        View() == old(View()).(players := GiveHands(old(players), A, dealt.0), deck := dealt.1)
    {
      ghost var d0 := deck.cards;
      ghost var hs: seq<seq<Card>> := [];
      var ps := players;
      var j := 0;
      while j < |A|
        modifies deck
        invariant 0 <= j <= |A|
        invariant j * n <= |d0|
        invariant (hs, deck.cards) == DealFirst(d0, j, n)
        invariant ps == GiveHands(players, A[..j], hs)
      {
        MulMonotone(j + 1, |A|, n);
        var cards := deck.Deal(n);
        ps := ps[A[j] := ps[A[j]].(hand := ps[A[j]].hand + cards.value)];
        assert A[..j + 1][..j] == A[..j];
        assert (hs + [cards.value])[..j] == hs;
        hs := hs + [cards.value];
        j := j + 1;
      }
      assert A[..j] == A;
      players := ps;
    }

    /** The deck check of `_start_new_phase`: a deck holding fewer than `need` cards is reset
        and shuffled into the arrangement `reshuffled`; otherwise it is kept. */
    method RefillDeck(need: int, reshuffled: seq<Card>)
      requires multiset(reshuffled) == multiset(FullDeck())
      modifies deck
      ensures View() == old(View()).(deck := if |old(deck.cards)| < need then reshuffled else old(deck.cards))
    {
      if deck.RemainingCards() < need {
        deck.Reset();
        deck.Shuffle(reshuffled);
      }
    }

    /** The closing assignments of `_start_new_phase`, with `gos` the new first guesser: no
        hand played or scored yet. */
    method OpenGuessing(gos: int)
      modifies this
      ensures View() == old(View()).(currentTurn := 0, currentPlayerIndex := 0, playedCards := [],
                                     turnResults := [], guessingOrderStart := gos,
                                     currentGuessingPlayer := gos, phase := Guessing)
    {
      currentTurn := 0;
      currentPlayerIndex := 0;
      playedCards := [];
      turnResults := [];
      guessingOrderStart := gos;
      currentGuessingPlayer := guessingOrderStart;
      phase := Guessing;
    }

    /** `_start_new_phase`. */
    method StartNewPhase(reshuffled: seq<Card>)
      requires 0 <= currentPhaseIndex < |PhaseSequence| && |players| <= MaxPlayers
      requires |ActiveIndices(players)| >= 1
      requires |reshuffled| == |FullDeck()| && multiset(reshuffled) == multiset(FullDeck())
      modifies this, deck
      ensures View() == GameRules.StartNewPhase(old(View()), reshuffled)
    {
      ResetActive();
      var n := PhaseSequence[currentPhaseIndex];
      var A := ActivePlayers();
      RefillDeck(|A| * n, reshuffled);
      ghost var d0 := deck.cards;
      StartNewPhaseFits(old(View()), reshuffled, A, d0);
      DealHands(A, n);
      OpenGuessing(NextSeat(guessingOrderStart, |A|));
      StartNewPhaseUnfolds(old(View()), reshuffled, A, d0);
    }

    /** `start_game`: refused unless the game can start; otherwise the deck is shuffled into
        `arrangement` and the first phase starts. */
    method StartGame(arrangement: seq<Card>, reshuffled: seq<Card>) returns (ok: bool)
      requires Valid()
      requires multiset(arrangement) == multiset(deck.cards)
      requires |reshuffled| == |FullDeck()| && multiset(reshuffled) == multiset(FullDeck())
      modifies this, deck
      ensures (View(), ok) == GameRules.StartGame(old(View()), arrangement, reshuffled)
      ensures Valid()
    {
      StartGameKeepsInv(View(), arrangement, reshuffled);
      if !CanStart() {
        return false;
      }
      ActiveIndicesComplete(players);
      assert 0 in ActiveIndices(players);
      deck.Shuffle(arrangement);
      StartNewPhase(reshuffled);
      ok := true;
    }

    /** The scoring loop of `_end_phase`: every active player who guessed and missed loses a
        life. */
    method SettleScores()
      modifies this
      ensures View() == old(View()).(players := SettleAll(old(players)))
    {
      var ps := players;
      var i := 0;
      while i < |ps|
        invariant 0 <= i <= |ps| == |players|
        invariant forall k :: 0 <= k < i ==> ps[k] == SettleIfMissed(players[k])
        invariant forall k :: i <= k < |ps| ==> ps[k] == players[k]
      {
        if !ps[i].isEliminated && ps[i].guess.Some? && ps[i].turnsWon != ps[i].guess.value {
          ps := ps[i := LoseLifeState(ps[i])];
        }
        i := i + 1;
      }
      assert ps == SettleAll(players);
      players := ps;
    }

    /** `_end_phase`. */
    method EndPhase(reshuffled: seq<Card>)
      requires 0 <= currentPhaseIndex < |PhaseSequence| && |players| <= MaxPlayers
      requires |reshuffled| == |FullDeck()| && multiset(reshuffled) == multiset(FullDeck())
      modifies this, deck
      ensures View() == GameRules.EndPhase(old(View()), reshuffled)
    {
      phase := PhaseEnd;
      SettleScores();
      var A := ActivePlayers();
      if |A| <= 1 {
        phase := GameOver;
        if |A| == 1 {
          winner := Some(players[A[0]].id);
        }
        EndPhaseEndsGame(old(View()), reshuffled);
        return;
      }
      currentPhaseIndex := NextPhaseIndex(currentPhaseIndex);
      EndPhaseStartsNextPhase(old(View()), reshuffled);
      StartNewPhase(reshuffled);
    }

    /** The scan of `_resolve_turn` over the played cards: the player of the first card
        greater than every card before it that led so far. */
    method Strongest() returns (winnerId: string)
      requires playedCards != []
      ensures winnerId == WinnerOf(playedCards)
    {
      var strongest: Option<Card> := None;
      winnerId := "";
      var i := 0;
      while i < |playedCards|
        invariant 0 <= i <= |playedCards|
        invariant match StrongestUpTo(playedCards, i)
                  case None => strongest.None?
                  case Some(w) => strongest == Some(playedCards[w].card) && winnerId == playedCards[w].playerId
      {
        if strongest.None? || Greater(playedCards[i].card, strongest.value) {
          strongest := Some(playedCards[i].card);
          winnerId := playedCards[i].playerId;
        }
        i := i + 1;
      }
    }

    /** The scoring part of `_resolve_turn`: the first player with the winner's id wins a
        hand, the id is appended to the results, the table is cleared and the hand counter
        moves on. */
    method CreditHand(wid: string)
      modifies this
      ensures View() == old(View()).(players := CreditWinner(old(players), wid),
                                     turnResults := old(turnResults) + [wid], playedCards := [],
                                     currentTurn := old(currentTurn) + 1)
    {
      var p := GetPlayer(wid);
      if p.Some? {
        players := players[p.value := WinTurnState(players[p.value])];
      }
      turnResults := turnResults + [wid];
      playedCards := [];
      currentTurn := currentTurn + 1;
    }

    /** The leader search of `_resolve_turn`: the seat becomes the winner's position among
        the active players, if the winner is one of them. */
    method LeadNext(wid: string)
      modifies this
      ensures View() == old(View()).(currentPlayerIndex := LeaderSeat(old(players), wid, old(currentPlayerIndex)))
    {
      var A := ActivePlayers();
      ghost var ids := IdsOf(ActiveStates(players));
      var i := 0;
      while i < |A|
        invariant 0 <= i <= |A| == |ids|
        invariant forall k :: 0 <= k < i ==> ids[k] != wid
      {
        if players[A[i]].id == wid {
          FindIdIs(ids, wid, i);
          currentPlayerIndex := i;
          return;
        }
        i := i + 1;
      }
    }

    /** `_resolve_turn`. */
    method ResolveTurn(reshuffled: seq<Card>)
      requires 0 <= currentPhaseIndex < |PhaseSequence| && |players| <= MaxPlayers
      requires |reshuffled| == |FullDeck()| && multiset(reshuffled) == multiset(FullDeck())
      modifies this, deck
      ensures View() == GameRules.ResolveTurn(old(View()), reshuffled)
    {
      if playedCards == [] {
        return;
      }
      var wid := Strongest();
      CreditHand(wid);
      if currentTurn >= PhaseSequence[currentPhaseIndex] {
        EndPhase(reshuffled);
      } else {
        LeadNext(wid);
      }
    }

    /** The accepted part of `play_card`, with `a` active players: the card at position `k`
        leaves the hand of the player at `i`, joins the table and the seat moves on. */
    method PlaceCard(id: string, i: nat, k: nat, a: nat)
      requires i < |players| && k < |players[i].hand| && a == |ActiveIndices(players)| > 0
      modifies this
      ensures View() == GameRules.PlaceCard(old(View()), id, i, k)
    {
      var card := players[i].hand[k];
      players := players[i := players[i].(hand := RemoveAt(players[i].hand, k))];
      playedCards := playedCards + [Play(id, card)];
      currentPlayerIndex := NextSeat(currentPlayerIndex, a);
    }

    /** `play_card`. */
    method PlayCard(id: string, number: int, seedName: string, reshuffled: seq<Card>) returns (r: Reply)
      requires Valid()
      requires |reshuffled| == |FullDeck()| && multiset(reshuffled) == multiset(FullDeck())
      modifies this, deck
      ensures (View(), r) == GameRules.PlayCard(old(View()), id, number, seedName, reshuffled)
      ensures Valid()
    {
      PlayCardKeepsInv(View(), id, number, seedName, reshuffled);
      ghost var G0 := View();
      var s, A := CheckSeat(id, Playing, currentPlayerIndex);
      if s == NotYourTurn {
        return Rejected;
      }
      if s == NoSuchSeat {
        return Raised(IndexError);
      }
      var k := FindCard(players[s.position].hand, number, seedName);
      if k.None? {
        return Rejected;
      }
      PlayCardAccepted(G0, id, number, seedName, reshuffled);
      PlaceCard(id, s.position, k.value, |A|);
      if |playedCards| == |A| {
        ResolveTurn(reshuffled);
      }
      r := Accepted;
    }

    /** `get_current_player`. */
    method GetCurrentPlayer() returns (r: Result<Option<PlayerState>>)
      ensures r == CurrentPlayer(View())
    {
      if phase != Playing {
        return Ok(None);
      }
      var A := ActivePlayers();
      if |A| == 0 {
        return Ok(None);
      }
      match PyIndex(|A|, currentPlayerIndex) {
        case None =>
          r := Err(IndexError);
        case Some(k) =>
          r := Ok(Some(players[A[k]]));
      }
    }

    /** `to_dict(player_id)`. */
    method ToDict(requester: Option<string>) returns (r: Result<GameDict>)
      requires Valid()
      ensures r == GameToDict(View(), gameId, requester)
    {
      var A := ActivePlayers();
      var guesser: Option<string> := None;
      var valid: Option<seq<int>> := Some([]);
      if |A| > 0 && phase == Guessing {
        match PyIndex(|A|, currentGuessingPlayer) {
          case None =>
            return Err(IndexError);
          case Some(k) =>
            guesser := Some(players[A[k]].id);
            if requester.Some? && requester.value != "" {
              var vs := GetValidGuesses(requester.value);
              if vs.Err? {
                return Err(vs.reason);
              }
              valid := Some(vs.value);
            } else {
              valid := None;
            }
        }
      }
      var pds: seq<PlayerDict> := [];
      var i := 0;
      while i < |players|
        invariant 0 <= i <= |players| && |pds| == i
        invariant forall j :: 0 <= j < i ==>
          pds[j] == StateToDict(players[j], Truthy(requester) && players[j].id == requester.value)
      {
        var show := requester.Some? && requester.value != "" && players[i].id == requester.value;
        pds := pds + [StateToDict(players[i], show)];
        i := i + 1;
      }
      assert pds == PlayerDicts(players, requester);
      var cp := GetCurrentPlayer();
      if cp.Err? {
        return Err(cp.reason);
      }
      r := Ok(GameDict(gameId, PhaseValue(phase), currentPhaseIndex, PhaseSequence[currentPhaseIndex],
                       currentTurn, PlayDicts(playedCards), turnResults, winner, pds, guesser, valid,
                       match cp.value case None => None case Some(p) => Some(p.id)));
    }
  }
}
