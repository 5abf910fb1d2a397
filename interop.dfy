/** The client reading what the server serves: the snapshot a client builds from a game
    dictionary, and what the client's reconciler then does with the snapshots a reachable game
    can produce. */
module Interop {
  import opened Wrappers
  import opened Cards
  import opened Players
  import opened GameRules
  import opened Snapshots
  import opened Presentation
  import opened Reconciler

  /** The fields of a game dictionary the client reads. */
  function SnapshotOf(d: GameDict): (s: Snapshot)
    ensures s.phase == d.phase && s.currentPhaseIndex == d.currentPhaseIndex
    ensures s.turnResults == d.turnResults && s.playedCount == |d.playedCards|
    ensures |s.players| == |d.players|
    ensures forall i :: 0 <= i < |d.players| ==>
      s.players[i].playerId == d.players[i].playerId && s.players[i].name == d.players[i].name &&
      s.players[i].isEliminated == d.players[i].isEliminated &&
      s.players[i].guess == d.players[i].guess && s.players[i].turnsWon == d.players[i].turnsWon
  {
    Snapshot(d.phase, d.currentPhaseIndex, d.turnResults, |d.playedCards|,
             seq(|d.players|, i requires 0 <= i < |d.players| =>
               SnapPlayer(d.players[i].playerId, d.players[i].name, d.players[i].isEliminated,
                          d.players[i].guess, d.players[i].turnsWon)))
  }

  /** A served snapshot is never a phase-end snapshot, since the engine moves on from
      `phase_end` within the same call. */
  lemma ServedIsNotPhaseEnd(G: GameState, gameId: string, requester: Option<string>)
    requires GameRules.Inv(G) && GameToDict(G, gameId, requester).Ok?
    ensures SnapshotOf(GameToDict(G, gameId, requester).value).phase != "phase_end"
  {
    GameToDictShows(G, gameId, requester);
  }

  /** An event carrying only snapshots that are not phase-end snapshots. */
  predicate NoPhaseEnd(e: Event)
  {
    match e
    case Poll(fetched) => fetched.Some? ==> fetched.value.phase != "phase_end"
    case GameStarted(g) => g.phase != "phase_end"
    case ActionAnswered(g) => g.phase != "phase_end"
    case Continued(fetched) => fetched.Some? ==> fetched.value.phase != "phase_end"
    case _ => true
  }

  /** The phase check never fires on a snapshot that is not a phase-end one. */
  lemma NoPhaseEndNoOverlay(c: ClientState, g: Snapshot)
    requires Reconciler.Inv(c) && g.phase != "phase_end"
    ensures !ShouldShowPhaseResult(c, g)
    ensures UpdateGameScreen(c, g).phaseTimer == c.phaseTimer
    ensures UpdateGameScreen(c, g).display.overlay == c.display.overlay
  {
  }

  /** A client fed only by the server never shows the phase-result overlay: from a page
      without one, no sequence of such events puts one up. */
  lemma {:induction false} ServerFedClientShowsNoOverlay(c: ClientState, es: seq<Event>)
    requires Reconciler.Inv(c) && c.display.overlay.None?
    requires forall k :: 0 <= k < |es| ==> NoPhaseEnd(es[k])
    ensures Run(c, es).display.overlay.None?
    decreases |es|
  {
    if es != [] {
      var e := es[0];
      match e {
        case Poll(fetched) =>
          if c.gameId.Some? && fetched.Some? { NoPhaseEndNoOverlay(c, fetched.value); }
        case GameStarted(g) => NoPhaseEndNoOverlay(c, g);
        case ActionAnswered(g) => NoPhaseEndNoOverlay(c, g);
        case Continued(fetched) =>
          if c.gameId.Some? && fetched.Some? { NoPhaseEndNoOverlay(c, fetched.value); }
        case _ =>
      }
      StepKeepsInv(c, e);
      assert forall k :: 0 <= k < |es[1..]| ==> NoPhaseEnd(es[1..][k]) by {
        forall k | 0 <= k < |es[1..]| ensures NoPhaseEnd(es[1..][k]) {
          assert es[1..][k] == es[k + 1];
        }
      }
      ServerFedClientShowsNoOverlay(Step(c, e), es[1..]);
    }
  }

  /** Resolving the last hand of a phase leaves either a finished game or a new phase with
      no hand results yet. */
  lemma LastHandEndsPhase(G: GameState, reshuffled: seq<Card>)
    requires 0 <= G.currentPhaseIndex < |PhaseSequence|
    requires |G.players| <= MaxPlayers
    requires |reshuffled| == |FullDeck()|
    requires G.playedCards != [] && G.currentTurn + 1 >= CardsInPhase(G)
    ensures var r := ResolveTurn(G, reshuffled);
      r.phase == GameOver || (r.phase == Guessing && r.turnResults == [])
  {
    var wid := WinnerOf(G.playedCards);
    var S := CreditWinner(G.players, wid);
    CreditWinnerKeeps(G.players, wid);
    var G1 := G.(players := S, turnResults := G.turnResults + [wid], playedCards := [],
                 currentTurn := G.currentTurn + 1);
    if |ActiveIndices(SettleAll(G1.players))| <= 1 {
      EndPhaseGameOver(G1, reshuffled);
    } else {
      EndPhaseNextPhase(G1, reshuffled);
    }
  }

  /** The banner for the last hand of a phase never appears: the play that completes that
      hand is answered, and the game then served, with a snapshot that is either in
      `game_over` or in a new guessing phase with no results, and no client raises a banner
      for it. */
  lemma LastHandGetsNoBanner(G: GameState, id: string, number: int, seedName: string,
                             reshuffled: seq<Card>, gameId: string, requester: Option<string>,
                             c: ClientState)
    requires GameRules.Inv(G) && |reshuffled| == |FullDeck()|
    requires PlayOutcome(G, id, number, seedName) == Accepted
    requires |G.playedCards| + 1 == |ActiveIndices(G.players)|
    requires G.currentTurn + 1 == CardsInPhase(G)
    requires GameToDict(PlayCard(G, id, number, seedName, reshuffled).0, gameId, requester).Ok?
    ensures var G' := PlayCard(G, id, number, seedName, reshuffled).0;
      !ShouldShowTurnResult(c, SnapshotOf(GameToDict(G', gameId, requester).value))
  {
    PlayCardAccepted(G, id, number, seedName, reshuffled);
    var i := PlayTurn(G, id).position;
    var G1 := PlaceCard(G, id, i, FirstMatch(G.players[i].hand, number, seedName).value);
    LastHandEndsPhase(G1, reshuffled);
  }

  // ---------------------------------------------------------------------------------------
  // Card faces of served cards

  /** Every card the server can deal has its own face: a seed the client's table knows, so
      never the fallback, and a single-character number. */
  lemma ServedCardFaces(c1: Card, c2: Card)
    requires IsValid(c1) && IsValid(c2)
    ensures |NumberDisplay(c1.number)| == 1
    ensures c1.number != c2.number ==> NumberDisplay(c1.number) != NumberDisplay(c2.number)
    ensures c1.seed != c2.seed ==> SeedInfo(ToDict(c1).seed) != SeedInfo(ToDict(c2).seed)
    ensures SeedInfo(ToDict(c1).seed).cssClass == "bastoni" <==> c1.seed == Bastoni
  {
    NumberDisplayFaces(c1.number, c2.number);
  }
}
