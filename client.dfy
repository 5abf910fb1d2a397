/** The browser client as the page holds it: the `gameState` record's fields, the module's
    `pollingInterval`, the timers the page has armed and what it shows, all updated in place by
    the client's functions. Each method is proved to change the fields exactly as the
    corresponding `Reconciler` function says, so `Reconciler.StepKeepsInv` carries over to it. */
module ClientShell {
  import opened Wrappers
  import opened Snapshots
  import opened Presentation
  import opened Reconciler

  class Client {
    // The `gameState` record.
    var gameId: Option<string>
    var playerId: Option<string>
    var playerName: Option<string>
    var currentScreen: string
    var showingTurnResult: bool
    var lastTurnResult: Option<string>
    var showingPhaseResult: bool
    var lastPhaseIndex: Option<int>
    var pendingPhaseResult: Option<Snapshot>
    var lastPhaseEndData: Option<PhaseEndMark>
    // The callbacks armed with `setTimeout`, with what their closures captured.
    var turnTimer: Option<TurnTimer>
    var phaseTimer: Option<Snapshot>
    // What the page shows: the board's snapshot, the banner and the overlay.
    var board: Option<Snapshot>
    var banner: Option<string>
    var overlay: Option<PhaseMessage>
    // `pollingInterval`, the intervals the browser runs, and the next handle it will issue.
    var pollingInterval: Option<nat>
    var liveIntervals: set<nat>
    var nextHandle: nat

    function State(): ClientState
      reads this
    {
      ClientState(gameId, playerId, playerName, currentScreen, showingTurnResult, lastTurnResult,
                  showingPhaseResult, lastPhaseIndex, pendingPhaseResult, lastPhaseEndData,
                  turnTimer, phaseTimer, Display(board, banner, overlay), pollingInterval,
                  liveIntervals, nextHandle)
    }

    /** The page as it loads. */
    constructor ()
      ensures State() == Initial()
    {
      gameId, playerId, playerName := None, None, None;
      currentScreen := MainMenu;
      showingTurnResult, lastTurnResult := false, None;
      showingPhaseResult, lastPhaseIndex := false, None;
      pendingPhaseResult, lastPhaseEndData := None, None;
      turnTimer, phaseTimer := None, None;
      board, banner, overlay := None, None, None;
      pollingInterval, liveIntervals, nextHandle := None, {}, 1;
    }

    /** `showScreen(id)`: only the current screen is remembered. */
    method ShowScreen(screenId: string)
      modifies this
      ensures State() == old(State()).(currentScreen := screenId)
    {
      currentScreen := screenId;
    }

    method ShowTurnResult(game: Snapshot, isPhaseEndTurn: bool)
      modifies this
      ensures State() == Reconciler.ShowTurnResult(old(State()), game, isPhaseEndTurn)
    {
      var winnerPlayerId := LastTurnResult(game);
      var winner := if winnerPlayerId.Some? then FindPlayer(game.players, winnerPlayerId.value) else None;
      showingTurnResult, lastTurnResult := true, winnerPlayerId;
      banner := Some(if winner.Some? then winner.value.name else "Unknown");
      turnTimer := Some(TurnTimer(game, isPhaseEndTurn));
    }

    method ShowPhaseResult(game: Snapshot)
      modifies this
      ensures State() == Reconciler.ShowPhaseResult(old(State()), game)
    {
      var playersWhoLost, eliminatedPlayers := PartitionPlayers(game.players);
      showingPhaseResult := true;
      overlay := Some(MessageFrom(playersWhoLost, eliminatedPlayers, game.currentPhaseIndex));
      phaseTimer := Some(game);
    }

    method ShowPhaseEndSequence(game: Snapshot)
      modifies this
      ensures State() == Reconciler.ShowPhaseEndSequence(old(State()), game)
    {
      lastPhaseEndData := Some(PhaseEndMark(game.currentPhaseIndex, game.players));
      if |game.turnResults| > 0 && Some(game.turnResults[|game.turnResults| - 1]) != lastTurnResult {
        pendingPhaseResult := Some(game);
        ShowTurnResult(game, true);
      } else {
        ShowPhaseResult(game);
      }
    }

    method UpdateGameScreenNormal(game: Snapshot)
      modifies this
      ensures State() == RenderNormal(old(State()), game)
    {
      lastPhaseIndex := Some(game.currentPhaseIndex);
      board := Some(game);
    }

    method UpdateGameScreen(game: Snapshot)
      modifies this
      ensures State() == Reconciler.UpdateGameScreen(old(State()), game)
    {
      if ShouldShowTurnResult(State(), game) {
        ShowTurnResult(game, false);
      } else if ShouldShowPhaseResult(State(), game) {
        ShowPhaseEndSequence(game);
      } else {
        board := Some(game);
      }
    }

    /** `document.body.removeChild(banner)` and the flag. */
    method TakeDownBanner()
      modifies this
      ensures State() == RemoveBanner(old(State()))
    {
      turnTimer, banner, showingTurnResult := None, None, false;
    }

    /** `document.body.removeChild(overlay)` and the flag. */
    method TakeDownOverlay()
      modifies this
      ensures State() == RemoveOverlay(old(State()))
    {
      phaseTimer, overlay, showingPhaseResult := None, None, false;
    }

    /** The banner's `setTimeout` callback. */
    method TurnTimerFires()
      modifies this
      ensures State() == OnTurnTimer(old(State()))
    {
      if turnTimer.Some? {
        var t := turnTimer.value;
        TakeDownBanner();
        if t.isPhaseEndTurn && pendingPhaseResult.Some? {
          ShowPhaseResult(pendingPhaseResult.value);
          pendingPhaseResult := None;
        } else {
          UpdateGameScreenNormal(t.game);
        }
      }
    }

    /** The overlay's `setTimeout` callback. */
    method PhaseTimerFires()
      modifies this
      ensures State() == OnPhaseTimer(old(State()))
    {
      if phaseTimer.Some? {
        var game := phaseTimer.value;
        TakeDownOverlay();
        UpdateGameScreenNormal(game);
      }
    }

    method StartGameStatePolling()
      modifies this
      ensures State() == StartPolling(old(State()))
    {
      if pollingInterval.Some? {
        liveIntervals := liveIntervals - {pollingInterval.value};
      }
      pollingInterval := Some(nextHandle);
      liveIntervals := liveIntervals + {nextHandle};
      nextHandle := nextHandle + 1;
    }

    method StopGameStatePolling()
      modifies this
      ensures State() == StopPolling(old(State()))
    {
      if pollingInterval.Some? {
        liveIntervals := liveIntervals - {pollingInterval.value};
        pollingInterval := None;
      }
    }

    /** The interval's callback, given what `getGameState` returned. */
    method PollTick(fetched: Option<Snapshot>)
      modifies this
      ensures State() == Tick(old(State()), fetched)
    {
      if gameId.Some? && fetched.Some? {
        var game := fetched.value;
        if currentScreen == LobbyScreen {
          if game.phase != "waiting" {
            UpdateGameScreen(game);
            ShowScreen(GameScreen);
          }
        } else if currentScreen == GameScreen {
          UpdateGameScreen(game);
        }
      }
    }

    method LeaveGame()
      modifies this
      ensures State() == Leave(old(State()))
    {
      gameId, playerId, playerName := None, None, None;
      StopGameStatePolling();
      ShowScreen(MainMenu);
    }

    /** What a successful `createGame` or `joinGame` does once the server has answered. */
    method EnterGame(newGameId: string, newPlayerId: string, name: string)
      modifies this
      ensures State() == Entered(old(State()), newGameId, newPlayerId, name)
    {
      gameId, playerId, playerName := Some(newGameId), Some(newPlayerId), Some(name);
      ShowScreen(LobbyScreen);
      StartGameStatePolling();
    }

    /** What a successful `startGame` does once the server has answered. */
    method GameStarted(game: Snapshot)
      modifies this
      ensures State() == Started(old(State()), game)
    {
      UpdateGameScreen(game);
      ShowScreen(GameScreen);
      StartGameStatePolling();
    }

    /** `continueGame`, given what `getGameState` returned. */
    method ContinueGame(fetched: Option<Snapshot>)
      modifies this
      ensures State() == Continue(old(State()), fetched)
    {
      if gameId.Some? && fetched.Some? {
        UpdateGameScreen(fetched.value);
      }
    }
  }
}
