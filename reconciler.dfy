/** The browser client's presentation reconciler as a state machine over values. A
    `ClientState` holds the client's `gameState` record, the handle of the polling interval,
    the two pending timer callbacks (with what their closures captured) and what is on show:
    the game board last painted, the turn-result banner and the phase-result overlay. Each
    function is one client function; `Step` applies one event (a poll answer, a timer
    firing, a user action's answer). */
module Reconciler {
  import opened Wrappers
  import opened Snapshots
  import opened Presentation

  /** How long the banner and the overlay stay up, and the polling period, in milliseconds. */
  const TurnResultMillis: nat := 3000
  const PhaseResultMillis: nat := 4000
  const PollingMillis: nat := 2000

  const MainMenu: string := "main-menu"
  const LobbyScreen: string := "game-lobby-screen"
  const GameScreen: string := "game-screen"

  /** `lastPhaseEndData`: the phase index of the phase-end snapshot last handled and a copy
      of its players. */
  datatype PhaseEndMark = PhaseEndMark(currentPhaseIndex: int, players: seq<SnapPlayer>)

  /** The pending banner-removal callback: the snapshot and the flag its closure captured. */
  datatype TurnTimer = TurnTimer(game: Snapshot, isPhaseEndTurn: bool)

  /** What is on show: the snapshot the game board was last painted from, the winner name in
      the turn-result banner, and the phase-result overlay's message. */
  datatype Display = Display(board: Option<Snapshot>, banner: Option<string>, overlay: Option<PhaseMessage>)

  datatype ClientState = ClientState(
    gameId: Option<string>,
    playerId: Option<string>,
    playerName: Option<string>,
    currentScreen: string,
    showingTurnResult: bool,
    lastTurnResult: Option<string>,
    showingPhaseResult: bool,
    lastPhaseIndex: Option<int>,
    pendingPhaseResult: Option<Snapshot>,
    lastPhaseEndData: Option<PhaseEndMark>,
    turnTimer: Option<TurnTimer>,
    phaseTimer: Option<Snapshot>,
    display: Display,
    pollingInterval: Option<nat>,
    liveIntervals: set<nat>,
    nextHandle: nat)

  /** The client as the page loads it: on the main menu, nothing remembered, nothing shown,
      no interval. Interval handles are positive, as the browser's are. */
  function Initial(): ClientState
  {
    ClientState(None, None, None, MainMenu, false, None, false, None, None, None, None, None,
                Display(None, None, None), None, {}, 1)
  }

  // ---------------------------------------------------------------------------------------
  // The two checks

  /** Whether the last entry of `turn_results` exists and differs from the last banner's. */
  predicate HasNewTurnResult(c: ClientState, g: Snapshot)
  {
    |g.turnResults| > 0 && Some(g.turnResults[|g.turnResults| - 1]) != c.lastTurnResult
  }

  /** `shouldShowTurnResult`: never while a banner is up; otherwise when a new hand winner
      appears while the table is empty in the playing phase, or in a phase-end snapshot. */
  function ShouldShowTurnResult(c: ClientState, g: Snapshot): (r: bool)
    ensures c.showingTurnResult ==> !r
    ensures !c.showingTurnResult ==>
      (r <==> LastTurnResult(g).Some? && LastTurnResult(g) != c.lastTurnResult &&
              ((g.phase == "playing" && g.playedCount == 0) || g.phase == "phase_end"))
  {
    if c.showingTurnResult then false
    else
      var isNew := HasNewTurnResult(c, g);
      if g.phase == "playing" && g.playedCount == 0 && isNew then true
      else if g.phase == "phase_end" && isNew then true
      else false
  }

  /** `shouldShowPhaseResult`: never while a banner or an overlay is up; otherwise for a
      phase-end snapshot whose phase index differs from the one last handled. */
  function ShouldShowPhaseResult(c: ClientState, g: Snapshot): (r: bool)
    ensures (c.showingPhaseResult || c.showingTurnResult) ==> !r
    ensures r ==> g.phase == "phase_end"
    ensures !c.showingPhaseResult && !c.showingTurnResult && g.phase == "phase_end" ==>
      (r <==> (c.lastPhaseEndData.None? || c.lastPhaseEndData.value.currentPhaseIndex != g.currentPhaseIndex))
  {
    if c.showingPhaseResult || c.showingTurnResult then false
    else
      g.phase == "phase_end" &&
      (c.lastPhaseEndData.None? || c.lastPhaseEndData.value.currentPhaseIndex != g.currentPhaseIndex)
  }

  // ---------------------------------------------------------------------------------------
  // The two ephemeral events and the two board paints

  /** The banner's text: the name of the first player with the winner's id, or "Unknown". */
  function WinnerName(g: Snapshot): (r: string)
    ensures LastTurnResult(g).Some? && FindPlayer(g.players, LastTurnResult(g).value).Some? ==>
      r == FindPlayer(g.players, LastTurnResult(g).value).value.name
    ensures (LastTurnResult(g).None? || FindPlayer(g.players, LastTurnResult(g).value).None?) ==>
      r == "Unknown"
  {
    match LastTurnResult(g)
    case None => "Unknown"
    case Some(w) =>
      match FindPlayer(g.players, w)
      case None => "Unknown"
      case Some(p) => p.name
  }

  /** `showTurnResult(game, isPhaseEndTurn)`: raises the busy flag, remembers the hand winner
      at once (an empty `turn_results` leaves nothing, as `undefined` compares unequal to
      every id), puts up the banner and arms its timer. */
  function ShowTurnResult(c: ClientState, g: Snapshot, isPhaseEndTurn: bool): (r: ClientState)
    ensures r.showingTurnResult && r.lastTurnResult == LastTurnResult(g)
    ensures r.display.banner == Some(WinnerName(g))
    ensures r.turnTimer == Some(TurnTimer(g, isPhaseEndTurn))
    ensures r.display.board == c.display.board && r.display.overlay == c.display.overlay
    ensures r.showingPhaseResult == c.showingPhaseResult && r.phaseTimer == c.phaseTimer
    ensures r.pendingPhaseResult == c.pendingPhaseResult && r.lastPhaseEndData == c.lastPhaseEndData
  {
    c.(showingTurnResult := true, lastTurnResult := LastTurnResult(g),
       display := c.display.(banner := Some(WinnerName(g))),
       turnTimer := Some(TurnTimer(g, isPhaseEndTurn)))
  }

  /** `showPhaseResult(game)`: raises the busy flag, puts up the overlay with the message
      derived from the snapshot's players and arms its timer. */
  function ShowPhaseResult(c: ClientState, g: Snapshot): (r: ClientState)
    ensures r.showingPhaseResult && r.display.overlay == Some(PhaseMessageOf(g))
    ensures r.phaseTimer == Some(g)
    ensures r.display.board == c.display.board && r.display.banner == c.display.banner
    ensures r.showingTurnResult == c.showingTurnResult && r.turnTimer == c.turnTimer
    ensures r.lastTurnResult == c.lastTurnResult && r.lastPhaseEndData == c.lastPhaseEndData
  {
    c.(showingPhaseResult := true, display := c.display.(overlay := Some(PhaseMessageOf(g))),
       phaseTimer := Some(g))
  }

  /** `showPhaseEndSequence(game)`: remembers the phase index and players, then shows the
      final hand's banner first (keeping the snapshot for the overlay that follows) when the
      last hand winner is new, else the overlay at once. */
  function ShowPhaseEndSequence(c: ClientState, g: Snapshot): (r: ClientState)
    ensures r.lastPhaseEndData == Some(PhaseEndMark(g.currentPhaseIndex, g.players))
    ensures HasNewTurnResult(c, g) ==>
      r.pendingPhaseResult == Some(g) && r.turnTimer == Some(TurnTimer(g, true)) &&
      r.showingPhaseResult == c.showingPhaseResult
    ensures !HasNewTurnResult(c, g) ==>
      r.pendingPhaseResult == c.pendingPhaseResult && r.display.overlay == Some(PhaseMessageOf(g)) &&
      r.turnTimer == c.turnTimer
  {
    var c1 := c.(lastPhaseEndData := Some(PhaseEndMark(g.currentPhaseIndex, g.players)));
    if HasNewTurnResult(c1, g) then ShowTurnResult(c1.(pendingPhaseResult := Some(g)), g, true)
    else ShowPhaseResult(c1, g)
  }

  /** The board painting `updateGameScreen` does itself: phase, hand, players and the
      phase-specific panel, all from the snapshot. */
  function Render(c: ClientState, g: Snapshot): (r: ClientState)
    ensures r.display.board == Some(g)
  {
    c.(display := c.display.(board := Some(g)))
  }

  /** `updateGameScreenNormal(game)`: records the phase index, which nothing reads, and paints
      the board. */
  function RenderNormal(c: ClientState, g: Snapshot): (r: ClientState)
    ensures r == Render(c, g).(lastPhaseIndex := Some(g.currentPhaseIndex))
  {
    c.(lastPhaseIndex := Some(g.currentPhaseIndex), display := c.display.(board := Some(g)))
  }

  /** `updateGameScreen(game)`: the turn check first, then the phase check, else the board. */
  function UpdateGameScreen(c: ClientState, g: Snapshot): ClientState
  {
    if ShouldShowTurnResult(c, g) then ShowTurnResult(c, g, false)
    else if ShouldShowPhaseResult(c, g) then ShowPhaseEndSequence(c, g)
    else Render(c, g)
  }

  // ---------------------------------------------------------------------------------------
  // Timer callbacks

  /** Taking the banner down: its timer is spent and the flag drops. */
  function RemoveBanner(c: ClientState): (r: ClientState)
    ensures r.turnTimer.None? && r.display.banner.None? && !r.showingTurnResult
  {
    c.(turnTimer := None, display := c.display.(banner := None), showingTurnResult := false)
  }

  /** Taking the overlay down: its timer is spent and the flag drops. */
  function RemoveOverlay(c: ClientState): (r: ClientState)
    ensures r.phaseTimer.None? && r.display.overlay.None? && !r.showingPhaseResult
  {
    c.(phaseTimer := None, display := c.display.(overlay := None), showingPhaseResult := false)
  }

  /** The banner's timer firing: the banner goes and the flag drops; a phase-end banner with
      a kept snapshot hands over to that snapshot's overlay and forgets it, any other paints
      the board from the snapshot the banner was raised for. No pending timer, no callback. */
  function OnTurnTimer(c: ClientState): (r: ClientState)
    ensures c.turnTimer.None? ==> r == c
    ensures c.turnTimer.Some? ==>
      !r.showingTurnResult && r.turnTimer.None? && r.display.banner.None? &&
      r.lastTurnResult == c.lastTurnResult
    ensures c.turnTimer.Some? && c.turnTimer.value.isPhaseEndTurn && c.pendingPhaseResult.Some? ==>
      r.showingPhaseResult && r.display.overlay == Some(PhaseMessageOf(c.pendingPhaseResult.value)) &&
      r.pendingPhaseResult.None? && r.display.board == c.display.board
    ensures c.turnTimer.Some? && !(c.turnTimer.value.isPhaseEndTurn && c.pendingPhaseResult.Some?) ==>
      r.display.board == Some(c.turnTimer.value.game) &&
      r.lastPhaseIndex == Some(c.turnTimer.value.game.currentPhaseIndex) &&
      r.showingPhaseResult == c.showingPhaseResult && r.display.overlay == c.display.overlay &&
      r.pendingPhaseResult == c.pendingPhaseResult
  {
    match c.turnTimer
    case None => c
    case Some(t) =>
      var c1 := RemoveBanner(c);
      if t.isPhaseEndTurn && c1.pendingPhaseResult.Some? then
        ShowPhaseResult(c1, c1.pendingPhaseResult.value).(pendingPhaseResult := None)
      else RenderNormal(c1, t.game)
  }

  /** The overlay's timer firing: the overlay goes, the flag drops and the board is painted
      from the snapshot the overlay was raised for. */
  function OnPhaseTimer(c: ClientState): (r: ClientState)
    ensures c.phaseTimer.None? ==> r == c
    ensures c.phaseTimer.Some? ==>
      !r.showingPhaseResult && r.phaseTimer.None? && r.display.overlay.None? &&
      r.display.board == Some(c.phaseTimer.value) &&
      r.lastPhaseIndex == Some(c.phaseTimer.value.currentPhaseIndex) &&
      r.turnTimer == c.turnTimer && r.display.banner == c.display.banner
  {
    match c.phaseTimer
    case None => c
    case Some(g) => RenderNormal(RemoveOverlay(c), g)
  }

  // ---------------------------------------------------------------------------------------
  // Polling

  /** `startGameStatePolling`: clears the running interval, if any, and starts a new one
      under a fresh handle. */
  function StartPolling(c: ClientState): (r: ClientState)
    ensures r.pollingInterval == Some(c.nextHandle) && c.nextHandle !in c.liveIntervals - {c.nextHandle}
    ensures r.liveIntervals == (if c.pollingInterval.Some? then c.liveIntervals - {c.pollingInterval.value}
                                else c.liveIntervals) + {c.nextHandle}
    ensures r.nextHandle > c.nextHandle
  {
    var live := if c.pollingInterval.Some? then c.liveIntervals - {c.pollingInterval.value} else c.liveIntervals;
    c.(pollingInterval := Some(c.nextHandle), liveIntervals := live + {c.nextHandle},
       nextHandle := c.nextHandle + 1)
  }

  /** `stopGameStatePolling`: clears the running interval, if any, and forgets its handle. */
  function StopPolling(c: ClientState): (r: ClientState)
    ensures c.pollingInterval.None? ==> r == c
    ensures r.pollingInterval.None?
    ensures c.pollingInterval.Some? ==> r.liveIntervals == c.liveIntervals - {c.pollingInterval.value}
  {
    if c.pollingInterval.Some? then
      c.(pollingInterval := None, liveIntervals := c.liveIntervals - {c.pollingInterval.value})
    else c
  }

  /** One polling tick, given what the state fetch returned (`None` for a failed fetch):
      nothing without a game or a snapshot; on the lobby screen, a started game is rendered
      and the game screen shown; on the game screen, the snapshot is reconciled. */
  function Tick(c: ClientState, fetched: Option<Snapshot>): (r: ClientState)
    ensures c.gameId.None? || fetched.None? ==> r == c
    ensures c.gameId.Some? && fetched.Some? && c.currentScreen == GameScreen ==>
      r == UpdateGameScreen(c, fetched.value)
    ensures c.gameId.Some? && fetched.Some? && c.currentScreen == LobbyScreen ==>
      r == (if fetched.value.phase != "waiting"
            then UpdateGameScreen(c, fetched.value).(currentScreen := GameScreen) else c)
  {
    if c.gameId.None? then c
    else match fetched
      case None => c
      case Some(g) =>
        if c.currentScreen == LobbyScreen then
          if g.phase != "waiting" then UpdateGameScreen(c, g).(currentScreen := GameScreen) else c
        else if c.currentScreen == GameScreen then UpdateGameScreen(c, g)
        else c
  }

  // ---------------------------------------------------------------------------------------
  // Entering and leaving a game

  /** `leaveGame`: forgets the game and the player, stops polling and shows the main menu;
      the banner, overlay and phase markers are kept. */
  function Leave(c: ClientState): (r: ClientState)
    ensures r.gameId.None? && r.playerId.None? && r.playerName.None? && r.currentScreen == MainMenu
    ensures r.pollingInterval.None?
    ensures r.lastTurnResult == c.lastTurnResult && r.lastPhaseEndData == c.lastPhaseEndData &&
            r.lastPhaseIndex == c.lastPhaseIndex && r.pendingPhaseResult == c.pendingPhaseResult
    ensures r.showingTurnResult == c.showingTurnResult && r.showingPhaseResult == c.showingPhaseResult
  {
    StopPolling(c).(gameId := None, playerId := None, playerName := None, currentScreen := MainMenu)
  }

  /** A successful `createGame` or `joinGame`: the ids are stored, the lobby is shown and
      polling starts. */
  function Entered(c: ClientState, gameId: string, playerId: string, name: string): (r: ClientState)
    ensures r.gameId == Some(gameId) && r.playerId == Some(playerId) && r.playerName == Some(name)
    ensures r.currentScreen == LobbyScreen && r.pollingInterval.Some?
    ensures r.lastTurnResult == c.lastTurnResult && r.lastPhaseEndData == c.lastPhaseEndData &&
            r.lastPhaseIndex == c.lastPhaseIndex && r.pendingPhaseResult == c.pendingPhaseResult
    ensures r.showingTurnResult == c.showingTurnResult && r.showingPhaseResult == c.showingPhaseResult
  {
    StartPolling(c.(gameId := Some(gameId), playerId := Some(playerId), playerName := Some(name),
                    currentScreen := LobbyScreen))
  }

  /** A successful `startGame`: the returned snapshot is reconciled, the game screen shown and
      polling restarted. */
  function Started(c: ClientState, g: Snapshot): (r: ClientState)
    ensures r.currentScreen == GameScreen && r.pollingInterval.Some?
    ensures r.(pollingInterval := c.pollingInterval, liveIntervals := c.liveIntervals,
               nextHandle := c.nextHandle) == UpdateGameScreen(c, g).(currentScreen := GameScreen)
    ensures r.pollingInterval == StartPolling(c).pollingInterval &&
            r.liveIntervals == StartPolling(c).liveIntervals && r.nextHandle == StartPolling(c).nextHandle
  {
    StartPolling(UpdateGameScreen(c, g).(currentScreen := GameScreen))
  }

  /** `continueGame`: with a game, the fetched snapshot, if any, is reconciled. */
  function Continue(c: ClientState, fetched: Option<Snapshot>): (r: ClientState)
    ensures c.gameId.None? || fetched.None? ==> r == c
    ensures c.gameId.Some? && fetched.Some? ==> r == UpdateGameScreen(c, fetched.value)
  {
    if c.gameId.Some? && fetched.Some? then UpdateGameScreen(c, fetched.value) else c
  }

  // ---------------------------------------------------------------------------------------
  // Events

  /** What drives the client: a polling tick with its fetch result, the two timers, and the
      answers to the user's actions (`makeGuess` and `playCard` reconcile the snapshot they
      return). A tick arrives only while an interval is live. */
  datatype Event =
    | Poll(fetched: Option<Snapshot>)
    | TurnTimerFired
    | PhaseTimerFired
    | GameEntered(gameId: string, playerId: string, name: string)
    | GameStarted(game: Snapshot)
    | ActionAnswered(game: Snapshot)
    | Continued(fetched: Option<Snapshot>)
    | Left

  function Step(c: ClientState, e: Event): ClientState
  {
    match e
    case Poll(fetched) => if c.liveIntervals != {} then Tick(c, fetched) else c
    case TurnTimerFired => OnTurnTimer(c)
    case PhaseTimerFired => OnPhaseTimer(c)
    case GameEntered(gid, pid, name) => Entered(c, gid, pid, name)
    case GameStarted(g) => Started(c, g)
    case ActionAnswered(g) => UpdateGameScreen(c, g)
    case Continued(fetched) => Continue(c, fetched)
    case Left => Leave(c)
  }

  function Run(c: ClientState, es: seq<Event>): ClientState
    decreases |es|
  {
    if es == [] then c else Run(Step(c, es[0]), es[1..])
  }

  // ---------------------------------------------------------------------------------------
  // The invariant of every reachable client

  /** Each busy flag is up exactly while its timer is pending and its element is on show; no
      phase snapshot is ever kept for later and no banner is a phase-end banner; exactly the
      interval named by `pollingInterval` is live, and its handle was issued. */
  predicate Inv(c: ClientState)
  {
    (c.showingTurnResult <==> c.turnTimer.Some?) &&
    (c.turnTimer.Some? <==> c.display.banner.Some?) &&
    (c.showingPhaseResult <==> c.phaseTimer.Some?) &&
    (c.phaseTimer.Some? <==> c.display.overlay.Some?) &&
    c.pendingPhaseResult.None? &&
    (c.turnTimer.Some? ==> !c.turnTimer.value.isPhaseEndTurn) &&
    c.liveIntervals == (if c.pollingInterval.Some? then {c.pollingInterval.value} else {}) &&
    (c.pollingInterval.Some? ==> 0 < c.pollingInterval.value < c.nextHandle) &&
    c.nextHandle > 0
  }

  lemma InitialInv()
    ensures Inv(Initial())
  {
  }

  /** The chained "banner, then overlay" branch of `showPhaseEndSequence` is never taken from
      `updateGameScreen`: when the phase check fires, the turn check has just declined a
      phase-end snapshot with no banner up, so its last hand winner is not new. */
  lemma ChainedBranchUnreachable(c: ClientState, g: Snapshot)
    requires !ShouldShowTurnResult(c, g) && ShouldShowPhaseResult(c, g)
    ensures !HasNewTurnResult(c, g)
    ensures UpdateGameScreen(c, g) ==
      ShowPhaseResult(c.(lastPhaseEndData := Some(PhaseEndMark(g.currentPhaseIndex, g.players))), g)
  {
  }

  lemma UpdateGameScreenKeepsInv(c: ClientState, g: Snapshot)
    requires Inv(c)
    ensures Inv(UpdateGameScreen(c, g))
  {
    if !ShouldShowTurnResult(c, g) && ShouldShowPhaseResult(c, g) {
      ChainedBranchUnreachable(c, g);
    }
  }

  lemma TickKeepsInv(c: ClientState, fetched: Option<Snapshot>)
    requires Inv(c)
    ensures Inv(Tick(c, fetched))
  {
    if c.gameId.Some? && fetched.Some? {
      UpdateGameScreenKeepsInv(c, fetched.value);
    }
  }

  lemma StepKeepsInv(c: ClientState, e: Event)
    requires Inv(c)
    ensures Inv(Step(c, e))
  {
    match e
    case Poll(fetched) => TickKeepsInv(c, fetched);
    case GameStarted(g) => UpdateGameScreenKeepsInv(c, g);
    case ActionAnswered(g) => UpdateGameScreenKeepsInv(c, g);
    case Continued(fetched) =>
      if c.gameId.Some? && fetched.Some? {
        UpdateGameScreenKeepsInv(c, fetched.value);
      }
    case _ =>
  }

  /** Every client reached from the page load by any events keeps the invariant. */
  lemma {:induction false} RunKeepsInv(c: ClientState, es: seq<Event>)
    requires Inv(c)
    ensures Inv(Run(c, es))
    decreases |es|
  {
    if es != [] {
      StepKeepsInv(c, es[0]);
      RunKeepsInv(Step(c, es[0]), es[1..]);
    }
  }

  // ---------------------------------------------------------------------------------------
  // What the reconciler promises

  /** A single `updateGameScreen` starts at most one ephemeral element; the turn check wins
      over the phase check; the board is painted exactly when neither starts, and would
      otherwise stay as it was. */
  lemma UpdateGameScreenOneEffect(c: ClientState, g: Snapshot)
    requires Inv(c)
    ensures var r := UpdateGameScreen(c, g);
      var banner := c.turnTimer.None? && r.turnTimer.Some?;
      var overlay := c.phaseTimer.None? && r.phaseTimer.Some?;
      !(banner && overlay) &&
      (ShouldShowTurnResult(c, g) ==> banner && r.turnTimer == Some(TurnTimer(g, false))) &&
      (!ShouldShowTurnResult(c, g) && ShouldShowPhaseResult(c, g) ==>
         overlay && r.display.overlay == Some(PhaseMessageOf(g))) &&
      (r.display.board == if banner || overlay then c.display.board else Some(g))
  {
    if !ShouldShowTurnResult(c, g) && ShouldShowPhaseResult(c, g) {
      ChainedBranchUnreachable(c, g);
    }
  }

  /** No event replaces a pending timer: the banner's timer goes only when it fires, and so
      does the overlay's. */
  lemma TimersNeverOverwritten(c: ClientState, e: Event)
    requires Inv(c)
    ensures c.turnTimer.Some? && e != TurnTimerFired ==> Step(c, e).turnTimer == c.turnTimer
    ensures c.phaseTimer.Some? && e != PhaseTimerFired ==> Step(c, e).phaseTimer == c.phaseTimer
  {
    match e
    case Poll(fetched) =>
      if c.gameId.Some? && fetched.Some? {
        UpdateGameScreenOneEffect(c, fetched.value);
      }
    case GameStarted(g) => UpdateGameScreenOneEffect(c, g);
    case ActionAnswered(g) => UpdateGameScreenOneEffect(c, g);
    case Continued(fetched) =>
      if c.gameId.Some? && fetched.Some? {
        UpdateGameScreenOneEffect(c, fetched.value);
      }
    case _ =>
  }

  /** De-duplication looks only at the last hand winner: a client whose remembered winner is
      the snapshot's last one shows no banner for it, however many hands that player won
      since. */
  lemma SameWinnerNoBanner(c: ClientState, g: Snapshot)
    requires c.lastTurnResult == LastTurnResult(g)
    ensures !ShouldShowTurnResult(c, g)
  {
  }

  /** The winner is remembered when the banner goes up, not when it comes down: the same
      snapshot shows no second banner while the first is up, nor after its timer fires. */
  lemma BannerRemembersWinner(c: ClientState, g: Snapshot, g2: Snapshot)
    requires LastTurnResult(g2) == LastTurnResult(g)
    ensures var r := ShowTurnResult(c, g, false);
      !ShouldShowTurnResult(r, g2) && !ShouldShowTurnResult(OnTurnTimer(r), g2)
  {
    var r := ShowTurnResult(c, g, false);
    SameWinnerNoBanner(OnTurnTimer(r), g2);
  }

  /** Two hands in a row won by the same player give one banner: once the first banner has
      come and gone, a snapshot whose results end in a second win by that player is painted
      without a banner. */
  lemma ConsecutiveWinsOneBanner(c: ClientState, g: Snapshot, g2: Snapshot, w: string)
    requires !c.showingTurnResult && c.lastTurnResult != Some(w)
    requires g.phase == "playing" && g.playedCount == 0 && |g.turnResults| > 0
    requires g.turnResults[|g.turnResults| - 1] == w
    requires g2.turnResults == g.turnResults + [w] && g2.phase == "playing" && g2.playedCount == 0
    ensures UpdateGameScreen(c, g).display.banner.Some?
    ensures var r := OnTurnTimer(UpdateGameScreen(c, g));
      UpdateGameScreen(r, g2) == Render(r, g2)
  {
    var r := OnTurnTimer(UpdateGameScreen(c, g));
    assert LastTurnResult(g2) == Some(w);
    SameWinnerNoBanner(r, g2);
  }

  /** Each phase index gets one overlay: after `showPhaseEndSequence`, the phase check
      declines every snapshot with that index until another phase end is handled. */
  lemma PhaseResultOncePerIndex(c: ClientState, g: Snapshot, g2: Snapshot)
    requires g2.currentPhaseIndex == g.currentPhaseIndex
    ensures !ShouldShowPhaseResult(ShowPhaseEndSequence(c, g), g2)
  {
  }

  /** The phase marker is never cleared, by leaving the game or anything else; it changes only
      to the index of a new phase-end snapshot. */
  lemma PhaseMarkerKept(c: ClientState, e: Event)
    ensures c.lastPhaseEndData.Some? ==> Step(c, e).lastPhaseEndData.Some?
    ensures var r := Step(c, e);
      r.lastPhaseEndData != c.lastPhaseEndData ==>
        r.lastPhaseEndData.Some? && r.showingPhaseResult && r.phaseTimer.Some? &&
        r.phaseTimer.value.phase == "phase_end" &&
        r.lastPhaseEndData.value.currentPhaseIndex == r.phaseTimer.value.currentPhaseIndex
  {
  }

  /** `lastPhaseIndex` is written but never read: what it holds makes no difference to what
      a reconciliation does to the rest of the client. */
  lemma UpdateIgnoresLastPhaseIndex(c: ClientState, g: Snapshot, x: Option<int>)
    ensures UpdateGameScreen(c.(lastPhaseIndex := x), g).(lastPhaseIndex := None) ==
            UpdateGameScreen(c, g).(lastPhaseIndex := None)
  {
  }

  /** Nor to what the banner's timer does. */
  lemma TurnTimerIgnoresLastPhaseIndex(c: ClientState, x: Option<int>)
    ensures OnTurnTimer(c.(lastPhaseIndex := x)).(lastPhaseIndex := None) == OnTurnTimer(c).(lastPhaseIndex := None)
  {
  }

  /** Nor to what the overlay's timer does. */
  lemma PhaseTimerIgnoresLastPhaseIndex(c: ClientState, x: Option<int>)
    ensures OnPhaseTimer(c.(lastPhaseIndex := x)).(lastPhaseIndex := None) == OnPhaseTimer(c).(lastPhaseIndex := None)
  {
  }

  /** Nor to what a polling tick does. */
  lemma TickIgnoresLastPhaseIndex(c: ClientState, fetched: Option<Snapshot>, x: Option<int>)
    ensures Tick(c.(lastPhaseIndex := x), fetched).(lastPhaseIndex := None) == Tick(c, fetched).(lastPhaseIndex := None)
  {
    if c.gameId.Some? && fetched.Some? {
      UpdateIgnoresLastPhaseIndex(c, fetched.value, x);
    }
  }

  /** Nor to what starting a game does. */
  lemma StartedIgnoresLastPhaseIndex(c: ClientState, g: Snapshot, x: Option<int>)
    ensures Started(c.(lastPhaseIndex := x), g).(lastPhaseIndex := None) == Started(c, g).(lastPhaseIndex := None)
  {
    UpdateIgnoresLastPhaseIndex(c, g, x);
  }

  /** Nor to what continuing a game does. */
  lemma ContinueIgnoresLastPhaseIndex(c: ClientState, fetched: Option<Snapshot>, x: Option<int>)
    ensures Continue(c.(lastPhaseIndex := x), fetched).(lastPhaseIndex := None) ==
            Continue(c, fetched).(lastPhaseIndex := None)
  {
    if fetched.Some? { UpdateIgnoresLastPhaseIndex(c, fetched.value, x); }
  }

  /** Nor to what any event does. */
  lemma LastPhaseIndexUnread(c: ClientState, e: Event, x: Option<int>)
    ensures Step(c.(lastPhaseIndex := x), e).(lastPhaseIndex := None) == Step(c, e).(lastPhaseIndex := None)
  {
    var c' := c.(lastPhaseIndex := x);
    match e {
      case Poll(fetched) => TickIgnoresLastPhaseIndex(c, fetched, x);
      case TurnTimerFired => TurnTimerIgnoresLastPhaseIndex(c, x);
      case PhaseTimerFired => PhaseTimerIgnoresLastPhaseIndex(c, x);
      case GameEntered(gid, pid, name) =>
        assert Entered(c', gid, pid, name) == Entered(c, gid, pid, name).(lastPhaseIndex := x);
      case GameStarted(g) => StartedIgnoresLastPhaseIndex(c, g, x);
      case ActionAnswered(g) => UpdateIgnoresLastPhaseIndex(c, g, x);
      case Continued(fetched) => ContinueIgnoresLastPhaseIndex(c, fetched, x);
      case Left =>
        assert Leave(c') == Leave(c).(lastPhaseIndex := x);
    }
  }

  /** Nor over any sequence of events. */
  lemma {:induction false} LastPhaseIndexUnreadOnRuns(c: ClientState, es: seq<Event>, x: Option<int>)
    ensures Run(c.(lastPhaseIndex := x), es).(lastPhaseIndex := None) == Run(c, es).(lastPhaseIndex := None)
    decreases |es|
  {
    if es != [] {
      var c' := c.(lastPhaseIndex := x);
      LastPhaseIndexUnread(c, es[0], x);
      var y := Step(c', es[0]).lastPhaseIndex;
      assert Step(c', es[0]) == Step(c, es[0]).(lastPhaseIndex := y);
      LastPhaseIndexUnreadOnRuns(Step(c, es[0]), es[1..], y);
    }
  }

  /** The banner guard looks only at the banner's own flag: a new hand winner during the phase
      overlay raises a banner over it. */
  lemma BannerOverOverlay(c: ClientState, g: Snapshot)
    requires Inv(c) && c.showingPhaseResult && !c.showingTurnResult
    requires g.phase == "playing" && g.playedCount == 0 && HasNewTurnResult(c, g)
    ensures var r := UpdateGameScreen(c, g);
      r.display.banner.Some? && r.display.overlay == c.display.overlay && r.display.overlay.Some?
  {
  }

  /** A snapshot arriving while a banner is up is painted at once, the banner staying. */
  lemma PollDuringBannerPaints(c: ClientState, g: Snapshot)
    requires c.showingTurnResult
    ensures UpdateGameScreen(c, g) == Render(c, g)
    ensures UpdateGameScreen(c, g).display.banner == c.display.banner
  {
  }

  /** The timers on a reachable client: the banner's hands over to the board, never to an
      overlay, since no phase-end banner is ever raised; the overlay's hands over to the
      board. */
  lemma TimersOnReachableClient(c: ClientState)
    requires Inv(c)
    ensures c.turnTimer.Some? ==>
      OnTurnTimer(c) == RenderNormal(RemoveBanner(c), c.turnTimer.value.game)
    ensures c.phaseTimer.Some? ==> OnPhaseTimer(c).display.board == Some(c.phaseTimer.value)
  {
  }

  /** At most one interval is ever alive: starting replaces the running one, stopping leaves
      none, and stopping with none running changes nothing. */
  lemma OneIntervalAlive(c: ClientState)
    requires Inv(c)
    ensures |StartPolling(c).liveIntervals| == 1 && StartPolling(c).pollingInterval.Some?
    ensures StartPolling(c).pollingInterval.value in StartPolling(c).liveIntervals
    ensures c.pollingInterval.Some? ==> c.pollingInterval.value !in StartPolling(c).liveIntervals
    ensures StopPolling(c).liveIntervals == {} && StopPolling(c).pollingInterval.None?
    ensures c.pollingInterval.None? ==> StopPolling(c) == c
  {
    var r := StartPolling(c);
    assert r.liveIntervals == {c.nextHandle};
  }

  /** After leaving, ticks do nothing, even one still delivered. */
  lemma LeftClientIgnoresTicks(c: ClientState, fetched: Option<Snapshot>)
    ensures Tick(Leave(c), fetched) == Leave(c)
  {
  }
}
