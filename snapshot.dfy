/** What the browser client reads of a game-state snapshot (the `game_state` JSON a poll or an
    action returns): only the fields the presentation reconciler looks at. */
module Snapshots {
  import opened Wrappers

  /** A player entry of a snapshot. */
  datatype SnapPlayer = SnapPlayer(
    playerId: string,
    name: string,
    isEliminated: bool,
    guess: Option<int>,
    turnsWon: int)

  /** A snapshot: the phase value, the phase index, the ids of the hands won so far, how many
      cards are on the table and the players. */
  datatype Snapshot = Snapshot(
    phase: string,
    currentPhaseIndex: int,
    turnResults: seq<string>,
    playedCount: nat,
    players: seq<SnapPlayer>)

  /** The last entry of `turn_results`, if any. */
  function LastTurnResult(g: Snapshot): (r: Option<string>)
    ensures r.Some? <==> |g.turnResults| > 0
    ensures r.Some? ==> r.value == g.turnResults[|g.turnResults| - 1]
  {
    if |g.turnResults| == 0 then None else Some(g.turnResults[|g.turnResults| - 1])
  }

  /** `game.players.find(p => p.player_id === id)`: the first player with that id. */
  function FindPlayer(ps: seq<SnapPlayer>, id: string): (r: Option<SnapPlayer>)
    ensures r.Some? ==> r.value in ps && r.value.playerId == id
    ensures r.None? ==> forall k :: 0 <= k < |ps| ==> ps[k].playerId != id
  {
    if ps == [] then None
    else if ps[0].playerId == id then Some(ps[0])
    else FindPlayer(ps[1..], id)
  }
}
