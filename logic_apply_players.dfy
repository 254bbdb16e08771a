/** The payload's players, looked up by id the way `GameStateApplier`
    does with `Players.FirstOrDefault(p => p.Id == id)`. */
module LogicApplyPlayers {
  import opened LogicReconcile
  import opened LogicTanks

  /** The payload's players are found by id. */
  function PlayerKey(p: Player): string {
    p.id
  }

  /** `Players.FirstOrDefault(p => p.Id == id)`. */
  function FindPlayer(players: seq<Player>, id: string): (r: Player?)
    ensures r != null ==> r in players && r.id == id
    ensures r == null <==> id !in Keys(players, PlayerKey)
  {
    match FirstWith(players, PlayerKey, id)
    case None => null
    case Some(i) => players[i]
  }

}
