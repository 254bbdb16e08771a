/** `ScoreSystem`: whole points added to a player (or, in STEREO builds,
    to the player's team), and fractional points buffered per player (per
    team in STEREO builds) until they make a whole point. Players are keyed
    by id and teams by name, as their equality is. */
module LogicScore {
  import opened Wrappers
  import opened LogicFractions
  import opened LogicTanks

  /** The player's team, as a frame. */
  function TeamOf(player: Player): set<Team>
    reads player
  {
    if player.team == null then {} else {player.team}
  }

  /** The teams of the players, as a frame. */
  function TeamsOf(ps: set<Player>): set<Team>
    reads ps`team
  {
    set p | p in ps && p.team != null :: p.team
  }

  /** A larger set of players has no fewer teams. */
  lemma {:induction false} TeamsGrow(a: set<Player>, b: set<Player>)
    requires a <= b
    ensures TeamsOf(a) <= TeamsOf(b)
  {
  }

  /** Every team of the players is among `teams`. */
  predicate TeamsWithin(ps: set<Player>, teams: set<Team>)
    reads ps`team
  {
    forall p :: p in ps && p.team != null ==> p.team in teams
  }

  /** The teams of some of the players are among `teams`, as a frame. */
  lemma {:induction false} TeamsWithinOf(a: set<Player>, b: set<Player>, teams: set<Team>)
    requires a <= b && TeamsWithin(b, teams)
    ensures TeamsOf(a) <= teams
  {
  }

  class ScoreSystem {
    /** Whether this is a STEREO build. */
    const stereo: bool
    /** The buffer: by player id, or by team name in STEREO builds. */
    var buffer: map<string, real>

    /** Between calls every buffered amount is a fraction of a point. */
    ghost predicate Valid()
      reads this
    {
      forall k :: k in buffer ==> 0.0 <= buffer[k] < 1.0
    }

    constructor (stereo: bool)
      ensures Valid() && this.stereo == stereo && buffer == map[]
    {
      this.stereo := stereo;
      buffer := map[];
    }

    /** `AwardScore(team, int)` (STEREO): negative scores throw; otherwise
        the team's score grows by exactly that much. */
    method AwardTeamScore(team: Team, score: int) returns (o: Outcome)
      modifies team`score
      ensures o.Throw? <==> score < 0
      ensures o.Throw? ==> o.error == ArgumentOutOfRange && team.score == old(team.score)
      ensures o.Pass? ==> team.score == old(team.score) + score
    {
      if score < 0 {
        return Throw(ArgumentOutOfRange);
      }
      team.score := team.score + score;
      return Pass;
    }

    /** `AwardScore(team, float)` (STEREO): buffered by team name. */
    method AwardTeamFraction(team: Team, score: real) returns (o: Outcome)
      requires Valid()
      modifies this`buffer, team`score
      ensures o.Throw? <==> score < 0.0
      ensures o.Throw? ==> o.error == ArgumentOutOfRange && buffer == old(buffer) && team.score == old(team.score)
      ensures o.Pass? ==>
        var (rest, whole) := Accumulate(Held(old(buffer), team.name), score);
        buffer == old(buffer)[team.name := rest] && team.score == old(team.score) + whole
      ensures Valid()
    {
      if score < 0.0 {
        return Throw(ArgumentOutOfRange);
      }
      var held := Held(buffer, team.name) + score;
      buffer := buffer[team.name := held];
      var whole := Trunc(held);
      if whole >= 1 {
        o := AwardTeamScore(team, whole);
        buffer := buffer[team.name := held - whole as real];
      }
      return Pass;
    }

    /** `AwardScore(player, int)`: in STEREO builds the team's award (a
        player without a team throws); otherwise negative scores throw and
        the player's score grows by exactly that much. */
    method AwardPlayerScore(player: Player, score: int) returns (o: Outcome)
      modifies player`score, TeamOf(player)`score
      ensures score < 0 ==> o == Throw(ArgumentOutOfRange)
      ensures stereo && score >= 0 && old(player.team) == null ==> o == Throw(NullReference)
      ensures o.Throw? ==> player.score == old(player.score) && (player.team != null ==> player.team.score == old(player.team.score))
      ensures o.Pass? && stereo ==> player.team != null && player.team.score == old(player.team.score) + score && player.score == old(player.score)
      ensures o.Pass? && !stereo ==>
        player.score == old(player.score) + score && (player.team != null ==> player.team.score == old(player.team.score))
      ensures score >= 0 && !stereo ==> o.Pass?
      ensures o.Throw? <==> score < 0 || (stereo && old(player.team) == null)
    {
      if stereo {
        if score >= 0 && player.team == null {
          return Throw(NullReference);
        }
        if score < 0 {
          return Throw(ArgumentOutOfRange);
        }
        o := AwardTeamScore(player.team, score);
        return;
      }
      if score < 0 {
        return Throw(ArgumentOutOfRange);
      }
      player.score := player.score + score;
      return Pass;
    }

    /** `AwardScore(player, float)`: buffered by player id, or by the
        player's team in STEREO builds. */
    method AwardPlayerFraction(player: Player, score: real) returns (o: Outcome)
      requires Valid()
      modifies this`buffer, player`score, TeamOf(player)`score
      ensures score < 0.0 ==> o == Throw(ArgumentOutOfRange) && buffer == old(buffer)
      ensures stereo && score >= 0.0 && player.team == null ==> o == Throw(ArgumentNull) && buffer == old(buffer)
      ensures o.Pass? && stereo ==>
        player.team != null &&
        var (rest, whole) := Accumulate(Held(old(buffer), player.team.name), score);
        buffer == old(buffer)[player.team.name := rest] && player.team.score == old(player.team.score) + whole
      ensures o.Pass? && !stereo ==>
        var (rest, whole) := Accumulate(Held(old(buffer), player.id), score);
        buffer == old(buffer)[player.id := rest] && player.score == old(player.score) + whole
      ensures score >= 0.0 && !stereo ==> o.Pass?
      ensures o.Throw? <==> score < 0.0 || (stereo && player.team == null)
      ensures Valid()
    {
      if stereo {
        if score >= 0.0 && player.team == null {
          return Throw(ArgumentNull);
        }
        if score < 0.0 {
          return Throw(ArgumentOutOfRange);
        }
        o := AwardTeamFraction(player.team, score);
        return;
      }
      if score < 0.0 {
        return Throw(ArgumentOutOfRange);
      }
      var held := Held(buffer, player.id) + score;
      buffer := buffer[player.id := held];
      var whole := Trunc(held);
      if whole >= 1 {
        o := AwardPlayerScore(player, whole);
        buffer := buffer[player.id := held - whole as real];
      }
      return Pass;
    }

    /** `OnPlayerRemoved` (non-STEREO): only that player's entry goes. */
    method OnPlayerRemoved(player: Player)
      requires Valid()
      modifies this`buffer
      ensures Valid() && buffer == old(buffer) - {player.id}
    {
      buffer := buffer - {player.id};
    }
  }
}
