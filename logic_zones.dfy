/** Zones and their capture state machine (the non-STEREO build).

    A zone's state is one of five: neutral, being captured by a player,
    captured by a player, contested (remembering its owner, if any), or
    being retaken from its owner by another player. Players are identified
    by id, as player equality is. Each zone has a context holding, per
    player, the ticks still needed to capture it. */
module LogicZones {
  import opened Wrappers

  type PlayerId = string

  /** `ZoneSystem.TicksToCapture`. */
  const TicksToCapture := 50

  datatype ZoneState =
    | Neutral
    | BeingCaptured(player: PlayerId, remainingTicks: int)
    | Captured(player: PlayerId)
    | BeingContested(capturedBy: Option<PlayerId>)
    | BeingRetaken(retakenFrom: PlayerId, retakenBy: PlayerId, remainingTicks: int)

  /** `ICaptureState.BeingCapturedBy`: the capturer of a zone being
      captured, or the retaker of a zone being retaken. */
  function Capturer(s: ZoneState): Option<PlayerId> {
    match s
    case BeingCaptured(p, _) => Some(p)
    case BeingRetaken(_, r, _) => Some(r)
    case _ => None
  }

  /** The player owning the zone, if any. */
  function Owner(s: ZoneState): Option<PlayerId> {
    match s
    case Captured(p) => Some(p)
    case BeingContested(c) => c
    case BeingRetaken(c, _, _) => Some(c)
    case _ => None
  }

  /** A capture state with its `RemainingTicks` set. */
  function WithTicks(s: ZoneState, ticks: int): (r: ZoneState)
    ensures Capturer(r) == Capturer(s) && Owner(r) == Owner(s)
    ensures r.BeingCaptured? ==> r.remainingTicks == ticks
    ensures r.BeingRetaken? ==> r.remainingTicks == ticks
    ensures Capturer(s).None? ==> r == s
  {
    match s
    case BeingCaptured(p, _) => BeingCaptured(p, ticks)
    case BeingRetaken(c, rt, _) => BeingRetaken(c, rt, ticks)
    case _ => s
  }

  /** The progress of each player, and the player closest to capture. */
  type Progress = map<PlayerId, int>

  /** `GetRemainingTicks`: the stored count, or the full count when the
      player is not tracked. */
  function RemainingTicks(progress: Progress, p: PlayerId): int {
    if p in progress then progress[p] else TicksToCapture
  }

  /** `closest` is what `GetClosestToCapturePlayer` may return: nothing
      exactly when no player is tracked, else a tracked player with the
      fewest remaining ticks. */
  predicate IsClosest(progress: Progress, closest: Option<(PlayerId, int)>) {
    (closest.None? <==> progress == map[]) &&
    (closest.Some? ==>
      closest.value.0 in progress && progress[closest.value.0] == closest.value.1 &&
      forall k :: k in progress ==> closest.value.1 <= progress[k])
  }

  /** The fallback of a zone left empty without an owner: being captured
      by the closest player, or neutral when no one is tracked. */
  function ClosestOrNeutral(closest: Option<(PlayerId, int)>): ZoneState {
    if closest.Some? then BeingCaptured(closest.value.0, closest.value.1) else Neutral
  }

  // ---------------------------------------------------------------------
  // The state systems. `tanks` are the owners of the tanks in the zone, in
  // grid order.

  /** `BeingCapturedZoneStateSystem.GetNextState`. */
  function BeingCapturedNext(s: ZoneState, tanks: seq<PlayerId>, progress: Progress,
                             closest: Option<(PlayerId, int)>): ZoneState
    requires s.BeingCaptured?
  {
    if |tanks| == 0 then ClosestOrNeutral(closest)
    else if |tanks| == 1 then
      if tanks[0] == s.player then
        if RemainingTicks(progress, s.player) == 0 then Captured(s.player) else s
      else BeingCaptured(tanks[0], RemainingTicks(progress, tanks[0]))
    else BeingContested(None)
  }

  /** `BeingContestedZoneStateSystem.GetNextState`. A player never equals a
      missing owner, so with one tank and no owner the zone is being
      captured by that tank's owner. */
  function BeingContestedNext(s: ZoneState, tanks: seq<PlayerId>, progress: Progress,
                              closest: Option<(PlayerId, int)>): ZoneState
    requires s.BeingContested?
  {
    if |tanks| == 0 then
      if s.capturedBy.None? then ClosestOrNeutral(closest) else Captured(s.capturedBy.value)
    else if |tanks| == 1 then
      if s.capturedBy == Some(tanks[0]) then Captured(tanks[0])
      else if s.capturedBy.None? then BeingCaptured(tanks[0], RemainingTicks(progress, tanks[0]))
      else BeingRetaken(s.capturedBy.value, tanks[0], RemainingTicks(progress, tanks[0]))
    else s
  }

  /** `BeingRetakenZoneStateSystem.GetNextState`. */
  function BeingRetakenNext(s: ZoneState, tanks: seq<PlayerId>, progress: Progress,
                            closest: Option<(PlayerId, int)>): ZoneState
    requires s.BeingRetaken?
  {
    if |tanks| == 0 then
      if closest.Some? then BeingRetaken(s.retakenFrom, closest.value.0, closest.value.1)
      else Captured(s.retakenFrom)
    else if |tanks| == 1 then
      if tanks[0] == s.retakenFrom then Captured(s.retakenFrom)
      else if RemainingTicks(progress, tanks[0]) == 0 then Captured(tanks[0])
      else BeingRetaken(s.retakenFrom, tanks[0], RemainingTicks(progress, tanks[0]))
    else BeingContested(Some(s.retakenFrom))
  }

  /** `CapturedZoneStateSystem.GetNextState`. */
  function CapturedNext(s: ZoneState, tanks: seq<PlayerId>, progress: Progress): ZoneState
    requires s.Captured?
  {
    if |tanks| == 0 then s
    else if |tanks| == 1 then
      if tanks[0] != s.player then BeingRetaken(s.player, tanks[0], RemainingTicks(progress, tanks[0]))
      else s
    else BeingContested(Some(s.player))
  }

  /** The state system of the current state chooses the next one. The
      neutral state's system is not part of this model; its choice is
      `neutralNext`. */
  function NextState(s: ZoneState, tanks: seq<PlayerId>, progress: Progress,
                     closest: Option<(PlayerId, int)>, neutralNext: ZoneState): ZoneState {
    match s
    case Neutral => neutralNext
    case BeingCaptured(_, _) => BeingCapturedNext(s, tanks, progress, closest)
    case Captured(_) => CapturedNext(s, tanks, progress)
    case BeingContested(_) => BeingContestedNext(s, tanks, progress, closest)
    case BeingRetaken(_, _, _) => BeingRetakenNext(s, tanks, progress, closest)
  }

  /** The `OnPlayerRemoved` of each state system; `progress` and `closest`
      are read after the player's progress is gone. */
  function StateAfterRemoval(s: ZoneState, p: PlayerId, progress: Progress,
                             closest: Option<(PlayerId, int)>, neutralNext: ZoneState): ZoneState {
    match s
    case Neutral => neutralNext
    case BeingCaptured(q, _) => if q == p then ClosestOrNeutral(closest) else s
    case Captured(q) => if q == p then Neutral else s
    case BeingContested(c) => if c == Some(p) then BeingContested(None) else s
    case BeingRetaken(c, r, _) =>
      if c == p then BeingCaptured(r, RemainingTicks(progress, p))
      else if r == p then Captured(c)
      else s
  }

  /** After `UpdateState`, a capture state carries its capturer's
      remaining ticks. */
  function Settled(s: ZoneState, progress: Progress): (r: ZoneState)
    ensures Capturer(r) == Capturer(s) && Owner(r) == Owner(s)
  {
    if Capturer(s).Some? then WithTicks(s, RemainingTicks(progress, Capturer(s).value)) else s
  }

  /** The first loop of `UpdateProgress`: each tracked player outside the
      zone is one tick further from capture, and is dropped once past the
      full count. */
  function Outside(progress: Progress, outside: seq<PlayerId>): Progress
    decreases |outside|
  {
    if |outside| == 0 then progress
    else
      var p := outside[0];
      var next :=
        if p !in progress then progress
        else if progress[p] + 1 > TicksToCapture then progress - {p}
        else progress[p := progress[p] + 1];
      Outside(next, outside[1..])
  }

  /** The second step of `UpdateProgress`: a capturer present in the zone
      starts at the full count, or comes one tick closer. */
  function Capturing(progress: Progress, s: ZoneState, inside: seq<PlayerId>): (r: Progress)
    ensures forall k :: k in r <==> k in progress || (Capturer(s) == Some(k) && k in inside)
    ensures forall k :: k in progress && Capturer(s) != Some(k) ==> r[k] == progress[k]
    ensures Capturer(s).Some? && Capturer(s).value in inside ==>
      r[Capturer(s).value] == if Capturer(s).value in progress then progress[Capturer(s).value] - 1 else TicksToCapture
  {
    if Capturer(s).Some? && Capturer(s).value in inside then
      var c := Capturer(s).value;
      if c !in progress then progress[c := TicksToCapture] else progress[c := progress[c] - 1]
    else progress
  }

  // ---------------------------------------------------------------------
  // Properties of the state machine

  /** With no owner nothing changes hands except by a capture: a state
      other than neutral gets a new owner only when one tank is in the zone
      and its owner has no ticks left, and the zone is then captured by
      that player. */
  lemma {:induction false} OwnerChangesOnlyByCapture(s: ZoneState, tanks: seq<PlayerId>, progress: Progress,
                                  closest: Option<(PlayerId, int)>, neutralNext: ZoneState)
    requires !s.Neutral?
    requires Owner(NextState(s, tanks, progress, closest, neutralNext)) != Owner(s)
    ensures |tanks| == 1 && RemainingTicks(progress, tanks[0]) == 0
    ensures NextState(s, tanks, progress, closest, neutralNext) == Captured(tanks[0])
  {
  }

  /** Two or more tanks in a zone that is not neutral make it contested,
      keeping its owner. */
  lemma {:induction false} CrowdContests(s: ZoneState, tanks: seq<PlayerId>, progress: Progress,
                      closest: Option<(PlayerId, int)>, neutralNext: ZoneState)
    requires !s.Neutral? && |tanks| >= 2
    ensures NextState(s, tanks, progress, closest, neutralNext) == BeingContested(Owner(s))
  {
  }

  /** An empty zone keeps its owner and is never contested. */
  lemma {:induction false} EmptyZoneKeepsOwner(s: ZoneState, progress: Progress,
                            closest: Option<(PlayerId, int)>, neutralNext: ZoneState)
    requires !s.Neutral?
    ensures var r := NextState(s, [], progress, closest, neutralNext);
      Owner(r) == Owner(s) && !r.BeingContested?
  {
  }

  /** After a player is removed (its progress already gone, and `closest`
      read from what is left), the zone's state no longer names that player,
      unless it was being retaken by its own owner. */
  lemma {:induction false} RemovalForgetsPlayer(s: ZoneState, p: PlayerId, progress: Progress,
                             closest: Option<(PlayerId, int)>, neutralNext: ZoneState)
    requires !s.Neutral? && p !in progress && IsClosest(progress, closest)
    requires s.BeingRetaken? ==> s.retakenFrom != s.retakenBy
    ensures var r := StateAfterRemoval(s, p, progress, closest, neutralNext);
      Owner(r) != Some(p) && Capturer(r) != Some(p)
  {
  }

  /** When the owner of a zone being retaken is removed, the retaker is
      given the ticks of the removed player, which are no longer tracked:
      always the full count. */
  lemma {:induction false} RetakenOwnerRemovedGivesFullCount(c: PlayerId, r: PlayerId, t: int, progress: Progress,
                                          closest: Option<(PlayerId, int)>, neutralNext: ZoneState)
    requires c !in progress
    ensures StateAfterRemoval(BeingRetaken(c, r, t), c, progress, closest, neutralNext) ==
      BeingCaptured(r, TicksToCapture)
  {
  }

  /** The first loop of `UpdateProgress` on distinct players: a tracked
      player outside is one tick further, or dropped past the full count;
      everyone else is unchanged. */
  lemma {:induction false} OutsideEffect(progress: Progress, outside: seq<PlayerId>, k: PlayerId)
    requires forall i, j :: 0 <= i < j < |outside| ==> outside[i] != outside[j]
    ensures k !in outside ==> (k in Outside(progress, outside) <==> k in progress)
    ensures k !in outside && k in progress ==> Outside(progress, outside)[k] == progress[k]
    ensures k in outside ==>
      (k in Outside(progress, outside) <==> k in progress && progress[k] + 1 <= TicksToCapture)
    ensures k in outside && k in Outside(progress, outside) ==> Outside(progress, outside)[k] == progress[k] + 1
    decreases |outside|
  {
    if |outside| > 0 {
      var p := outside[0];
      var next :=
        if p !in progress then progress
        else if progress[p] + 1 > TicksToCapture then progress - {p}
        else progress[p := progress[p] + 1];
      assert forall i, j :: 0 <= i < j < |outside[1..]| ==> outside[1..][i] != outside[1..][j] by {
        forall i, j | 0 <= i < j < |outside[1..]| ensures outside[1..][i] != outside[1..][j] {
          assert outside[1..][i] == outside[i + 1] && outside[1..][j] == outside[j + 1];
        }
      }
      OutsideEffect(next, outside[1..], k);
      if k == p {
        assert k !in outside[1..] by {
          forall i | 0 <= i < |outside[1..]| ensures outside[1..][i] != k {
            assert outside[1..][i] == outside[i + 1];
          }
        }
      } else {
        assert k in outside <==> k in outside[1..] by {
          assert outside == [p] + outside[1..];
        }
      }
    }
  }

  /** A player alone in a zone it is capturing comes one tick closer each
      tick and captures it when its count reaches zero. */
  lemma {:induction false} AloneCapturerCompletes(p: PlayerId, ticks: int, progress: Progress,
                               closest: Option<(PlayerId, int)>, neutralNext: ZoneState)
    requires p in progress
    ensures var next := Capturing(progress, BeingCaptured(p, ticks), [p]);
      next[p] == progress[p] - 1 &&
      NextState(BeingCaptured(p, ticks), [p], next, closest, neutralNext) ==
        (if progress[p] - 1 == 0 then Captured(p) else BeingCaptured(p, ticks))
  {
  }

  // ---------------------------------------------------------------------
  // Zone

  /** A zone as a game state payload carries it. */
  datatype ZoneSnapshot = ZoneSnapshot(x: int, y: int, width: int, height: int, index: char, state: ZoneState)

  class Zone {
    const x: int
    const y: int
    const width: int
    const height: int
    const index: char
    var state: ZoneState

    constructor (x: int, y: int, width: int, height: int, index: char)
      ensures this.x == x && this.y == y && this.width == width && this.height == height
      ensures this.index == index && state == Neutral
    {
      this.x := x;
      this.y := y;
      this.width := width;
      this.height := height;
      this.index := index;
      state := Neutral;
    }

    /** A zone rebuilt from a payload snapshot, with the snapshot's state. */
    constructor Snapshot(snapshot: ZoneSnapshot)
      ensures x == snapshot.x && y == snapshot.y && width == snapshot.width && height == snapshot.height
      ensures index == snapshot.index && state == snapshot.state
    {
      x := snapshot.x;
      y := snapshot.y;
      width := snapshot.width;
      height := snapshot.height;
      index := snapshot.index;
      state := snapshot.state;
    }

    /** `Contains(x, y)`: the half-open rectangle of the zone. */
    predicate Contains(px: int, py: int) {
      x <= px < x + width && y <= py < y + height
    }

    /** `Equals`: the same rectangle and index; the state is ignored. */
    predicate Equals(other: Zone?) {
      other != null && x == other.x && y == other.y && width == other.width &&
      height == other.height && index == other.index
    }

    /** `UpdateFrom`: only the state is copied. */
    method UpdateFrom(snapshot: ZoneSnapshot)
      modifies this`state
      ensures state == snapshot.state
    {
      state := snapshot.state;
    }
  }

  /** Zone equality is an equivalence that ignores the state, and equal
      zones contain the same cells. */
  lemma {:induction false} ZoneEqualsIsEquivalence(a: Zone, b: Zone, c: Zone, px: int, py: int)
    ensures a.Equals(a)
    ensures a.Equals(b) ==> b.Equals(a)
    ensures a.Equals(b) && b.Equals(c) ==> a.Equals(c)
    ensures a.Equals(b) ==> (a.Contains(px, py) <==> b.Contains(px, py))
  {
  }

  // ---------------------------------------------------------------------
  // ZoneContext

  class ZoneContext {
    const zone: Zone
    /** `remainingTicksToCapture`. */
    var progress: Progress

    constructor (zone: Zone)
      ensures this.zone == zone && progress == map[]
    {
      this.zone := zone;
      progress := map[];
    }

    /** `GetRemainingTicks`. */
    function GetRemainingTicks(p: PlayerId): (t: int)
      reads this
      ensures p in progress ==> t == progress[p]
      ensures p !in progress ==> t == TicksToCapture
    {
      RemainingTicks(progress, p)
    }

    /** `GetCapturingPlayers`: each tracked player once. */
    method GetCapturingPlayers() returns (players: seq<PlayerId>)
      ensures forall p :: p in players <==> p in progress
      ensures forall i, j :: 0 <= i < j < |players| ==> players[i] != players[j]
    {
      players := [];
      var rest := progress.Keys;
      while rest != {}
        invariant rest <= progress.Keys
        invariant forall p :: p in players <==> p in progress && p !in rest
        invariant forall i, j :: 0 <= i < j < |players| ==> players[i] != players[j]
        decreases rest
      {
        var p :| p in rest;
        players := players + [p];
        rest := rest - {p};
      }
    }

    /** `GetClosestToCapturePlayer`: a tracked player with the fewest
        remaining ticks, or nothing when no one is tracked. */
    method GetClosestToCapturePlayer() returns (closest: Option<(PlayerId, int)>)
      ensures IsClosest(progress, closest)
    {
      closest := None;
      var rest := progress.Keys;
      while rest != {}
        invariant rest <= progress.Keys
        invariant closest.None? <==> rest == progress.Keys
        invariant closest.Some? ==> closest.value.0 in progress && progress[closest.value.0] == closest.value.1
        invariant closest.Some? ==> forall k :: k in progress && k !in rest ==> closest.value.1 <= progress[k]
        decreases rest
      {
        var p :| p in rest;
        if closest.None? || progress[p] < closest.value.1 {
          closest := Some((p, progress[p]));
        }
        rest := rest - {p};
      }
    }

    /** `UpdateProgress`: the players outside the zone lose ground, then a
        capturer inside the zone gains a tick. */
    method UpdateProgress(inside: seq<PlayerId>, outside: seq<PlayerId>)
      modifies this`progress
      ensures progress == Capturing(Outside(old(progress), outside), zone.state, inside)
    {
      for i := 0 to |outside|
        invariant Outside(old(progress), outside) == Outside(progress, outside[i..])
      {
        assert outside[i..][0] == outside[i] && outside[i..][1..] == outside[i + 1..];
        var p := outside[i];
        if p in progress {
          var value := progress[p] + 1;
          if value > TicksToCapture {
            progress := progress - {p};
          } else {
            progress := progress[p := value];
          }
        }
      }
      assert outside[|outside|..] == [];
      var capturer := Capturer(zone.state);
      if capturer.Some? && capturer.value in inside {
        if capturer.value !in progress {
          progress := progress[capturer.value := TicksToCapture];
        } else {
          progress := progress[capturer.value := progress[capturer.value] - 1];
        }
      }
    }

    /** `UpdateState`: the current state's system chooses the next state,
        which carries its capturer's remaining ticks. The player closest to
        capture that was consulted is returned. */
    method UpdateState(inside: seq<PlayerId>, neutralNext: ZoneState) returns (closest: Option<(PlayerId, int)>)
      modifies zone`state
      ensures IsClosest(progress, closest)
      ensures zone.state == Settled(NextState(old(zone.state), inside, progress, closest, neutralNext), progress)
    {
      closest := GetClosestToCapturePlayer();
      var next := NextState(zone.state, inside, progress, closest, neutralNext);
      zone.state := Settled(next, progress);
    }

    /** `OnPlayerRemoved`: the player's progress goes first, then the
        current state's system reacts. */
    method OnPlayerRemoved(p: PlayerId, neutralNext: ZoneState) returns (closest: Option<(PlayerId, int)>)
      modifies this`progress, zone`state
      ensures progress == old(progress) - {p}
      ensures IsClosest(progress, closest)
      ensures zone.state == StateAfterRemoval(old(zone.state), p, progress, closest, neutralNext)
    {
      progress := progress - {p};
      closest := GetClosestToCapturePlayer();
      zone.state := StateAfterRemoval(zone.state, p, progress, closest, neutralNext);
    }
  }
}
