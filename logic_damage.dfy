/** The damage system's interface as the combat systems see it. Its own
    rules are not part of this model: every request is recorded, in order,
    and the amount it reports as dealt is given by `Reported`. */
module LogicDamage {
  import opened Wrappers
  import opened LogicTanks

  /** One `ApplyDamage(tank, amount, damager)` call. */
  datatype DamageRequest = DamageRequest(target: string, amount: int, damager: Option<string>)

  /** The id of a possibly absent player. */
  function IdOf(p: Player?): (r: Option<string>)
    ensures r.Some? <==> p != null
    ensures p != null ==> r.value == p.id
  {
    if p == null then None else Some(p.id)
  }

  class DamageSystem {
    /** What the damage system reports as dealt for the `n`-th request. */
    const Reported: (nat, DamageRequest) -> int
    /** Every request made so far. */
    var requests: seq<DamageRequest>

    constructor (reported: (nat, DamageRequest) -> int)
      ensures Reported == reported && requests == []
    {
      Reported := reported;
      requests := [];
    }

    /** `ApplyDamage`: the request is recorded last, and the amount
        reported for it is returned. */
    method ApplyDamage(tank: Tank, amount: int, damager: Player?) returns (dealt: int)
      modifies this`requests
      ensures requests == old(requests) + [DamageRequest(tank.ownerId, amount, IdOf(damager))]
      ensures dealt == Reported(|old(requests)|, DamageRequest(tank.ownerId, amount, IdOf(damager)))
    {
      var request := DamageRequest(tank.ownerId, amount, IdOf(damager));
      dealt := Reported(|requests|, request);
      requests := requests + [request];
    }
  }
}
