/**
 * The actor arena (src/actor_manager.rs): actors are stored under ids drawn
 * from a counter that only ever grows, so a fresh id never names an actor
 * that is already stored.
 */
module ActorManagers {
  import opened Optional
  import opened Vectors
  import opened ActorMovement

  class ActorManager {
    var nextId: nat
    var actors: map<nat, Actor>

    /** Every stored id was issued before the counter's current value. */
    ghost predicate Valid()
      reads this
    {
      forall id :: id in actors ==> id < nextId
    }

    /** `ActorManager::new`: no actors, and the first id to issue is 0. */
    constructor ()
      ensures Valid()
      ensures nextId == 0 && actors == map[]
    {
      nextId := 0;
      actors := map[];
    }

    /**
     * `spawn_actor`: stores `actor` under the current counter value, which it
     * returns, and advances the counter by one. The id was free, so every
     * actor stored before keeps its id.
     */
    method SpawnActor(actor: Actor) returns (id: nat)
      requires Valid()
      modifies this
      ensures Valid()
      ensures id == old(nextId) && nextId == old(nextId) + 1
      ensures id !in old(actors)
      ensures actors == old(actors)[id := actor]
      ensures GetActor(id) == Some(actor)
      ensures forall other :: other in old(actors) ==> other in actors && actors[other] == old(actors)[other]
    {
      id := nextId;
      nextId := nextId + 1;
      actors := actors[id := actor];
    }

    /** `get_actor`: the actor stored under `id`, if any; an id not yet issued finds nothing. */
    function GetActor(id: nat): (r: Option<Actor>)
      reads this
      ensures r.Some? <==> id in actors
      ensures r.Some? ==> r.value == actors[id]
      ensures Valid() && nextId <= id ==> r == None
    {
      if id in actors then Some(actors[id]) else None
    }

    /**
     * `get_actor_mut`: the same lookup, handing out the stored reference
     * through which the caller may move the actor; the arena itself is
     * left as it was.
     */
    method GetActorMut(id: nat) returns (r: Option<Actor>)
      ensures r == GetActor(id)
      ensures r.Some? ==> id in actors && r.value == actors[id]
    {
      if id in actors {
        r := Some(actors[id]);
      } else {
        r := None;
      }
    }
  }

  /**
   * Spawning two actors on a fresh arena issues ids 0 and 1, each id finds
   * its own actor, and an id never issued finds nothing.
   */
  method SpawnLookupScenario() returns (first: nat, second: nat, foundFirst: Option<Actor>,
                                        foundSecond: Option<Actor>, missing: Option<Actor>)
    ensures first == 0 && second == 1
    ensures foundFirst.Some? && foundSecond.Some? && foundFirst.value != foundSecond.value
    ensures missing == None
  {
    var manager := new ActorManager();
    var a := new Actor(Zero(), 10.0, 10.0);
    var b := new Actor(Vector2(5.0, 5.0), 10.0, 10.0);
    first := manager.SpawnActor(a);
    second := manager.SpawnActor(b);
    foundFirst := manager.GetActorMut(first);
    foundSecond := manager.GetActorMut(second);
    missing := manager.GetActorMut(999);
  }
}
