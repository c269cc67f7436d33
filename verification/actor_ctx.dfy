/**
 * The "current actor" of the simulation (matrix/world/actor_ctx.hpp): whichever
 * actor is running now, set for the duration of a scope and restored when the
 * scope ends, so that scopes nest like a stack.
 */
module ActorCtx {
  import opened Wrappers

  /** The actors of a world: the network, or a server (clients and adversaries
      are servers too) named by its server id. */
  datatype Actor = NetworkActor | ServerActor(id: nat)

  /** What a scope guard remembers: the actor it installed and the one it
      displaced. */
  datatype ScopeGuard = ScopeGuard(actor: Actor, parent: Option<Actor>)
  {
    /** `operator->`: the guarded actor. */
    function Target(): Actor
    {
      actor
    }
  }

  class ActorContext {
    var current: Option<Actor>

    /** No actor is current at first. */
    constructor ()
      ensures current == None
    {
      current := None;
    }

    /** `Get`: the running actor, if any. */
    function Get(): (a: Option<Actor>)
      reads this
      ensures a == current
    {
      current
    }

    /** `Scope(actor)`: installs `actor` and remembers the previous one. */
    method Scope(actor: Actor) returns (g: ScopeGuard)
      modifies this
      ensures current == Some(actor)
      ensures g.Target() == actor && g.parent == old(current)
    {
      g := ScopeGuard(actor, current);
      current := Some(actor);
    }

    /** The guard's destructor: reinstates the displaced actor. */
    method EndScope(g: ScopeGuard)
      modifies this
      ensures current == g.parent
    {
      current := g.parent;
    }

    /** Scopes opened for `actors` in order and closed in reverse order leave
        the context as it was, and while the innermost scope is open its
        actor is current. */
    method NestScopes(actors: seq<Actor>) returns (innermost: Option<Actor>)
      modifies this
      decreases |actors|
      ensures current == old(current)
      ensures innermost == if actors == [] then old(current) else Some(actors[|actors| - 1])
    {
      if actors == [] {
        innermost := current;
        return;
      }
      var g := Scope(actors[0]);
      if |actors| == 1 {
        innermost := current;
      } else {
        innermost := NestScopes(actors[1..]);
      }
      EndScope(g);
    }
  }
}
