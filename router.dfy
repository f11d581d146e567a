/**
 * What an Express route is here: the middlewares it runs, in order. A
 * gate is `authMiddleware(roles)`, a check is one celebrate validator, and
 * the handler is the controller function that ends the chain.
 */
module Router {
  import opened Schema
  import Joi

  datatype Stage =
    | Gate(roles: seq<string>)      // authMiddleware(roles)
    | Check(validator: Joi.Validator) // a celebrate(...) validator
    | Handler                       // the controller

  /**
   * The shape every route of the program has: it ends with its handler and
   * has no other, and no validator runs before a gate.
   */
  predicate Ordered(chain: seq<Stage>) {
    && |chain| >= 1 && chain[|chain| - 1] == Handler
    && (forall i :: 0 <= i < |chain| - 1 ==> !chain[i].Handler?)
    && (forall i, j :: 0 <= i < j < |chain| && chain[i].Check? ==> !chain[j].Gate?)
  }

  /** Whether a route runs a validator. */
  predicate Validates(chain: seq<Stage>) {
    exists i :: 0 <= i < |chain| && chain[i].Check?
  }

  /** The roles the first stage admits, when that stage is a gate. */
  function FirstGate(chain: seq<Stage>): (r: Option<seq<string>>)
    ensures r.Some? <==> |chain| > 0 && chain[0].Gate?
    ensures r.Some? ==> r.value == chain[0].roles
  {
    if |chain| > 0 && chain[0].Gate? then Some(chain[0].roles) else None
  }

  /** The validator that runs just before the handler, if there is one. */
  function CheckOf(chain: seq<Stage>): (r: Option<Joi.Validator>)
    ensures r.Some? <==> |chain| >= 2 && chain[|chain| - 2].Check?
    ensures r.Some? ==> r.value == chain[|chain| - 2].validator
  {
    if |chain| >= 2 && chain[|chain| - 2].Check? then Some(chain[|chain| - 2].validator) else None
  }

  /** Gate, optional validator, handler: the three shapes the route files use. */
  lemma RouteShapes(roles: seq<string>, v: Joi.Validator)
    ensures Ordered([Gate(roles), Check(v), Handler]) && Validates([Gate(roles), Check(v), Handler])
    ensures Ordered([Gate(roles), Handler]) && !Validates([Gate(roles), Handler])
    ensures Ordered([Check(v), Handler]) && Validates([Check(v), Handler])
  {
    assert [Gate(roles), Check(v), Handler][1].Check?;
    assert [Check(v), Handler][0].Check?;
    assert forall i :: 0 <= i < 2 ==> !([Gate(roles), Handler][i].Check?);
  }
}
