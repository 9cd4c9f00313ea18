/** The scan behind ORDER BY created_at. */
module Selections {
  /** An element of the pool that nothing in it is older than. */
  method Oldest(pool: set<nat>, created: nat -> int) returns (oldest: nat)
    requires pool != {}
    ensures oldest in pool && forall id :: id in pool ==> created(oldest) <= created(id)
  {
    oldest :| oldest in pool;
    var rest := pool - {oldest};
    while rest != {}
      invariant rest <= pool && oldest in pool
      invariant forall id :: id in pool - rest ==> created(oldest) <= created(id)
      decreases rest
    {
      var next :| next in rest;
      if created(next) < created(oldest) {
        oldest := next;
      }
      rest := rest - {next};
    }
  }
}
