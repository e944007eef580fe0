/** What a service draws from outside: clock readings that never go back, and identifiers
    that were never used before. */
module Environment {

  class Clock {
    var now: int

    constructor (start: int)
      ensures now == start
    {
      now := start;
    }

    method Read() returns (t: int)
      modifies this
      ensures old(now) <= t == now
    {
      var elapsed: nat :| true;
      now := now + elapsed;
      t := now;
    }
  }

  class Identifiers {
    var next: nat

    constructor ()
      ensures next == 0
    {
      next := 0;
    }

    method Draw() returns (id: nat)
      modifies this
      ensures id == old(next) && next == id + 1
    {
      id := next;
      next := next + 1;
    }
  }
}
