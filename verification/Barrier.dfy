/** The in-flight barrier: its state, the operations under its lock, and the object that holds it. */
module Barrier {
  import opened Wrappers

  /** How many operations run in each generation; only generations that have some are listed. */
  datatype Barrier = Barrier(closing: bool, current: nat, running: map<nat, nat>)

  const NEW_BARRIER := Barrier(false, 0, map[])

  function Running(b: Barrier, g: nat): nat {
    if g in b.running then b.running[g] else 0
  }

  /** Register an operation in the current generation. */
  function Started(b: Barrier): Barrier {
    b.(running := b.running[b.current := Running(b, b.current) + 1])
  }

  /** End the current generation. */
  function Ended(b: Barrier): Barrier {
    b.(current := b.current + 1)
  }

  /** One operation of generation `g` fewer. */
  function Completed(b: Barrier, g: nat): Barrier {
    if g !in b.running then b
    else if b.running[g] <= 1 then b.(running := b.running - {g})
    else b.(running := b.running[g := b.running[g] - 1])
  }

  /** No operation of `g` or an earlier generation is running. */
  predicate Drained(b: Barrier, g: nat) {
    forall k | k in b.running :: g < k
  }

  class InFlightBarrier {
    var closing: bool
    var current: nat
    var running: map<nat, nat>

    function Value(): Barrier
      reads this
    {
      Barrier(closing, current, running)
    }

    /** Counts are positive, so a generation is present exactly while it has operations. */
    ghost predicate Valid()
      reads this
    {
      forall g :: g in running ==> running[g] > 0
    }

    constructor ()
      ensures Valid() && Value() == NEW_BARRIER
    {
      closing, current, running := false, 0, map[];
    }

    /** Register an operation, or refuse it once shutdown has begun. */
    method Start() returns (generation: Option<nat>)
      requires Valid()
      modifies this
      ensures Valid()
      ensures generation == if old(closing) then None else Some(old(current))
      ensures Value() == if old(closing) then old(Value()) else Started(old(Value()))
    {
      if closing {
        return None;
      }
      var count := if current in running then running[current] else 0;
      running := running[current := count + 1];
      return Some(current);
    }

    method Snapshot() returns (generation: nat)
      requires Valid()
      modifies this
      ensures Valid() && generation == old(current) && Value() == Ended(old(Value()))
    {
      generation := current;
      current := current + 1;
    }

    /** Begin shutdown; `None` if it had already begun. */
    method BeginClose() returns (generation: Option<nat>)
      requires Valid()
      modifies this
      ensures Valid() && closing
      ensures generation == if old(closing) then None else Some(old(current))
      ensures Value() == if old(closing) then old(Value()) else Ended(old(Value())).(closing := true)
    {
      var already := closing;
      closing := true;
      if already {
        return None;
      }
      generation := Some(current);
      current := current + 1;
    }

    method IsDrained(generation: nat) returns (drained: bool)
      requires Valid()
      ensures drained <==> forall g: nat :: g <= generation ==> Running(Value(), g) == 0
    {
      drained := Drained(Value(), generation);
      if drained {
        assert forall g :: g <= generation ==> g !in running;
      } else {
        var g :| g in running && g <= generation;
        assert Running(Value(), g) > 0;
      }
    }

    /** The first half of an operation's end; the broadcast follows outside the lock. */
    method Complete(generation: nat)
      requires Valid()
      modifies this
      ensures Valid()
      ensures Value() == Completed(old(Value()), generation)
      ensures forall g: nat :: Running(Value(), g) ==
                if g == generation && Running(old(Value()), g) > 0 then Running(old(Value()), g) - 1
                else Running(old(Value()), g)
    {
      if generation in running {
        running := running[generation := running[generation] - 1];
        if running[generation] == 0 {
          running := running - {generation};
        }
      }
    }
  }
}
