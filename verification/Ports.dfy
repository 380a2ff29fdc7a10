/** Local source ports for published connections. */
module Ports {
  import opened Common
  import opened Targets

  const PORT_MIN: u16 := 49152
  const PORT_MAX: u16 := 65535
  const CAPACITY: nat := PORT_MAX - PORT_MIN + 1

  predicate InRange(p: int) {
    PORT_MIN <= p <= PORT_MAX
  }

  /** The port k places after `next` in cyclic order. */
  function Cyclic(next: u16, k: nat): (p: u16)
    requires InRange(next)
    ensures InRange(p)
  {
    PORT_MIN + (next - PORT_MIN + k) % CAPACITY
  }

  /** The first free port in cyclic order from place k on. */
  function Scan(used: set<u16>, next: u16, k: nat): (r: Option<u16>)
    requires InRange(next) && k <= CAPACITY
    decreases CAPACITY - k
  {
    if k == CAPACITY then None
    else if Cyclic(next, k) !in used then Some(Cyclic(next, k))
    else Scan(used, next, k + 1)
  }

  function FirstFreePort(used: set<u16>, next: u16): (r: Option<u16>)
    requires InRange(next)
  {
    Scan(used, next, 0)
  }

  /** Where the cursor stands after an allocation. */
  function CursorAfter(next: u16, r: Option<u16>): u16
    requires InRange(next)
    requires r.Some? ==> InRange(r.value)
  {
    if r.None? then next else Cyclic(r.value, 1)
  }

  /** Every port of the range is met once in a full cycle. */
  lemma CyclicCovers(next: u16, p: u16) returns (k: nat)
    requires InRange(next) && InRange(p)
    ensures k < CAPACITY && Cyclic(next, k) == p
  {
    k := if p >= next then p - next else p - next + CAPACITY;
  }

  lemma CyclicSteps(next: u16, k: nat)
    requires InRange(next)
    ensures Cyclic(next, 0) == Cyclic(next, CAPACITY) == next
    ensures var p := Cyclic(next, k); Cyclic(next, k + 1) == if p == PORT_MAX then PORT_MIN else p + 1
    ensures Cyclic(Cyclic(next, k), 1) == Cyclic(next, k + 1)
  {
    var a := next - PORT_MIN;
    assert (a + CAPACITY) % CAPACITY == a;
    Increment(a + k);
    Increment(Cyclic(next, k) - PORT_MIN);
  }

  lemma Increment(n: nat)
    ensures (n + 1) % CAPACITY == if n % CAPACITY == CAPACITY - 1 then 0 else n % CAPACITY + 1
  {
  }

  lemma {:induction false} ScanFindsFirst(used: set<u16>, next: u16, k: nat) returns (d: nat)
    requires InRange(next) && k <= CAPACITY
    ensures k <= d <= CAPACITY
    ensures forall j: nat | k <= j < d :: Cyclic(next, j) in used
    ensures Scan(used, next, k) == if d == CAPACITY then None else Some(Cyclic(next, d))
    ensures d < CAPACITY ==> Cyclic(next, d) !in used
    decreases CAPACITY - k
  {
    if k == CAPACITY || Cyclic(next, k) !in used {
      d := k;
    } else {
      d := ScanFindsFirst(used, next, k + 1);
    }
  }

  /** The allocator's promise: the result is free, everything before it in cyclic
      order is taken, and it fails exactly when every port is taken. */
  lemma FirstFreePortMeaning(used: set<u16>, next: u16)
    requires InRange(next)
    ensures var r := FirstFreePort(used, next);
      && (r.None? <==> forall p: u16 | InRange(p) :: p in used)
      && (r.Some? ==> InRange(r.value) && r.value !in used)
    ensures var r := FirstFreePort(used, next);
      r.Some? ==> exists d: nat :: d < CAPACITY && Cyclic(next, d) == r.value
                                   && forall j: nat | j < d :: Cyclic(next, j) in used
  {
    var d := ScanFindsFirst(used, next, 0);
    if d == CAPACITY {
      forall p: u16 | InRange(p)
        ensures p in used
      {
        var k := CyclicCovers(next, p);
      }
    }
  }

  class PortAllocator {
    var next: u16
    var used: set<u16>

    ghost predicate Valid()
      reads this
    {
      InRange(next)
    }

    constructor ()
      ensures Valid() && next == PORT_MIN && used == {}
    {
      next, used := PORT_MIN, {};
    }

    method Allocate() returns (r: Option<u16>)
      requires Valid()
      modifies this
      ensures Valid()
      ensures r == FirstFreePort(old(used), old(next))
      ensures r.Some? ==> InRange(r.value)
      ensures next == CursorAfter(old(next), r)
      ensures used == if r.Some? then old(used) + {r.value} else old(used)
    {
      CyclicSteps(next, 0);
      for i := 0 to CAPACITY
        invariant next == Cyclic(old(next), i)
        invariant used == old(used)
        invariant FirstFreePort(used, old(next)) == Scan(used, old(next), i)
      {
        CyclicSteps(old(next), i);
        var candidate := next;
        next := if candidate == PORT_MAX then PORT_MIN else candidate + 1;
        if candidate !in used {
          used := used + {candidate};
          return Some(candidate);
        }
      }
      return None;
    }

    method Release(port: u16)
      modifies this`used
      ensures used == old(used) - {port}
    {
      used := used - {port};
    }
  }

  /** No more ports can be live than the range has. */
  lemma {:induction false} RangeBounds(used: set<u16>, n: nat)
    requires forall p | p in used :: PORT_MIN <= p < PORT_MIN + n
    ensures |used| <= n
  {
    if n == 0 {
      if p :| p in used {
        assert false;
      }
    } else if PORT_MIN + n - 1 in used {
      RangeBounds(used - {PORT_MIN + n - 1}, n - 1);
    } else {
      RangeBounds(used, n - 1);
    }
  }
}
