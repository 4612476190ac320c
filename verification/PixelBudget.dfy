/** Admission costs of decoded pixels: every lease counts for as long as somebody owns it. */
module PixelBudget {
  import opened Wrappers

  datatype Kind = Decoder | Frame | Alpha | Replay

  datatype Lease = Lease(kind: Kind, bytes: nat)

  /** Leases are numbered as they are made. */
  datatype Budget = Budget(limit: nat, costs: map<Kind, int>, leases: map<nat, Lease>, count: nat)

  function Cost(costs: map<Kind, int>, kind: Kind): int { if kind in costs then costs[kind] else 0 }

  function Total(costs: map<Kind, int>): int {
    Cost(costs, Decoder) + Cost(costs, Frame) + Cost(costs, Alpha) + Cost(costs, Replay)
  }

  function NewBudget(limit: int): Budget { Budget(if limit < 0 then 0 else limit, map[], map[], 0) }

  predicate Admits(limit: nat, costs: map<Kind, int>, previous: nat, next: int) {
    next >= 0 && next <= limit - Total(costs) + previous
  }

  function Changed(costs: map<Kind, int>, kind: Kind, previous: nat, next: int): map<Kind, int> {
    costs[kind := Cost(costs, kind) + next - previous]
  }

  function Reserve(b: Budget, bytes: int, kind: Kind): (Budget, Option<nat>) {
    if !Admits(b.limit, b.costs, 0, bytes) then (b, None)
    else
      (b.(costs := Changed(b.costs, kind, 0, bytes), leases := b.leases[b.count := Lease(kind, bytes)], count := b.count + 1),
       Some(b.count))
  }

  function Resize(b: Budget, lease: nat, bytes: int): (Budget, bool)
    requires lease in b.leases
  {
    var l := b.leases[lease];
    if !Admits(b.limit, b.costs, l.bytes, bytes) then (b, false)
    else (b.(costs := Changed(b.costs, l.kind, l.bytes, bytes), leases := b.leases[lease := Lease(l.kind, bytes)]), true)
  }

  /** The last owner is gone; also whether the budget took the bytes back. */
  function Release(b: Budget, lease: nat): (Budget, bool)
    requires lease in b.leases
  {
    var l := b.leases[lease];
    var ok := Admits(b.limit, b.costs, l.bytes, 0);
    (b.(costs := if ok then Changed(b.costs, l.kind, l.bytes, 0) else b.costs, leases := b.leases - {lease}), ok)
  }

  // ---- The invariant ----

  /** The bytes of one kind among the first leases. */
  function Leased(leases: map<nat, Lease>, kind: Kind, n: nat): nat {
    if n == 0 then 0
    else Leased(leases, kind, n - 1) + if n - 1 in leases && leases[n - 1].kind == kind then leases[n - 1].bytes else 0
  }

  predicate BudgetOk(b: Budget) {
    && (forall id <- b.leases :: id < b.count)
    && (forall kind :: Cost(b.costs, kind) == Leased(b.leases, kind, b.count))
    && Total(b.costs) <= b.limit
  }

  function Bytes(leases: map<nat, Lease>, kind: Kind, id: nat): nat {
    if id in leases && leases[id].kind == kind then leases[id].bytes else 0
  }

  lemma {:induction false} LeasedChanges(a: map<nat, Lease>, b: map<nat, Lease>, kind: Kind, id: nat, n: nat)
    requires forall x: nat :: x != id && x < n ==> Bytes(a, kind, x) == Bytes(b, kind, x)
    ensures id < n ==> Leased(b, kind, n) - Bytes(b, kind, id) == Leased(a, kind, n) - Bytes(a, kind, id)
    ensures id >= n ==> Leased(b, kind, n) == Leased(a, kind, n)
    decreases n
  {
    if n > 0 {
      LeasedChanges(a, b, kind, id, n - 1);
      if n - 1 != id { assert Bytes(a, kind, n - 1) == Bytes(b, kind, n - 1); }
    }
  }

  lemma {:induction false} LeasedAtLeast(leases: map<nat, Lease>, kind: Kind, id: nat, n: nat)
    requires id < n
    ensures Leased(leases, kind, n) >= Bytes(leases, kind, id)
    decreases n
  {
    if id < n - 1 { LeasedAtLeast(leases, kind, id, n - 1); }
  }

  lemma ReserveOk(b: Budget, bytes: int, kind: Kind)
    requires BudgetOk(b)
    ensures BudgetOk(Reserve(b, bytes, kind).0)
  {
    var after := Reserve(b, bytes, kind).0;
    if after != b {
      assert b.count !in b.leases;
      forall k ensures Cost(after.costs, k) == Leased(after.leases, k, after.count) {
        assert Cost(b.costs, k) == Leased(b.leases, k, b.count);
        LeasedChanges(b.leases, after.leases, k, b.count, b.count);
      }
    }
  }

  lemma ResizeOk(b: Budget, lease: nat, bytes: int)
    requires BudgetOk(b) && lease in b.leases
    ensures BudgetOk(Resize(b, lease, bytes).0)
  {
    var after := Resize(b, lease, bytes).0;
    if after != b {
      forall k ensures Cost(after.costs, k) == Leased(after.leases, k, after.count) {
        assert Cost(b.costs, k) == Leased(b.leases, k, b.count);
        LeasedChanges(b.leases, after.leases, k, lease, b.count);
      }
    }
  }

  /** A reservation is admitted exactly if it fits beside everything that is leased; it is a
      new lease of its own, and a refused one changes nothing. */
  lemma ReserveExactly(b: Budget, bytes: int, kind: Kind)
    requires BudgetOk(b)
    ensures var (after, lease) := Reserve(b, bytes, kind);
            && (lease.Some? <==> 0 <= bytes && Total(b.costs) + bytes <= b.limit)
            && (lease.None? ==> after == b)
            && (lease.Some? ==> lease.value !in b.leases && bytes >= 0)
            && (lease.Some? ==> after.leases == b.leases[lease.value := Lease(kind, bytes)])
            && (lease.Some? ==> Total(after.costs) == Total(b.costs) + bytes)
  {
  }

  /** A lease grows or shrinks exactly if its new size fits beside all the other leases, whatever
      its size was; then the total changes by the difference. */
  lemma ResizeExactly(b: Budget, lease: nat, bytes: int)
    requires BudgetOk(b) && lease in b.leases
    ensures var (after, ok) := Resize(b, lease, bytes);
            var others := Total(b.costs) - b.leases[lease].bytes;
            && (ok <==> 0 <= bytes && others + bytes <= b.limit)
            && (!ok ==> after == b)
            && (ok ==> bytes >= 0 && after.leases == b.leases[lease := Lease(b.leases[lease].kind, bytes)])
            && (ok ==> Total(after.costs) == others + bytes)
  {
    var kind := b.leases[lease].kind;
    assert kind == Decoder || kind == Frame || kind == Alpha || kind == Replay;
  }

  lemma CostsAreLeased(b: Budget, lease: nat)
    requires BudgetOk(b) && lease in b.leases
    ensures b.leases[lease].bytes <= Cost(b.costs, b.leases[lease].kind)
    ensures forall k :: Cost(b.costs, k) >= 0
  {
    var kind := b.leases[lease].kind;
    assert Cost(b.costs, kind) == Leased(b.leases, kind, b.count);
    LeasedAtLeast(b.leases, kind, lease, b.count);
    forall k ensures Cost(b.costs, k) >= 0 { assert Cost(b.costs, k) == Leased(b.leases, k, b.count); }
  }

  /** Giving back always succeeds. */
  lemma ReleaseOk(b: Budget, lease: nat)
    requires BudgetOk(b) && lease in b.leases
    ensures Release(b, lease).1 && BudgetOk(Release(b, lease).0)
  {
    var after := Release(b, lease).0;
    CostsAreLeased(b, lease);
    forall k ensures Cost(after.costs, k) == Leased(after.leases, k, after.count) {
      assert Cost(b.costs, k) == Leased(b.leases, k, b.count);
      LeasedChanges(b.leases, after.leases, k, lease, b.count);
    }
  }

  // ---- Runs ----

  datatype Step = Reserves(bytes: int, kind: Kind) | Resizes(lease: nat, bytes: int) | Releases(lease: nat)

  function After(b: Budget, step: Step): Budget {
    match step
    case Reserves(bytes, kind) => Reserve(b, bytes, kind).0
    case Resizes(lease, bytes) => if lease in b.leases then Resize(b, lease, bytes).0 else b
    case Releases(lease) => if lease in b.leases then Release(b, lease).0 else b
  }

  function Run(b: Budget, steps: seq<Step>): Budget {
    if steps == [] then b else After(Run(b, steps[..|steps| - 1]), steps[|steps| - 1])
  }

  /** In every run the costs of each kind are what its leases hold, together they never exceed
      the limit, and so every lease can be given back. */
  lemma {:induction false} CostsAreExact(limit: int, steps: seq<Step>)
    ensures var b := Run(NewBudget(limit), steps);
            && (forall kind :: Cost(b.costs, kind) == Leased(b.leases, kind, b.count))
            && Total(b.costs) <= b.limit
            && (forall lease <- b.leases :: Release(b, lease).1)
  {
    RunOk(limit, steps);
    var b := Run(NewBudget(limit), steps);
    forall lease <- b.leases ensures Release(b, lease).1 { ReleaseOk(b, lease); }
  }

  lemma {:induction false} RunOk(limit: int, steps: seq<Step>)
    ensures BudgetOk(Run(NewBudget(limit), steps))
  {
    if steps != [] {
      var front, last := steps[..|steps| - 1], steps[|steps| - 1];
      RunOk(limit, front);
      var b := Run(NewBudget(limit), front);
      match last
      case Reserves(bytes, kind) => ReserveOk(b, bytes, kind);
      case Resizes(lease, bytes) => if lease in b.leases { ResizeOk(b, lease, bytes); }
      case Releases(lease) => if lease in b.leases { ReleaseOk(b, lease); }
    }
  }

  // ---- The object ----

  class RemotePixelBudget {
    const limit: nat
    var costs: map<Kind, int>
    /** The leases somebody owns, and how many were ever made. */
    var leases: map<nat, Lease>
    var count: nat

    ghost function View(): Budget
      reads this
    {
      Budget(limit, costs, leases, count)
    }

    constructor (limit: int)
      ensures View() == NewBudget(limit)
    {
      this.limit := if limit < 0 then 0 else limit;
      costs, leases, count := map[], map[], 0;
    }

    method ResizeCost(kind: Kind, previous: nat, next: int) returns (ok: bool)
      modifies this`costs
      ensures ok <==> Admits(limit, old(costs), previous, next)
      ensures costs == if ok then Changed(old(costs), kind, previous, next) else old(costs)
    {
      var total := 0;
      var kinds := [Decoder, Frame, Alpha, Replay];
      for k := 0 to |kinds|
        invariant total == (if k > 0 then Cost(costs, Decoder) else 0) + (if k > 1 then Cost(costs, Frame) else 0)
                           + (if k > 2 then Cost(costs, Alpha) else 0) + (if k > 3 then Cost(costs, Replay) else 0)
      {
        total := total + if kinds[k] in costs then costs[kinds[k]] else 0;
      }
      if !(next >= 0 && next <= limit - total + previous) { return false; }
      costs := costs[kind := (if kind in costs then costs[kind] else 0) + next - previous];
      return true;
    }

    method ReserveBytes(bytes: int, kind: Kind) returns (lease: Option<nat>)
      modifies this
      ensures (View(), lease) == Reserve(old(View()), bytes, kind)
    {
      var ok := ResizeCost(kind, 0, bytes);
      if !ok { return None; }
      leases := leases[count := Lease(kind, bytes)];
      count := count + 1;
      return Some(count - 1);
    }

    method ResizeLease(lease: nat, bytes: int) returns (ok: bool)
      requires lease in leases
      modifies this
      ensures (View(), ok) == Resize(old(View()), lease, bytes)
    {
      var l := leases[lease];
      ok := ResizeCost(l.kind, l.bytes, bytes);
      if ok { leases := leases[lease := Lease(l.kind, bytes)]; }
    }

    method ReleaseLease(lease: nat) returns (ok: bool)
      requires lease in leases
      modifies this
      ensures (View(), ok) == Release(old(View()), lease)
    {
      ok := ResizeCost(leases[lease].kind, leases[lease].bytes, 0);
      leases := leases - {lease};
    }
  }
}
