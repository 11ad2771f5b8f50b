/** Finding a record by time: a halving search that gives up once the step is zero. */
module SearchTimestamp {
  import opened Bytes

  /** Number of one bits. */
  function Popcount(n: nat): nat {
    if n == 0 then 0 else n % 2 + Popcount(n / 2)
  }

  /** Position of the highest one bit. */
  function Log2(n: nat): nat
    requires n >= 1
  {
    if n == 1 then 0 else 1 + Log2(n / 2)
  }

  lemma Log2Half(n: nat)
    requires n >= 1
    ensures Log2(n) == if n / 2 == 0 then 0 else 1 + Log2(n / 2)
  {
  }

  ghost predicate SortedTimes(ts: seq<nat>) {
    forall i, j :: 0 <= i < j < |ts| ==> ts[i] <= ts[j]
  }

  /** `p` is where `t` belongs: everything before is earlier, nothing from there on is. */
  ghost predicate InsertionPoint(ts: seq<nat>, t: nat, p: nat) {
    && p <= |ts|
    && (forall i :: 0 <= i < p ==> ts[i] < t)
    && (forall i :: p <= i < |ts| ==> t <= ts[i])
  }

  predicate Within(a: int, b: int, d: int) {
    a - d <= b <= a + d
  }

  /** Where the search ends from `pos` with the given step. */
  function Walk(ts: seq<nat>, t: nat, pos: nat, step: nat): (r: nat)
    requires step <= pos && pos + step <= |ts|
    ensures r <= |ts|
    decreases step
  {
    if step == 0 || ts[pos] == t then pos else
    Walk(ts, t, if ts[pos] < t then pos + step / 2 else pos - step / 2, step / 2)
  }

  lemma WalkStep(ts: seq<nat>, t: nat, pos: nat, step: nat)
    requires step <= pos && pos + step <= |ts|
    ensures step == 0 ==> Walk(ts, t, pos, step) == pos
    ensures step > 0 && ts[pos] == t ==> Walk(ts, t, pos, step) == pos
    ensures step > 0 && ts[pos] < t ==> Walk(ts, t, pos, step) == Walk(ts, t, pos + step / 2, step / 2)
    ensures step > 0 && ts[pos] > t ==> Walk(ts, t, pos, step) == Walk(ts, t, pos - step / 2, step / 2)
  {
  }

  lemma {:induction false} WalkBound(ts: seq<nat>, t: nat, pos: nat, step: nat, slack: nat, p: nat)
    requires step <= pos && pos + step <= |ts|
    requires InsertionPoint(ts, t, p) && Within(p, pos, step + slack)
    ensures var r := Walk(ts, t, pos, step);
            (r < |ts| && ts[r] == t) || Within(p, r, slack + Popcount(step))
    decreases step
  {
    if step > 0 && ts[pos] != t {
      WalkBound(ts, t, if ts[pos] < t then pos + step / 2 else pos - step / 2, step / 2, slack + step % 2, p);
    }
  }

  /** `r` is a record with the very timestamp, or close to where the timestamp belongs. */
  ghost predicate Near(ts: seq<nat>, t: nat, r: nat) {
    || (r < |ts| && ts[r] == t)
    || forall p: nat :: InsertionPoint(ts, t, p) ==> Within(p, r, Popcount(|ts|))
  }

  lemma WalkNear(ts: seq<nat>, t: nat)
    requires ts != []
    ensures Near(ts, t, Walk(ts, t, |ts| / 2, |ts| / 2))
  {
    forall p: nat | InsertionPoint(ts, t, p)
      ensures var w := Walk(ts, t, |ts| / 2, |ts| / 2);
              (w < |ts| && ts[w] == t) || Within(p, w, Popcount(|ts|))
    {
      WalkBound(ts, t, |ts| / 2, |ts| / 2, |ts| % 2, p);
    }
  }

  /** Looks at one record per turn and halves the step. The result is a record with the very
      timestamp, or lies within the number of one bits of `total` from where the timestamp
      belongs; only records below `total` are read, one per bit below the highest. */
  method Search(ts: seq<nat>, total: nat, t: nat) returns (r: Option<nat>, probes: seq<nat>)
    requires total <= |ts|
    ensures r.None? <==> total == 0
    ensures forall i :: 0 <= i < |probes| ==> probes[i] < total
    ensures total >= 1 ==> |probes| <= Log2(total)
    ensures r.Some? ==> r.value == Walk(ts[..total], t, total / 2, total / 2)
    ensures r.Some? ==> Near(ts[..total], t, r.value)
  {
    probes := [];
    if total == 0 {
      return None, probes;
    }
    var pos: nat := total / 2;
    var step: nat := pos;
    ghost var us := ts[..total];
    WalkNear(us, t);
    hide Near, Log2, Walk;
    Log2Half(total);
    while step > 0
      invariant step <= pos && pos + step <= total
      invariant |probes| + (if step == 0 then 0 else 1 + Log2(step)) <= Log2(total)
      invariant forall i :: 0 <= i < |probes| ==> probes[i] < total
      invariant Walk(us, t, total / 2, total / 2) == Walk(us, t, pos, step)
    {
      Log2Half(step);
      WalkStep(us, t, pos, step);
      var v := ts[pos];
      assert v == us[pos];
      probes := probes + [pos];
      step := step / 2;
      if v < t {
        pos := pos + step;
      } else if v == t {
        return Some(pos), probes;
      } else {
        pos := pos - step;
      }
    }
    WalkStep(us, t, pos, step);
    r := Some(pos);
  }

  /** The timestamp always belongs somewhere, and in one place only. */
  lemma {:induction false} InsertionPointExists(ts: seq<nat>, t: nat) returns (p: nat)
    requires SortedTimes(ts)
    ensures InsertionPoint(ts, t, p) && forall q: nat :: InsertionPoint(ts, t, q) ==> q == p
  {
    if ts == [] || t <= ts[0] {
      p := 0;
    } else {
      p := InsertionPointExists(ts[1..], t);
      p := p + 1;
      assert forall i :: 1 <= i < |ts| ==> ts[i] == ts[1..][i - 1];
      forall q: nat | InsertionPoint(ts, t, q)
        ensures q == p
      {
        assert q >= 1;
        assert InsertionPoint(ts[1..], t, q - 1);
      }
    }
  }

  lemma {:induction false} WalkUp(ts: seq<nat>, t: nat, pos: nat, step: nat)
    requires step <= pos && pos + step <= |ts| && forall i :: 0 <= i < |ts| ==> ts[i] < t
    ensures Walk(ts, t, pos, step) == pos + step - Popcount(step)
    decreases step
  {
    if step > 0 {
      WalkUp(ts, t, pos + step / 2, step / 2);
    }
  }

  /** The bound is attained for every total: past the last timestamp the search stops exactly
      as many records short as `total` has one bits. */
  lemma BoundIsTight(ts: seq<nat>, t: nat)
    requires ts != [] && forall i :: 0 <= i < |ts| ==> ts[i] < t
    ensures InsertionPoint(ts, t, |ts|)
    ensures Walk(ts, t, |ts| / 2, |ts| / 2) == |ts| - Popcount(|ts|)
  {
    WalkUp(ts, t, |ts| / 2, |ts| / 2);
  }
}
