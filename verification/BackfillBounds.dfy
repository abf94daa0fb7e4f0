/** The creation bound of each Discogs link (api/ledger_backfill.py, `creation_bounds`). */
module BackfillBounds {

  const NO_TIME: int := 0x7FFF_FFFF_FFFF_FFFF

  /** A release-URL row: its id and its `last_updated`, 0 for none. */
  datatype Stamp = Stamp(id: int, updated: int)

  function Min(a: int, b: int): int { if b < a then b else a }

  /** c(k): the least positive `last_updated` among rows with id at least `k`. */
  function Bound(rows: seq<Stamp>, k: int): (c: int)
    ensures c <= NO_TIME
    ensures forall r :: r in rows && r.id >= k && r.updated > 0 ==> c <= r.updated
    ensures c == NO_TIME || exists r :: r in rows && r.id >= k && r.updated > 0 && r.updated == c
  {
    if rows == [] then NO_TIME
    else
      var init, r := rows[..|rows| - 1], rows[|rows| - 1];
      assert rows == init + [r];
      if r.id >= k && r.updated > 0 then Min(Bound(init, k), r.updated) else Bound(init, k)
  }

  /** A later row is never bounded earlier. */
  lemma {:induction false} BoundMonotone(rows: seq<Stamp>, k: int, l: int)
    requires k <= l
    ensures Bound(rows, k) <= Bound(rows, l)
  {
  }

  ghost predicate Ascending(s: seq<int>) {
    forall i, j :: 0 <= i < j < |s| ==> s[i] <= s[j]
  }

  method BisectRight(a: seq<int>, x: int) returns (p: nat)
    requires Ascending(a)
    ensures p <= |a| && (forall i :: 0 <= i < p ==> a[i] <= x) && (forall i :: p <= i < |a| ==> x < a[i])
  {
    var lo, hi := 0, |a|;
    while lo < hi
      invariant 0 <= lo <= hi <= |a| && (forall i :: 0 <= i < lo ==> a[i] <= x) && (forall i :: hi <= i < |a| ==> x < a[i])
    {
      var mid := (lo + hi) / 2;
      if x < a[mid] { hi := mid; } else { lo := mid + 1; }
    }
    p := lo;
  }

  method BisectLeft(a: seq<int>, x: int) returns (p: nat)
    requires Ascending(a)
    ensures p <= |a| && (forall i :: 0 <= i < p ==> a[i] < x) && (forall i :: p <= i < |a| ==> x <= a[i])
  {
    var lo, hi := 0, |a|;
    while lo < hi
      invariant 0 <= lo <= hi <= |a| && (forall i :: 0 <= i < lo ==> a[i] < x) && (forall i :: hi <= i < |a| ==> x <= a[i])
    {
      var mid := (lo + hi) / 2;
      if a[mid] < x { lo := mid + 1; } else { hi := mid; }
    }
    p := lo;
  }

  /** The least bucket from `i` on. */
  function SuffixMin(b: seq<int>, i: nat): int
    requires i <= |b|
    decreases |b| - i
  {
    if i == |b| then NO_TIME else Min(SuffixMin(b, i + 1), b[i])
  }

  lemma {:induction false} SuffixUpdate(b: seq<int>, p: nat, v: int, i: nat)
    requires i <= |b| && p < |b| && v <= b[p]
    ensures SuffixMin(b[p := v], i) == if i <= p then Min(SuffixMin(b, i), v) else SuffixMin(b, i)
    decreases |b| - i
  {
    if i < |b| { SuffixUpdate(b, p, v, i + 1); }
  }

  lemma {:induction false} SuffixBelow(b: seq<int>, p: nat, i: nat)
    requires i <= p < |b|
    ensures SuffixMin(b, i) <= b[p]
    decreases p - i
  {
    if i < p { SuffixBelow(b, p, i + 1); }
  }

  lemma {:induction false} SuffixEmpty(b: seq<int>, i: nat)
    requires i <= |b| && forall j :: 0 <= j < |b| ==> b[j] == NO_TIME
    ensures SuffixMin(b, i) == NO_TIME
    decreases |b| - i
  {
    if i < |b| { SuffixEmpty(b, i + 1); }
  }

  /** The buckets so far give the bounds so far. */
  ghost predicate Folded(cands: seq<int>, rows: seq<Stamp>, b: seq<int>) {
    |b| == |cands| && forall i :: 0 <= i < |cands| ==> SuffixMin(b, i) == Bound(rows, cands[i])
  }

  /** Folding a row into the bucket of the last candidate at or below its id. */
  lemma FoldRow(cands: seq<int>, rows: seq<Stamp>, b: seq<int>, r: Stamp, p: nat)
    requires Folded(cands, rows, b) && r.updated > 0 && p <= |cands|
    requires (forall i :: 0 <= i < p ==> cands[i] <= r.id) && (forall i :: p <= i < |cands| ==> r.id < cands[i])
    ensures Folded(cands, rows + [r], if p > 0 && r.updated < b[p - 1] then b[p - 1 := r.updated] else b)
  {
    var after := if p > 0 && r.updated < b[p - 1] then b[p - 1 := r.updated] else b;
    forall i | 0 <= i < |cands| ensures SuffixMin(after, i) == Bound(rows + [r], cands[i]) {
      assert (rows + [r])[..|rows|] == rows;
      if p > 0 && r.updated < b[p - 1] {
        SuffixUpdate(b, p - 1, r.updated, i);
      } else if i < p {
        SuffixBelow(b, p - 1, i);
      }
    }
  }

  lemma SkipRow(cands: seq<int>, rows: seq<Stamp>, b: seq<int>, r: Stamp)
    requires Folded(cands, rows, b) && r.updated <= 0
    ensures Folded(cands, rows + [r], b)
  {
  }

  /** `creation_bounds`: the bucket fold and the suffix minimum give c(k) for every candidate.
      The candidates need only be sorted. */
  method CreationBounds(cands: seq<int>, rows: seq<Stamp>) returns (bounds: array<int>)
    requires Ascending(cands)
    ensures fresh(bounds) && bounds.Length == |cands|
    ensures forall i :: 0 <= i < |cands| ==> bounds[i] == Bound(rows, cands[i])
  {
    bounds := new int[|cands|](_ => NO_TIME);
    forall i | 0 <= i < |cands| ensures SuffixMin(bounds[..], i) == Bound(rows[..0], cands[i]) { SuffixEmpty(bounds[..], i); }
    for n := 0 to |rows|
      invariant fresh(bounds) && Folded(cands, rows[..n], bounds[..])
    {
      var r := rows[n];
      assert rows[..n + 1] == rows[..n] + [r];
      if r.updated > 0 {
        var position := BisectRight(cands, r.id);
        FoldRow(cands, rows[..n], bounds[..], r, position);
        if position > 0 && r.updated < bounds[position - 1] {
          ghost var was := bounds[..];
          bounds[position - 1] := r.updated;
          assert bounds[..] == was[position - 1 := r.updated];
        }
      } else {
        SkipRow(cands, rows[..n], bounds[..], r);
      }
    }
    assert rows[..|rows|] == rows;
    SuffixMinimum(bounds);
  }

  /** Replace every bucket by the least from it on. */
  method SuffixMinimum(bounds: array<int>)
    modifies bounds
    ensures forall i :: 0 <= i < bounds.Length ==> bounds[i] == SuffixMin(old(bounds[..]), i)
  {
    var running := NO_TIME;
    var index := bounds.Length;
    ghost var was := bounds[..];
    while index > 0
      invariant 0 <= index <= bounds.Length && running == SuffixMin(was, index)
      invariant forall i :: 0 <= i < index ==> bounds[i] == was[i]
      invariant forall i :: index <= i < bounds.Length ==> bounds[i] == SuffixMin(was, i)
    {
      index := index - 1;
      running := Min(running, bounds[index]);
      bounds[index] := running;
    }
  }
}
