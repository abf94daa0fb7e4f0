/** The alias table with validity intervals: a provider's key is held by a native item over
    time (api/reattach.py, read back by api/identity_ledger.py). */
module AliasTable {
  import opened Seqs

  type Native = nat

  datatype Provider = Discogs | MusicBrainz | Barcode | CatalogNumber | Isrc | Matrix | OtherProvider(name: string)

  predicate IsIdentifier(p: Provider) { p.Barcode? || p.CatalogNumber? || p.Isrc? || p.Matrix? }

  datatype Key = Key(provider: Provider, kind: string, external: nat)

  datatype Alias = Alias(key: Key, native: Native, source: string, confidence: real, from: nat, until: Option<nat>)

  const CATALOG := "catalog"

  /** `_valid`: no time asks for the current rows. */
  predicate Valid(a: Alias, at: Option<nat>) {
    match at
    case None => a.until.None?
    case Some(u) => a.from <= u && (a.until.None? || a.until.value > u)
  }

  /** `_Ledger.holder`: the first valid row of the key. */
  function Holder(aliases: seq<Alias>, key: Key, at: Option<nat>): Option<Native> {
    if aliases == [] then None
    else if aliases[0].key == key && Valid(aliases[0], at) then Some(aliases[0].native)
    else Holder(aliases[1..], key, at)
  }

  /** Two intervals do not overlap. */
  predicate Apart(a: Alias, b: Alias) {
    (a.until.Some? && a.until.value <= b.from) || (b.until.Some? && b.until.value <= a.from)
  }

  ghost predicate AllApart(aliases: seq<Alias>) {
    forall i, j :: 0 <= i < j < |aliases| && aliases[i].key == aliases[j].key ==> Apart(aliases[i], aliases[j])
  }

  predicate Dated(a: Alias, now: nat) {
    a.from <= now && (a.until.Some? ==> a.from < a.until.value <= now)
  }

  /** Every row is dated in the past, and no key is ever held twice at once. */
  ghost predicate Sound(aliases: seq<Alias>, now: nat) {
    (forall a :: a in aliases ==> Dated(a, now)) && AllApart(aliases)
  }

  /** At most one row of a key is valid at any instant, so `Holder` names the holder. */
  lemma OneHolder(aliases: seq<Alias>, now: nat, i: nat, j: nat, at: Option<nat>)
    requires Sound(aliases, now) && i < |aliases| && j < |aliases|
    requires aliases[i].key == aliases[j].key && Valid(aliases[i], at) && Valid(aliases[j], at)
    ensures i == j
  {
    assert Dated(aliases[i], now) && Dated(aliases[j], now);
  }

  lemma {:induction false} HolderIsValid(aliases: seq<Alias>, key: Key, at: Option<nat>)
    ensures Holder(aliases, key, at).Some? <==> exists i :: 0 <= i < |aliases| && aliases[i].key == key && Valid(aliases[i], at)
    ensures Holder(aliases, key, at).Some? ==>
              exists i :: 0 <= i < |aliases| && aliases[i].key == key && Valid(aliases[i], at) && aliases[i].native == Holder(aliases, key, at).value
  {
    if aliases != [] {
      HolderIsValid(aliases[1..], key, at);
      var rest := aliases[1..];
      assert forall i :: 0 <= i < |rest| ==> rest[i] == aliases[i + 1];
      assert forall i :: 0 < i < |aliases| ==> aliases[i] == rest[i - 1];
    }
  }

  lemma HolderIs(aliases: seq<Alias>, now: nat, i: nat, at: Option<nat>)
    requires Sound(aliases, now) && i < |aliases| && Valid(aliases[i], at)
    ensures Holder(aliases, aliases[i].key, at) == Some(aliases[i].native)
  {
    HolderIsValid(aliases, aliases[i].key, at);
    var j :| 0 <= j < |aliases| && aliases[j].key == aliases[i].key && Valid(aliases[j], at)
             && aliases[j].native == Holder(aliases, aliases[i].key, at).value;
    OneHolder(aliases, now, i, j, at);
  }

  lemma {:induction false} HolderOfBoth(a: seq<Alias>, b: seq<Alias>, key: Key, at: Option<nat>)
    ensures Holder(a + b, key, at) == if Holder(a, key, at).Some? then Holder(a, key, at) else Holder(b, key, at)
  {
    if a == [] {
      assert a + b == b;
    } else {
      HolderOfBoth(a[1..], b, key, at);
      assert (a + b)[1..] == a[1..] + b;
    }
  }

  // ---- Closing and re-inserting ----------------------------------------------------------------------------

  function ClosedRow(a: Alias, x: Native, t: nat): Alias {
    if a.native == x && a.until.None? then a.(until := Some(t)) else a
  }

  /** `_CLOSE_ALIASES`. */
  function CloseAll(aliases: seq<Alias>, x: Native, t: nat): (r: seq<Alias>)
    ensures |r| == |aliases| && forall i :: 0 <= i < |r| ==> r[i] == ClosedRow(aliases[i], x, t)
  {
    if aliases == [] then [] else [ClosedRow(aliases[0], x, t)] + CloseAll(aliases[1..], x, t)
  }

  /** The rows it returns. */
  function HeldBy(aliases: seq<Alias>, x: Native): (r: seq<Alias>)
    ensures forall a :: a in r <==> a in aliases && a.native == x && a.until.None?
  {
    if aliases == [] then []
    else (if aliases[0].native == x && aliases[0].until.None? then [aliases[0]] else []) + HeldBy(aliases[1..], x)
  }

  /** A moved alias: the same key and confidence, on `d`, from the instant its old row closed. */
  function Moved(a: Alias, d: Native, t: nat): Alias {
    Alias(a.key, d, CATALOG, a.confidence, t, None)
  }

  /** An insert that does nothing when the key is currently held. */
  function InsertFree(aliases: seq<Alias>, a: Alias): seq<Alias> {
    if Holder(aliases, a.key, None).Some? then aliases else aliases + [a]
  }

  /** `_REINSERT_ALIASES`. */
  function Reinsert(aliases: seq<Alias>, closed: seq<Alias>, d: Native, t: nat): seq<Alias>
    decreases |closed|
  {
    if closed == [] then aliases else Reinsert(InsertFree(aliases, Moved(closed[0], d, t)), closed[1..], d, t)
  }

  /** The keys the re-insert left out because some row held them. */
  function Missing(aliases: seq<Alias>, closed: seq<Alias>, d: Native, t: nat): seq<Key>
    decreases |closed|
  {
    if closed == [] then []
    else
      (if Holder(aliases, closed[0].key, None).Some? then [closed[0].key] else [])
      + Missing(InsertFree(aliases, Moved(closed[0], d, t)), closed[1..], d, t)
  }

  function MovedAll(closed: seq<Alias>, d: Native, t: nat): (r: seq<Alias>)
    ensures |r| == |closed| && forall i :: 0 <= i < |r| ==> r[i] == Moved(closed[i], d, t)
  {
    if closed == [] then [] else [Moved(closed[0], d, t)] + MovedAll(closed[1..], d, t)
  }

  ghost predicate DistinctKeys(rows: seq<Alias>) {
    forall i, j :: 0 <= i < j < |rows| ==> rows[i].key != rows[j].key
  }

  lemma AppendOne<T>(a: seq<T>, m: T, rest: seq<T>)
    ensures (a + [m]) + rest == a + ([m] + rest)
  {
  }

  lemma StillFree(aliases: seq<Alias>, m: Alias, closed: seq<Alias>)
    requires forall a :: a in closed ==> a.key != m.key && Holder(aliases, a.key, None).None?
    ensures forall a :: a in closed ==> Holder(aliases + [m], a.key, None).None?
  {
    forall a | a in closed ensures Holder(aliases + [m], a.key, None).None? { HolderOfBoth(aliases, [m], a.key, None); }
  }

  lemma {:induction false} ReinsertsAll(aliases: seq<Alias>, closed: seq<Alias>, d: Native, t: nat)
    requires DistinctKeys(closed) && forall a :: a in closed ==> Holder(aliases, a.key, None).None?
    ensures Reinsert(aliases, closed, d, t) == aliases + MovedAll(closed, d, t) && Missing(aliases, closed, d, t) == []
    decreases |closed|
  {
    if closed == [] {
      assert aliases + [] == aliases;
    } else {
      var m, rest := Moved(closed[0], d, t), closed[1..];
      assert closed[0] in closed;
      assert InsertFree(aliases, m) == aliases + [m];
      StillFree(aliases, m, rest);
      ReinsertsAll(aliases + [m], rest, d, t);
      AppendOne(aliases, m, MovedAll(rest, d, t));
    }
  }

  lemma RestSound(aliases: seq<Alias>, now: nat)
    requires Sound(aliases, now) && aliases != []
    ensures Sound(aliases[1..], now)
  {
    assert forall i :: 0 <= i < |aliases[1..]| ==> aliases[1..][i] == aliases[i + 1];
  }

  /** No later row is current under the key of a current first row. */
  lemma HeldOnce(aliases: seq<Alias>, now: nat, a: Alias)
    requires Sound(aliases, now) && aliases != [] && aliases[0].until.None? && a in aliases[1..] && a.until.None?
    ensures a.key != aliases[0].key
  {
    var i :| 0 <= i < |aliases[1..]| && aliases[1..][i] == a;
    assert aliases[i + 1] == a;
  }

  lemma DistinctFirst(a: Alias, rest: seq<Alias>)
    requires DistinctKeys(rest) && forall b :: b in rest ==> b.key != a.key
    ensures DistinctKeys([a] + rest)
  {
  }

  lemma {:induction false} HeldDistinct(aliases: seq<Alias>, now: nat, x: Native)
    requires Sound(aliases, now)
    ensures DistinctKeys(HeldBy(aliases, x))
  {
    if aliases != [] {
      var rest := HeldBy(aliases[1..], x);
      RestSound(aliases, now);
      HeldDistinct(aliases[1..], now, x);
      if aliases[0].native == x && aliases[0].until.None? {
        forall a | a in rest ensures a.key != aliases[0].key { HeldOnce(aliases, now, a); }
        DistinctFirst(aliases[0], rest);
      } else {
        assert HeldBy(aliases, x) == rest;
      }
    }
  }

  /** Closing `x`'s rows frees exactly the keys `x` held. */
  lemma CloseFrees(aliases: seq<Alias>, now: nat, x: Native, t: nat, key: Key)
    requires Sound(aliases, now)
    ensures Holder(CloseAll(aliases, x, t), key, None) ==
            if Holder(aliases, key, None) == Some(x) then None else Holder(aliases, key, None)
  {
    var after := CloseAll(aliases, x, t);
    HolderIsValid(aliases, key, None);
    HolderIsValid(after, key, None);
    if Holder(after, key, None).Some? {
      var i :| 0 <= i < |after| && after[i].key == key && Valid(after[i], None) && after[i].native == Holder(after, key, None).value;
      assert after[i] == aliases[i];
      HolderIs(aliases, now, i, None);
    } else if Holder(aliases, key, None).Some? {
      var i :| 0 <= i < |aliases| && aliases[i].key == key && Valid(aliases[i], None) && aliases[i].native == Holder(aliases, key, None).value;
      assert after[i] == ClosedRow(aliases[i], x, t);
    }
  }

  lemma {:induction false} ClosePast(aliases: seq<Alias>, x: Native, t: nat, key: Key, u: nat)
    requires u < t
    ensures Holder(CloseAll(aliases, x, t), key, Some(u)) == Holder(aliases, key, Some(u))
  {
    if aliases != [] { ClosePast(aliases[1..], x, t, key, u); }
  }

  lemma {:induction false} MovedPast(closed: seq<Alias>, d: Native, t: nat, key: Key, u: nat)
    requires u < t
    ensures Holder(MovedAll(closed, d, t), key, Some(u)) == None
  {
    if closed != [] {
      MovedPast(closed[1..], d, t, key, u);
      assert MovedAll(closed, d, t)[1..] == MovedAll(closed[1..], d, t);
    }
  }

  // ---- A move of every alias of one item ------------------------------------------------------------------------

  function Reheld(aliases: seq<Alias>, x: Native, d: Native, t: nat): seq<Alias> {
    Reinsert(CloseAll(aliases, x, t), HeldBy(aliases, x), d, t)
  }

  function Collisions(aliases: seq<Alias>, x: Native, d: Native, t: nat): seq<Key> {
    Missing(CloseAll(aliases, x, t), HeldBy(aliases, x), d, t)
  }

  /** Every alias of `x` is re-inserted: with one current row per key, none collides. */
  lemma ReheldIs(aliases: seq<Alias>, now: nat, x: Native, d: Native, t: nat)
    requires Sound(aliases, now)
    ensures Reheld(aliases, x, d, t) == CloseAll(aliases, x, t) + MovedAll(HeldBy(aliases, x), d, t)
    ensures Collisions(aliases, x, d, t) == []
  {
    HeldDistinct(aliases, now, x);
    forall a | a in HeldBy(aliases, x) ensures Holder(CloseAll(aliases, x, t), a.key, None).None? {
      var i :| 0 <= i < |aliases| && aliases[i] == a;
      HolderIs(aliases, now, i, None);
      CloseFrees(aliases, now, x, t, a.key);
    }
    ReinsertsAll(CloseAll(aliases, x, t), HeldBy(aliases, x), d, t);
  }

  /** No past instant's holder changes. */
  lemma PastHoldersKept(aliases: seq<Alias>, now: nat, x: Native, d: Native, t: nat, key: Key, u: nat)
    requires Sound(aliases, now) && u < t
    ensures Holder(Reheld(aliases, x, d, t), key, Some(u)) == Holder(aliases, key, Some(u))
  {
    ReheldIs(aliases, now, x, d, t);
    HolderOfBoth(CloseAll(aliases, x, t), MovedAll(HeldBy(aliases, x), d, t), key, Some(u));
    ClosePast(aliases, x, t, key, u);
    MovedPast(HeldBy(aliases, x), d, t, key, u);
  }

  /** A key `x` holds is moved. */
  lemma HeldIsMoved(aliases: seq<Alias>, x: Native, d: Native, t: nat, key: Key)
    requires Holder(aliases, key, None) == Some(x)
    ensures exists i :: 0 <= i < |HeldBy(aliases, x)| && MovedAll(HeldBy(aliases, x), d, t)[i].key == key
  {
    var held := HeldBy(aliases, x);
    HolderIsValid(aliases, key, None);
    var j :| 0 <= j < |aliases| && aliases[j].key == key && Valid(aliases[j], None) && aliases[j].native == x;
    assert aliases[j] in held;
    var i :| 0 <= i < |held| && held[i] == aliases[j];
    assert MovedAll(held, d, t)[i] == Moved(held[i], d, t);
  }

  /** A key that is moved `x` held. */
  lemma MovedWasHeld(aliases: seq<Alias>, now: nat, x: Native, d: Native, t: nat, i: nat)
    requires Sound(aliases, now) && i < |HeldBy(aliases, x)|
    ensures var m := MovedAll(HeldBy(aliases, x), d, t)[i]; m.native == d && Holder(aliases, m.key, None) == Some(x)
  {
    var held := HeldBy(aliases, x);
    assert held[i] in held;
    var j :| 0 <= j < |aliases| && aliases[j] == held[i];
    HolderIs(aliases, now, j, None);
  }

  lemma MovedHolder(aliases: seq<Alias>, now: nat, x: Native, d: Native, t: nat, key: Key)
    requires Sound(aliases, now)
    ensures Holder(MovedAll(HeldBy(aliases, x), d, t), key, None) == if Holder(aliases, key, None) == Some(x) then Some(d) else None
  {
    var moved := MovedAll(HeldBy(aliases, x), d, t);
    HolderIsValid(moved, key, None);
    if Holder(aliases, key, None) == Some(x) { HeldIsMoved(aliases, x, d, t, key); }
    if Holder(moved, key, None).Some? {
      var i :| 0 <= i < |moved| && moved[i].key == key && Valid(moved[i], None) && moved[i].native == Holder(moved, key, None).value;
      MovedWasHeld(aliases, now, x, d, t, i);
    }
  }

  /** The keys `x` held are now held by `d`, and no other key changes hands. */
  lemma CurrentHolders(aliases: seq<Alias>, now: nat, x: Native, d: Native, t: nat, key: Key)
    requires Sound(aliases, now)
    ensures Holder(Reheld(aliases, x, d, t), key, None) ==
            if Holder(aliases, key, None) == Some(x) then Some(d) else Holder(aliases, key, None)
  {
    ReheldIs(aliases, now, x, d, t);
    HolderOfBoth(CloseAll(aliases, x, t), MovedAll(HeldBy(aliases, x), d, t), key, None);
    CloseFrees(aliases, now, x, t, key);
    MovedHolder(aliases, now, x, d, t, key);
  }

  /** A moved row takes over from one that closed as it opened. */
  lemma MovedApart(aliases: seq<Alias>, now: nat, x: Native, t: nat, i: nat, a: Alias)
    requires Sound(aliases, now) && t > now && i < |aliases| && a in HeldBy(aliases, x) && a.key == aliases[i].key
    ensures CloseAll(aliases, x, t)[i].until.Some? && CloseAll(aliases, x, t)[i].until.value <= t
  {
    var j :| 0 <= j < |aliases| && aliases[j] == a;
    if i != j {
      assert Dated(aliases[i], now) && Dated(aliases[j], now);
      assert Apart(if i < j then aliases[i] else aliases[j], if i < j then aliases[j] else aliases[i]);
    }
  }

  lemma {:induction false} ReheldDated(aliases: seq<Alias>, now: nat, x: Native, d: Native, t: nat, a: Alias)
    requires Sound(aliases, now) && t > now && a in CloseAll(aliases, x, t) + MovedAll(HeldBy(aliases, x), d, t)
    ensures Dated(a, t)
  {
    if a in CloseAll(aliases, x, t) {
      var i :| 0 <= i < |aliases| && CloseAll(aliases, x, t)[i] == a;
      assert Dated(aliases[i], now);
    }
  }

  /** A row dated after `now` is a moved one. */
  lemma NewIsMoved(aliases: seq<Alias>, now: nat, x: Native, d: Native, t: nat, a: Alias) returns (i: nat)
    requires Sound(aliases, now) && a in Reheld(aliases, x, d, t) && a.from > now
    ensures i < |HeldBy(aliases, x)| && a == Moved(HeldBy(aliases, x)[i], d, t)
  {
    ReheldIs(aliases, now, x, d, t);
    var closed, moved := CloseAll(aliases, x, t), MovedAll(HeldBy(aliases, x), d, t);
    forall j | 0 <= j < |closed| ensures closed[j].from <= now {
      assert Dated(aliases[j], now);
    }
    i :| 0 <= i < |moved| && moved[i] == a;
  }

  lemma ClosedApart(aliases: seq<Alias>, now: nat, x: Native, t: nat, i: nat, j: nat)
    requires Sound(aliases, now) && t > now && i < j < |aliases| && aliases[i].key == aliases[j].key
    ensures Apart(CloseAll(aliases, x, t)[i], CloseAll(aliases, x, t)[j])
  {
    assert Apart(aliases[i], aliases[j]);
    assert Dated(aliases[i], now) && Dated(aliases[j], now);
  }

  lemma ReheldApart(aliases: seq<Alias>, now: nat, x: Native, d: Native, t: nat, i: nat, j: nat)
    requires Sound(aliases, now) && t > now
    requires var after := CloseAll(aliases, x, t) + MovedAll(HeldBy(aliases, x), d, t); i < j < |after| && after[i].key == after[j].key
    ensures var after := CloseAll(aliases, x, t) + MovedAll(HeldBy(aliases, x), d, t); Apart(after[i], after[j])
  {
    var n, held := |aliases|, HeldBy(aliases, x);
    if j < n {
      ClosedApart(aliases, now, x, t, i, j);
    } else if i < n {
      assert held[j - n] in held;
      MovedApart(aliases, now, x, t, i, held[j - n]);
    } else {
      HeldDistinct(aliases, now, x);
    }
  }

  lemma ReheldSound(aliases: seq<Alias>, now: nat, x: Native, d: Native, t: nat)
    requires Sound(aliases, now) && t > now
    ensures Sound(Reheld(aliases, x, d, t), t)
  {
    ReheldIs(aliases, now, x, d, t);
    var after := CloseAll(aliases, x, t) + MovedAll(HeldBy(aliases, x), d, t);
    forall a | a in after ensures Dated(a, t) { ReheldDated(aliases, now, x, d, t, a); }
    forall i, j | 0 <= i < j < |after| && after[i].key == after[j].key ensures Apart(after[i], after[j]) {
      ReheldApart(aliases, now, x, d, t, i, j);
    }
  }
}
