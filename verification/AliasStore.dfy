/** The alias table updated in place: the close and re-insert steps of a re-attachment
    (api/reattach.py). */
module AliasStore {
  import opened Seqs
  import opened AliasTable

  /** One re-insert: the row if its key is free, else the key among those left out. */
  lemma ReinsertNext(aliases: seq<Alias>, missing: seq<Key>, closed: seq<Alias>, i: nat, d: Native, t: nat)
    requires i < |closed|
    ensures var free := Holder(aliases, closed[i].key, None).None?;
            var aliases' := if free then aliases + [Moved(closed[i], d, t)] else aliases;
            var missing' := if free then missing else missing + [closed[i].key];
            && Reinsert(aliases', closed[i + 1..], d, t) == Reinsert(aliases, closed[i..], d, t)
            && missing' + Missing(aliases', closed[i + 1..], d, t) == missing + Missing(aliases, closed[i..], d, t)
  {
    assert closed[i..][0] == closed[i] && closed[i..][1..] == closed[i + 1..];
    var m := Moved(closed[i], d, t);
    AppendThree(missing, [closed[i].key], Missing(InsertFree(aliases, m), closed[i + 1..], d, t));
  }

  class Store {
    var aliases: seq<Alias>

    constructor ()
      ensures aliases == []
    {
      aliases := [];
    }

    /** A loader's attach: nothing happens if the key is currently held. */
    method Attach(a: Alias, now: nat)
      requires Sound(aliases, now) && a.from == now + 1 && a.until.None?
      modifies this
      ensures aliases == InsertFree(old(aliases), a)
      ensures Holder(aliases, a.key, None) == if Holder(old(aliases), a.key, None).Some? then Holder(old(aliases), a.key, None) else Some(a.native)
    {
      if Holder(aliases, a.key, None).None? {
        HolderOfBoth(aliases, [a], a.key, None);
        aliases := aliases + [a];
      }
    }

    /** `_CLOSE_ALIASES`: close what `x` holds, and return it. */
    method CloseHeld(x: Native, t: nat) returns (closed: seq<Alias>)
      modifies this
      ensures aliases == CloseAll(old(aliases), x, t) && closed == HeldBy(old(aliases), x)
    {
      closed := [];
      var rows := [];
      var i := |aliases|;
      while i > 0
        invariant 0 <= i <= |aliases| && aliases == old(aliases)
        invariant rows == CloseAll(aliases[i..], x, t) && closed == HeldBy(aliases[i..], x)
      {
        i := i - 1;
        var a := aliases[i];
        assert aliases[i..][1..] == aliases[i + 1..];
        rows := [ClosedRow(a, x, t)] + rows;
        if a.native == x && a.until.None? { closed := [a] + closed; }
      }
      assert aliases[0..] == aliases;
      aliases := rows;
    }

    /** `_REINSERT_ALIASES`, and the keys it left out. */
    method ReinsertFor(closed: seq<Alias>, d: Native, t: nat) returns (missing: seq<Key>)
      modifies this
      ensures aliases == Reinsert(old(aliases), closed, d, t) && missing == Missing(old(aliases), closed, d, t)
    {
      missing := [];
      for i := 0 to |closed|
        invariant Reinsert(aliases, closed[i..], d, t) == Reinsert(old(aliases), closed, d, t)
        invariant missing + Missing(aliases, closed[i..], d, t) == Missing(old(aliases), closed, d, t)
      {
        ReinsertNext(aliases, missing, closed, i, d, t);
        if Holder(aliases, closed[i].key, None).Some? {
          missing := missing + [closed[i].key];
        } else {
          aliases := aliases + [Moved(closed[i], d, t)];
        }
      }
    }

    /** Close and re-insert. With one current row per key nothing is left out; the table stays
        sound, the past stays as it was, and what `x` held `d` holds. */
    method MoveAliases(x: Native, d: Native, now: nat, t: nat) returns (closed: seq<Alias>, missing: seq<Key>)
      requires Sound(aliases, now) && t > now
      modifies this
      ensures aliases == Reheld(old(aliases), x, d, t) && closed == HeldBy(old(aliases), x) && missing == []
      ensures Sound(aliases, t)
    {
      ReheldIs(aliases, now, x, d, t);
      ReheldSound(aliases, now, x, d, t);
      closed := CloseHeld(x, t);
      missing := ReinsertFor(closed, d, t);
    }
  }
}
