/** The per-user snapshot quota under concurrent saves and rejected writes
    (api/snapshot_store.py, `SnapshotStore.save`). */
module SnapshotQuota {
  import opened Seqs

  type Save = nat

  /** Where a save is. `Counted` and later carry what INCR returned. */
  datatype Phase =
    | Begun
    | Admitted                // the counter was below the cap when read
    | Written                 // SET was accepted
    | Undoing                 // INCR was rejected; the key is about to be deleted
    | Counted(count: int)
    | Over(count: int)        // above the cap, TTL armed
    | Deleted(count: int)     // its key is gone, the slot not yet given back
    | Kept(count: int)        // returned its token
    | Unarmed(count: int)     // EXPIRE was rejected: raised, key and slot stay
    | Leaked(count: int)      // DECR was rejected: raised, the slot stays
    | Refused                 // quota exceeded, nothing kept
    | Failed                  // SET or INCR was rejected, nothing kept

  /** One user's keys and counter, over one lifetime of the counter. */
  datatype State = State(keys: set<Save>, counter: int, saves: map<Save, Phase>)

  datatype Command =
    | Begin(i: Save)
    | Get(i: Save)
    | Set(i: Save, accepted: bool)
    | Incr(i: Save, accepted: bool)
    | Undo(i: Save)
    | Expire(i: Save, accepted: bool)
    | Delete(i: Save)
    | Decr(i: Save, accepted: bool)

  function Move(s: State, i: Save, p: Phase): State { s.(saves := s.saves[i := p]) }

  /** One command of one save, in the order `save` issues them. */
  function Step(s: State, maxPerUser: nat, c: Command): State {
    var i := c.i;
    if c.Begin? then (if i in s.saves then s else Move(s, i, Begun))
    else if i !in s.saves then s
    else
      var p := s.saves[i];
      match c
      case Begin(_) => s
      case Get(_) => if !p.Begun? then s else if s.counter >= maxPerUser then Move(s, i, Refused) else Move(s, i, Admitted)
      case Set(_, ok) => if !p.Admitted? then s else if ok then Move(s, i, Written).(keys := s.keys + {i}) else Move(s, i, Failed)
      case Incr(_, ok) =>
        if !p.Written? then s
        else if ok then Move(s, i, Counted(s.counter + 1)).(counter := s.counter + 1)
        else Move(s, i, Undoing)
      case Undo(_) => if !p.Undoing? then s else Move(s, i, Failed).(keys := s.keys - {i})
      case Expire(_, ok) =>
        if !p.Counted? then s
        else if !ok then Move(s, i, Unarmed(p.count))
        else if p.count > maxPerUser then Move(s, i, Over(p.count)) else Move(s, i, Kept(p.count))
      case Delete(_) => if !p.Over? then s else Move(s, i, Deleted(p.count)).(keys := s.keys - {i})
      case Decr(_, ok) =>
        if !p.Deleted? then s
        else if ok then Move(s, i, Refused).(counter := s.counter - 1) else Move(s, i, Leaked(p.count))
  }

  function Run(s: State, maxPerUser: nat, cs: seq<Command>): State {
    if cs == [] then s else Step(Run(s, maxPerUser, cs[..|cs| - 1]), maxPerUser, cs[|cs| - 1])
  }

  predicate HasCount(p: Phase) { p.Counted? || p.Over? || p.Deleted? || p.Kept? || p.Unarmed? || p.Leaked? }

  predicate HasKey(p: Phase) { p.Written? || p.Undoing? || p.Counted? || p.Over? || p.Kept? || p.Unarmed? }

  predicate InProgress(p: Phase) { p.Begun? || p.Admitted? || p.Written? || p.Undoing? || p.Counted? || p.Over? || p.Deleted? }

  /** The saves whose INCR stands. */
  function Standing(s: State): set<Save> { set i | i in s.saves && HasCount(s.saves[i]) }

  /** Those counted within the cap. */
  function WithinCap(s: State, maxPerUser: nat): set<Save> {
    set i | i in s.saves && HasCount(s.saves[i]) && s.saves[i].count <= maxPerUser
  }

  /** Those above the cap whose EXPIRE was rejected. */
  function Stranded(s: State, maxPerUser: nat): set<Save> {
    set i | i in s.saves && s.saves[i].Unarmed? && s.saves[i].count > maxPerUser
  }

  /** The counter counts exactly the standing saves, the keys are exactly those of saves that
      should hold one, the saves within the cap fit it, and nothing stands above the cap
      unless they fill it. */
  ghost predicate Inv(s: State, maxPerUser: nat) {
    && s.counter == |Standing(s)|
    && (forall i :: i in s.keys <==> i in s.saves && HasKey(s.saves[i]))
    && |WithinCap(s, maxPerUser)| <= maxPerUser
    && (Standing(s) != WithinCap(s, maxPerUser) ==> |WithinCap(s, maxPerUser)| == maxPerUser)
    && (forall i :: i in s.saves && (s.saves[i].Over? || s.saves[i].Deleted? || s.saves[i].Leaked?) ==> s.saves[i].count > maxPerUser)
    && (forall i :: i in s.saves && s.saves[i].Kept? ==> s.saves[i].count <= maxPerUser)
  }

  lemma Grown<T>(a: set<T>, b: set<T>, x: T)
    requires x !in a && b == a + {x}
    ensures |b| == |a| + 1
  {
  }

  lemma IncrKeeps(s: State, maxPerUser: nat, c: Command)
    requires Inv(s, maxPerUser) && c.Incr? && c.accepted && c.i in s.saves && s.saves[c.i].Written?
    ensures Inv(Step(s, maxPerUser, c), maxPerUser)
  {
    var s' := Step(s, maxPerUser, c);
    Grown(Standing(s), Standing(s'), c.i);
    Subset(WithinCap(s, maxPerUser), Standing(s));
    if s.counter + 1 <= maxPerUser {
      assert Standing(s) == WithinCap(s, maxPerUser);
      assert WithinCap(s', maxPerUser) == Standing(s');
    } else {
      assert WithinCap(s', maxPerUser) == WithinCap(s, maxPerUser);
    }
  }

  lemma DecrKeeps(s: State, maxPerUser: nat, c: Command)
    requires Inv(s, maxPerUser) && c.Decr? && c.accepted && c.i in s.saves && s.saves[c.i].Deleted?
    ensures Inv(Step(s, maxPerUser, c), maxPerUser)
  {
    var s' := Step(s, maxPerUser, c);
    assert Standing(s) == Standing(s') + {c.i};
    Grown(Standing(s'), Standing(s), c.i);
    assert WithinCap(s', maxPerUser) == WithinCap(s, maxPerUser);
  }

  /** A save moves on without INCR or DECR. */
  ghost predicate Moves(s: State, s': State, i: Save, maxPerUser: nat) {
    && i in s'.saves && s'.saves == s.saves[i := s'.saves[i]] && s'.counter == s.counter
    && var p' := s'.saves[i];
       && s'.keys == (if HasKey(p') then s.keys + {i} else s.keys - {i})
       && (HasCount(p') <==> i in s.saves && HasCount(s.saves[i])) && (HasCount(p') ==> p'.count == s.saves[i].count)
       && (p'.Over? || p'.Deleted? || p'.Leaked? ==> p'.count > maxPerUser) && (p'.Kept? ==> p'.count <= maxPerUser)
  }

  lemma MovesKeep(s: State, s': State, i: Save, maxPerUser: nat)
    requires Inv(s, maxPerUser) && Moves(s, s', i, maxPerUser)
    ensures Inv(s', maxPerUser)
  {
    assert Standing(s') == Standing(s);
    assert WithinCap(s', maxPerUser) == WithinCap(s, maxPerUser);
  }

  lemma OtherMoves(s: State, maxPerUser: nat, c: Command)
    requires Inv(s, maxPerUser) && !(c.Incr? && c.accepted && c.i in s.saves && s.saves[c.i].Written?)
    requires !(c.Decr? && c.accepted && c.i in s.saves && s.saves[c.i].Deleted?)
    ensures Step(s, maxPerUser, c) == s || Moves(s, Step(s, maxPerUser, c), c.i, maxPerUser)
  {
  }

  lemma OtherKeeps(s: State, maxPerUser: nat, c: Command)
    requires Inv(s, maxPerUser) && !(c.Incr? && c.accepted && c.i in s.saves && s.saves[c.i].Written?)
    requires !(c.Decr? && c.accepted && c.i in s.saves && s.saves[c.i].Deleted?)
    ensures Inv(Step(s, maxPerUser, c), maxPerUser)
  {
    OtherMoves(s, maxPerUser, c);
    if Step(s, maxPerUser, c) != s { MovesKeep(s, Step(s, maxPerUser, c), c.i, maxPerUser); }
  }

  lemma {:induction false} RunKeeps(s: State, maxPerUser: nat, cs: seq<Command>)
    requires s == State({}, 0, map[])
    ensures Inv(Run(s, maxPerUser, cs), maxPerUser)
  {
    if cs == [] {
      assert Standing(s) == {} && WithinCap(s, maxPerUser) == {};
    } else {
      var before, c := Run(s, maxPerUser, cs[..|cs| - 1]), cs[|cs| - 1];
      RunKeeps(s, maxPerUser, cs[..|cs| - 1]);
      if c.Incr? && c.accepted && c.i in before.saves && before.saves[c.i].Written? {
        IncrKeeps(before, maxPerUser, c);
      } else if c.Decr? && c.accepted && c.i in before.saves && before.saves[c.i].Deleted? {
        DecrKeeps(before, maxPerUser, c);
      } else {
        OtherKeeps(before, maxPerUser, c);
      }
    }
  }

  ghost predicate Settled(s: State) { forall i :: i in s.saves ==> !InProgress(s.saves[i]) }

  /** For every interleaving of saves and rejections, once none is in progress: the counter is
      not below the number kept; the kept snapshots are exactly those counted within the cap, at
      most the cap, and those stranded above it by a rejected EXPIRE; and a save rejected at SET or
      INCR holds neither key nor slot. */
  lemma QuotaHolds(maxPerUser: nat, cs: seq<Command>)
    ensures var s := Run(State({}, 0, map[]), maxPerUser, cs);
            Settled(s) ==>
              && s.counter >= |s.keys|
              && s.keys == WithinCap(s, maxPerUser) + Stranded(s, maxPerUser) && |WithinCap(s, maxPerUser)| <= maxPerUser
              && (forall i :: i in s.saves && (s.saves[i].Failed? || s.saves[i].Refused?) ==> i !in s.keys && i !in Standing(s))
  {
    var s := Run(State({}, 0, map[]), maxPerUser, cs);
    RunKeeps(State({}, 0, map[]), maxPerUser, cs);
    if Settled(s) {
      Subset(s.keys, Standing(s));
      SettledKeys(s, maxPerUser);
    }
  }

  /** The cap holds exactly when no EXPIRE above it was rejected: a save is counted above the
      cap only once the saves within it fill it, and those never leave. */
  lemma CapHolds(maxPerUser: nat, cs: seq<Command>)
    requires Settled(Run(State({}, 0, map[]), maxPerUser, cs))
    ensures var s := Run(State({}, 0, map[]), maxPerUser, cs);
            |s.keys| <= maxPerUser <==> Stranded(s, maxPerUser) == {}
  {
    var s := Run(State({}, 0, map[]), maxPerUser, cs);
    RunKeeps(State({}, 0, map[]), maxPerUser, cs);
    SettledKeys(s, maxPerUser);
    var within, stranded := WithinCap(s, maxPerUser), Stranded(s, maxPerUser);
    if i :| i in stranded {
      assert i in Standing(s) && i !in within;
      Subset(within + {i}, s.keys);
      Grown(within, within + {i}, i);
    } else {
      assert s.keys == within;
    }
  }

  /** Once settled, the keys are those of the saves within the cap and of the stranded ones. */
  lemma SettledKeys(s: State, maxPerUser: nat)
    requires Inv(s, maxPerUser) && Settled(s)
    ensures s.keys == WithinCap(s, maxPerUser) + Stranded(s, maxPerUser)
  {
  }

  /** `s` after the commands, one after the other. */
  ghost predicate Uncontended(s: State, maxPerUser: nat, i: Save, written: State, counted: State, ended: State) {
    && written == Step(Step(Step(s, maxPerUser, Begin(i)), maxPerUser, Get(i)), maxPerUser, Set(i, true))
    && counted == Step(Step(written, maxPerUser, Incr(i, true)), maxPerUser, Expire(i, true))
    && ended == Step(Step(counted, maxPerUser, Delete(i)), maxPerUser, Decr(i, true))
  }

  /** A save that nothing interrupts is kept exactly when the counter is below the cap; if it is
      not, keys and counter stay. */
  lemma KeptIffBelowCap(s: State, maxPerUser: nat, i: Save, written: State, counted: State, ended: State)
    requires i !in s.saves && i !in s.keys && Uncontended(s, maxPerUser, i, written, counted, ended)
    ensures i in ended.saves && (ended.saves[i].Kept? <==> s.counter < maxPerUser)
    ensures if s.counter < maxPerUser then ended.keys == s.keys + {i} && ended.counter == s.counter + 1
            else ended.saves[i].Refused? && ended.keys == s.keys && ended.counter == s.counter
  {
  }

  /** A save that lost the last slot after it was admitted gives back what it took. */
  lemma LoserGivesBack(s: State, maxPerUser: nat, i: Save, counted: State, ended: State)
    requires i in s.saves && s.saves[i].Written? && s.counter >= maxPerUser
    requires counted == Step(Step(s, maxPerUser, Incr(i, true)), maxPerUser, Expire(i, true))
    requires ended == Step(Step(counted, maxPerUser, Delete(i)), maxPerUser, Decr(i, true))
    ensures ended.saves[i].Refused? && ended.keys == s.keys - {i} && ended.counter == s.counter
  {
  }

  lemma RunNext(maxPerUser: nat, cs: seq<Command>, c: Command, s: State, s': State)
    requires Run(State({}, 0, map[]), maxPerUser, cs) == s && Step(s, maxPerUser, c) == s'
    ensures Run(State({}, 0, map[]), maxPerUser, cs + [c]) == s'
  {
  }

  const BOTH_WRITTEN: seq<Command> := [Begin(0)] + [Begin(1)] + [Get(0)] + [Get(1)] + [Set(0, true)] + [Set(1, true)]

  lemma BothWritten()
    ensures Run(State({}, 0, map[]), 1, BOTH_WRITTEN) == State({0, 1}, 0, map[0 := Written, 1 := Written])
  {
    var c1 := [Begin(0)];
    var c2 := c1 + [Begin(1)];
    var c3 := c2 + [Get(0)];
    var c4 := c3 + [Get(1)];
    var c5 := c4 + [Set(0, true)];
    var s1 := State({}, 0, map[0 := Begun]);
    var s2 := State({}, 0, map[0 := Begun, 1 := Begun]);
    var s3 := State({}, 0, map[0 := Admitted, 1 := Begun]);
    var s4 := State({}, 0, map[0 := Admitted, 1 := Admitted]);
    var s5 := State({0}, 0, map[0 := Written, 1 := Admitted]);
    assert [] + c1 == c1;
    RunNext(1, [], Begin(0), State({}, 0, map[]), s1);
    RunNext(1, c1, Begin(1), s1, s2);
    RunNext(1, c2, Get(0), s2, s3);
    RunNext(1, c3, Get(1), s3, s4);
    RunNext(1, c4, Set(0, true), s4, s5);
    RunNext(1, c5, Set(1, true), s5, State({0, 1}, 0, map[0 := Written, 1 := Written]));
  }

  /** The condition is needed: two saves race for a cap of one, and the loser's EXPIRE is
      rejected after its INCR. Both snapshots are kept. */
  lemma RejectedExpireOverflows()
    ensures var cs := BOTH_WRITTEN + [Incr(0, true)] + [Incr(1, true)] + [Expire(0, true)] + [Expire(1, false)];
            var s := Run(State({}, 0, map[]), 1, cs);
            Settled(s) && s.keys == {0, 1} && s.counter == 2
  {
    BothWritten();
    var c7 := BOTH_WRITTEN + [Incr(0, true)];
    var c8 := c7 + [Incr(1, true)];
    var c9 := c8 + [Expire(0, true)];
    var s6 := State({0, 1}, 0, map[0 := Written, 1 := Written]);
    var s7 := State({0, 1}, 1, map[0 := Counted(1), 1 := Written]);
    var s8 := State({0, 1}, 2, map[0 := Counted(1), 1 := Counted(2)]);
    var s9 := State({0, 1}, 2, map[0 := Kept(1), 1 := Counted(2)]);
    RunNext(1, BOTH_WRITTEN, Incr(0, true), s6, s7);
    RunNext(1, c7, Incr(1, true), s7, s8);
    RunNext(1, c8, Expire(0, true), s8, s9);
    RunNext(1, c9, Expire(1, false), s9, State({0, 1}, 2, map[0 := Kept(1), 1 := Unarmed(2)]));
  }
}
