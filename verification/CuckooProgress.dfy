/** What threads of the cuckoo hash map can do: which steps a state allows, and that an insertion left alone with an
    accurate path succeeds. */
module CuckooProgress {
  import opened Wrappers
  import opened CuckooIndex
  import opened CuckooMap
  import opened CuckooSafety

  // ----- the steps a search allows

  /** The thread can take this step now. */
  ghost predicate Can(c: Config, s: State, t: Tid, step: Step) {
    exists s' :: NextThread(c, s, s', t, step)
  }

  /** One of the key's buckets has a free slot. */
  ghost predicate HasRoom(c: Config, s: State, key: Key, mask: bv64) {
    exists pos: Pos :: pos.slot < c.slots && InPair(mask, c.hash(key), pos.bucket) && pos !in s.table
  }

  /** With both buckets locked, what a search of them shows decides what the operation does next. */
  lemma LookingCan(c: Config, s: State, t: Tid)
    requires t in s.threads && s.threads[t].Looking?
    ensures var p := s.threads[t];
            var key, mask, seen := p.op.key, p.snap.mask, SeenInPair(c, s, p.op.key, p.snap.mask);
            && (forall found :: Can(c, s, t, ReturnFind(found)) <==> p.op.Find? && Answers(c, s, key, mask, found))
            && (Can(c, s, t, EraseMiss) <==> p.op.Erase? && !seen)
            && ((exists pos :: Can(c, s, t, EraseHit(pos))) <==> p.op.Erase? && seen)
            && (Can(c, s, t, InsertDuplicate) <==> p.op.Insert? && seen)
            && ((exists pos :: Can(c, s, t, InsertRoom(pos))) <==> p.op.Insert? && !seen && HasRoom(c, s, key, mask))
            && (Can(c, s, t, InsertFull) <==> p.op.Insert? && !seen && !HasRoom(c, s, key, mask))
  {
    FindCan(c, s, t);
    EraseCan(c, s, t);
    InsertCan(c, s, t);
  }

  lemma FindCan(c: Config, s: State, t: Tid)
    requires t in s.threads && s.threads[t].Looking?
    ensures var p := s.threads[t];
            forall found :: Can(c, s, t, ReturnFind(found)) <==>
                            p.op.Find? && Answers(c, s, p.op.key, p.snap.mask, found)
  {
    hide Goto, Answers;
    var p := s.threads[t];
    forall found | p.op.Find? && Answers(c, s, p.op.key, p.snap.mask, found) ensures Can(c, s, t, ReturnFind(found)) {
      assert NextThread(c, s, Goto(c, s, t, Idle), t, ReturnFind(found));
    }
  }

  lemma EraseCan(c: Config, s: State, t: Tid)
    requires t in s.threads && s.threads[t].Looking?
    ensures var p := s.threads[t];
            && (Can(c, s, t, EraseMiss) <==> p.op.Erase? && !SeenInPair(c, s, p.op.key, p.snap.mask))
            && ((exists pos :: Can(c, s, t, EraseHit(pos))) <==> p.op.Erase? && SeenInPair(c, s, p.op.key, p.snap.mask))
  {
    hide Goto, InPair, LockOf;
    var p := s.threads[t];
    if p.op.Erase? {
      if pos :| KeyAt(c, s, p.op.key, p.snap.mask, pos) {
        var s' := Goto(c, s, t, Idle).(table := s.table - {pos},
                                       counters := s.counters[LockOf(pos.bucket) :=
                                                                Counter(s, LockOf(pos.bucket)) - 1]);
        assert NextThread(c, s, s', t, EraseHit(pos));
        assert Can(c, s, t, EraseHit(pos));
      } else {
        assert NextThread(c, s, Goto(c, s, t, Idle), t, EraseMiss);
      }
    }
  }

  lemma InsertCan(c: Config, s: State, t: Tid)
    requires t in s.threads && s.threads[t].Looking?
    ensures var p := s.threads[t];
            var seen, room := SeenInPair(c, s, p.op.key, p.snap.mask), HasRoom(c, s, p.op.key, p.snap.mask);
            && (Can(c, s, t, InsertDuplicate) <==> p.op.Insert? && seen)
            && ((exists pos :: Can(c, s, t, InsertRoom(pos))) <==> p.op.Insert? && !seen && room)
            && (Can(c, s, t, InsertFull) <==> p.op.Insert? && !seen && !room)
  {
    DuplicateCan(c, s, t);
    RoomCan(c, s, t);
    FullCan(c, s, t);
  }

  lemma DuplicateCan(c: Config, s: State, t: Tid)
    requires t in s.threads && s.threads[t].Looking?
    ensures var p := s.threads[t];
            Can(c, s, t, InsertDuplicate) <==> p.op.Insert? && SeenInPair(c, s, p.op.key, p.snap.mask)
  {
    hide Goto, SeenInPair, Needs;
    var p := s.threads[t];
    if p.op.Insert? && SeenInPair(c, s, p.op.key, p.snap.mask) {
      assert NextThread(c, s, Goto(c, s, t, Idle), t, InsertDuplicate);
    }
  }

  lemma RoomCan(c: Config, s: State, t: Tid)
    requires t in s.threads && s.threads[t].Looking?
    ensures var p := s.threads[t];
            (exists pos :: Can(c, s, t, InsertRoom(pos))) <==>
            p.op.Insert? && !SeenInPair(c, s, p.op.key, p.snap.mask) && HasRoom(c, s, p.op.key, p.snap.mask)
  {
    hide Goto, SeenInPair, Needs, InPair;
    var p := s.threads[t];
    if p.op.Insert? && !SeenInPair(c, s, p.op.key, p.snap.mask) && HasRoom(c, s, p.op.key, p.snap.mask) {
      var pos: Pos :| pos.slot < c.slots && InPair(p.snap.mask, c.hash(p.op.key), pos.bucket) && pos !in s.table;
      assert NextThread(c, s, Goto(c, s, t, Ready(p.op, p.snap, pos)), t, InsertRoom(pos));
      assert Can(c, s, t, InsertRoom(pos));
    }
  }

  lemma FullCan(c: Config, s: State, t: Tid)
    requires t in s.threads && s.threads[t].Looking?
    ensures var p := s.threads[t];
            Can(c, s, t, InsertFull) <==>
            p.op.Insert? && !SeenInPair(c, s, p.op.key, p.snap.mask) && !HasRoom(c, s, p.op.key, p.snap.mask)
  {
    hide Goto, SeenInPair, Needs, InPair;
    var p := s.threads[t];
    if p.op.Insert? && !SeenInPair(c, s, p.op.key, p.snap.mask) && !HasRoom(c, s, p.op.key, p.snap.mask) {
      assert NextThread(c, s, Goto(c, s, t, Searching(p.op, Snap(s.mask, s.gen))), t, InsertFull);
    }
  }

  /** An erasure reports "not there", and an insertion "already there", exactly when that is so; an insertion goes on to
      one of the key's buckets while they have room, and searches for a path exactly when both are full. */
  lemma LookingDecides(c: Config, s: State, t: Tid)
    requires Inv(c, s) && t in s.threads && s.threads[t].Looking?
    ensures var p := s.threads[t];
            var stored := InTable(s.table, p.op.key);
            && (p.op.Erase? ==> (Can(c, s, t, EraseMiss) <==> !stored))
            && (p.op.Erase? ==> ((exists pos :: Can(c, s, t, EraseHit(pos))) <==> stored))
            && (p.op.Insert? ==> (Can(c, s, t, InsertDuplicate) <==> stored))
            && (p.op.Insert? ==> ((exists pos :: Can(c, s, t, InsertRoom(pos))) <==>
                                  !stored && HasRoom(c, s, p.op.key, s.mask)))
            && (p.op.Insert? ==> (Can(c, s, t, InsertFull) <==> !stored && !HasRoom(c, s, p.op.key, s.mask)))
  {
    LookingCan(c, s, t);
    LookupIsExact(c, s, t);
    var p := s.threads[t];
    assert PhaseInv(c, s, p);
    hide Inv, Can, InTable, SeenInPair, PhaseInv, InPair;
    LookingSnap(c, s, p);
    assert HasRoom(c, s, p.op.key, p.snap.mask) <==> HasRoom(c, s, p.op.key, s.mask);
  }

  lemma LookingSnap(c: Config, s: State, p: Phase)
    requires p.Looking? && PhaseInv(c, s, p)
    ensures forall b :: InPair(p.snap.mask, c.hash(p.op.key), b) <==> InPair(s.mask, c.hash(p.op.key), b)
  {
    hide InPair, SamePair;
    PairNotEmpty(c, p.op.key, p.snap.mask);
    SameSnap(c, s, p);
    SamePairs(c, p.op.key, p.snap.mask, s.mask);
  }

  /** Every acceptable path can be taken, and a search can also give up. */
  lemma SearchingCan(c: Config, s: State, t: Tid, path: seq<Hop>, depth: nat)
    requires t in s.threads && s.threads[t].Searching?
    ensures var p := s.threads[t];
            && (Can(c, s, t, PathFound(path, depth)) <==> PathOk(c, p.op.key, p.snap.mask, path) && depth < |path|)
            && Can(c, s, t, PathFailed)
  {
    hide Goto, PathOk, Needs;
    var p := s.threads[t];
    assert NextThread(c, s, Goto(c, s, t, Fresh(p.op)), t, PathFailed);
    if PathOk(c, p.op.key, p.snap.mask, path) && depth < |path| {
      assert NextThread(c, s, Goto(c, s, t, Moving(p.op, p.snap, path, depth)), t, PathFound(path, depth));
    }
  }

  /** The second search of an insertion, after a path has freed a slot: it stops exactly when the key has come in
      meanwhile. */
  lemma FreedDecides(c: Config, s: State, t: Tid)
    requires Inv(c, s) && t in s.threads && s.threads[t].Freed? && s.threads[t].op.Insert?
    ensures Can(c, s, t, InsertDuplicate) <==> InTable(s.table, s.threads[t].op.key)
    ensures Can(c, s, t, Recheck) <==> !InTable(s.table, s.threads[t].op.key)
  {
    LookupIsExact(c, s, t);
    FreedCan(c, s, t);
    hide Inv, InTable, SeenInPair, Can;
  }

  lemma FreedCan(c: Config, s: State, t: Tid)
    requires t in s.threads && s.threads[t].Freed? && s.threads[t].op.Insert?
    ensures var p := s.threads[t];
            var seen := SeenInPair(c, s, p.op.key, p.snap.mask);
            (Can(c, s, t, InsertDuplicate) <==> seen) && (Can(c, s, t, Recheck) <==> !seen)
  {
    hide Goto, InPair, SeenInPair, Needs, PathOk, LockOf, Answers, LockGoal, KeyAt;
    var p := s.threads[t];
    if SeenInPair(c, s, p.op.key, p.snap.mask) {
      assert NextThread(c, s, Goto(c, s, t, Idle), t, InsertDuplicate);
    } else {
      assert NextThread(c, s, Goto(c, s, t, Ready(p.op, p.snap, p.pos)), t, Recheck);
    }
  }


  // ----- an insertion left alone

  lemma FollowsJoin(c: Config, a: seq<State>, am: seq<Move>, b: seq<State>, bm: seq<Move>, t: Tid)
    returns (states: seq<State>, moves: seq<Move>)
    requires Follows(c, a, am, t) && Follows(c, b, bm, t) && |a| == |am| + 1 && |b| == |bm| + 1 && a[|am|] == b[0]
    ensures Follows(c, states, moves, t) && |states| == |moves| + 1
    ensures states[0] == a[0] && states[|moves|] == b[|bm|]
  {
    hide Next;
    states, moves := a + b[1..], am + bm;
    forall i | 0 <= i < |moves|
      ensures moves[i].ThreadMove? && moves[i].t == t && Next(c, states[i], states[i + 1], moves[i])
    {
      if i < |am| {
        assert Next(c, a[i], a[i + 1], am[i]);
      } else {
        var j := i - |am|;
        assert Next(c, b[j], b[j + 1], bm[j]);
        assert states[i] == b[j] && states[i + 1] == b[j + 1];
      }
    }
  }

  lemma OneStep(c: Config, s: State, s': State, t: Tid, step: Step) returns (states: seq<State>, moves: seq<Move>)
    requires NextThread(c, s, s', t, step)
    ensures Follows(c, states, moves, t) && |moves| == 1 && states == [s, s']
  {
    hide NextThread;
    states, moves := [s, s'], [ThreadMove(t, step)];
  }

  lemma Takes(c: Config, s: State, t: Tid, next: Phase, todo: set<Lock>, l: Lock, locks: map<Lock, Tid>)
    requires t in s.threads && HasSnap(next) && next.snap.gen == s.gen && l in todo && l !in locks
    ensures NextThread(c, At(s, t, Locking(todo, next), locks),
                       At(s, t, if todo == {l} then next else Locking(todo - {l}, next), locks[l := t]), t, TakeLock(l))
  {
    hide Needs, Goto;
    var q := if todo == {l} then next else Locking(todo - {l}, next);
    assert s.threads[t := Locking(todo, next)][t := q] == s.threads[t := q];
  }

  /** All locks of the next phase, one after the other. */
  lemma TakesAll(c: Config, s: State, t: Tid, next: Phase, todo: set<Lock>, locks: map<Lock, Tid>)
    returns (states: seq<State>, moves: seq<Move>, held: map<Lock, Tid>)
    requires t in s.threads && HasSnap(next) && next.snap.gen == s.gen && todo != {} && todo <= Needs(c, next)
    requires locks.Keys == Needs(c, next) - todo
    ensures Follows(c, states, moves, t) && |states| == |moves| + 1
    ensures states[0] == At(s, t, Locking(todo, next), locks) && states[|moves|] == At(s, t, next, held)
    ensures held.Keys == Needs(c, next)
    decreases todo
  {
    hide Needs, NextThread, At, Follows, HasSnap;
    var l :| l in todo;
    Takes(c, s, t, next, todo, l, locks);
    var q := if todo == {l} then next else Locking(todo - {l}, next);
    var a, am := OneStep(c, At(s, t, Locking(todo, next), locks), At(s, t, q, locks[l := t]), t, TakeLock(l));
    held := locks[l := t];
    if todo == {l} {
      states, moves := a, am;
    } else {
      var k :| k in todo && k != l;
      assert k in todo - {l} && l !in todo - {l};
      var b, bm;
      b, bm, held := TakesAll(c, s, t, next, todo - {l}, locks[l := t]);
      states, moves := FollowsJoin(c, a, am, b, bm, t);
    }
  }

  /** From a phase that wants locks to the phase that holds them, when nobody holds a lock. */
  lemma LocksUp(c: Config, s: State, t: Tid, next: Phase)
    returns (states: seq<State>, moves: seq<Move>, held: map<Lock, Tid>)
    requires t in s.threads && (s.threads[t].Want? || s.threads[t].Moving?) && next == LockGoal(s.threads[t])
    requires HasSnap(next) && next.snap.gen == s.gen && Needs(c, next) != {} && s.locks == map[]
    ensures Follows(c, states, moves, t) && |states| == |moves| + 1
    ensures states[0] == s && states[|moves|] == At(s, t, next, held) && held.Keys == Needs(c, next)
  {
    var p := s.threads[t];
    assert Needs(c, p) == {};
    hide Needs, NextThread, Follows, HasSnap, LockGoal;
    var l := Locking(Needs(c, next), next);
    Starts(c, s, t);
    var a, am := OneStep(c, s, At(s, t, l, s.locks), t, StartLocking);
    var b, bm;
    b, bm, held := TakesAll(c, s, t, next, Needs(c, next), map[]);
    states, moves := FollowsJoin(c, a, am, b, bm, t);
  }

  lemma Starts(c: Config, s: State, t: Tid)
    requires t in s.threads && (s.threads[t].Want? || s.threads[t].Moving?) && Needs(c, s.threads[t]) == {}
    ensures var next := LockGoal(s.threads[t]);
            NextThread(c, s, At(s, t, Locking(Needs(c, next), next), s.locks), t, StartLocking)
  {
    hide Needs, LockGoal;
    var next := LockGoal(s.threads[t]);
    GotoAt(c, s, t, Locking(Needs(c, next), next));
  }

  /** An operation left alone gets both locks of its key under an up-to-date snapshot. */
  lemma CallReaches(c: Config, s: State, t: Tid, op: Op)
    returns (states: seq<State>, moves: seq<Move>, locks: map<Lock, Tid>)
    requires t in s.threads && s.threads[t] == Idle && s.locks == map[]
    ensures Follows(c, states, moves, t) && |states| == |moves| + 1 && states[0] == s
    ensures states[|moves|] == At(s, t, Looking(op, Snap(s.mask, s.gen)), locks)
  {
    hide NextThread, Follows, PairLocks, LockOf;
    var s1, s2 := At(s, t, Fresh(op), s.locks), At(s, t, PowerRead(op, s.mask), s.locks);
    Calls(c, s, t, op);
    var a, am := OneStep(c, s, s1, t, Call(op));
    var b, bm := OneStep(c, s1, s2, t, LoadPower);
    a, am := FollowsJoin(c, a, am, b, bm, t);
    b, bm, locks := TornLocks(c, s2, t, op, s.mask);
    FollowsFrom(c, b, bm, t);
    states, moves := FollowsJoin(c, a, am, b, bm, t);
    var look := Looking(op, Snap(s.mask, s.gen));
    assert s2.threads[t := look] == s.threads[t := look];
  }

  lemma Calls(c: Config, s: State, t: Tid, op: Op)
    requires t in s.threads && s.threads[t] == Idle
    ensures var s1, s2 := At(s, t, Fresh(op), s.locks), At(s, t, PowerRead(op, s.mask), s.locks);
            NextThread(c, s, s1, t, Call(op)) && NextThread(c, s1, s2, t, LoadPower)
  {
    var s1, s2 := At(s, t, Fresh(op), s.locks), At(s, t, PowerRead(op, s.mask), s.locks);
    GotoAt(c, s, t, Fresh(op));
    GotoAt(c, s1, t, PowerRead(op, s.mask));
    hide Goto;
    assert s1.threads[t := PowerRead(op, s.mask)] == s2.threads;
  }

  /** The path describes the table: every slot but the last holds a key of the hash seen there, the last is free, and
      no slot comes twice. */
  ghost predicate Accurate(c: Config, table: map<Pos, Entry>, path: seq<Hop>, depth: nat) {
    && depth < |path| && path[depth].pos !in table
    && (forall i :: 0 <= i < depth ==> path[i].pos in table && c.hash(table[path[i].pos].key) == path[i].hash)
    && (forall i, j :: 0 <= i < j <= depth ==> path[i].pos != path[j].pos)
  }

  /** Thread t is about to make hop `depth` of an accurate path for a key that is not stored; nobody holds a lock. */
  ghost predicate Hopping(c: Config, s: State, t: Tid, op: Op, snap: Snap, path: seq<Hop>, depth: nat) {
    && t in s.threads && s.threads[t] == Moving(op, snap, path, depth) && op.Insert? && snap == Snap(s.mask, s.gen)
    && s.locks == map[] && PathOk(c, op.key, s.mask, path) && Accurate(c, s.table, path, depth)
    && !InTable(s.table, op.key)
  }

  /** The path has been walked back to its first slot, which is free now. */
  ghost predicate Cleared(c: Config, s: State, s': State, t: Tid, op: Op, snap: Snap, path: seq<Hop>) {
    && |path| > 0 && t in s.threads
    && s' == s.(table := s'.table, locks := s'.locks, threads := s.threads[t := Freed(op, snap, path[0].pos)])
    && s'.table.Values == s.table.Values && path[0].pos !in s'.table
    && s'.locks.Keys == PairLocks(c, op.key, snap.mask)
  }

  lemma HopNeedsLocks(c: Config, op: Op, snap: Snap, path: seq<Hop>, depth: nat)
    requires depth < |path|
    ensures var next := LockGoal(Moving(op, snap, path, depth));
            HasSnap(next) && next.snap == snap && Needs(c, next) != {}
    ensures depth == 0 ==> Needs(c, Landing(op, snap, path)) == PairLocks(c, op.key, snap.mask)
  {
    hide PairLocks, LockOf;
    if depth == 0 {
      PairNotEmpty(c, op.key, snap.mask);
    } else {
      assert LockOf(path[depth].pos.bucket) in HopLocks(c, op, snap, path, depth);
    }
  }

  /** The last lock of a path: the slot is free. */
  lemma Lands(c: Config, s: State, t: Tid, op: Op, snap: Snap, path: seq<Hop>, locks: map<Lock, Tid>)
    requires t in s.threads && |path| > 0 && path[0].pos !in s.table
    ensures NextThread(c, At(s, t, Landing(op, snap, path), locks), At(s, t, Freed(op, snap, path[0].pos), locks), t,
                       Land)
  {
    hide PairLocks;
    var s1 := At(s, t, Landing(op, snap, path), locks);
    GotoAt(c, s1, t, Freed(op, snap, path[0].pos));
    assert s1.threads[t := Freed(op, snap, path[0].pos)] == s.threads[t := Freed(op, snap, path[0].pos)];
  }

  /** A hop along an accurate path moves the key, and the rest of the path is still accurate. */
  lemma HopsOnce(c: Config, s: State, t: Tid, op: Op, snap: Snap, path: seq<Hop>, depth: nat, held: map<Lock, Tid>)
    returns (s': State)
    requires Hopping(c, s, t, op, snap, path, depth) && depth > 0
    requires held.Keys == Needs(c, Swapping(op, snap, path, depth))
    ensures NextThread(c, At(s, t, Swapping(op, snap, path, depth), held), s', t, Hop1)
    ensures s'.table.Values == s.table.Values
    ensures depth > 1 ==> s' == s.(table := s'.table, threads := s.threads[t := Moving(op, snap, path, depth - 1)])
    ensures depth > 1 ==> Accurate(c, s'.table, path, depth - 1)
    ensures depth == 1 ==> Cleared(c, s, s', t, op, snap, path)
  {
    hide PathOk, InTable, PairLocks, LockOf;
    var p := Swapping(op, snap, path, depth);
    var from, to := path[depth - 1].pos, path[depth].pos;
    var s1 := At(s, t, p, held);
    var table' := (s.table - {from})[to := s.table[from]];
    assert !Stale(c, s1, p);
    HopValues(s.table, from, to);
    s' := Goto(c, s1, t, AfterHop(p)).(table := table');
    HopHappens(c, s1, s', t);
    HopReleases(c, s, t, p, held);
  }

  lemma HopReleases(c: Config, s: State, t: Tid, p: Phase, held: map<Lock, Tid>)
    requires t in s.threads && p.Swapping? && 0 < p.depth < |p.path| && held.Keys == Needs(c, p)
    ensures var q, g := AfterHop(p), Goto(c, At(s, t, p, held), t, AfterHop(p));
            && g.threads == s.threads[t := q]
            && (p.depth > 1 ==> g.locks == map[])
            && (p.depth == 1 ==> g.locks.Keys == PairLocks(c, p.op.key, p.snap.mask))
  {
    hide PairLocks, LockOf;
    var g := Goto(c, At(s, t, p, held), t, AfterHop(p));
    assert s.threads[t := p][t := AfterHop(p)] == s.threads[t := AfterHop(p)];
    if p.depth > 1 {
      assert g.locks.Keys == {};
    } else {
      assert g.locks.Keys == PairLocks(c, p.op.key, p.snap.mask);
    }
  }

  /** All hops of an accurate path. */
  lemma {:induction false} PathClears(c: Config, s: State, t: Tid, op: Op, snap: Snap, path: seq<Hop>, depth: nat)
    returns (states: seq<State>, moves: seq<Move>)
    requires Hopping(c, s, t, op, snap, path, depth)
    ensures Follows(c, states, moves, t) && |states| == |moves| + 1 && states[0] == s
    ensures Cleared(c, s, states[|moves|], t, op, snap, path)
    decreases depth
  {
    hide PathOk, InTable, NextThread, Follows, Needs, LockGoal, HasSnap;
    HopNeedsLocks(c, op, snap, path, depth);
    var next := LockGoal(s.threads[t]);
    var a, am, held := LocksUp(c, s, t, next);
    assert next == if depth == 0 then Landing(op, snap, path) else Swapping(op, snap, path, depth) by {
      GoalOfMoving(op, snap, path, depth);
    }
    if depth == 0 {
      Lands(c, s, t, op, snap, path, held);
      var b, bm := OneStep(c, At(s, t, next, held), At(s, t, Freed(op, snap, path[0].pos), held), t, Land);
      states, moves := FollowsJoin(c, a, am, b, bm, t);
    } else {
      var s' := HopsOnce(c, s, t, op, snap, path, depth, held);
      var b, bm := OneStep(c, At(s, t, next, held), s', t, Hop1);
      a, am := FollowsJoin(c, a, am, b, bm, t);
      if depth == 1 {
        states, moves := a, am;
      } else {
        SameStored(s.table, s'.table, op.key);
        b, bm := PathClears(c, s', t, op, snap, path, depth - 1);
        states, moves := FollowsJoin(c, a, am, b, bm, t);
        assert s'.threads[t := Freed(op, snap, path[0].pos)] == s.threads[t := Freed(op, snap, path[0].pos)];
      }
    }
  }

  lemma GoalOfMoving(op: Op, snap: Snap, path: seq<Hop>, depth: nat)
    ensures LockGoal(Moving(op, snap, path, depth)) ==
            if depth == 0 then Landing(op, snap, path) else Swapping(op, snap, path, depth)
  {}

  lemma SameStored(a: map<Pos, Entry>, b: map<Pos, Entry>, key: Key)
    requires a.Values == b.Values
    ensures InTable(a, key) <==> InTable(b, key)
  {
    if p :| p in a && a[p].key == key {
      assert a[p] in b.Values;
    }
    if p :| p in b && b[p].key == key {
      assert b[p] in a.Values;
    }
  }

  /** An insertion that has found an accurate path, and is left alone, moves the keys out of the way and puts in its
      entry; no other entry changes and no lock stays behind. */
  lemma InsertionCompletes(c: Config, s: State, t: Tid, op: Op, snap: Snap, path: seq<Hop>, depth: nat)
    returns (states: seq<State>, moves: seq<Move>)
    requires Hopping(c, s, t, op, snap, path, depth)
    ensures Follows(c, states, moves, t) && |states| == |moves| + 1 && states[0] == s
    ensures var last := states[|moves|];
            && last.table.Values == s.table.Values + {Entry(op.key, op.value)}
            && last.threads == s.threads[t := Idle] && last.locks == map[] && last.mask == s.mask && last.gen == s.gen
  {
    hide InTable, NextThread, Follows, Needs, PathOk, Cleared;
    var a, am := PathClears(c, s, t, op, snap, path, depth);
    var s1 := a[|am|];
    ClearedFacts(c, s, s1, t, op, snap, path);
    SameStored(s.table, s1.table, op.key);
    var pos := path[0].pos;
    var s2, s3 := Finishes(c, s1, t, op, snap, pos);
    var b, bm := OneStep(c, s1, s2, t, Recheck);
    a, am := FollowsJoin(c, a, am, b, bm, t);
    b, bm := OneStep(c, s2, s3, t, Add);
    states, moves := FollowsJoin(c, a, am, b, bm, t);
    ValuesAfterAdd(s1.table, pos, Entry(op.key, op.value));
    assert s1.threads[t := Idle] == s.threads[t := Idle];
  }

  lemma ClearedFacts(c: Config, s: State, s': State, t: Tid, op: Op, snap: Snap, path: seq<Hop>)
    requires Cleared(c, s, s', t, op, snap, path)
    ensures |path| > 0 && t in s.threads && s'.threads == s.threads[t := Freed(op, snap, path[0].pos)]
    ensures s'.table.Values == s.table.Values && path[0].pos !in s'.table && s'.mask == s.mask && s'.gen == s.gen
    ensures s'.locks.Keys == PairLocks(c, op.key, snap.mask)
  {
    hide PairLocks;
  }

  lemma Finishes(c: Config, s: State, t: Tid, op: Op, snap: Snap, pos: Pos) returns (s2: State, s3: State)
    requires t in s.threads && s.threads[t] == Freed(op, snap, pos) && op.Insert? && !InTable(s.table, op.key)
    requires s.locks.Keys == PairLocks(c, op.key, snap.mask)
    ensures NextThread(c, s, s2, t, Recheck) && NextThread(c, s2, s3, t, Add)
    ensures s3.table == s.table[pos := Entry(op.key, op.value)] && s3.threads == s.threads[t := Idle]
    ensures s3.locks == map[] && s3.mask == s.mask && s3.gen == s.gen
  {
    s2 := At(s, t, Ready(op, snap, pos), s.locks);
    var l := LockOf(pos.bucket);
    s3 := s.(table := s.table[pos := Entry(op.key, op.value)], counters := s.counters[l := Counter(s, l) + 1],
             threads := s.threads[t := Idle], locks := map[]);
    Rechecks(c, s, t, op, snap, pos);
    Adds(c, s, t, op, snap, pos);
  }

  lemma Rechecks(c: Config, s: State, t: Tid, op: Op, snap: Snap, pos: Pos)
    requires t in s.threads && s.threads[t] == Freed(op, snap, pos) && op.Insert? && !InTable(s.table, op.key)
    ensures NextThread(c, s, At(s, t, Ready(op, snap, pos), s.locks), t, Recheck)
  {
    hide PairLocks, InPair, LockOf;
    assert !SeenInPair(c, s, op.key, snap.mask);
    hide SeenInPair, Goto;
    GotoAt(c, s, t, Ready(op, snap, pos));
  }

  lemma Adds(c: Config, s: State, t: Tid, op: Op, snap: Snap, pos: Pos)
    requires t in s.threads && op.Insert? && s.locks.Keys == PairLocks(c, op.key, snap.mask)
    ensures var l := LockOf(pos.bucket);
            var s3 := s.(table := s.table[pos := Entry(op.key, op.value)],
                         counters := s.counters[l := Counter(s, l) + 1], threads := s.threads[t := Idle],
                         locks := map[]);
            NextThread(c, At(s, t, Ready(op, snap, pos), s.locks), s3, t, Add)
  {
    hide PairLocks, LockOf;
    var s2 := At(s, t, Ready(op, snap, pos), s.locks);
    assert Needs(c, Ready(op, snap, pos)) - Needs(c, Idle) == PairLocks(c, op.key, snap.mask);
    assert (s2.locks - PairLocks(c, op.key, snap.mask)).Keys == {};
    assert s2.threads[t := Idle] == s.threads[t := Idle];
    assert Goto(c, s2, t, Idle) == At(s, t, Idle, map[]);
  }
}
