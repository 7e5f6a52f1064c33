/** The concurrent cuckoo hash map as a state machine: any number of threads find, insert and erase under
    bucket locks, drop the locks while they search for a displacement path, and re-take them hop by hop,
    while the table may be resized whenever no lock is held. */
module CuckooMap {
  import opened Wrappers
  import opened CuckooIndex

  type Key = int
  type Value = int
  type Tid = nat

  datatype Lock = Lock(ind: bv64)

  function LockOf(bucket: bv64): Lock {
    Lock(LockInd(bucket))
  }

  datatype Pos = Pos(bucket: bv64, slot: nat)
  datatype Entry = Entry(key: Key, value: Value)

  /** Table size and resize counter, loaded one after the other. */
  datatype Snap = Snap(mask: bv64, gen: nat)

  datatype Op = Find(key: Key) | Insert(key: Key, value: Value) | Erase(key: Key)

  /** One element of a displacement path: a slot and the hash of the key seen there. */
  datatype Hop = Hop(pos: Pos, hash: bv64)

  datatype Phase =
    | Idle
    | Fresh(op: Op)                                              // about to load the table size
    | PowerRead(op: Op, mask: bv64)                              // size loaded, counter not yet
    | Want(op: Op, snap: Snap)                                   // about to lock the two buckets
    | Locking(todo: set<Lock>, next: Phase)                      // taking the locks that `next` needs
    | Looking(op: Op, snap: Snap)                                // both buckets locked
    | Searching(op: Op, snap: Snap)                              // breadth-first search, nothing locked
    | Moving(op: Op, snap: Snap, path: seq<Hop>, depth: nat)     // about to lock for hop `depth`
    | Swapping(op: Op, snap: Snap, path: seq<Hop>, depth: nat)   // hop `depth` locked
    | Landing(op: Op, snap: Snap, path: seq<Hop>)                // path of length 0, both buckets locked
    | Freed(op: Op, snap: Snap, pos: Pos)                        // both buckets locked, pos is free
    | Ready(op: Op, snap: Snap, pos: Pos)                        // and the key is not in the table

  /** Hash function and slots per bucket are arbitrary. */
  datatype Config = Config(hash: Key -> bv64, slots: nat)

  datatype State = State(table: map<Pos, Entry>, mask: bv64, gen: nat,
                         locks: map<Lock, Tid>, counters: map<Lock, int>, threads: map<Tid, Phase>)

  function PairLocks(c: Config, key: Key, mask: bv64): set<Lock> {
    {LockOf(First(mask, c.hash(key))), LockOf(Second(mask, c.hash(key)))}
  }

  /** The locks a thread in this phase holds. */
  function Needs(c: Config, p: Phase): set<Lock> {
    match p
    case Looking(op, snap) => PairLocks(c, op.key, snap.mask)
    case Landing(op, snap, path) => PairLocks(c, op.key, snap.mask)
    case Freed(op, snap, pos) => PairLocks(c, op.key, snap.mask)
    case Ready(op, snap, pos) => PairLocks(c, op.key, snap.mask)
    case Swapping(op, snap, path, depth) => HopLocks(c, op, snap, path, depth)
    case Locking(todo, next) => Needs(c, next) - todo
    case _ => {}
  }

  /** A hop locks its two buckets; the last hop locks the insertion pair as well, which it then keeps. */
  function HopLocks(c: Config, op: Op, snap: Snap, path: seq<Hop>, depth: nat): set<Lock> {
    if 0 < depth < |path| then
      {LockOf(path[depth - 1].pos.bucket), LockOf(path[depth].pos.bucket)} +
      (if depth == 1 then PairLocks(c, op.key, snap.mask) else {})
    else {}
  }

  predicate HasSnap(p: Phase) {
    p.Want? || p.Looking? || p.Searching? || p.Moving? || p.Swapping? || p.Landing? || p.Freed? || p.Ready?
  }

  /** The path starts in one of the key's buckets and each hop leads to the alternate bucket. */
  predicate PathOk(c: Config, key: Key, mask: bv64, path: seq<Hop>) {
    && |path| > 0 && InPair(mask, c.hash(key), path[0].pos.bucket)
    && (forall i :: 0 <= i < |path| ==> path[i].pos.slot < c.slots)
    && (forall i :: 0 < i < |path| ==>
          path[i].pos.bucket == AltIndex(mask, PartialKey(path[i - 1].hash), path[i - 1].pos.bucket))
  }

  ghost predicate KeyAt(c: Config, s: State, key: Key, mask: bv64, pos: Pos) {
    pos in s.table && s.table[pos].key == key && InPair(mask, c.hash(key), pos.bucket)
  }

  /** Searching the two buckets of a key, as computed from a snapshot. */
  ghost predicate SeenInPair(c: Config, s: State, key: Key, mask: bv64) {
    exists pos :: KeyAt(c, s, key, mask, pos)
  }

  /** What cuckoo_find reports from the two buckets: the value at a position of the key, or nothing. */
  ghost predicate Answers(c: Config, s: State, key: Key, mask: bv64, found: Option<Value>) {
    match found
    case None => !SeenInPair(c, s, key, mask)
    case Some(v) => exists pos :: KeyAt(c, s, key, mask, pos) && s.table[pos].value == v
  }

  ghost predicate InTable(table: map<Pos, Entry>, key: Key) {
    exists pos :: pos in table && table[pos].key == key
  }

  function Counter(s: State, l: Lock): int {
    if l in s.counters then s.counters[l] else 0
  }

  /** A thread moves to a new phase; locks the new phase does not need are released. */
  function Goto(c: Config, s: State, t: Tid, p: Phase): State
    requires t in s.threads
  {
    s.(threads := s.threads[t := p], locks := s.locks - (Needs(c, s.threads[t]) - Needs(c, p)))
  }

  // ----- the steps

  datatype Step =
    | Call(op: Op)
    | LoadPower
    | LoadCounter
    | StartLocking
    | TakeLock(lock: Lock)
    | ReturnFind(found: Option<Value>)
    | EraseHit(pos: Pos)
    | EraseMiss
    | InsertDuplicate
    | InsertRoom(pos: Pos)
    | InsertFull
    | PathFound(path: seq<Hop>, depth: nat)
    | PathFailed
    | Land
    | Hop1
    | Recheck
    | Add

  /** The phase a thread wants to enter once it holds the locks for it. */
  function LockGoal(p: Phase): Phase {
    match p
    case Want(op, snap) => Looking(op, snap)
    case Moving(op, snap, path, depth) =>
      if depth == 0 then Landing(op, snap, path) else Swapping(op, snap, path, depth)
    case _ => Idle
  }

  ghost predicate NextThread(c: Config, s: State, s': State, t: Tid, step: Step) {
    t in s.threads && var p := s.threads[t];
    match step
    case Call(op) => p.Idle? && s' == Goto(c, s, t, Fresh(op))
    case LoadPower => p.Fresh? && s' == Goto(c, s, t, PowerRead(p.op, s.mask))
    case LoadCounter => p.PowerRead? && s' == Goto(c, s, t, Want(p.op, Snap(p.mask, s.gen)))
    case StartLocking => (p.Want? || p.Moving?) && s' == Goto(c, s, t, Locking(Needs(c, LockGoal(p)), LockGoal(p)))
    case TakeLock(l) =>
      && p.Locking? && l in p.todo && l !in s.locks && HasSnap(p.next)
      // after the first lock the resize counter is compared; a mismatch releases the lock and starts over
      && if p.todo == Needs(c, p.next) && p.next.snap.gen != s.gen then s' == Goto(c, s, t, Fresh(p.next.op))
         else s' == s.(locks := s.locks[l := t],
                       threads := s.threads[t := if p.todo == {l} then p.next else Locking(p.todo - {l}, p.next)])
    case ReturnFind(found) =>
      p.Looking? && p.op.Find? && Answers(c, s, p.op.key, p.snap.mask, found) && s' == Goto(c, s, t, Idle)
    case EraseHit(pos) =>
      && p.Looking? && p.op.Erase? && KeyAt(c, s, p.op.key, p.snap.mask, pos)
      && s' == Goto(c, s, t, Idle).(table := s.table - {pos},
                                    counters := s.counters[LockOf(pos.bucket) := Counter(s, LockOf(pos.bucket)) - 1])
    case EraseMiss => p.Looking? && p.op.Erase? && !SeenInPair(c, s, p.op.key, p.snap.mask) && s' == Goto(c, s, t, Idle)
    case InsertDuplicate =>
      && (p.Looking? || p.Freed?) && p.op.Insert? && SeenInPair(c, s, p.op.key, p.snap.mask)
      && s' == Goto(c, s, t, Idle)
    case InsertRoom(pos) =>
      && p.Looking? && p.op.Insert? && !SeenInPair(c, s, p.op.key, p.snap.mask)
      && InPair(p.snap.mask, c.hash(p.op.key), pos.bucket) && pos.slot < c.slots && pos !in s.table
      && s' == Goto(c, s, t, Ready(p.op, p.snap, pos))
    case InsertFull =>
      && p.Looking? && p.op.Insert? && !SeenInPair(c, s, p.op.key, p.snap.mask)
      && (forall pos: Pos :: pos.slot < c.slots && InPair(p.snap.mask, c.hash(p.op.key), pos.bucket) ==> pos in s.table)
      && s' == Goto(c, s, t, Searching(p.op, Snap(s.mask, s.gen)))
    case PathFound(path, depth) =>
      && p.Searching? && PathOk(c, p.op.key, p.snap.mask, path) && depth < |path|
      && s' == Goto(c, s, t, Moving(p.op, p.snap, path, depth))
    case PathFailed => p.Searching? && s' == Goto(c, s, t, Fresh(p.op))
    case Land =>
      && p.Landing? && |p.path| > 0
      && s' == Goto(c, s, t, if p.path[0].pos in s.table then Searching(p.op, p.snap)
                    else Freed(p.op, p.snap, p.path[0].pos))
    case Hop1 =>
      && p.Swapping? && 0 < p.depth < |p.path|
      && var from, to := p.path[p.depth - 1], p.path[p.depth];
      // the path may be stale: the hop is done only if it still describes the table
      if to.pos in s.table || from.pos !in s.table || c.hash(s.table[from.pos].key) != from.hash then
        s' == Goto(c, s, t, Searching(p.op, p.snap))
      else
        s' == Goto(c, s, t, if p.depth == 1 then Freed(p.op, p.snap, from.pos)
                   else Moving(p.op, p.snap, p.path, p.depth - 1))
              .(table := (s.table - {from.pos})[to.pos := s.table[from.pos]])
    case Recheck =>
      && p.Freed? && p.op.Insert? && !SeenInPair(c, s, p.op.key, p.snap.mask)
      && s' == Goto(c, s, t, Ready(p.op, p.snap, p.pos))
    case Add =>
      && p.Ready? && p.op.Insert?
      && s' == Goto(c, s, t, Idle).(table := s.table[p.pos := Entry(p.op.key, p.op.value)],
                                    counters := s.counters[LockOf(p.pos.bucket) :=
                                                             Counter(s, LockOf(p.pos.bucket)) + 1])
  }

  /** The same entries, wherever they sit. */
  ghost predicate SameEntries(a: map<Pos, Entry>, b: map<Pos, Entry>) {
    |a| == |b| && a.Values == b.Values
  }

  // ----- the invariant

  /** Every stored key sits in one of its two buckets. */
  ghost predicate Placed(c: Config, table: map<Pos, Entry>, mask: bv64) {
    forall p :: p in table ==> p.slot < c.slots && InPair(mask, c.hash(table[p].key), p.bucket)
  }

  /** No key is stored twice. */
  ghost predicate Unique(table: map<Pos, Entry>) {
    forall p, q :: p in table && q in table && table[p].key == table[q].key ==> p == q
  }

  ghost predicate HoldsLocks(c: Config, s: State) {
    && (forall t, l :: t in s.threads && l in Needs(c, s.threads[t]) ==> l in s.locks && s.locks[l] == t)
    && (forall l :: l in s.locks ==> s.locks[l] in s.threads && l in Needs(c, s.threads[s.locks[l]]))
  }

  /** The two sizes give the key the same two buckets. */
  predicate SamePair(hash: bv64, m: bv64, m': bv64) {
    || (First(m, hash) == First(m', hash) && Second(m, hash) == Second(m', hash))
    || (First(m, hash) == Second(m', hash) && Second(m, hash) == First(m', hash))
  }

  /** Phases that still use the size loaded at the start of the operation. */
  predicate FirstSnap(p: Phase) {
    p.Want? || p.Looking? || p.Ready?
  }

  /** A snapshot that is up to date by its counter gives the right buckets. */
  ghost predicate SnapOk(c: Config, s: State, p: Phase)
    requires HasSnap(p)
  {
    && p.snap.gen <= s.gen
    && (p.snap.gen == s.gen ==>
          if FirstSnap(p) then SamePair(c.hash(p.op.key), p.snap.mask, s.mask) else p.snap.mask == s.mask)
  }

  ghost predicate PhaseInv(c: Config, s: State, p: Phase) {
    && (HasSnap(p) ==> SnapOk(c, s, p))
    && (Needs(c, p) != {} && HasSnap(p) ==> p.snap.gen == s.gen)
    && match p
       case Locking(todo, next) =>
         && HasSnap(next) && !next.Freed? && !next.Ready? && todo <= Needs(c, next) && todo != {}
         && PhaseInvAt(c, s, next) && (todo != Needs(c, next) ==> next.snap.gen == s.gen)
       case _ => PhaseInvAt(c, s, p)
  }

  ghost predicate PhaseInvAt(c: Config, s: State, p: Phase) {
    && (HasSnap(p) ==> SnapOk(c, s, p))
    && match p
       case Moving(op, snap, path, depth) => PathOk(c, op.key, snap.mask, path) && depth < |path|
       case Swapping(op, snap, path, depth) => PathOk(c, op.key, snap.mask, path) && 0 < depth < |path|
       case Landing(op, snap, path) => PathOk(c, op.key, snap.mask, path)
       case Freed(op, snap, pos) => PosFree(c, s, op, snap, pos)
       case Ready(op, snap, pos) => PosFree(c, s, op, snap, pos) && !InTable(s.table, op.key)
       case _ => true
  }

  ghost predicate PosFree(c: Config, s: State, op: Op, snap: Snap, pos: Pos) {
    pos !in s.table && InPair(snap.mask, c.hash(op.key), pos.bucket) && pos.slot < c.slots
  }

  ghost predicate ThreadsInv(c: Config, s: State) {
    forall t :: t in s.threads ==> PhaseInv(c, s, s.threads[t])
  }

  ghost predicate Inv(c: Config, s: State) {
    && IsMask(s.mask) && Placed(c, s.table, s.mask) && Unique(s.table)
    && HoldsLocks(c, s) && ThreadsInv(c, s)
    && Sum(s.counters) == |s.table|
  }

  // ----- sums of counters

  ghost function Sum(m: map<Lock, int>): int
    decreases |m|
  {
    if m.Keys == {} then 0 else
    var l :| l in m.Keys; m[l] + Sum(m - {l})
  }

  lemma {:induction false} SumRemove(m: map<Lock, int>, l: Lock)
    requires l in m
    ensures Sum(m) == m[l] + Sum(m - {l})
    decreases |m|
  {
    var k :| k in m.Keys && Sum(m) == m[k] + Sum(m - {k});
    if k != l {
      SumRemove(m - {k}, l);
      SumRemove(m - {l}, k);
      assert m - {k} - {l} == m - {l} - {k};
    }
  }

  lemma SumUpdate(m: map<Lock, int>, l: Lock, v: int)
    ensures Sum(m[l := v]) == Sum(m) - (if l in m then m[l] else 0) + v
  {
    var u := m[l := v];
    SumRemove(u, l);
    if l in m {
      SumRemove(m, l);
      assert u - {l} == m - {l};
    } else {
      assert u - {l} == m;
    }
  }
}
