/** The structure-modification lock: one word holds a writer bit and a count of readers. */
module SmoLock {
  const LOCK_SET := 0x8000_0000
  const WORD := 0x1_0000_0000

  /** Where a thread is in get_write_lock, try_get_read_lock or between calls; `seen` is its last load. */
  datatype Pc =
    | Idle
    | ReadLoad | ReadTry(seen: nat) | Reading
    | WriteLoad | WriteTry(seen: nat) | Draining | Writing

  datatype State = State(word: nat, threads: seq<Pc>)

  predicate WriterBit(v: nat) {
    v / LOCK_SET % 2 == 1
  }

  function ReaderBits(v: nat): nat {
    v % LOCK_SET
  }

  predicate Init(s: State) {
    s.word == 0 && forall t :: 0 <= t < |s.threads| ==> s.threads[t] == Idle
  }

  /** One atomic action of thread t. A compare-and-swap may also fail spuriously. */
  predicate Step(s: State, s': State, t: nat) {
    && t < |s.threads| && |s'.threads| == |s.threads|
    && s'.threads == s.threads[t := s'.threads[t]]
    && Moves(s.word, s.threads[t], s'.word, s'.threads[t])
  }

  predicate Moves(word: nat, pc: Pc, word': nat, pc': Pc) {
    match pc
    case Idle => word' == word && (pc' == ReadLoad || pc' == WriteLoad)
    case ReadLoad => word' == word && pc' == if WriterBit(word) then Idle else ReadTry(word)
    case ReadTry(v) =>
      || (word == v && word' == (v + 1) % WORD && pc' == Reading)
      || (word' == word && pc' == ReadLoad)
    case Reading => word' == (word + WORD - 1) % WORD && pc' == Idle
    case WriteLoad => word' == word && pc' == if WriterBit(word) then Idle else WriteTry(word)
    case WriteTry(v) =>
      || (word == v && word' == (if WriterBit(v) then v else v + LOCK_SET) && pc' == Draining)
      || (word' == word && pc' == WriteLoad)
    case Draining => word' == word && pc' == if ReaderBits(word) == 0 then Writing else Draining
    case Writing => word' == 0 && pc' == Idle
  }

  predicate Owns(pc: Pc) {
    pc == Draining || pc == Writing
  }

  function Readers(threads: seq<Pc>): (n: nat)
    ensures n <= |threads|
  {
    if threads == [] then 0
    else Readers(threads[..|threads| - 1]) + if threads[|threads| - 1] == Reading then 1 else 0
  }

  function Owners(threads: seq<Pc>): nat {
    if threads == [] then 0
    else Owners(threads[..|threads| - 1]) + if Owns(threads[|threads| - 1]) then 1 else 0
  }

  lemma {:induction false} CountsUpdate(threads: seq<Pc>, t: nat, pc: Pc)
    requires t < |threads|
    ensures Readers(threads[t := pc]) ==
            Readers(threads) - (if threads[t] == Reading then 1 else 0) + if pc == Reading then 1 else 0
    ensures Owners(threads[t := pc]) ==
            Owners(threads) - (if Owns(threads[t]) then 1 else 0) + if Owns(pc) then 1 else 0
  {
    var n := |threads| - 1;
    var u := threads[t := pc];
    if t == n {
      assert u[..n] == threads[..n];
    } else {
      CountsUpdate(threads[..n], t, pc);
      assert u[..n] == threads[..n][t := pc];
    }
  }

  lemma {:induction false} NoneCounted(threads: seq<Pc>)
    requires forall t :: 0 <= t < |threads| ==> threads[t] == Idle
    ensures Readers(threads) == 0 && Owners(threads) == 0
  {
    if threads != [] {
      NoneCounted(threads[..|threads| - 1]);
    }
  }

  /** A thread in the critical section is counted; two owners are counted twice. */
  lemma {:induction false} Counted(threads: seq<Pc>, t: nat)
    requires t < |threads|
    ensures threads[t] == Reading ==> Readers(threads) >= 1
    ensures Owns(threads[t]) ==> Owners(threads) >= 1
  {
    if t < |threads| - 1 {
      Counted(threads[..|threads| - 1], t);
    }
  }

  lemma {:induction false} TwoOwners(threads: seq<Pc>, t: nat, u: nat)
    requires t < u < |threads| && Owns(threads[t]) && Owns(threads[u])
    ensures Owners(threads) >= 2
  {
    if u == |threads| - 1 {
      Counted(threads[..u], t);
    } else {
      TwoOwners(threads[..|threads| - 1], t, u);
    }
  }

  /** The word is the writer bit plus the number of readers, and a writer that got the lock has no company. */
  ghost predicate Inv(s: State) {
    && Owners(s.threads) <= 1
    && s.word == LOCK_SET * Owners(s.threads) + Readers(s.threads)
    && ((exists t :: 0 <= t < |s.threads| && s.threads[t] == Writing) ==> Readers(s.threads) == 0)
    && (forall t :: 0 <= t < |s.threads| ==> SeenFree(s.threads[t]))
  }

  /** Only a word without the writer bit is ever offered to a compare-and-swap. */
  predicate SeenFree(pc: Pc) {
    (pc.ReadTry? || pc.WriteTry?) ==> !WriterBit(pc.seen)
  }

  lemma WordBits(owners: nat, readers: nat)
    requires owners <= 1 && readers < LOCK_SET
    ensures var v := LOCK_SET * owners + readers;
            v < WORD && (WriterBit(v) <==> owners == 1) && ReaderBits(v) == readers
  {
  }

  /** What one action does to the word is what it does to the counts. */
  lemma MoveCounts(owners: nat, readers: nat, word: nat, pc: Pc, word': nat, pc': Pc)
    requires owners <= 1 && readers < LOCK_SET && word == LOCK_SET * owners + readers
    requires Moves(word, pc, word', pc') && SeenFree(pc)
    requires (pc == Reading ==> readers >= 1) && (Owns(pc) ==> owners >= 1) && (pc == Writing ==> readers == 0)
    ensures var owners' := owners - (if Owns(pc) then 1 else 0) + if Owns(pc') then 1 else 0;
            var readers' := readers - (if pc == Reading then 1 else 0) + if pc' == Reading then 1 else 0;
            && owners' <= 1 && word' == LOCK_SET * owners' + readers' && SeenFree(pc')
            && (pc' == Writing ==> readers' == 0) && (pc' == Reading ==> owners == 0)
  {
    WordBits(owners, readers);
    hide WriterBit, ReaderBits;
  }

  lemma StepKeeps(s: State, s': State, t: nat)
    requires Inv(s) && Step(s, s', t) && |s.threads| < LOCK_SET
    ensures Inv(s')
  {
    var pc, pc' := s.threads[t], s'.threads[t];
    hide WriterBit, ReaderBits, Readers, Owners, Moves, SeenFree;
    CountsUpdate(s.threads, t, pc');
    Counted(s.threads, t);
    assert SeenFree(pc);
    MoveCounts(Owners(s.threads), Readers(s.threads), s.word, pc, s'.word, pc');
    if exists u :: 0 <= u < |s'.threads| && s'.threads[u] == Writing {
      var u :| 0 <= u < |s'.threads| && s'.threads[u] == Writing;
      if u != t {
        assert s.threads[u] == Writing;
        Counted(s.threads, u);
      }
    }
  }

  /** Every interleaving of any number of threads below 2^31. */
  ghost predicate Run(states: seq<State>, actors: seq<nat>) {
    && |states| == |actors| + 1 && Init(states[0])
    && forall i :: 0 <= i < |actors| ==> Step(states[i], states[i + 1], actors[i])
  }

  lemma {:induction false} RunsKeep(states: seq<State>, actors: seq<nat>, i: nat)
    requires Run(states, actors) && i < |states| && |states[0].threads| < LOCK_SET
    ensures |states[i].threads| == |states[0].threads| && Inv(states[i])
  {
    if i == 0 {
      NoneCounted(states[0].threads);
    } else {
      RunsKeep(states, actors, i - 1);
      assert Step(states[i - 1], states[i - 1 + 1], actors[i - 1]);
      StepKeeps(states[i - 1], states[i], actors[i - 1]);
    }
  }

  /** In every state of every run, the word counts exactly, and a writer that returned true is alone. */
  lemma WriterIsAlone(states: seq<State>, actors: seq<nat>, i: nat, t: nat, u: nat)
    requires Run(states, actors) && i < |states| && |states[0].threads| < LOCK_SET
    requires t < |states[i].threads| && u < |states[i].threads| && t != u && states[i].threads[t] == Writing
    ensures states[i].threads[u] != Reading && !Owns(states[i].threads[u])
    ensures states[i].word == LOCK_SET
  {
    RunsKeep(states, actors, i);
    var threads := states[i].threads;
    Counted(threads, t);
    Counted(threads, u);
    if Owns(threads[u]) {
      TwoOwners(threads, if t < u then t else u, if t < u then u else t);
    }
  }

  /** While a writer waits or writes, no step lets a reader in. */
  lemma NoReaderEnters(states: seq<State>, actors: seq<nat>, i: nat, w: nat)
    requires Run(states, actors) && i < |actors| && |states[0].threads| < LOCK_SET
    requires w < |states[i].threads| && Owns(states[i].threads[w])
    ensures Readers(states[i + 1].threads) <= Readers(states[i].threads)
    ensures forall t :: 0 <= t < |states[i].threads| && states[i + 1].threads[t] == Reading ==>
              states[i].threads[t] == Reading
  {
    RunsKeep(states, actors, i);
    var s, s', t := states[i], states[i + 1], actors[i];
    assert Step(s, s', t);
    Counted(s.threads, w);
    WordBits(Owners(s.threads), Readers(s.threads));
    CountsUpdate(s.threads, t, s'.threads[t]);
    assert SeenFree(s.threads[t]);
    hide WriterBit, ReaderBits;
  }

  lemma {:induction false} CountedBy(threads: seq<Pc>)
    ensures Owners(threads) >= 1 <==> exists t :: 0 <= t < |threads| && Owns(threads[t])
    ensures Readers(threads) >= 1 <==> exists t :: 0 <= t < |threads| && threads[t] == Reading
  {
    if threads != [] {
      var front, last := threads[..|threads| - 1], threads[|threads| - 1];
      CountedBy(front);
      assert threads[|threads| - 1] == last;
      if t :| 0 <= t < |front| && Owns(front[t]) {
        assert Owns(threads[t]);
      }
      if t :| 0 <= t < |front| && front[t] == Reading {
        assert threads[t] == Reading;
      }
    }
  }

  /** A call that has loaded the word gives up exactly when some thread waits to write or writes, and a waiting writer
      goes on waiting exactly when some thread reads. */
  lemma RefusedByOwner(states: seq<State>, actors: seq<nat>, i: nat)
    requires Run(states, actors) && i < |actors| && |states[0].threads| < LOCK_SET
    ensures actors[i] < |states[i].threads| == |states[i + 1].threads|
    ensures var s, pc, pc' := states[i], states[i].threads[actors[i]], states[i + 1].threads[actors[i]];
            && (pc.ReadLoad? || pc.WriteLoad? ==>
                  (pc'.Idle? <==> exists w :: 0 <= w < |s.threads| && Owns(s.threads[w])))
            && (pc.Draining? ==>
                  (pc'.Draining? <==> exists r :: 0 <= r < |s.threads| && s.threads[r] == Reading))
  {
    RunsKeep(states, actors, i);
    var s := states[i];
    assert Step(s, states[i + 1], actors[i]);
    WordBits(Owners(s.threads), Readers(s.threads));
    CountedBy(s.threads);
    hide WriterBit, ReaderBits, Owners, Readers;
  }

  /** Thread t alone, with this word and at this point. */
  function Alone(s: State, t: nat, word: nat, pc: Pc): State
    requires t < |s.threads|
  {
    State(word, s.threads[t := pc])
  }

  /** When nobody waits to write or writes, a reader that is left alone gets in. */
  lemma ReaderGetsIn(s: State, t: nat)
    requires Inv(s) && |s.threads| < LOCK_SET && t < |s.threads| && s.threads[t] == ReadLoad
    requires forall w :: 0 <= w < |s.threads| ==> !Owns(s.threads[w])
    ensures s.word + 1 < WORD
    ensures Step(s, Alone(s, t, s.word, ReadTry(s.word)), t)
    ensures Step(Alone(s, t, s.word, ReadTry(s.word)), Alone(s, t, s.word + 1, Reading), t)
  {
    CountedBy(s.threads);
    WordBits(Owners(s.threads), Readers(s.threads));
    hide WriterBit, ReaderBits, Owners, Readers;
    var s1 := Alone(s, t, s.word, ReadTry(s.word));
    assert s1.threads[t := Reading] == s.threads[t := Reading];
  }

  /** When nobody is in, a writer that is left alone gets the lock. */
  lemma WriterGetsIn(s: State, t: nat)
    requires Inv(s) && |s.threads| < LOCK_SET && t < |s.threads| && s.threads[t] == WriteLoad
    requires forall w :: 0 <= w < |s.threads| ==> !Owns(s.threads[w]) && s.threads[w] != Reading
    ensures s.word == 0
    ensures Step(s, Alone(s, t, 0, WriteTry(0)), t)
    ensures Step(Alone(s, t, 0, WriteTry(0)), Alone(s, t, LOCK_SET, Draining), t)
    ensures Step(Alone(s, t, LOCK_SET, Draining), Alone(s, t, LOCK_SET, Writing), t)
  {
    CountedBy(s.threads);
    WordBits(0, 0);
    WordBits(1, 0);
    hide WriterBit, ReaderBits, Owners, Readers;
    var s1, s2 := Alone(s, t, 0, WriteTry(0)), Alone(s, t, LOCK_SET, Draining);
    assert s1.threads[t := Draining] == s2.threads && s2.threads[t := Writing] == s.threads[t := Writing];
  }

  /** The bound on the threads is exact: the 2^31st reader sets the writer bit although nobody owns the lock. */
  lemma ReadersOverflow(s: State, s': State, t: nat)
    requires Inv(s) && s.word < WORD && Step(s, s', t) && Owners(s.threads) == 0
    requires s.threads[t] != Reading && s'.threads[t] == Reading
    ensures WriterBit(s'.word) <==> Readers(s'.threads) == LOCK_SET
    ensures Owners(s'.threads) == 0
  {
    assert SeenFree(s.threads[t]);
    CountsUpdate(s.threads, t, s'.threads[t]);
    SeenBelow(s.word);
  }

  lemma SeenBelow(v: nat)
    requires !WriterBit(v)
    ensures v + 1 < WORD && v < WORD ==> (WriterBit(v + 1) <==> v + 1 == LOCK_SET)
  {
  }
}
