/** What the lookup protocol brings about: lookups go on, answers warm the cache, pushes arrive. */
module ProtocolProgress {
  import opened Wrappers
  import opened SortedRecords
  import opened RangeMap
  import opened Protocol
  import opened ProtocolSafety

  // ----- lookups go on

  /** Actions that bring lookups forward; all but CloudFails are without failure. */
  predicate Advances(a: Action) {
    || a.EndReads? || (a.HandlerReads? && a.connected) || a.HandlerReplies? || a.CloudAccepts? || a.CloudLocks?
    || a.CloudReads? || a.CloudFails? || a.EdgeServes?
  }

  /** The worker of a connection can go on, or the holder of the lock it waits for can. */
  lemma WorkerGoesOn(cfg: Config, s: State, c: nat) returns (a: Action)
    requires Inv(cfg, s) && c < |s.conns| && !s.conns[c].pc.Replied?
    ensures Enabled(cfg, s, a) && Advances(a)
  {
    hide Inv, Locate, EdgeOf, Remote, SameEdge, IsHotList, EdgeFind;
    ConnAt(cfg, s, c);
    match s.conns[c].pc
    case Accepting => a := CloudAccepts(c);
    case Locking(d) =>
      if s.controls[d].holder.None? {
        a := CloudLocks(c);
      } else {
        ControlAt(cfg, s, d);
        a := HolderGoesOn(cfg, s, s.controls[d].holder.value, d);
      }
    case Reading(d) => a := HolderGoesOn(cfg, s, c, d);
  }

  lemma HolderGoesOn(cfg: Config, s: State, c: nat, d: nat) returns (a: Action)
    requires Inv(cfg, s) && d < |s.controls| && s.controls[d].holder == Some(c)
    ensures Enabled(cfg, s, a) && Advances(a)
  {
    hide Inv, Locate, EdgeOf, Remote, SameEdge, IsHotList, EdgeFind, Right, ToEdgeOk;
    ControlAt(cfg, s, d);
    var ctl := s.controls[d];
    if !ctl.alive {
      a := CloudFails(c);
    } else if ctl.fromEdge != [] {
      a := CloudReads(c);
    } else {
      a := EdgeServes(d, true);
    }
  }

  /** In every interleaving, while an End waits, some action that brings lookups forward is possible. */
  lemma NoLookupIsStuck(cfg: Config, states: seq<State>, actions: seq<Action>, i: nat, n: int) returns (a: Action)
    requires ConfigOk(cfg) && Run(cfg, states, actions) && i < |states|
    requires n in states[i].sessions && states[i].sessions[n].alive && states[i].sessions[n].wait.Some?
    ensures Enabled(cfg, states[i], a) && Advances(a)
  {
    var s := states[i];
    RunsKeep(cfg, states, actions, i);
    hide Run, Inv, ConfigOk, Locate, EdgeOf, Remote, SameEdge, IsHotList, EdgeFind, Asks, HotOk, UpOk, DownOk;
    SessionAt(cfg, s, n);
    var ses := s.sessions[n];
    if ses.serving.Some? {
      var c := ses.serving.value;
      if s.conns[c].pc.Replied? {
        a := HandlerReplies(n);
      } else {
        a := WorkerGoesOn(cfg, s, c);
      }
    } else if Reqs(ses.up) != [] {
      a := HandlerReads(n, true);
    } else {
      a := EndReads(n);
    }
  }

  /** Every lookup an End may begin has its stage: its own tree, the hot cache, no range at all, a broken connection, a
      sibling by the Edge, or another Edge by the Cloud. */
  lemma EveryKeyHasAStage(cfg: Config, s: State, n: int, k: real, slot: int, id: nat)
    requires n in s.sessions && s.sessions[n].wait.None? && (Locate(cfg.ends, k) == -1 || Locate(cfg.ends, k) >= 0)
    ensures Locate(cfg.ends, k) == n ==> Enabled(cfg, s, LocalLookup(n, k))
    ensures Locate(cfg.ends, k) != n && k in s.sessions[n].hot ==> Enabled(cfg, s, HotLookup(n, k))
    ensures Locate(cfg.ends, k) == -1 && k !in s.sessions[n].hot ==> Enabled(cfg, s, Nowhere(n, k))
    ensures Locate(cfg.ends, k) >= 0 && Locate(cfg.ends, k) != n ==>
              if !s.sessions[n].alive then Enabled(cfg, s, Disconnected(n, k))
              else if SameEdge(cfg.ends, Locate(cfg.ends, k), n) then Enabled(cfg, s, SendFetch(n, k, slot))
              else Enabled(cfg, s, SendCross(n, k, id))
  {
    hide Locate, SameEdge, EdgeFind;
  }

  // ----- caches

  /** An answer from another process is in the hot cache afterwards. */
  lemma AnswersWarm(cfg: Config, states: seq<State>, actions: seq<Action>, i: nat)
    requires Run(cfg, states, actions) && i < |actions| && (actions[i].EndReads? || actions[i].SnapshotHit?)
    ensures Enabled(cfg, states[i], actions[i])
    ensures var ev := Next(cfg, states[i], actions[i]).1;
            ev.Answer? && ev.found ==>
              && ev.end in states[i + 1].sessions && ev.key in states[i + 1].sessions[ev.end].hot
              && states[i + 1].sessions[ev.end].hot[ev.key] == ev.payload
  {
    hide Locate, EdgeOf, EdgeFind, Merge, Init, SameEdge;
    assert Enabled(cfg, states[i], actions[i]) && Moves(cfg, states, actions[i], i);
  }

  /** A pushed list leaves the keys it does not name alone ... */
  lemma {:induction false} MergeMisses(hot: map<real, nat>, pairs: seq<Entry>, k: real)
    requires forall j :: 0 <= j < |pairs| ==> pairs[j].key != k
    ensures (k in Merge(hot, pairs) <==> k in hot) && (k in hot ==> Merge(hot, pairs)[k] == hot[k])
    decreases |pairs|
  {
    if pairs != [] {
      MergeMisses(hot[pairs[0].key := pairs[0].payload], pairs[1..], k);
    }
  }

  /** ... and the last pair for a key is what the cache holds afterwards. */
  lemma {:induction false} MergeHits(hot: map<real, nat>, pairs: seq<Entry>, j: nat)
    requires j < |pairs| && forall x :: j < x < |pairs| ==> pairs[x].key != pairs[j].key
    ensures pairs[j].key in Merge(hot, pairs) && Merge(hot, pairs)[pairs[j].key] == pairs[j].payload
    decreases |pairs|
  {
    var hot' := hot[pairs[0].key := pairs[0].payload];
    if j == 0 {
      MergeMisses(hot', pairs[1..], pairs[0].key);
    } else {
      MergeHits(hot', pairs[1..], j - 1);
    }
  }

  /** A list the Cloud pushed goes on to the End it is meant for, unless that End is not there ... */
  lemma PushGoesDown(cfg: Config, states: seq<State>, actions: seq<Action>, i: nat, d: nat)
    requires Run(cfg, states, actions) && i < |actions| && actions[i] == EdgeServes(d, true)
    requires d < |states[i].controls| && |states[i].controls[d].toEdge| > 0
    requires states[i].controls[d].toEdge[0].HotUpdate?
    ensures var f := states[i].controls[d].toEdge[0];
            f.target in states[i].sessions && states[i].sessions[f.target].alive ==>
              && f.target in states[i + 1].sessions
              && states[i + 1].sessions[f.target].down == states[i].sessions[f.target].down + [f]
  {
    hide Locate, EdgeOf, Init, Respond;
    assert Enabled(cfg, states[i], actions[i]) && Moves(cfg, states, actions[i], i);
  }

  /** ... and every pair of it is in the hot cache once the End has read it. */
  lemma PushArrives(cfg: Config, states: seq<State>, actions: seq<Action>, i: nat, n: int, e: Entry)
    requires ConfigOk(cfg) && Run(cfg, states, actions) && i < |actions| && actions[i] == EndReads(n)
    requires n in states[i].sessions && |states[i].sessions[n].down| > 0 && states[i].sessions[n].down[0].HotUpdate?
    requires e in states[i].sessions[n].down[0].pairs
    ensures n in states[i + 1].sessions && e.key in states[i + 1].sessions[n].hot
    ensures states[i + 1].sessions[n].hot[e.key] == e.payload
  {
    RunsKeep(cfg, states, actions, i);
    hide Inv, ConfigOk, Locate, EdgeOf, Init, Merge;
    assert Enabled(cfg, states[i], actions[i]) && Moves(cfg, states, actions[i], i);
    var ses := states[i].sessions[n];
    SessionAt(cfg, states[i], n);
    QueuesRest(cfg, n, [], ses.down);
    PushedPair(cfg, ses.hot, n, ses.down[0].pairs, e);
  }

  lemma PushedPair(cfg: Config, hot: map<real, nat>, n: int, pairs: seq<Entry>, e: Entry)
    requires ConfigOk(cfg) && IsHotList(cfg, n, pairs) && e in pairs
    ensures e.key in Merge(hot, pairs) && Merge(hot, pairs)[e.key] == e.payload
  {
    hide ConfigOk, Locate, Merge;
    var j := LastOf(pairs, e.key);
    MergeHits(hot, pairs, j);
    DataIsPayload(cfg, e);
    DataIsPayload(cfg, pairs[j]);
  }

  lemma {:induction false} LastOf(pairs: seq<Entry>, k: real) returns (j: nat)
    requires exists i :: 0 <= i < |pairs| && pairs[i].key == k
    ensures j < |pairs| && pairs[j].key == k && forall x :: j < x < |pairs| ==> pairs[x].key != k
  {
    var n := |pairs| - 1;
    if pairs[n].key == k {
      j := n;
    } else {
      j := LastOf(pairs[..n], k);
    }
  }
}
