/** Safety of the lookup protocol in every interleaving. */
module ProtocolSafety {
  import opened Wrappers
  import opened SortedRecords
  import opened RangeMap
  import opened Protocol

  /** Uniquely named Ends, each managed by its own Edge; no key twice. */
  ghost predicate ConfigOk(cfg: Config) {
    && UniqueIds(cfg.ends)
    && (forall m :: 0 <= m < |cfg.ends| ==> IsManaged(cfg, cfg.ends[m]))
    && (forall i, j :: 0 <= i < j < |cfg.data| ==> cfg.data[i].key != cfg.data[j].key)
  }

  ghost predicate IsManaged(cfg: Config, e: EndInfo) {
    e.id >= 0 && e.edge >= 0 && e.edge in cfg.managed && e.id in cfg.managed[e.edge]
  }

  // ----- facts about the configuration

  /** Where a routable key lives. */
  lemma Home(cfg: Config, k: real) returns (m: nat)
    requires ConfigOk(cfg) && Locate(cfg.ends, k) != -1
    ensures m < |cfg.ends| && cfg.ends[m].id == Locate(cfg.ends, k) >= 0 && Contains(cfg.ends[m], k)
    ensures EdgeOf(cfg.ends, Locate(cfg.ends, k)) == cfg.ends[m].edge >= 0
    ensures cfg.ends[m].edge in cfg.managed && cfg.ends[m].id in cfg.managed[cfg.ends[m].edge]
  {
    m := Search(cfg.ends, k, 0, |cfg.ends| - 1);
    assert IsManaged(cfg, cfg.ends[m]);
    EdgeOfIs(cfg.ends, m);
  }

  /** The Edge of the End a key is routed to holds everything the dataset has for it. */
  lemma EdgeIsExact(cfg: Config, k: real)
    requires ConfigOk(cfg) && Locate(cfg.ends, k) != -1
    ensures EdgeFind(cfg, EdgeOf(cfg.ends, Locate(cfg.ends, k)), k) == Payload(cfg, k)
    ensures EdgeOf(cfg.ends, Locate(cfg.ends, k)) >= 0 && Locate(cfg.ends, k) >= 0
  {
    hide Locate, EdgeOf, Payload;
    var m := Home(cfg, k);
    assert cfg.ends[m].lo <= k && k <= cfg.ends[m].hi;
  }

  lemma LocalIsExact(cfg: Config, n: int, k: real)
    requires ConfigOk(cfg) && Locate(cfg.ends, k) == n && n != -1
    ensures LocalFind(cfg, n, k) == Payload(cfg, k)
  {
    hide Locate, EdgeOf, Payload;
    var m := Home(cfg, k);
    assert cfg.ends[m].id == n && Contains(cfg.ends[m], k);
  }

  lemma {:induction false} RecordIsPayload(data: seq<Entry>, e: Entry)
    requires (forall i, j :: 0 <= i < j < |data| ==> data[i].key != data[j].key) && e in data
    ensures FindSorted(data, e.key) == Some(e.payload)
  {
    if data[0] != e {
      assert e in data[1..];
      var i :| 0 <= i < |data[1..]| && data[1..][i] == e;
      assert data[i + 1].key != data[0].key;
      RecordIsPayload(data[1..], e);
    }
  }

  // ----- what frames may say

  /** An answer is right about the key it was computed for. */
  ghost predicate Right(cfg: Config, f: Frame) {
    && f.FetchResp?
    && (f.status == OK ==> Payload(cfg, f.about) == Some(f.payload))
    && (f.status == NotFound ==> Payload(cfg, f.about) == None)
  }

  ghost predicate HotOk(cfg: Config, hot: map<real, nat>) {
    forall k :: k in hot ==> Payload(cfg, k) == Some(hot[k]) && Locate(cfg.ends, k) != -1
  }

  ghost predicate PushOk(cfg: Config, f: Frame, n: int) {
    f.HotUpdate? ==> f.target == n && IsHotList(cfg, n, f.pairs)
  }

  predicate IsReq(f: Frame) { f.FetchReq? || f.CrossReq? }

  function Reqs(q: seq<Frame>): seq<Frame> {
    if q == [] then [] else (if IsReq(q[0]) then [q[0]] else []) + Reqs(q[1..])
  }

  function Resps(q: seq<Frame>): seq<Frame> {
    if q == [] then [] else (if q[0].FetchResp? then [q[0]] else []) + Resps(q[1..])
  }

  lemma {:induction false} ReqsLast(q: seq<Frame>, f: Frame)
    ensures Reqs(q + [f]) == Reqs(q) + if IsReq(f) then [f] else []
  {
    if q == [] {
      assert q + [f] == [f] && Reqs([f][1..]) == [];
    } else {
      ReqsLast(q[1..], f);
      assert (q + [f])[1..] == q[1..] + [f];
      var head := if IsReq(q[0]) then [q[0]] else [];
      assert head + (Reqs(q[1..]) + if IsReq(f) then [f] else []) == head + Reqs(q[1..]) + if IsReq(f) then [f] else [];
    }
  }

  lemma {:induction false} RespsLast(q: seq<Frame>, f: Frame)
    ensures Resps(q + [f]) == Resps(q) + if f.FetchResp? then [f] else []
  {
    if q == [] {
      assert q + [f] == [f] && Resps([f][1..]) == [];
    } else {
      RespsLast(q[1..], f);
      assert (q + [f])[1..] == q[1..] + [f];
      var head := if q[0].FetchResp? then [q[0]] else [];
      assert head + (Resps(q[1..]) + if f.FetchResp? then [f] else []) ==
             head + Resps(q[1..]) + if f.FetchResp? then [f] else [];
    }
  }

  /** Taking the first frame off a queue. */
  lemma FilterFirst(q: seq<Frame>)
    requires q != []
    ensures IsReq(q[0]) ==> Reqs(q) == [q[0]] + Reqs(q[1..])
    ensures !IsReq(q[0]) ==> Reqs(q) == Reqs(q[1..])
    ensures q[0].FetchResp? ==> Resps(q) == [q[0]] + Resps(q[1..])
    ensures !q[0].FetchResp? ==> Resps(q) == Resps(q[1..])
  {
  }

  // ----- the invariant

  ghost predicate UpOk(q: seq<Frame>) {
    forall i :: 0 <= i < |q| ==> IsReq(q[i]) || q[i].Heartbeat? || q[i].ParamPush?
  }

  ghost predicate DownFrameOk(cfg: Config, n: int, f: Frame) {
    (f.FetchResp? || f.HotUpdate? || f.ParamPush? || f.SnapshotInfo?) && (f.FetchResp? ==> Right(cfg, f)) &&
     PushOk(cfg, f, n)
  }

  ghost predicate DownOk(cfg: Config, n: int, q: seq<Frame>) {
    forall i :: 0 <= i < |q| ==> DownFrameOk(cfg, n, q[i])
  }

  ghost predicate Asks(cfg: Config, n: int, f: Frame, w: Wait) {
    if w.cross then f.CrossReq? && f.key == w.key
    else f.FetchReq? && f.key == w.key && SameEdge(cfg.ends, Locate(cfg.ends, w.key), n)
  }

  /** The one request of a waiting End is in exactly one place: on its way up, with the Cloud, or answered. */
  ghost predicate OnePlace(cfg: Config, n: int, ses: Session, conns: seq<Conn>, w: Wait) {
    || (ses.serving == None && Resps(ses.down) == [] && |Reqs(ses.up)| == 1 && Asks(cfg, n, Reqs(ses.up)[0], w))
    || (&& Reqs(ses.up) == [] && Resps(ses.down) == [] && ses.serving.Some?
        && ses.serving.value < |conns| && conns[ses.serving.value].key == w.key)
    || (ses.serving == None && Reqs(ses.up) == [] && |Resps(ses.down)| == 1 &&
        Resps(ses.down)[0].FetchResp? && Resps(ses.down)[0].about == w.key)
  }

  ghost predicate SessionOk(cfg: Config, n: int, ses: Session, conns: seq<Conn>) {
    && HotOk(cfg, ses.hot)
    && (ses.alive ==>
          && UpOk(ses.up) && DownOk(cfg, n, ses.down)
          && match ses.wait
             case None => ses.serving == None && Reqs(ses.up) == [] && Resps(ses.down) == []
             case Some(w) => Remote(cfg, n, w.key) && OnePlace(cfg, n, ses, conns, w))
  }

  ghost predicate ConnOk(cfg: Config, c: nat, conn: Conn, controls: seq<Control>) {
    && Locate(cfg.ends, conn.key) != -1
    && match conn.pc
       case Accepting => true
       case Locking(d) => d < |controls| && controls[d].edge == EdgeOf(cfg.ends, Locate(cfg.ends, conn.key))
       case Reading(d) =>
         d < |controls| && controls[d].edge == EdgeOf(cfg.ends, Locate(cfg.ends, conn.key)) &&
         controls[d].holder == Some(c)
       case Replied(f) => Right(cfg, f) && f.about == conn.key
  }

  ghost predicate ToEdgeOk(cfg: Config, q: seq<Frame>) {
    forall i :: 0 <= i < |q| ==>
      q[i].CrossReq? || q[i].HeartbeatAck? || (q[i].HotUpdate? && PushOk(cfg, q[i], q[i].target))
  }

  /** Only the holder of the lock has a request or an answer on the control connection. */
  ghost predicate ControlOk(cfg: Config, d: nat, ctl: Control, conns: seq<Conn>) {
    && ToEdgeOk(cfg, ctl.toEdge)
    && (ctl.holder.Some? ==> ctl.holder.value < |conns| && conns[ctl.holder.value].pc == Reading(d))
    && (ctl.alive ==>
          match ctl.holder
          case None => Reqs(ctl.toEdge) == [] && ctl.fromEdge == []
          case Some(c) => Exchange(cfg, ctl, conns[c].key))
  }

  ghost predicate Exchange(cfg: Config, ctl: Control, k: real) {
    || (|Reqs(ctl.toEdge)| == 1 && Reqs(ctl.toEdge)[0].CrossReq? && Reqs(ctl.toEdge)[0].key == k && ctl.fromEdge == [])
    || (Reqs(ctl.toEdge) == [] && |ctl.fromEdge| == 1 && Right(cfg, ctl.fromEdge[0]) && ctl.fromEdge[0].about == k)
  }

  ghost predicate RegistryOk(s: State) {
    forall e :: e in s.registered ==> s.registered[e] < |s.controls| && s.controls[s.registered[e]].edge == e
  }

  ghost predicate SessionsOk(cfg: Config, s: State) {
    forall n :: n in s.sessions ==> SessionOk(cfg, n, s.sessions[n], s.conns)
  }

  ghost predicate ConnsOk(cfg: Config, s: State) {
    forall c :: 0 <= c < |s.conns| ==> ConnOk(cfg, c, s.conns[c], s.controls)
  }

  ghost predicate ControlsOk(cfg: Config, s: State) {
    forall d :: 0 <= d < |s.controls| ==> ControlOk(cfg, d, s.controls[d], s.conns)
  }

  ghost predicate EndsOk(cfg: Config, s: State) {
    -1 !in s.sessions
  }

  ghost predicate Inv(cfg: Config, s: State) {
    SessionsOk(cfg, s) && ConnsOk(cfg, s) && ControlsOk(cfg, s) && RegistryOk(s) && EndsOk(cfg, s)
  }

  // ----- frames: what a change elsewhere leaves alone

  ghost predicate KeysKept(conns: seq<Conn>, conns': seq<Conn>) {
    |conns| <= |conns'| && forall c :: 0 <= c < |conns| ==> conns'[c].key == conns[c].key
  }

  lemma SessionFrame(cfg: Config, n: int, ses: Session, conns: seq<Conn>, conns': seq<Conn>)
    requires SessionOk(cfg, n, ses, conns) && KeysKept(conns, conns')
    ensures SessionOk(cfg, n, ses, conns')
  {
    hide HotOk, UpOk, DownOk, Asks, Reqs, Resps, Remote;
  }

  /** A change of one session is a change of that session only. */
  lemma OneSession(cfg: Config, s: State, n: int, ses: Session)
    requires Inv(cfg, s) && n in s.sessions && SessionOk(cfg, n, ses, s.conns)
    ensures Inv(cfg, WithSession(s, n, ses))
  {
    hide SessionOk, ConnOk, ControlOk;
  }

  // ----- steps of one session

  lemma HotPut(cfg: Config, hot: map<real, nat>, k: real, p: nat)
    requires HotOk(cfg, hot) && Payload(cfg, k) == Some(p) && Locate(cfg.ends, k) != -1
    ensures HotOk(cfg, hot[k := p])
  {
  }

  lemma {:induction false} MergeOk(cfg: Config, hot: map<real, nat>, n: int, pairs: seq<Entry>)
    requires ConfigOk(cfg) && HotOk(cfg, hot) && IsHotList(cfg, n, pairs) && n != -1
    ensures HotOk(cfg, Merge(hot, pairs))
    decreases |pairs|
  {
    hide HotOk, ConfigOk, Locate, Payload;
    if pairs != [] {
      DataIsPayload(cfg, pairs[0]);
      HotPut(cfg, hot, pairs[0].key, pairs[0].payload);
      MergeOk(cfg, hot[pairs[0].key := pairs[0].payload], n, pairs[1..]);
    }
  }

  lemma DataIsPayload(cfg: Config, e: Entry)
    requires ConfigOk(cfg) && e in cfg.data
    ensures Payload(cfg, e.key) == Some(e.payload)
  {
    RecordIsPayload(cfg.data, e);
  }

  /** A pushed list only changes entries for keys routed to the End itself. */
  lemma {:induction false} MergeIsLocal(cfg: Config, hot: map<real, nat>, n: int, pairs: seq<Entry>, k: real)
    requires IsHotList(cfg, n, pairs) && Locate(cfg.ends, k) != n
    ensures k in Merge(hot, pairs) <==> k in hot
    ensures k in hot ==> Merge(hot, pairs)[k] == hot[k]
    decreases |pairs|
  {
    hide Locate;
    if pairs != [] {
      MergeIsLocal(cfg, hot[pairs[0].key := pairs[0].payload], n, pairs[1..], k);
    }
  }

  lemma QueuesLast(cfg: Config, n: int, up: seq<Frame>, down: seq<Frame>, f: Frame)
    ensures UpOk(up) && (IsReq(f) || f.Heartbeat? || f.ParamPush?) ==> UpOk(up + [f])
    ensures DownOk(cfg, n, down) && DownFrameOk(cfg, n, f) ==> DownOk(cfg, n, down + [f])
  {
    hide DownFrameOk;
  }

  lemma QueuesRest(cfg: Config, n: int, up: seq<Frame>, down: seq<Frame>)
    ensures UpOk(up) && up != [] ==> UpOk(up[1..]) && (IsReq(up[0]) || up[0].Heartbeat? || up[0].ParamPush?)
    ensures DownOk(cfg, n, down) && down != [] ==> DownOk(cfg, n, down[1..]) && DownFrameOk(cfg, n, down[0])
  {
    hide DownFrameOk;
  }

  /** A request is sent. */
  lemma SendOk(cfg: Config, n: int, ses: Session, conns: seq<Conn>, f: Frame, w: Wait)
    requires SessionOk(cfg, n, ses, conns) && ses.alive && ses.wait == None
    requires Remote(cfg, n, w.key) && IsReq(f) && Asks(cfg, n, f, w)
    ensures SessionOk(cfg, n, ses.(up := ses.up + [f], wait := Some(w)), conns)
  {
    hide HotOk, UpOk, DownOk, Asks, Reqs, Resps, Remote, IsReq;
    ReqsLast(ses.up, f);
    QueuesLast(cfg, n, ses.up, [], f);
  }

  lemma ControlFrameOk(cfg: Config, n: int, ses: Session, conns: seq<Conn>, f: Frame)
    requires SessionOk(cfg, n, ses, conns) && ses.alive && (f.Heartbeat? || f.ParamPush?)
    ensures SessionOk(cfg, n, ses.(up := ses.up + [f]), conns)
  {
    hide HotOk, UpOk, DownOk, Asks, Reqs, Resps, Remote;
    ReqsLast(ses.up, f);
    QueuesLast(cfg, n, ses.up, [], f);
    assert !IsReq(f);
  }

  /** A frame that is not a response is sent down. */
  lemma PushDown(cfg: Config, n: int, ses: Session, conns: seq<Conn>, f: Frame)
    requires SessionOk(cfg, n, ses, conns) && ses.alive && DownFrameOk(cfg, n, f) && !f.FetchResp?
    ensures SessionOk(cfg, n, ses.(down := ses.down + [f]), conns)
  {
    hide HotOk, UpOk, DownOk, Asks, Reqs, Resps, Remote, DownFrameOk;
    RespsLast(ses.down, f);
    QueuesLast(cfg, n, [], ses.down, f);
  }

  lemma BreakOk(cfg: Config, n: int, ses: Session, conns: seq<Conn>)
    requires SessionOk(cfg, n, ses, conns)
    ensures SessionOk(cfg, n, Broken(n, ses).0, conns)
  {
  }

  /** What an event promises: found exactly for routable keys of the dataset, with the dataset's payload. */
  ghost predicate EventOk(cfg: Config, ev: Event) {
    ev.Answer? && !ev.failed ==>
      && (ev.found ==> Payload(cfg, ev.key) == Some(ev.payload) && Locate(cfg.ends, ev.key) != -1)
      && (!ev.found ==> Payload(cfg, ev.key) == None || Locate(cfg.ends, ev.key) == -1)
  }

  /** A failed lookup reports nothing found. */
  ghost predicate FailureFindsNothing(ev: Event) {
    ev.Answer? && ev.failed ==> !ev.found
  }

  /** The End reads a frame: the only response it can meet is the answer to its own key. */
  lemma ReceiveOk(cfg: Config, n: int, ses: Session, conns: seq<Conn>)
    requires ConfigOk(cfg) && SessionOk(cfg, n, ses, conns) && ses.alive && ses.down != [] && n != -1
    ensures SessionOk(cfg, n, Receive(n, ses).0, conns) && EventOk(cfg, Receive(n, ses).1) &&
            FailureFindsNothing(Receive(n, ses).1)
  {
    hide HotOk, UpOk, DownOk, Asks, Reqs, Resps, Payload, Locate, ConfigOk, Merge;
    var f := ses.down[0];
    FilterFirst(ses.down);
    QueuesRest(cfg, n, [], ses.down);
    if f.HotUpdate? {
      MergeOk(cfg, ses.hot, n, f.pairs);
    } else if f.FetchResp? {
      AnsweredIsMine(cfg, n, ses, conns);
      if f.status == OK {
        HotPut(cfg, ses.hot, f.about, f.payload);
      }
    }
  }

  /** Response matching without request ids: a response at the head of the channel means that the End is waiting,
      that it was computed for the key the End asked for, and that no other response follows. */
  lemma AnsweredIsMine(cfg: Config, n: int, ses: Session, conns: seq<Conn>)
    requires SessionOk(cfg, n, ses, conns) && ses.alive && ses.down != [] && ses.down[0].FetchResp?
    ensures ses.wait.Some? && ses.down[0].about == ses.wait.value.key && Resps(ses.down[1..]) == []
    ensures Reqs(ses.up) == [] && ses.serving == None
    ensures Remote(cfg, n, ses.wait.value.key)
  {
    hide HotOk, UpOk, DownOk, Asks, Reqs, Resps, Remote;
    FilterFirst(ses.down);
  }

  /** The handler's answer goes down. */
  lemma AnswerDown(cfg: Config, n: int, ses: Session, conns: seq<Conn>, f: Frame)
    requires ses.alive && HotOk(cfg, ses.hot) && UpOk(ses.up) && DownOk(cfg, n, ses.down) && ses.wait.Some?
    requires Remote(cfg, n, ses.wait.value.key) && Reqs(ses.up) == [] && Resps(ses.down) == []
    requires Right(cfg, f) && f.about == ses.wait.value.key
    ensures SessionOk(cfg, n, ses.(down := ses.down + [f], serving := None), conns)
  {
    hide HotOk, UpOk, DownOk, Asks, Reqs, Resps, Remote, Right;
    RespsLast(ses.down, f);
    assert f.FetchResp? && DownFrameOk(cfg, n, f) by { RightIsDown(cfg, n, f); }
    QueuesLast(cfg, n, [], ses.down, f);
  }

  lemma RightIsDown(cfg: Config, n: int, f: Frame)
    requires Right(cfg, f)
    ensures f.FetchResp? && DownFrameOk(cfg, n, f)
  {
  }

  lemma RespondIsRight(cfg: Config, e: int, k: real)
    requires ConfigOk(cfg) && Locate(cfg.ends, k) != -1 && e == EdgeOf(cfg.ends, Locate(cfg.ends, k))
    ensures Right(cfg, Respond(cfg, e, k)) && Respond(cfg, e, k).about == k
  {
    hide Locate, EdgeOf, ConfigOk, InHull;
    EdgeIsExact(cfg, k);
  }

  // ----- the handler at the Edge

  /** When a request is at the head of the up channel, it is the waiting lookup's only trace. */
  lemma RequestIsMine(cfg: Config, n: int, ses: Session, conns: seq<Conn>)
    requires SessionOk(cfg, n, ses, conns) && ses.alive && ses.up != [] && IsReq(ses.up[0])
    ensures ses.wait.Some? && Asks(cfg, n, ses.up[0], ses.wait.value) && Remote(cfg, n, ses.wait.value.key)
    ensures Reqs(ses.up[1..]) == [] && Resps(ses.down) == [] && ses.serving == None
    ensures HotOk(cfg, ses.hot) && UpOk(ses.up[1..]) && DownOk(cfg, n, ses.down)
  {
    hide HotOk, UpOk, DownOk, Asks, Reqs, Resps, Remote;
    FilterFirst(ses.up);
    QueuesRest(cfg, n, ses.up, []);
  }

  lemma SkipUp(cfg: Config, n: int, ses: Session, conns: seq<Conn>)
    requires SessionOk(cfg, n, ses, conns) && ses.alive && ses.up != [] && !IsReq(ses.up[0])
    ensures SessionOk(cfg, n, ses.(up := ses.up[1..]), conns)
    ensures ses.up[0].Heartbeat? || ses.up[0].ParamPush?
  {
    hide HotOk, UpOk, DownOk, Asks, Reqs, Resps, Remote, IsReq;
    FilterFirst(ses.up);
    QueuesRest(cfg, n, ses.up, []);
  }

  lemma HandleOk(cfg: Config, s: State, n: int, connected: bool)
    requires ConfigOk(cfg) && Inv(cfg, s) && n in s.sessions && s.sessions[n].alive && s.sessions[n].up != []
    ensures Inv(cfg, Handle(cfg, s, n, connected).0) && Handle(cfg, s, n, connected).1 == Silent
  {
    hide HotOk, UpOk, DownOk, Reqs, Resps, ConfigOk, Inv, SessionOk, Right, Locate, EdgeOf, Respond;
    var ses := s.sessions[n];
    SessionAt(cfg, s, n);
    var f := ses.up[0];
    var next := ses.(up := ses.up[1..]);
    if !IsReq(f) {
      SkipUp(cfg, n, ses, s.conns);
      if f.ParamPush? {
        PushDown(cfg, n, next, s.conns, ParamPush);
        OneSession(cfg, s, n, next.(down := next.down + [ParamPush]));
      } else {
        OneSession(cfg, s, n, next);
      }
    } else {
      RequestIsMine(cfg, n, ses, s.conns);
      var w := ses.wait.value;
      if f.FetchReq? {
        var e := EdgeOf(cfg.ends, n);
        RespondIsRight(cfg, e, f.key);
        AnswerDown(cfg, n, next, s.conns, Respond(cfg, e, f.key));
        OneSession(cfg, s, n, next.(down := next.down + [Respond(cfg, e, f.key)], serving := None));
      } else if connected {
        OpensConnection(cfg, s, n, f.key);
      } else {
        assert Right(cfg, FetchResp(Error, 0, f.key)) by { ErrorIsRight(cfg, f.key); }
        AnswerDown(cfg, n, next, s.conns, FetchResp(Error, 0, f.key));
        OneSession(cfg, s, n, next.(down := next.down + [FetchResp(Error, 0, f.key)], serving := None));
      }
    }
  }

  lemma ErrorIsRight(cfg: Config, k: real)
    ensures Right(cfg, FetchResp(Error, 0, k))
  {
  }

  lemma SessionAt(cfg: Config, s: State, n: int)
    requires Inv(cfg, s) && n in s.sessions
    ensures SessionOk(cfg, n, s.sessions[n], s.conns) && n != -1
  {
    hide SessionOk, ConnOk, ControlOk;
  }

  lemma OpensConnection(cfg: Config, s: State, n: int, k: real)
    requires Inv(cfg, s) && n in s.sessions && s.sessions[n].alive && s.sessions[n].up != [] &&
             s.sessions[n].up[0].CrossReq?
    requires k == s.sessions[n].up[0].key
    ensures var ses := s.sessions[n].(up := s.sessions[n].up[1..], serving := Some(|s.conns|));
            Inv(cfg, WithSession(s, n, ses).(conns := s.conns + [Conn(k, Accepting)]))
  {
    hide SessionOk, ConnOk, ControlOk, Locate;
    var ses := s.sessions[n].(up := s.sessions[n].up[1..], serving := Some(|s.conns|));
    var s' := WithSession(s, n, ses).(conns := s.conns + [Conn(k, Accepting)]);
    SessionAt(cfg, s, n);
    RequestIsMine(cfg, n, s.sessions[n], s.conns);
    assert Locate(cfg.ends, k) != -1;
    forall m | m in s'.sessions ensures SessionOk(cfg, m, s'.sessions[m], s'.conns) {
      if m == n {
        Crossing(cfg, n, ses, s'.conns);
      } else {
        SessionFrame(cfg, m, s.sessions[m], s.conns, s'.conns);
      }
    }
    forall c | 0 <= c < |s'.conns| ensures ConnOk(cfg, c, s'.conns[c], s'.controls) {
      if c < |s.conns| {
        assert ConnOk(cfg, c, s.conns[c], s.controls);
      } else {
        AcceptingOk(cfg, c, k, s.controls);
      }
    }
    forall d | 0 <= d < |s'.controls| ensures ControlOk(cfg, d, s'.controls[d], s'.conns) {
      HolderReads(cfg, d, s.controls[d], s.conns);
      ControlFrame(cfg, d, s.controls[d], s.conns, s'.conns);
    }
  }

  lemma AcceptingOk(cfg: Config, c: nat, k: real, controls: seq<Control>)
    requires Locate(cfg.ends, k) != -1
    ensures ConnOk(cfg, c, Conn(k, Accepting), controls)
  {
  }

  lemma Crossing(cfg: Config, n: int, ses: Session, conns: seq<Conn>)
    requires ses.alive && HotOk(cfg, ses.hot) && UpOk(ses.up) && DownOk(cfg, n, ses.down) && ses.wait.Some?
    requires Remote(cfg, n, ses.wait.value.key) && Reqs(ses.up) == [] && Resps(ses.down) == []
    requires ses.serving.Some? && ses.serving.value < |conns| && conns[ses.serving.value].key == ses.wait.value.key
    ensures SessionOk(cfg, n, ses, conns)
  {
  }

  /** Connections whose worker holds no lock do not matter to the control connections. */
  lemma ControlFrame(cfg: Config, d: nat, ctl: Control, conns: seq<Conn>, conns': seq<Conn>)
    requires ControlOk(cfg, d, ctl, conns) && KeysKept(conns, conns')
    requires ctl.holder.Some? ==> ctl.holder.value < |conns| && conns'[ctl.holder.value] == conns[ctl.holder.value]
    ensures ControlOk(cfg, d, ctl, conns')
  {
    hide ToEdgeOk, Exchange, Reqs;
  }

  /** The handler passes on what the Cloud answered, or an error when the connection failed. */
  lemma RepliesOk(cfg: Config, s: State, n: int, f: Frame)
    requires Inv(cfg, s) && n in s.sessions && s.sessions[n].alive && s.sessions[n].serving.Some?
    requires s.sessions[n].serving.value < |s.conns| && Right(cfg, f) &&
             f.about == s.conns[s.sessions[n].serving.value].key
    ensures Inv(cfg, WithSession(s, n, s.sessions[n].(down := s.sessions[n].down + [f], serving := None)))
  {
    hide HotOk, UpOk, DownOk, Reqs, Resps, Inv, Remote, Right, Asks;
    var ses := s.sessions[n];
    SessionAt(cfg, s, n);
    AnswerDown(cfg, n, ses, s.conns, f);
    OneSession(cfg, s, n, ses.(down := ses.down + [f], serving := None));
  }

  // ----- the Cloud's workers

  lemma ConnAt(cfg: Config, s: State, c: nat)
    requires Inv(cfg, s) && c < |s.conns|
    ensures ConnOk(cfg, c, s.conns[c], s.controls)
  {
    hide SessionOk, ConnOk, ControlOk;
  }

  lemma ControlAt(cfg: Config, s: State, d: nat)
    requires Inv(cfg, s) && d < |s.controls|
    ensures ControlOk(cfg, d, s.controls[d], s.conns)
  {
    hide SessionOk, ConnOk, ControlOk;
  }

  /** A worker without the lock moves. */
  lemma OneWorker(cfg: Config, s: State, c: nat, pc: Worker)
    requires Inv(cfg, s) && c < |s.conns| && !s.conns[c].pc.Reading?
    requires ConnOk(cfg, c, s.conns[c].(pc := pc), s.controls)
    ensures Inv(cfg, WithWorker(s, c, pc))
  {
    hide SessionOk, ConnOk;
    var s' := WithWorker(s, c, pc);
    forall m | m in s'.sessions ensures SessionOk(cfg, m, s'.sessions[m], s'.conns) {
      SessionFrame(cfg, m, s.sessions[m], s.conns, s'.conns);
    }
    forall d | 0 <= d < |s'.controls| ensures ControlOk(cfg, d, s'.controls[d], s'.conns) {
      assert ControlOk(cfg, d, s.controls[d], s.conns);
      ControlFrame(cfg, d, s.controls[d], s.conns, s'.conns);
    }
    forall x | 0 <= x < |s'.conns| ensures ConnOk(cfg, x, s'.conns[x], s'.controls) {
      if x != c {
        assert ConnOk(cfg, x, s.conns[x], s.controls);
      }
    }
  }

  /** Locking or unlocking a control connection: worker and connection move together. */
  lemma WorkerAndControl(cfg: Config, s: State, c: nat, pc: Worker, d: nat, ctl: Control)
    requires Inv(cfg, s) && c < |s.conns| && d < |s.controls| && ctl.edge == s.controls[d].edge
    requires s.conns[c].pc == Locking(d) || s.conns[c].pc == Reading(d)
    requires s.controls[d].holder == None || s.controls[d].holder == Some(c)
    requires ConnOk(cfg, c, s.conns[c].(pc := pc), s.controls[d := ctl])
    requires ControlOk(cfg, d, ctl, s.conns[c := s.conns[c].(pc := pc)])
    ensures Inv(cfg, WithControl(WithWorker(s, c, pc), d, ctl))
  {
    hide SessionOk, ControlOk;
    var s' := WithControl(WithWorker(s, c, pc), d, ctl);
    forall m | m in s'.sessions ensures SessionOk(cfg, m, s'.sessions[m], s'.conns) {
      SessionFrame(cfg, m, s.sessions[m], s.conns, s'.conns);
    }
    forall x | 0 <= x < |s'.controls| ensures ControlOk(cfg, x, s'.controls[x], s'.conns) {
      if x != d {
        assert ControlOk(cfg, x, s.controls[x], s.conns);
        HolderReads(cfg, x, s.controls[x], s.conns);
        ControlFrame(cfg, x, s.controls[x], s.conns, s'.conns);
      }
    }
    forall x | 0 <= x < |s'.conns| ensures ConnOk(cfg, x, s'.conns[x], s'.controls) {
      if x != c {
        assert ConnOk(cfg, x, s.conns[x], s.controls);
      }
    }
  }

  lemma HolderReads(cfg: Config, d: nat, ctl: Control, conns: seq<Conn>)
    requires ControlOk(cfg, d, ctl, conns)
    ensures ctl.holder.Some? ==> ctl.holder.value < |conns| && conns[ctl.holder.value].pc == Reading(d)
  {
  }

  lemma AcceptsOk(cfg: Config, s: State, c: nat)
    requires ConfigOk(cfg) && Inv(cfg, s) && c < |s.conns| && s.conns[c].pc.Accepting?
    ensures Inv(cfg, WithWorker(s, c, Accept(cfg, s, s.conns[c].key)))
  {
    hide ConfigOk, SessionsOk, ConnsOk, ControlsOk, Locate, EdgeOf;
    ConnAt(cfg, s, c);
    EdgeIsExact(cfg, s.conns[c].key);
    OneWorker(cfg, s, c, Accept(cfg, s, s.conns[c].key));
  }

  lemma LocksOk(cfg: Config, s: State, c: nat, d: nat)
    requires Inv(cfg, s) && c < |s.conns| && s.conns[c].pc == Locking(d) && d < |s.controls| &&
             s.controls[d].holder.None?
    requires s.controls[d].alive
    ensures Inv(cfg, WithControl(WithWorker(s, c, Reading(d)), d,
                                 s.controls[d].(toEdge := s.controls[d].toEdge + [CrossReq(0, s.conns[c].key)],
                                                holder := Some(c))))
  {
    hide Inv, Locate, EdgeOf, Reqs;
    ConnAt(cfg, s, c);
    ControlAt(cfg, s, d);
    var f := CrossReq(0, s.conns[c].key);
    ReqsLast(s.controls[d].toEdge, f);
    assert IsReq(f);
    WorkerAndControl(cfg, s, c, Reading(d), d, s.controls[d].(toEdge := s.controls[d].toEdge + [f], holder := Some(c)));
  }

  /** The frame a worker reads while it holds the lock answers its own request. */
  lemma ReadsOk(cfg: Config, s: State, c: nat, d: nat)
    requires Inv(cfg, s) && c < |s.conns| && s.conns[c].pc == Reading(d) && d < |s.controls| && s.controls[d].alive
    requires s.controls[d].fromEdge != []
    ensures var ctl := s.controls[d];
            Inv(cfg, WithControl(WithWorker(s, c, Replied(ctl.fromEdge[0])), d,
                                 ctl.(fromEdge := ctl.fromEdge[1..], holder := None)))
  {
    hide Inv, Locate, EdgeOf, Reqs, Right;
    ConnAt(cfg, s, c);
    ControlAt(cfg, s, d);
    var ctl := s.controls[d];
    WorkerAndControl(cfg, s, c, Replied(ctl.fromEdge[0]), d, ctl.(fromEdge := ctl.fromEdge[1..], holder := None));
  }

  lemma FailsOk(cfg: Config, s: State, c: nat, d: nat)
    requires Inv(cfg, s) && c < |s.conns| && s.conns[c].pc == Reading(d) && d < |s.controls| && !s.controls[d].alive
    ensures Inv(cfg, WithControl(WithWorker(s, c, Replied(FetchResp(Error, 0, s.conns[c].key))), d,
                                 s.controls[d].(holder := None)))
  {
    hide Inv, Locate, EdgeOf, Reqs;
    ConnAt(cfg, s, c);
    ControlAt(cfg, s, d);
    WorkerAndControl(cfg, s, c, Replied(FetchResp(Error, 0, s.conns[c].key)), d, s.controls[d].(holder := None));
  }

  lemma GivesUpLock(cfg: Config, s: State, c: nat)
    requires Inv(cfg, s) && c < |s.conns| && s.conns[c].pc.Locking?
    ensures Inv(cfg, WithWorker(s, c, Replied(FetchResp(Error, 0, s.conns[c].key))))
  {
    hide Inv, Locate, EdgeOf;
    ConnAt(cfg, s, c);
    OneWorker(cfg, s, c, Replied(FetchResp(Error, 0, s.conns[c].key)));
  }

  // ----- the control connections

  /** Frames move on a control connection while its lock does not. */
  lemma OneControl(cfg: Config, s: State, d: nat, ctl: Control)
    requires Inv(cfg, s) && d < |s.controls| && ctl.edge == s.controls[d].edge && ctl.holder == s.controls[d].holder
    requires ControlOk(cfg, d, ctl, s.conns)
    ensures Inv(cfg, WithControl(s, d, ctl))
  {
    hide SessionOk, ControlOk;
    var s' := WithControl(s, d, ctl);
    forall x | 0 <= x < |s'.conns| ensures ConnOk(cfg, x, s'.conns[x], s'.controls) {
      assert ConnOk(cfg, x, s.conns[x], s.controls);
    }
    forall x | 0 <= x < |s'.controls| ensures ControlOk(cfg, x, s'.controls[x], s'.conns) {
      if x != d {
        assert ControlOk(cfg, x, s.controls[x], s.conns);
      }
    }
  }

  lemma ToEdgeQueue(cfg: Config, q: seq<Frame>, f: Frame)
    ensures ToEdgeOk(cfg, q) && f.HotUpdate? && PushOk(cfg, f, f.target) ==> ToEdgeOk(cfg, q + [f])
    ensures ToEdgeOk(cfg, q) && f.HeartbeatAck? ==> ToEdgeOk(cfg, q + [f])
    ensures ToEdgeOk(cfg, q) && q != [] ==>
              ToEdgeOk(cfg, q[1..]) &&
              (q[0].CrossReq? || q[0].HeartbeatAck? || (q[0].HotUpdate? && PushOk(cfg, q[0], q[0].target)))
  {
    hide PushOk;
  }

  lemma ServeOk(cfg: Config, s: State, d: nat, registered: bool)
    requires ConfigOk(cfg) && Inv(cfg, s) && d < |s.controls| && s.controls[d].alive && s.controls[d].toEdge != []
    ensures Inv(cfg, Serve(cfg, s, d, registered))
  {
    hide Inv, Locate, EdgeOf, Reqs, ToEdgeOk, PushOk, ConfigOk, Right, SessionOk, Respond;
    ControlAt(cfg, s, d);
    var ctl := s.controls[d];
    var f := ctl.toEdge[0];
    var next := ctl.(toEdge := ctl.toEdge[1..]);
    FilterFirst(ctl.toEdge);
    ToEdgeQueue(cfg, ctl.toEdge, f);
    if f.CrossReq? {
      assert ctl.holder.Some?;
      var c := ctl.holder.value;
      ConnAt(cfg, s, c);
      RespondIsRight(cfg, ctl.edge, f.key);
      assert ctl.fromEdge + [Respond(cfg, ctl.edge, f.key)] == [Respond(cfg, ctl.edge, f.key)];
      OneControl(cfg, s, d, next.(fromEdge := next.fromEdge + [Respond(cfg, ctl.edge, f.key)]));
    } else {
      assert !IsReq(f);
      OneControl(cfg, s, d, next);
      if f.HotUpdate? && registered && f.target in s.sessions && s.sessions[f.target].alive {
        var s1 := WithControl(s, d, next);
        var t := f.target;
        SessionAt(cfg, s1, t);
        assert DownFrameOk(cfg, t, f);
        PushDown(cfg, t, s1.sessions[t], s1.conns, f);
        OneSession(cfg, s1, t, s1.sessions[t].(down := s1.sessions[t].down + [f]));
      }
    }
  }

  lemma PushesOk(cfg: Config, s: State, d: nat, target: int, pairs: seq<Entry>)
    requires Inv(cfg, s) && d < |s.controls| && s.controls[d].alive && s.controls[d].holder.None? &&
             IsHotList(cfg, target, pairs)
    ensures Inv(cfg, WithControl(s, d, s.controls[d].(toEdge := s.controls[d].toEdge + [HotUpdate(target, pairs)])))
  {
    hide Inv, Reqs, ToEdgeOk, IsHotList;
    ControlAt(cfg, s, d);
    var f := HotUpdate(target, pairs);
    ReqsLast(s.controls[d].toEdge, f);
    ToEdgeQueue(cfg, s.controls[d].toEdge, f);
    OneControl(cfg, s, d, s.controls[d].(toEdge := s.controls[d].toEdge + [f]));
  }

  lemma ControlBreakOk(cfg: Config, s: State, d: nat)
    requires Inv(cfg, s) && d < |s.controls|
    ensures Inv(cfg, WithControl(s, d, s.controls[d].(alive := false, toEdge := [], fromEdge := [])))
  {
    hide Inv;
    ControlAt(cfg, s, d);
    OneControl(cfg, s, d, s.controls[d].(alive := false, toEdge := [], fromEdge := []));
  }

  lemma RegistersOk(cfg: Config, s: State, e: int)
    requires Inv(cfg, s)
    ensures Inv(cfg, s.(controls := s.controls + [Control(e, true, [], [], None, false)],
                        registered := s.registered[e := |s.controls|]))
  {
    hide SessionOk, ControlOk;
    var ctl := Control(e, true, [], [], None, false);
    var controls' := s.controls + [ctl];
    forall x | 0 <= x < |s.conns| ensures ConnOk(cfg, x, s.conns[x], controls') {
      assert ConnOk(cfg, x, s.conns[x], s.controls);
    }
    forall x | 0 <= x < |controls'| ensures ControlOk(cfg, x, controls'[x], s.conns) {
      if x < |s.controls| {
        assert ControlOk(cfg, x, s.controls[x], s.conns);
      } else {
        NewControl(cfg, x, ctl, s.conns);
      }
    }
  }

  lemma NewControl(cfg: Config, d: nat, ctl: Control, conns: seq<Conn>)
    requires ctl.toEdge == [] && ctl.fromEdge == [] && ctl.holder == None
    ensures ControlOk(cfg, d, ctl, conns)
  {}

  /** The acknowledgement goes out at any time, with or without a request under way. */
  lemma AcknowledgesOk(cfg: Config, s: State, d: nat)
    requires Inv(cfg, s) && d < |s.controls| && s.controls[d].alive
    ensures Inv(cfg, WithControl(s, d, s.controls[d].(toEdge := s.controls[d].toEdge + [HeartbeatAck], acked := true)))
  {
    hide Inv, Reqs, ToEdgeOk;
    ControlAt(cfg, s, d);
    ReqsLast(s.controls[d].toEdge, HeartbeatAck);
    ToEdgeQueue(cfg, s.controls[d].toEdge, HeartbeatAck);
    OneControl(cfg, s, d, s.controls[d].(toEdge := s.controls[d].toEdge + [HeartbeatAck], acked := true));
  }

  // ----- all steps

  /** Actions of an End, or on its connection. */
  predicate AtEnd(a: Action) {
    || a.LocalLookup? || a.HotLookup? || a.SnapshotHit? || a.Nowhere? || a.Disconnected? || a.SendFetch?
    || a.SendCross? || a.SendControl? || a.EndReads? || a.EndBreaks? || a.EdgePushes?
  }

  lemma EndStepKeeps(cfg: Config, s: State, a: Action)
    requires ConfigOk(cfg) && Inv(cfg, s) && Enabled(cfg, s, a) && AtEnd(a)
    ensures Inv(cfg, Next(cfg, s, a).0)
  {
    hide Inv, ConfigOk, SessionOk, Locate, EdgeOf, InHull, Payload, Handle, Serve, Accept, Receive, Broken, Right;
    match a
    case LocalLookup(_, _) =>
    case HotLookup(_, _) =>
    case Nowhere(_, _) =>
    case Disconnected(_, _) =>
    case SnapshotHit(n, k, p) => SessionAt(cfg, s, n); SnapshotHitOk(cfg, s, n, k, p);
    case SendFetch(n, k, slot) =>
      SessionAt(cfg, s, n);
      SendOk(cfg, n, s.sessions[n], s.conns, FetchReq(k, slot), Wait(k, false));
      OneSession(cfg, s, n, s.sessions[n].(up := s.sessions[n].up + [FetchReq(k, slot)], wait := Some(Wait(k, false))));
    case SendCross(n, k, id) =>
      SessionAt(cfg, s, n);
      SendOk(cfg, n, s.sessions[n], s.conns, CrossReq(id, k), Wait(k, true));
      OneSession(cfg, s, n, s.sessions[n].(up := s.sessions[n].up + [CrossReq(id, k)], wait := Some(Wait(k, true))));
    case SendControl(n, f) =>
      SessionAt(cfg, s, n);
      ControlFrameOk(cfg, n, s.sessions[n], s.conns, f);
      OneSession(cfg, s, n, s.sessions[n].(up := s.sessions[n].up + [f]));
    case EndReads(n) =>
      SessionAt(cfg, s, n);
      ReceiveOk(cfg, n, s.sessions[n], s.conns);
      OneSession(cfg, s, n, Receive(n, s.sessions[n]).0);
    case EndBreaks(n) =>
      SessionAt(cfg, s, n);
      BreakOk(cfg, n, s.sessions[n], s.conns);
      OneSession(cfg, s, n, Broken(n, s.sessions[n]).0);
    case EdgePushes(n, f) =>
      SessionAt(cfg, s, n);
      PushDown(cfg, n, s.sessions[n], s.conns, f);
      OneSession(cfg, s, n, s.sessions[n].(down := s.sessions[n].down + [f]));
  }

  lemma StepKeeps(cfg: Config, s: State, a: Action)
    requires ConfigOk(cfg) && Inv(cfg, s) && Enabled(cfg, s, a)
    ensures Inv(cfg, Next(cfg, s, a).0)
  {
    if AtEnd(a) {
      EndStepKeeps(cfg, s, a);
      return;
    }
    hide Inv, ConfigOk, SessionOk, Locate, EdgeOf, InHull, Payload, Handle, Serve, Accept, Receive, Broken, Right;
    match a
    case HandlerReads(n, connected) => HandleOk(cfg, s, n, connected);
    case HandlerReplies(n) =>
      ConnAt(cfg, s, s.sessions[n].serving.value);
      RepliesOk(cfg, s, n, s.conns[s.sessions[n].serving.value].pc.reply);
    case HandlerGivesUp(n) =>
      ErrorIsRight(cfg, s.conns[s.sessions[n].serving.value].key);
      RepliesOk(cfg, s, n, FetchResp(Error, 0, s.conns[s.sessions[n].serving.value].key));
    case CloudAccepts(c) => AcceptsOk(cfg, s, c);
    case CloudLocks(c) =>
      if s.controls[s.conns[c].pc.d].alive {
        LocksOk(cfg, s, c, s.conns[c].pc.d);
      } else {
        GivesUpLock(cfg, s, c);
      }
    case CloudReads(c) => ReadsOk(cfg, s, c, s.conns[c].pc.d);
    case CloudFails(c) => FailsOk(cfg, s, c, s.conns[c].pc.d);
    case EdgeServes(d, registered) => ServeOk(cfg, s, d, registered);
    case CloudPushes(d, target, pairs) => PushesOk(cfg, s, d, target, pairs);
    case ControlBreaks(d) => ControlBreakOk(cfg, s, d);
    case Registers(e) => RegistersOk(cfg, s, e);
    case Acknowledges(d) => AcknowledgesOk(cfg, s, d);
  }

  lemma SnapshotHitOk(cfg: Config, s: State, n: int, k: real, p: nat)
    requires ConfigOk(cfg) && Inv(cfg, s) && Enabled(cfg, s, SnapshotHit(n, k, p))
    ensures Inv(cfg, WithSession(s, n, s.sessions[n].(hot := s.sessions[n].hot[k := p])))
    ensures Payload(cfg, k) == Some(p) && Locate(cfg.ends, k) != -1
  {
    hide ConfigOk, Inv, Locate, EdgeOf, InHull, HotOk;
    SessionAt(cfg, s, n);
    EdgeIsExact(cfg, k);
    HotPut(cfg, s.sessions[n].hot, k, p);
    OneSession(cfg, s, n, s.sessions[n].(hot := s.sessions[n].hot[k := p]));
  }

  /** Every lookup that ends in a step returns the truth, or reports nothing after a connection failure. */
  lemma HotIsRight(cfg: Config, n: int, ses: Session, conns: seq<Conn>, k: real)
    requires SessionOk(cfg, n, ses, conns) && k in ses.hot
    ensures EventOk(cfg, Answer(n, k, true, ses.hot[k], false))
  {
    hide Locate, InHull, Payload, EdgeOf;
  }

  lemma StepAnswers(cfg: Config, s: State, a: Action)
    requires ConfigOk(cfg) && Inv(cfg, s) && Enabled(cfg, s, a)
    ensures EventOk(cfg, Next(cfg, s, a).1) && FailureFindsNothing(Next(cfg, s, a).1)
  {
    hide Inv, ConfigOk, Locate, EdgeOf, InHull, Payload, Handle, Serve, Accept, Receive, LocalFind, EdgeFind;
    hide SessionOk, SameEdge, IsHotList, Respond;
    match a
    case LocalLookup(n, k) => SessionAt(cfg, s, n); LocalIsExact(cfg, n, k);
    case HotLookup(n, k) => SessionAt(cfg, s, n); HotIsRight(cfg, n, s.sessions[n], s.conns, k);
    case SnapshotHit(n, k, p) => SnapshotHitOk(cfg, s, n, k, p);
    case EndReads(n) => SessionAt(cfg, s, n); ReceiveOk(cfg, n, s.sessions[n], s.conns);
    case HandlerReads(n, connected) => HandleOk(cfg, s, n, connected);
    case _ =>
  }

  // ----- runs

  ghost predicate Run(cfg: Config, states: seq<State>, actions: seq<Action>) {
    && |states| == |actions| + 1 && Init(cfg, states[0])
    && forall i :: 0 <= i < |actions| ==> Enabled(cfg, states[i], actions[i]) && Moves(cfg, states, actions[i], i)
  }

  ghost predicate Moves(cfg: Config, states: seq<State>, a: Action, i: nat)
    requires i + 1 < |states| && Enabled(cfg, states[i], a)
  {
    states[i + 1] == Next(cfg, states[i], a).0
  }

  lemma InitOk(cfg: Config, s: State)
    requires ConfigOk(cfg) && Init(cfg, s)
    ensures Inv(cfg, s)
  {
    hide InHull, Locate, EdgeOf, Payload;
  }

  lemma {:induction false} RunsKeep(cfg: Config, states: seq<State>, actions: seq<Action>, i: nat)
    requires ConfigOk(cfg) && Run(cfg, states, actions) && i < |states|
    ensures Inv(cfg, states[i])
  {
    hide Inv, ConfigOk, Enabled, Next, Init;
    if i == 0 {
      InitOk(cfg, states[0]);
    } else {
      RunsKeep(cfg, states, actions, i - 1);
      assert Enabled(cfg, states[i - 1], actions[i - 1]) && Moves(cfg, states, actions[i - 1], i - 1);
      StepKeeps(cfg, states[i - 1], actions[i - 1]);
    }
  }

  /** In every interleaving, a lookup that is not cut short by a connection failure finds exactly the routable keys
      of the dataset, with their payloads. */
  lemma LookupsAreExact(cfg: Config, states: seq<State>, actions: seq<Action>, i: nat)
    requires ConfigOk(cfg) && Run(cfg, states, actions) && i < |actions|
    ensures Enabled(cfg, states[i], actions[i])
    ensures var ev := Next(cfg, states[i], actions[i]).1;
            ev.Answer? ==>
              && (ev.found ==> Payload(cfg, ev.key) == Some(ev.payload))
              && (!ev.failed ==> (ev.found <==> Payload(cfg, ev.key).Some? && Locate(cfg.ends, ev.key) != -1))
  {
    hide Inv, ConfigOk, Next, Init, Locate, Payload;
    RunsKeep(cfg, states, actions, i);
    assert Enabled(cfg, states[i], actions[i]);
    StepAnswers(cfg, states[i], actions[i]);
  }

  /** In every interleaving, a response an End is about to read answers the key it is waiting for. */
  lemma ResponsesMatch(cfg: Config, states: seq<State>, actions: seq<Action>, i: nat, n: int)
    requires ConfigOk(cfg) && Run(cfg, states, actions) && i < |states| && n in states[i].sessions
    requires var ses := states[i].sessions[n]; ses.alive && ses.down != [] && ses.down[0].FetchResp?
    ensures var ses := states[i].sessions[n];
            ses.wait.Some? && ses.down[0].about == ses.wait.value.key && Right(cfg, ses.down[0]) &&
            Resps(ses.down[1..]) == []
  {
    hide Inv, ConfigOk, Init, Locate, Payload, Resps, Enabled, Next;
    RunsKeep(cfg, states, actions, i);
    SessionAt(cfg, states[i], n);
    AnsweredIsMine(cfg, n, states[i].sessions[n], states[i].conns);
    QueuesRest(cfg, n, [], states[i].sessions[n].down);
  }

  /** In every interleaving, hot caches agree with the dataset. */
  lemma CachesAgree(cfg: Config, states: seq<State>, actions: seq<Action>, i: nat, n: int, k: real)
    requires ConfigOk(cfg) && Run(cfg, states, actions) && i < |states| && n in states[i].sessions &&
             k in states[i].sessions[n].hot
    ensures Payload(cfg, k) == Some(states[i].sessions[n].hot[k])
  {
    hide Inv, ConfigOk, Init, Locate, Payload, Enabled, Next;
    RunsKeep(cfg, states, actions, i);
    SessionAt(cfg, states[i], n);
  }

  /** A pushed list never changes what the hot-cache stage answers: its keys are the End's own, and those are
      answered by the local stage before the cache is asked. */
  lemma PushesServeNobody(cfg: Config, states: seq<State>, actions: seq<Action>, i: nat, n: int, k: real)
    requires ConfigOk(cfg) && Run(cfg, states, actions) && i < |actions| && n in states[i].sessions
    requires actions[i] == EndReads(n) && |states[i].sessions[n].down| > 0 && states[i].sessions[n].down[0].HotUpdate?
    ensures n in states[i + 1].sessions
    ensures Enabled(cfg, states[i], HotLookup(n, k)) <==> Enabled(cfg, states[i + 1], HotLookup(n, k))
    ensures Enabled(cfg, states[i], HotLookup(n, k)) ==>
              states[i + 1].sessions[n].hot[k] == states[i].sessions[n].hot[k]
  {
    hide Inv, ConfigOk, Init, Locate, Payload, Merge;
    RunsKeep(cfg, states, actions, i);
    assert Enabled(cfg, states[i], actions[i]) && Moves(cfg, states, actions[i], i);
    var ses := states[i].sessions[n];
    SessionAt(cfg, states[i], n);
    QueuesRest(cfg, n, [], ses.down);
    if Locate(cfg.ends, k) != n {
      MergeIsLocal(cfg, ses.hot, n, ses.down[0].pairs, k);
    }
  }
}
