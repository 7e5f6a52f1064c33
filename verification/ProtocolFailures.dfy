/** When a lookup fails: only after a failure that touches it. */
module ProtocolFailures {
  import opened Wrappers
  import opened SortedRecords
  import opened RangeMap
  import opened Protocol
  import opened ProtocolSafety

  /** The Edge responsible for a key. */
  function EdgeFor(cfg: Config, k: real): int {
    EdgeOf(cfg.ends, Locate(cfg.ends, k))
  }

  /** The action is a failure that touches the lookup of k by End n: the End's connection breaks, its handler cannot
      connect to the Cloud or gives up, the responsible Edge is not registered when the Cloud's worker asks, or a
      control connection of that Edge breaks. */
  ghost predicate Hits(cfg: Config, s: State, a: Action, n: int, k: real) {
    match a
    case EndBreaks(m) => m == n
    case HandlerReads(m, connected) =>
      && m == n && !connected && n in s.sessions && |s.sessions[n].up| > 0
      && s.sessions[n].up[0].CrossReq? && s.sessions[n].up[0].key == k
    case HandlerGivesUp(m) => m == n
    case CloudAccepts(c) =>
      n in s.sessions && s.sessions[n].serving == Some(c) && EdgeFor(cfg, k) !in s.registered
    case ControlBreaks(d) => d < |s.controls| && s.controls[d].edge == EdgeFor(cfg, k)
    case _ => false
  }

  /** A connection that broke stays broken. */
  predicate Lasting(a: Action) {
    a.EndBreaks? || a.ControlBreaks?
  }

  /** End n begins a lookup that needs the network. */
  predicate Begins(a: Action, n: int) {
    (a.SendFetch? || a.SendCross?) && a.n == n
  }

  /** Before step i a failure has touched the lookup of k that End n is at: a connection that is still broken, or a
      failure since the lookup began. */
  ghost predicate Touched(cfg: Config, states: seq<State>, actions: seq<Action>, i: nat, n: int, k: real)
    requires i <= |actions| <= |states|
  {
    exists j :: 0 <= j < i && TouchedAt(cfg, states, actions, j, i, n, k)
  }

  ghost predicate TouchedAt(cfg: Config, states: seq<State>, actions: seq<Action>, j: nat, i: nat, n: int, k: real)
    requires j < i <= |actions| <= |states|
  {
    && Hits(cfg, states[j], actions[j], n, k)
    && (Lasting(actions[j]) || forall m :: j < m < i ==> !Begins(actions[m], n))
  }

  lemma TouchedStays(cfg: Config, states: seq<State>, actions: seq<Action>, i: nat, n: int, k: real)
    requires i < |actions| <= |states| && !Begins(actions[i], n)
    ensures Touched(cfg, states, actions, i, n, k) ==> Touched(cfg, states, actions, i + 1, n, k)
    ensures Hits(cfg, states[i], actions[i], n, k) ==> Touched(cfg, states, actions, i + 1, n, k)
  {
    hide Hits, Begins, Lasting;
    if Touched(cfg, states, actions, i, n, k) {
      var j :| 0 <= j < i && TouchedAt(cfg, states, actions, j, i, n, k);
      assert TouchedAt(cfg, states, actions, j, i + 1, n, k);
    }
    if Hits(cfg, states[i], actions[i], n, k) {
      assert TouchedAt(cfg, states, actions, i, i + 1, n, k);
    }
  }

  // ----- error frames

  predicate IsError(f: Frame) {
    f.FetchResp? && f.status == Error
  }

  /** An error is on its way to the End. */
  ghost predicate ErrorComing(ses: Session, conns: seq<Conn>) {
    || (exists x :: 0 <= x < |ses.down| && IsError(ses.down[x]))
    || (ses.serving.Some? && ses.serving.value < |conns| && conns[ses.serving.value].pc.Replied? &&
        IsError(conns[ses.serving.value].pc.reply))
  }

  /** Edges answer: no error is on a control connection. */
  ghost predicate EdgesAnswer(s: State) {
    forall d :: 0 <= d < |s.controls| ==> NoErrors(s.controls[d].fromEdge)
  }

  ghost predicate NoErrors(q: seq<Frame>) {
    forall x :: 0 <= x < |q| ==> !IsError(q[x])
  }

  lemma RespondAnswers(cfg: Config, e: int, k: real)
    ensures !IsError(Respond(cfg, e, k))
  {
    hide EdgeFind;
  }

  lemma {:induction false} NoResps(q: seq<Frame>)
    requires Resps(q) == []
    ensures forall x :: 0 <= x < |q| ==> !q[x].FetchResp?
  {
    if q != [] {
      NoResps(q[1..]);
      forall x | 0 <= x < |q| ensures !q[x].FetchResp? {
        assert x > 0 ==> q[x] == q[1..][x - 1];
      }
    }
  }

  lemma ErrorLast(ses: Session, conns: seq<Conn>, f: Frame)
    requires !IsError(f)
    ensures ErrorComing(ses.(down := ses.down + [f]), conns) <==> ErrorComing(ses, conns)
  {
    hide IsError;
    var ses' := ses.(down := ses.down + [f]);
    if x :| 0 <= x < |ses.down| && IsError(ses.down[x]) {
      assert IsError(ses'.down[x]);
    }
  }

  lemma ErrorRest(ses: Session, conns: seq<Conn>)
    requires ses.down != []
    ensures ErrorComing(ses.(down := ses.down[1..]), conns) ==> ErrorComing(ses, conns)
  {
    hide IsError;
    var ses' := ses.(down := ses.down[1..]);
    if x :| 0 <= x < |ses'.down| && IsError(ses'.down[x]) {
      assert IsError(ses.down[x + 1]);
    }
  }

  /** An idle End has no error coming. */
  lemma IdleIsCalm(cfg: Config, n: int, ses: Session, conns: seq<Conn>)
    requires SessionOk(cfg, n, ses, conns) && ses.alive && ses.wait == None
    ensures !ErrorComing(ses, conns)
  {
    hide HotOk, UpOk, DownOk, Reqs, Resps;
    NoResps(ses.down);
  }

  // ----- control connections

  /** Actions on a control connection. */
  predicate OnControl(a: Action) {
    || a.CloudLocks? || a.CloudReads? || a.CloudFails? || a.EdgeServes? || a.CloudPushes? || a.ControlBreaks?
    || a.Registers? || a.Acknowledges?
  }

  lemma ControlsSame(cfg: Config, s: State, a: Action)
    requires Enabled(cfg, s, a) && !OnControl(a)
    ensures Next(cfg, s, a).0.controls == s.controls
  {
    hide Locate, EdgeOf, Receive, Broken, Accept, IsHotList, Remote, SameEdge, EdgeFind, LocalFind, Respond, Handle;
    if a.HandlerReads? {
      HandleControls(cfg, s, a.n, a.connected);
    }
  }

  lemma HandleControls(cfg: Config, s: State, n: int, connected: bool)
    requires n in s.sessions && |s.sessions[n].up| > 0
    ensures Handle(cfg, s, n, connected).0.controls == s.controls
    ensures Handle(cfg, s, n, connected).0.sessions.Keys == s.sessions.Keys
  {
    hide Respond, Broken;
  }

  lemma ServedControls(cfg: Config, s: State, d: nat, registered: bool)
    requires d < |s.controls| && |s.controls[d].toEdge| > 0
    ensures var s' := Serve(cfg, s, d, registered);
            && |s'.controls| == |s.controls|
            && (forall x :: 0 <= x < |s.controls| && x != d ==> s'.controls[x] == s.controls[x])
            && s'.controls[d].edge == s.controls[d].edge && s'.controls[d].alive == s.controls[d].alive
            && (NoErrors(s.controls[d].fromEdge) ==> NoErrors(s'.controls[d].fromEdge))
  {
    hide Respond, IsError;
    if s.controls[d].toEdge[0].CrossReq? {
      RespondAnswers(cfg, s.controls[d].edge, s.controls[d].toEdge[0].key);
    }
  }

  /** What an action may do to a control connection: it keeps its Edge, dies only by a break, and sends on errors only
      if there were some. */
  ghost predicate ControlKept(ctl: Control, ctl': Control, breaks: bool) {
    && ctl'.edge == ctl.edge && (!ctl'.alive ==> !ctl.alive || breaks)
    && (NoErrors(ctl.fromEdge) ==> NoErrors(ctl'.fromEdge))
  }

  ghost predicate ControlsKept(s: State, s': State, a: Action) {
    && |s'.controls| >= |s.controls|
    && (forall d :: 0 <= d < |s.controls| ==> ControlKept(s.controls[d], s'.controls[d], a == ControlBreaks(d)))
    && (forall d :: |s.controls| <= d < |s'.controls| ==> s'.controls[d].alive && s'.controls[d].fromEdge == [])
  }

  predicate OfWorker(a: Action) {
    a.CloudLocks? || a.CloudReads? || a.CloudFails?
  }

  lemma WorkerKeepsControls(cfg: Config, s: State, a: Action)
    requires Enabled(cfg, s, a) && OfWorker(a)
    ensures ControlsKept(s, Next(cfg, s, a).0, a)
  {
    hide Locate, EdgeOf, IsError, IsHotList, Remote, SameEdge;
  }

  lemma OthersKeepControls(cfg: Config, s: State, a: Action)
    requires Enabled(cfg, s, a) && OnControl(a) && !OfWorker(a)
    ensures ControlsKept(s, Next(cfg, s, a).0, a)
  {
    hide Locate, EdgeOf, IsError, IsHotList, Remote, SameEdge, Serve;
    if a.EdgeServes? {
      ServedControls(cfg, s, a.d, a.registered);
    }
  }

  lemma ControlsStay(cfg: Config, s: State, a: Action)
    requires Enabled(cfg, s, a)
    ensures ControlsKept(s, Next(cfg, s, a).0, a)
  {
    hide Enabled, Next, IsError;
    if OfWorker(a) {
      WorkerKeepsControls(cfg, s, a);
    } else if OnControl(a) {
      OthersKeepControls(cfg, s, a);
    } else {
      ControlsSame(cfg, s, a);
    }
  }

  // ----- where an error comes from

  /** A control connection of the Edge responsible for the key is broken. */
  ghost predicate EdgeGone(cfg: Config, s: State, k: real) {
    exists d :: 0 <= d < |s.controls| && !s.controls[d].alive && s.controls[d].edge == EdgeFor(cfg, k)
  }

  /** An error that is coming to End n's lookup of k after the action was coming before, or the action touches the
      lookup, or a control connection is broken. */
  ghost predicate Explained(cfg: Config, s: State, a: Action, n: int, k: real)
    requires n in s.sessions
  {
    ErrorComing(s.sessions[n], s.conns) || Hits(cfg, s, a, n, k) || EdgeGone(cfg, s, k)
  }

  /** The session after the action. */
  ghost predicate Awaits(s': State, n: int, k: real) {
    n in s'.sessions && s'.sessions[n].alive && s'.sessions[n].wait.Some? && s'.sessions[n].wait.value.key == k
  }

  /** The waiting End's lookup was there before the action, unless the action begins it. */
  ghost predicate AwaitsAlready(s: State, n: int, k: real, a: Action) {
    Awaits(s, n, k) && !Begins(a, n)
  }

  /** Actions of the End itself. */
  lemma EndError(cfg: Config, s: State, a: Action, n: int, k: real)
    requires Inv(cfg, s) && Enabled(cfg, s, a) && AtEnd(a) && n in s.sessions
    requires var s' := Next(cfg, s, a).0; Awaits(s', n, k) && ErrorComing(s'.sessions[n], s'.conns)
    ensures AwaitsAlready(s, n, k, a) && ErrorComing(s.sessions[n], s.conns)
  {
    hide Inv, SessionOk, ErrorComing, Merge, Enabled;
    SessionAt(cfg, s, n);
    if a.SendFetch? || a.SendCross? {
      BeginsCalm(cfg, s, a, n);
    } else if a.EndReads? {
      ReadError(cfg, s, a, n);
    } else {
      QuietError(cfg, s, a, n);
    }
  }

  lemma ReadError(cfg: Config, s: State, a: Action, n: int)
    requires Enabled(cfg, s, a) && a.EndReads? && n in s.sessions
    requires var ses' := Next(cfg, s, a).0.sessions[n]; ses'.wait.Some? && ErrorComing(ses', s.conns)
    ensures var ses' := Next(cfg, s, a).0.sessions[n];
            ErrorComing(s.sessions[n], s.conns) && s.sessions[n].wait == ses'.wait && s.sessions[n].alive == ses'.alive
    ensures Next(cfg, s, a).0.conns == s.conns
  {
    hide ErrorComing, Receive;
    if a.n == n {
      ReadsError(s.sessions[n], n, s.conns);
    }
  }

  lemma QuietError(cfg: Config, s: State, a: Action, n: int)
    requires Enabled(cfg, s, a) && AtEnd(a) && !a.SendFetch? && !a.SendCross? && !a.EndReads? && n in s.sessions
    requires var s' := Next(cfg, s, a).0; s'.sessions[n].alive && ErrorComing(s'.sessions[n], s'.conns)
    ensures var ses' := Next(cfg, s, a).0.sessions[n];
            ErrorComing(s.sessions[n], s.conns) && s.sessions[n].wait == ses'.wait && s.sessions[n].alive
  {
    hide ErrorComing, Locate, EdgeOf, Remote, SameEdge, EdgeFind, LocalFind;
    var ses, ses' := s.sessions[n], Next(cfg, s, a).0.sessions[n];
    SameError(ses, ses', s.conns);
    if a.EdgePushes? && a.n == n {
      ErrorLast(ses, s.conns, a.f);
    }
  }

  lemma SameError(ses: Session, ses': Session, conns: seq<Conn>)
    ensures ses'.down == ses.down && ses'.serving == ses.serving ==>
              (ErrorComing(ses', conns) <==> ErrorComing(ses, conns))
  {
    hide IsError;
  }

  lemma BeginsCalm(cfg: Config, s: State, a: Action, n: int)
    requires Enabled(cfg, s, a) && (a.SendFetch? || a.SendCross?) && n in s.sessions
    requires SessionOk(cfg, n, s.sessions[n], s.conns)
    requires ErrorComing(Next(cfg, s, a).0.sessions[n], s.conns)
    ensures a.n != n && Next(cfg, s, a).0.sessions[n] == s.sessions[n] && Next(cfg, s, a).0.conns == s.conns
  {
    hide Locate, EdgeOf, Remote, SameEdge, ErrorComing, SessionOk;
    if a.n == n {
      IdleIsCalm(cfg, n, s.sessions[n], s.conns);
      SameError(s.sessions[n], Next(cfg, s, a).0.sessions[n], s.conns);
    }
  }

  lemma ReadsError(ses: Session, n: int, conns: seq<Conn>)
    requires ses.down != [] && Receive(n, ses).0.wait.Some? && ErrorComing(Receive(n, ses).0, conns)
    ensures ses.wait == Receive(n, ses).0.wait && ErrorComing(ses, conns)
    ensures Receive(n, ses).0.alive == ses.alive
  {
    hide ErrorComing, Merge;
    ErrorRest(ses, conns);
    SameError(ses.(down := ses.down[1..]), Receive(n, ses).0, conns);
  }

  /** Actions of the End's handler at the Edge. */
  predicate OfHandler(a: Action) {
    a.HandlerReads? || a.HandlerReplies? || a.HandlerGivesUp?
  }

  lemma HandlerError(cfg: Config, s: State, a: Action, n: int, k: real)
    requires ConfigOk(cfg) && Inv(cfg, s) && Enabled(cfg, s, a) && OfHandler(a) && n in s.sessions
    requires var s' := Next(cfg, s, a).0; Awaits(s', n, k) && ErrorComing(s'.sessions[n], s'.conns)
    ensures AwaitsAlready(s, n, k, a) && Explained(cfg, s, a, n, k)
  {
    if a.HandlerReads? {
      HandleError(cfg, s, n, k, a.n, a.connected);
    } else {
      ReplyError(cfg, s, a, n, k);
    }
  }

  lemma ReplyError(cfg: Config, s: State, a: Action, n: int, k: real)
    requires Enabled(cfg, s, a) && (a.HandlerReplies? || a.HandlerGivesUp?) && n in s.sessions
    requires var s' := Next(cfg, s, a).0; Awaits(s', n, k) && ErrorComing(s'.sessions[n], s'.conns)
    ensures AwaitsAlready(s, n, k, a) && Explained(cfg, s, a, n, k)
  {
    hide Locate, EdgeOf, EdgeGone;
    if a.n == n && a.HandlerReplies? {
      var ses := s.sessions[n];
      var f := s.conns[ses.serving.value].pc.reply;
      hide IsError;
      if !IsError(f) {
        ErrorLast(ses, s.conns, f);
      }
    }
  }

  lemma HandleError(cfg: Config, s: State, n: int, k: real, m: int, connected: bool)
    requires Inv(cfg, s) && Enabled(cfg, s, HandlerReads(m, connected)) && n in s.sessions
    requires var s' := Handle(cfg, s, m, connected).0; Awaits(s', n, k) && ErrorComing(s'.sessions[n], s'.conns)
    ensures AwaitsAlready(s, n, k, HandlerReads(m, connected)) && Explained(cfg, s, HandlerReads(m, connected), n, k)
  {
    SessionAt(cfg, s, n);
    SessionAt(cfg, s, m);
    hide Inv, Locate, EdgeOf, EdgeGone;
    var ses := s.sessions[m];
    if m == n {
      HandleOwn(cfg, s, n, k, connected);
    } else {
      HandleOther(cfg, s, n, k, m, connected);
    }
  }

  lemma HandleOther(cfg: Config, s: State, n: int, k: real, m: int, connected: bool)
    requires m in s.sessions && |s.sessions[m].up| > 0 && n in s.sessions && m != n
    requires SessionOk(cfg, n, s.sessions[n], s.conns)
    requires var s' := Handle(cfg, s, m, connected).0; Awaits(s', n, k) && ErrorComing(s'.sessions[n], s'.conns)
    ensures Awaits(s, n, k) && ErrorComing(s.sessions[n], s.conns)
  {
    hide Respond, Broken, IsError, HotOk, UpOk, DownOk, Asks, Locate;
    assert Handle(cfg, s, m, connected).0.sessions[n] == s.sessions[n];
    var ses := s.sessions[n];
    if ses.serving.Some? {
      assert ses.serving.value < |s.conns|;
    }
  }

  lemma HandleOwn(cfg: Config, s: State, n: int, k: real, connected: bool)
    requires n in s.sessions && s.sessions[n].alive && |s.sessions[n].up| > 0 && s.sessions[n].serving.None?
    requires SessionOk(cfg, n, s.sessions[n], s.conns)
    requires var s' := Handle(cfg, s, n, connected).0; Awaits(s', n, k) && ErrorComing(s'.sessions[n], s'.conns)
    ensures Awaits(s, n, k)
    ensures ErrorComing(s.sessions[n], s.conns) || Hits(cfg, s, HandlerReads(n, connected), n, k)
  {
    var ses := s.sessions[n];
    var f := ses.up[0];
    var next := ses.(up := ses.up[1..]);
    hide SessionOk, Locate, EdgeOf, IsError, Respond;
    SameError(ses, next, s.conns);
    match f
    case FetchReq(q, _) =>
      RespondAnswers(cfg, EdgeOf(cfg.ends, n), q);
      ErrorLast(next, s.conns, Respond(cfg, EdgeOf(cfg.ends, n), q));
    case CrossReq(_, q) =>
      RequestIsMine(cfg, n, ses, s.conns);
      AskedKey(cfg, n, f, ses.wait.value);
      if connected {
        Opening(next, s.conns, q);
      }
    case ParamPush =>
      NotError();
      ErrorLast(next, s.conns, ParamPush);
    case _ =>
  }

  lemma AskedKey(cfg: Config, n: int, f: Frame, w: Wait)
    requires Asks(cfg, n, f, w) && f.CrossReq?
    ensures f.key == w.key
  {
    hide Locate;
  }

  lemma NotError()
    ensures !IsError(ParamPush) && !IsError(SnapshotInfo)
    ensures forall t, pairs :: !IsError(HotUpdate(t, pairs))
  {}

  /** A fresh Cloud connection has no error yet. */
  lemma Opening(ses: Session, conns: seq<Conn>, k: real)
    requires ses.serving.None?
    ensures ErrorComing(ses.(serving := Some(|conns|)), conns + [Conn(k, Accepting)]) ==> ErrorComing(ses, conns)
  {
    hide IsError;
  }

  // ----- the Cloud

  lemma CloudError(cfg: Config, s: State, a: Action, n: int, k: real)
    requires ConfigOk(cfg) && Inv(cfg, s) && Enabled(cfg, s, a) && EdgesAnswer(s) && n in s.sessions
    requires a.CloudAccepts? || OfWorker(a)
    requires var s' := Next(cfg, s, a).0; Awaits(s', n, k) && ErrorComing(s'.sessions[n], s'.conns)
    ensures AwaitsAlready(s, n, k, a) && Explained(cfg, s, a, n, k)
  {
    hide Inv, ConfigOk, SessionOk, ConnOk, Next, Enabled, ErrorComing, EdgeGone, Hits, EdgesAnswer;
    SessionAt(cfg, s, n);
    CloudSessions(cfg, s, a);
    ConnAt(cfg, s, a.c);
    var ses, s' := s.sessions[n], Next(cfg, s, a).0;
    ServedKey(cfg, n, ses, s.conns);
    if ses.serving != Some(a.c) {
      OtherConn(ses, s.conns, s'.conns, a.c);
    } else if !ErrorComing(ses, s.conns) {
      WorkerError(cfg, s, a, n, k);
    }
  }

  lemma CloudSessions(cfg: Config, s: State, a: Action)
    requires Enabled(cfg, s, a) && (a.CloudAccepts? || OfWorker(a))
    ensures var s' := Next(cfg, s, a).0;
            && s'.sessions == s.sessions && a.c < |s.conns| == |s'.conns|
            && forall c :: 0 <= c < |s.conns| && c != a.c ==> s'.conns[c] == s.conns[c]
  {
    hide Locate, EdgeOf, Accept, IsHotList, Remote, SameEdge;
  }

  lemma ServedKey(cfg: Config, n: int, ses: Session, conns: seq<Conn>)
    requires SessionOk(cfg, n, ses, conns)
    ensures ses.alive && ses.wait.Some? && ses.serving.Some? ==>
              ses.serving.value < |conns| && conns[ses.serving.value].key == ses.wait.value.key
  {
    hide HotOk, UpOk, DownOk, Asks, Reqs, Resps, Remote;
  }

  lemma OtherConn(ses: Session, conns: seq<Conn>, conns': seq<Conn>, c: nat)
    requires |conns'| == |conns| && forall x :: 0 <= x < |conns| && x != c ==> conns'[x] == conns[x]
    requires ses.serving != Some(c)
    ensures ErrorComing(ses, conns') <==> ErrorComing(ses, conns)
  {
    hide IsError;
  }

  /** A worker has turned to an error: the Edge is not registered, or its control connection is broken. */
  lemma WorkerError(cfg: Config, s: State, a: Action, n: int, k: real)
    requires Enabled(cfg, s, a) && EdgesAnswer(s) && n in s.sessions && (a.CloudAccepts? || OfWorker(a))
    requires ConnOk(cfg, a.c, s.conns[a.c], s.controls)
    requires s.sessions[n].serving == Some(a.c) && s.conns[a.c].key == k && !ErrorComing(s.sessions[n], s.conns)
    requires ErrorComing(s.sessions[n], Next(cfg, s, a).0.conns)
    ensures Hits(cfg, s, a, n, k) || EdgeGone(cfg, s, k)
  {
    hide Locate, EdgeOf, Right;
    match a
    case CloudAccepts(c) =>
    case CloudLocks(c) =>
    case CloudReads(c) =>
    case CloudFails(c) =>
    case _ =>
  }

  // ----- other actions

  lemma OtherError(cfg: Config, s: State, a: Action, n: int, k: real)
    requires Enabled(cfg, s, a) && OnControl(a) && !OfWorker(a) && n in s.sessions
    requires var s' := Next(cfg, s, a).0; Awaits(s', n, k) && ErrorComing(s'.sessions[n], s'.conns)
    ensures AwaitsAlready(s, n, k, a) && ErrorComing(s.sessions[n], s.conns)
  {
    hide Locate, EdgeOf, ErrorComing, Respond, IsHotList;
    if a.EdgeServes? && s.controls[a.d].toEdge[0].HotUpdate? && s.controls[a.d].toEdge[0].target == n {
      NotError();
      ErrorLast(s.sessions[n], s.conns, s.controls[a.d].toEdge[0]);
    }
  }

  /** Where an error on its way to a lookup comes from. */
  lemma NewError(cfg: Config, s: State, a: Action, n: int, k: real)
    requires ConfigOk(cfg) && Inv(cfg, s) && Enabled(cfg, s, a) && EdgesAnswer(s) && n in s.sessions
    requires var s' := Next(cfg, s, a).0; Awaits(s', n, k) && ErrorComing(s'.sessions[n], s'.conns)
    ensures AwaitsAlready(s, n, k, a) && Explained(cfg, s, a, n, k)
  {
    hide Inv, ConfigOk, Enabled, Next, Awaits, AwaitsAlready, ErrorComing, EdgeGone, EdgesAnswer, Hits;
    if AtEnd(a) {
      EndError(cfg, s, a, n, k);
    } else if OfHandler(a) {
      HandlerError(cfg, s, a, n, k);
    } else if a.CloudAccepts? || OfWorker(a) {
      CloudError(cfg, s, a, n, k);
    } else {
      OtherError(cfg, s, a, n, k);
    }
  }

  // ----- Ends that are gone

  /** Ends neither appear nor die, except by a break. */
  lemma EndsStay(cfg: Config, s: State, a: Action, n: int)
    requires Inv(cfg, s) && Enabled(cfg, s, a) && n in Next(cfg, s, a).0.sessions
    ensures n in s.sessions
    ensures !Next(cfg, s, a).0.sessions[n].alive ==> !s.sessions[n].alive || a == EndBreaks(n)
  {
    hide Inv, Locate, EdgeOf;
    if a.HandlerReads? {
      SessionAt(cfg, s, a.n);
      HandleKeeps(cfg, s, a.n, a.connected, n);
    } else if AtEnd(a) {
      EndKeeps(cfg, s, a, n);
    } else {
      OthersKeep(cfg, s, a, n);
    }
  }

  lemma HandleKeeps(cfg: Config, s: State, m: int, connected: bool, n: int)
    requires m in s.sessions && s.sessions[m].alive && |s.sessions[m].up| > 0
    requires SessionOk(cfg, m, s.sessions[m], s.conns) && n in Handle(cfg, s, m, connected).0.sessions
    ensures n in s.sessions && Handle(cfg, s, m, connected).0.sessions[n].alive == s.sessions[n].alive
  {
    hide SessionOk, Locate, EdgeOf, Respond;
    if !IsReq(s.sessions[m].up[0]) {
      SkipUp(cfg, m, s.sessions[m], s.conns);
    }
  }

  lemma EndKeeps(cfg: Config, s: State, a: Action, n: int)
    requires Enabled(cfg, s, a) && AtEnd(a) && n in Next(cfg, s, a).0.sessions
    ensures n in s.sessions
    ensures !Next(cfg, s, a).0.sessions[n].alive ==> !s.sessions[n].alive || a == EndBreaks(n)
  {
    hide Locate, EdgeOf, SameEdge, EdgeFind, LocalFind, Merge;
  }

  lemma OthersKeep(cfg: Config, s: State, a: Action, n: int)
    requires Enabled(cfg, s, a) && !AtEnd(a) && !a.HandlerReads? && n in Next(cfg, s, a).0.sessions
    ensures n in s.sessions && Next(cfg, s, a).0.sessions[n].alive == s.sessions[n].alive
  {
    hide Locate, EdgeOf, SameEdge, Respond, Accept, IsHotList;
  }

  /** How a step can report a failed lookup. */
  lemma FailedStep(cfg: Config, s: State, a: Action)
    requires Inv(cfg, s) && Enabled(cfg, s, a)
    requires var ev := Next(cfg, s, a).1; ev.Answer? && ev.failed
    ensures var ev := Next(cfg, s, a).1;
            && ev.end in s.sessions
            && (|| a == EndBreaks(ev.end)
                || (a == Disconnected(ev.end, ev.key) && !s.sessions[ev.end].alive)
                || (a == EndReads(ev.end) && Awaits(s, ev.end, ev.key) && ErrorComing(s.sessions[ev.end], s.conns)))
  {
    hide Inv, Locate, EdgeOf, SameEdge, EdgeFind, LocalFind, Merge, Serve, Accept, Respond;
    if a.HandlerReads? {
      SessionAt(cfg, s, a.n);
      HandleSilent(cfg, s, a.n, a.connected);
    } else if a.EndReads? {
      assert IsError(s.sessions[a.n].down[0]);
    }
  }

  lemma HandleSilent(cfg: Config, s: State, n: int, connected: bool)
    requires n in s.sessions && s.sessions[n].alive && |s.sessions[n].up| > 0
    requires SessionOk(cfg, n, s.sessions[n], s.conns)
    ensures Handle(cfg, s, n, connected).1 == Silent
  {
    hide SessionOk, Locate, EdgeOf, Respond;
    if !IsReq(s.sessions[n].up[0]) {
      SkipUp(cfg, n, s.sessions[n], s.conns);
    }
  }

  // ----- runs

  ghost predicate BrokenBefore(actions: seq<Action>, i: nat, n: int)
    requires i <= |actions|
  {
    exists j :: 0 <= j < i && actions[j] == EndBreaks(n)
  }

  ghost predicate ControlBroke(states: seq<State>, actions: seq<Action>, i: nat, d: nat, edge: int)
    requires i <= |actions| <= |states|
  {
    exists j :: 0 <= j < i && BreaksAt(states[j], actions[j], d, edge)
  }

  ghost predicate BreaksAt(s: State, a: Action, d: nat, edge: int) {
    a == ControlBreaks(d) && d < |s.controls| && s.controls[d].edge == edge
  }

  /** What the steps before i explain: broken Ends, broken control connections and errors on their way. */
  ghost predicate HistoryOk(cfg: Config, states: seq<State>, actions: seq<Action>, i: nat)
    requires i <= |actions| && |states| == |actions| + 1
  {
    var s := states[i];
    && (forall n :: n in s.sessions ==> s.sessions[n].alive || BrokenBefore(actions, i, n))
    && (forall d :: 0 <= d < |s.controls| ==>
          s.controls[d].alive || ControlBroke(states, actions, i, d, s.controls[d].edge))
    && EdgesAnswer(s)
    && (forall n, k :: Awaits(s, n, k) && ErrorComing(s.sessions[n], s.conns) ==>
                         Touched(cfg, states, actions, i, n, k))
  }

  lemma BreakTouches(cfg: Config, states: seq<State>, actions: seq<Action>, i: nat, d: nat, n: int, k: real)
    requires i <= |actions| <= |states| && ControlBroke(states, actions, i, d, EdgeFor(cfg, k))
    ensures Touched(cfg, states, actions, i, n, k)
  {
    hide EdgeFor;
    var j :| 0 <= j < i && BreaksAt(states[j], actions[j], d, EdgeFor(cfg, k));
    assert TouchedAt(cfg, states, actions, j, i, n, k);
  }

  lemma EndHistory(cfg: Config, states: seq<State>, actions: seq<Action>, i: nat, n: int)
    requires i < |actions| && |states| == |actions| + 1 && Inv(cfg, states[i]) && HistoryOk(cfg, states, actions, i)
    requires Enabled(cfg, states[i], actions[i]) && states[i + 1] == Next(cfg, states[i], actions[i]).0
    requires n in states[i + 1].sessions
    ensures n in states[i].sessions && (states[i + 1].sessions[n].alive || BrokenBefore(actions, i + 1, n))
  {
    hide Inv, Enabled, Next, EdgesAnswer, Touched, Awaits, ErrorComing, ControlBroke;
    EndsStay(cfg, states[i], actions[i], n);
    if !states[i].sessions[n].alive {
      assert BrokenBefore(actions, i, n);
    }
  }

  lemma ControlHistory(cfg: Config, states: seq<State>, actions: seq<Action>, i: nat, d: nat)
    requires i < |actions| && |states| == |actions| + 1 && HistoryOk(cfg, states, actions, i)
    requires Enabled(cfg, states[i], actions[i]) && states[i + 1] == Next(cfg, states[i], actions[i]).0
    requires d < |states[i + 1].controls|
    ensures states[i + 1].controls[d].alive || ControlBroke(states, actions, i + 1, d, states[i + 1].controls[d].edge)
  {
    hide Enabled, Next, EdgesAnswer, Touched, Awaits, ErrorComing, BrokenBefore, NoErrors;
    var s, s' := states[i], states[i + 1];
    ControlsStay(cfg, s, actions[i]);
    if !s'.controls[d].alive {
      assert ControlKept(s.controls[d], s'.controls[d], actions[i] == ControlBreaks(d));
      if s.controls[d].alive {
        assert BreaksAt(states[i], actions[i], d, s'.controls[d].edge);
      } else {
        var j :| 0 <= j < i && BreaksAt(states[j], actions[j], d, s.controls[d].edge);
        assert BreaksAt(states[j], actions[j], d, s'.controls[d].edge);
      }
    }
  }

  lemma ErrorHistory(cfg: Config, states: seq<State>, actions: seq<Action>, i: nat, n: int, k: real)
    requires i < |actions| && |states| == |actions| + 1 && HistoryOk(cfg, states, actions, i)
    requires ConfigOk(cfg) && Inv(cfg, states[i])
    requires Enabled(cfg, states[i], actions[i]) && states[i + 1] == Next(cfg, states[i], actions[i]).0
    requires Awaits(states[i + 1], n, k) && ErrorComing(states[i + 1].sessions[n], states[i + 1].conns)
    ensures Touched(cfg, states, actions, i + 1, n, k)
  {
    var s, a := states[i], actions[i];
    assert n in states[i + 1].sessions;
    hide Inv, ConfigOk, Enabled, Next, ErrorComing, EdgesAnswer, Touched, Hits, BrokenBefore, ControlBroke, Begins;
    EndsStay(cfg, s, a, n);
    NewError(cfg, s, a, n, k);
    TouchedStays(cfg, states, actions, i, n, k);
    if !ErrorComing(s.sessions[n], s.conns) && !Hits(cfg, s, a, n, k) {
      var d :| 0 <= d < |s.controls| && !s.controls[d].alive && s.controls[d].edge == EdgeFor(cfg, k);
      BreakTouches(cfg, states, actions, i, d, n, k);
    }
  }

  lemma {:induction false} RunsAreExplained(cfg: Config, states: seq<State>, actions: seq<Action>, i: nat)
    requires ConfigOk(cfg) && Run(cfg, states, actions) && i <= |actions|
    ensures HistoryOk(cfg, states, actions, i)
  {
    hide Inv, ConfigOk, Enabled, Next, Init, HistoryOk;
    if i == 0 {
      StartIsExplained(cfg, states, actions);
    } else {
      RunsAreExplained(cfg, states, actions, i - 1);
      RunsKeep(cfg, states, actions, i - 1);
      assert Enabled(cfg, states[i - 1], actions[i - 1]) && Moves(cfg, states, actions[i - 1], i - 1);
      StepIsExplained(cfg, states, actions, i - 1);
    }
  }

  lemma StepIsExplained(cfg: Config, states: seq<State>, actions: seq<Action>, i: nat)
    requires i < |actions| && |states| == |actions| + 1 && HistoryOk(cfg, states, actions, i)
    requires ConfigOk(cfg) && Inv(cfg, states[i])
    requires Enabled(cfg, states[i], actions[i]) && states[i + 1] == Next(cfg, states[i], actions[i]).0
    ensures HistoryOk(cfg, states, actions, i + 1)
  {
    var s' := states[i + 1];
    forall n | n in s'.sessions ensures s'.sessions[n].alive || BrokenBefore(actions, i + 1, n) {
      EndHistory(cfg, states, actions, i, n);
    }
    forall d | 0 <= d < |s'.controls|
      ensures s'.controls[d].alive || ControlBroke(states, actions, i + 1, d, s'.controls[d].edge)
    {
      ControlHistory(cfg, states, actions, i, d);
    }
    StillAnswering(cfg, states, actions, i);
    forall n, k | Awaits(s', n, k) && ErrorComing(s'.sessions[n], s'.conns)
      ensures Touched(cfg, states, actions, i + 1, n, k)
    {
      ErrorHistory(cfg, states, actions, i, n, k);
    }
    hide Inv, ConfigOk, Enabled, Next, EdgesAnswer, Touched, ErrorComing, BrokenBefore, ControlBroke;
  }

  lemma StillAnswering(cfg: Config, states: seq<State>, actions: seq<Action>, i: nat)
    requires i < |actions| && |states| == |actions| + 1 && HistoryOk(cfg, states, actions, i)
    requires Enabled(cfg, states[i], actions[i]) && states[i + 1] == Next(cfg, states[i], actions[i]).0
    ensures EdgesAnswer(states[i + 1])
  {
    hide Enabled, Next, Touched, Awaits, ErrorComing, BrokenBefore, ControlBroke, NoErrors;
    var s, s' := states[i], states[i + 1];
    ControlsStay(cfg, s, actions[i]);
    forall d | 0 <= d < |s'.controls| ensures NoErrors(s'.controls[d].fromEdge) {
      if d < |s.controls| {
        assert ControlKept(s.controls[d], s'.controls[d], actions[i] == ControlBreaks(d));
      } else {
        EmptyHasNoErrors(s'.controls[d].fromEdge);
      }
    }
  }

  lemma EmptyHasNoErrors(q: seq<Frame>)
    requires q == []
    ensures NoErrors(q)
  {}

  lemma StartIsExplained(cfg: Config, states: seq<State>, actions: seq<Action>)
    requires |states| == |actions| + 1 && Init(cfg, states[0])
    ensures HistoryOk(cfg, states, actions, 0)
  {
    hide Touched;
  }

  /** A lookup fails only if a failure has touched it: in every run, whenever a lookup reports a failure, the End's own
      connection has broken, a control connection of the Edge responsible for the key has broken, or since the lookup
      began its handler could not reach the Cloud, gave up, or found that Edge unregistered. */
  lemma FailuresHaveCauses(cfg: Config, states: seq<State>, actions: seq<Action>, i: nat)
    requires ConfigOk(cfg) && Run(cfg, states, actions) && i < |actions|
    ensures Enabled(cfg, states[i], actions[i])
    ensures var ev := Next(cfg, states[i], actions[i]).1;
            ev.Answer? && ev.failed ==> Touched(cfg, states, actions, i + 1, ev.end, ev.key)
  {
    hide Inv, ConfigOk, Init, ErrorComing, Awaits, Locate, Next, Enabled, HistoryOk, Touched, Hits, Begins;
    RunsKeep(cfg, states, actions, i);
    RunsAreExplained(cfg, states, actions, i);
    var s, a := states[i], actions[i];
    assert Enabled(cfg, s, a);
    var ev := Next(cfg, s, a).1;
    if ev.Answer? && ev.failed {
      FailedStep(cfg, s, a);
      HistoryOf(cfg, states, actions, i, ev.end, ev.key);
      NotBegun(cfg, states[i], a, ev.end, ev.key);
      TouchedStays(cfg, states, actions, i, ev.end, ev.key);
    }
  }

  lemma HistoryOf(cfg: Config, states: seq<State>, actions: seq<Action>, i: nat, n: int, k: real)
    requires i <= |actions| && |states| == |actions| + 1 && HistoryOk(cfg, states, actions, i)
    requires n in states[i].sessions
    ensures !states[i].sessions[n].alive ==> Touched(cfg, states, actions, i, n, k)
    ensures Awaits(states[i], n, k) && ErrorComing(states[i].sessions[n], states[i].conns) ==>
              Touched(cfg, states, actions, i, n, k)
  {
    hide EdgesAnswer, ErrorComing, ControlBroke, Awaits;
    if !states[i].sessions[n].alive {
      var j :| 0 <= j < i && actions[j] == EndBreaks(n);
      assert TouchedAt(cfg, states, actions, j, i, n, k);
    }
  }

  lemma NotBegun(cfg: Config, s: State, a: Action, n: int, k: real)
    requires a == EndBreaks(n) || a.Disconnected? || a.EndReads?
    ensures !Begins(a, n) && (a == EndBreaks(n) ==> Hits(cfg, s, a, n, k))
  {
    hide EdgeFor;
  }

  /** In a run without failures every lookup that answers finds exactly the routable keys of the dataset. */
  lemma CalmLookupsAreExact(cfg: Config, states: seq<State>, actions: seq<Action>, i: nat)
    requires ConfigOk(cfg) && Run(cfg, states, actions) && i < |actions|
    requires forall j, n, k :: 0 <= j <= i ==> !Hits(cfg, states[j], actions[j], n, k)
    ensures Enabled(cfg, states[i], actions[i])
    ensures var ev := Next(cfg, states[i], actions[i]).1;
            ev.Answer? ==>
              && !ev.failed
              && (ev.found <==> Payload(cfg, ev.key).Some? && Locate(cfg.ends, ev.key) != -1)
              && (ev.found ==> Payload(cfg, ev.key) == Some(ev.payload))
  {
    hide Inv, ConfigOk, Init, Hits, Locate, Payload, Next, Enabled, Begins, Lasting, Run;
    FailuresHaveCauses(cfg, states, actions, i);
    LookupsAreExact(cfg, states, actions, i);
  }
}
