/** The four-stage lookup: Ends, Edges and the Cloud exchanging frames over first-in-first-out channels. */
module Protocol {
  import opened Wrappers
  import opened SortedRecords
  import opened RangeMap

  /** Topology, the Ends each Edge manages, and the dataset every process loads its part of. */
  datatype Config = Config(ends: seq<EndInfo>, managed: map<int, set<int>>, data: seq<Entry>)

  datatype Status = OK | NotFound | Error

  /** `about` and `requestId` do not take part in matching: `about` records which key an answer was computed for
      and is not on the wire, `requestId` is on the wire and read by nobody. */
  datatype Frame =
    | FetchReq(key: real, slot: int)
    | CrossReq(requestId: nat, key: real)
    | FetchResp(status: Status, payload: nat, about: real)
    | HotUpdate(target: int, pairs: seq<Entry>)
    | ParamPush
    | SnapshotInfo
    | Heartbeat(id: int)
    | HeartbeatAck

  /** The lookup that holds an End's connection lock. */
  datatype Wait = Wait(key: real, cross: bool)

  /** An End with its connection to the parent Edge; `serving` is the Cloud connection its handler waits on. */
  datatype Session = Session(alive: bool, wait: Option<Wait>, up: seq<Frame>, down: seq<Frame>,
                             serving: Option<nat>, hot: map<real, nat>)

  /** The Cloud's thread for one cross-edge request; d is a control connection. */
  datatype Worker = Accepting | Locking(d: nat) | Reading(d: nat) | Replied(reply: Frame)

  /** One short-lived connection from an Edge handler to the Cloud. */
  datatype Conn = Conn(key: real, pc: Worker)

  /** The long-lived connection between the Cloud and an Edge, with the holder of its lock; `acked` once the
      registration has been acknowledged. */
  datatype Control =
    Control(edge: int, alive: bool, toEdge: seq<Frame>, fromEdge: seq<Frame>, holder: Option<nat>, acked: bool)

  datatype State =
    State(sessions: map<int, Session>, conns: seq<Conn>, controls: seq<Control>, registered: map<int, nat>)

  /** What one lookup returns; `failed` when a connection error cut it short. */
  datatype Event = Silent | Answer(end: int, key: real, found: bool, payload: nat, failed: bool)

  // ----- data

  /** The keys an Edge loads: between the least and the greatest bound of the Ends it manages. */
  predicate InHull(cfg: Config, e: int, k: real) {
    && e in cfg.managed
    && (exists a :: 0 <= a < |cfg.ends| && cfg.ends[a].id in cfg.managed[e] && cfg.ends[a].lo <= k)
    && (exists b :: 0 <= b < |cfg.ends| && cfg.ends[b].id in cfg.managed[e] && k <= cfg.ends[b].hi)
  }

  /** The payload of a key in the dataset. */
  function Payload(cfg: Config, k: real): Option<nat> {
    FindSorted(cfg.data, k)
  }

  /** The Edge's index, exact over the keys the Edge loaded. */
  function EdgeFind(cfg: Config, e: int, k: real): Option<nat> {
    if InHull(cfg, e, k) then Payload(cfg, k) else None
  }

  /** The End's local tree. */
  function LocalFind(cfg: Config, n: int, k: real): Option<nat> {
    if exists m :: 0 <= m < |cfg.ends| && cfg.ends[m].id == n && Contains(cfg.ends[m], k) then Payload(cfg, k) else None
  }

  function Respond(cfg: Config, e: int, k: real): Frame {
    match EdgeFind(cfg, e, k)
    case Some(p) => FetchResp(OK, p, k)
    case None => FetchResp(NotFound, 0, k)
  }

  // ----- the End

  function Merge(hot: map<real, nat>, pairs: seq<Entry>): map<real, nat>
    decreases |pairs|
  {
    if pairs == [] then hot else Merge(hot[pairs[0].key := pairs[0].payload], pairs[1..])
  }

  /** The End reads one frame: control frames are applied, a response ends the lookup, and any other frame
      ends it without consuming the response. */
  function Receive(n: int, ses: Session): (Session, Event)
    requires |ses.down| > 0
  {
    var f := ses.down[0];
    var next := ses.(down := ses.down[1..]);
    if f.HotUpdate? then (next.(hot := Merge(ses.hot, f.pairs)), Silent)
    else if f.ParamPush? || f.SnapshotInfo? then (next, Silent)
    else
      match ses.wait
      case None => (next, Silent)
      case Some(w) =>
        if f.FetchResp? then
          (next.(wait := None, hot := if f.status == OK then ses.hot[w.key := f.payload] else ses.hot),
           Answer(n, w.key, f.status == OK, f.payload, f.status == Error))
        else (next.(wait := None), Answer(n, w.key, false, 0, false))
  }

  function Broken(n: int, ses: Session): (Session, Event) {
    (ses.(alive := false, wait := None, up := [], down := [], serving := None),
     if ses.wait.Some? then Answer(n, ses.wait.value.key, false, 0, true) else Silent)
  }

  // ----- steps

  datatype Action =
    | LocalLookup(n: int, k: real)
    | HotLookup(n: int, k: real)
    | SnapshotHit(n: int, k: real, p: nat)
    | Nowhere(n: int, k: real)
    | Disconnected(n: int, k: real)
    | SendFetch(n: int, k: real, slot: int)
    | SendCross(n: int, k: real, requestId: nat)
    | SendControl(n: int, f: Frame)
    | EndReads(n: int)
    | EndBreaks(n: int)
    | EdgePushes(n: int, f: Frame)
    | HandlerReads(n: int, connected: bool)
    | HandlerReplies(n: int)
    | HandlerGivesUp(n: int)
    | CloudAccepts(c: nat)
    | CloudLocks(c: nat)
    | CloudReads(c: nat)
    | CloudFails(c: nat)
    | EdgeServes(d: nat, registered: bool)
    | CloudPushes(d: nat, target: int, pairs: seq<Entry>)
    | ControlBreaks(d: nat)
    | Registers(e: int)
    | Acknowledges(d: nat)

  predicate Idle(s: State, n: int) {
    n in s.sessions && s.sessions[n].alive && s.sessions[n].wait.None?
  }

  /** Stages of a lookup that need the network. */
  predicate Remote(cfg: Config, n: int, k: real) {
    Locate(cfg.ends, k) >= 0 && Locate(cfg.ends, k) != n
  }

  predicate AtWorker(s: State, c: nat) {
    c < |s.conns|
  }

  predicate HasControl(s: State, d: nat) {
    d < |s.controls|
  }

  predicate Enabled(cfg: Config, s: State, a: Action) {
    match a
    case LocalLookup(n, k) => n in s.sessions && Locate(cfg.ends, k) == n
    case HotLookup(n, k) => n in s.sessions && Locate(cfg.ends, k) != n && k in s.sessions[n].hot
    case SnapshotHit(n, k, p) =>
      n in s.sessions && Remote(cfg, n, k) && SameEdge(cfg.ends, Locate(cfg.ends, k), n) &&
      EdgeFind(cfg, EdgeOf(cfg.ends, n), k) == Some(p)
    case Nowhere(n, k) => n in s.sessions && Locate(cfg.ends, k) == -1 && k !in s.sessions[n].hot
    case Disconnected(n, k) => n in s.sessions && !s.sessions[n].alive && Remote(cfg, n, k)
    case SendFetch(n, k, slot) => Idle(s, n) && Remote(cfg, n, k) && SameEdge(cfg.ends, Locate(cfg.ends, k), n)
    case SendCross(n, k, id) => Idle(s, n) && Remote(cfg, n, k) && !SameEdge(cfg.ends, Locate(cfg.ends, k), n)
    case SendControl(n, f) => Idle(s, n) && (f.Heartbeat? || f.ParamPush?)
    case EndReads(n) => n in s.sessions && s.sessions[n].alive && |s.sessions[n].down| > 0
    case EndBreaks(n) => n in s.sessions && s.sessions[n].alive
    case EdgePushes(n, f) => n in s.sessions && s.sessions[n].alive && (f.ParamPush? || f.SnapshotInfo?)
    case HandlerReads(n, _) =>
      n in s.sessions && s.sessions[n].alive && s.sessions[n].serving.None? && |s.sessions[n].up| > 0
    case HandlerReplies(n) =>
      && n in s.sessions && s.sessions[n].alive && s.sessions[n].serving.Some?
      && s.sessions[n].serving.value < |s.conns| && s.conns[s.sessions[n].serving.value].pc.Replied?
    case HandlerGivesUp(n) =>
      && n in s.sessions && s.sessions[n].alive && s.sessions[n].serving.Some?
      && s.sessions[n].serving.value < |s.conns|
    case CloudAccepts(c) => AtWorker(s, c) && s.conns[c].pc.Accepting?
    case CloudLocks(c) =>
      && AtWorker(s, c) && s.conns[c].pc.Locking? && HasControl(s, s.conns[c].pc.d)
      && s.controls[s.conns[c].pc.d].holder.None?
    case CloudReads(c) =>
      && AtWorker(s, c) && s.conns[c].pc.Reading? && HasControl(s, s.conns[c].pc.d)
      && s.controls[s.conns[c].pc.d].alive && |s.controls[s.conns[c].pc.d].fromEdge| > 0
    case CloudFails(c) =>
      AtWorker(s, c) && s.conns[c].pc.Reading? && HasControl(s, s.conns[c].pc.d) && !s.controls[s.conns[c].pc.d].alive
    case EdgeServes(d, _) => HasControl(s, d) && s.controls[d].alive && |s.controls[d].toEdge| > 0
    case CloudPushes(d, target, pairs) =>
      && HasControl(s, d) && s.controls[d].alive && s.controls[d].holder.None?
      && EdgeOf(cfg.ends, target) == s.controls[d].edge && IsHotList(cfg, target, pairs)
    case ControlBreaks(d) => HasControl(s, d)
    case Registers(e) => true
    // written without the connection's lock, so requests may be under way already
    case Acknowledges(d) => HasControl(s, d) && s.controls[d].alive && !s.controls[d].acked
  }

  /** Pairs the Cloud may push to an End: dataset records whose keys are routed to that End. */
  predicate IsHotList(cfg: Config, target: int, pairs: seq<Entry>) {
    forall i :: 0 <= i < |pairs| ==> pairs[i] in cfg.data && Locate(cfg.ends, pairs[i].key) == target
  }

  function WithSession(s: State, n: int, ses: Session): State {
    s.(sessions := s.sessions[n := ses])
  }

  function WithWorker(s: State, c: nat, pc: Worker): State
    requires c < |s.conns|
  {
    s.(conns := s.conns[c := s.conns[c].(pc := pc)])
  }

  function WithControl(s: State, d: nat, ctl: Control): State
    requires d < |s.controls|
  {
    s.(controls := s.controls[d := ctl])
  }

  function AnswerOf(n: int, k: real, r: Option<nat>): Event {
    match r
    case Some(p) => Answer(n, k, true, p, false)
    case None => Answer(n, k, false, 0, false)
  }

  function Next(cfg: Config, s: State, a: Action): (State, Event)
    requires Enabled(cfg, s, a)
  {
    match a
    case LocalLookup(n, k) => (s, AnswerOf(n, k, LocalFind(cfg, n, k)))
    case HotLookup(n, k) => (s, Answer(n, k, true, s.sessions[n].hot[k], false))
    case SnapshotHit(n, k, p) =>
      (WithSession(s, n, s.sessions[n].(hot := s.sessions[n].hot[k := p])), Answer(n, k, true, p, false))
    case Nowhere(n, k) => (s, Answer(n, k, false, 0, false))
    case Disconnected(n, k) => (s, Answer(n, k, false, 0, true))
    case SendFetch(n, k, slot) =>
      (WithSession(s, n, s.sessions[n].(up := s.sessions[n].up + [FetchReq(k, slot)], wait := Some(Wait(k, false)))),
       Silent)
    case SendCross(n, k, id) =>
      (WithSession(s, n, s.sessions[n].(up := s.sessions[n].up + [CrossReq(id, k)], wait := Some(Wait(k, true)))),
       Silent)
    case SendControl(n, f) => (WithSession(s, n, s.sessions[n].(up := s.sessions[n].up + [f])), Silent)
    case EndReads(n) =>
      var r := Receive(n, s.sessions[n]);
      (WithSession(s, n, r.0), r.1)
    case EndBreaks(n) =>
      var r := Broken(n, s.sessions[n]);
      (WithSession(s, n, r.0), r.1)
    case EdgePushes(n, f) => (WithSession(s, n, s.sessions[n].(down := s.sessions[n].down + [f])), Silent)
    case HandlerReads(n, connected) => Handle(cfg, s, n, connected)
    case HandlerReplies(n) =>
      var ses := s.sessions[n];
      (WithSession(s, n, ses.(down := ses.down + [s.conns[ses.serving.value].pc.reply], serving := None)), Silent)
    case HandlerGivesUp(n) =>
      var ses := s.sessions[n];
      (WithSession(s, n,
                   ses.(down := ses.down + [FetchResp(Error, 0, s.conns[ses.serving.value].key)], serving := None)),
                   Silent)
    case CloudAccepts(c) => (WithWorker(s, c, Accept(cfg, s, s.conns[c].key)), Silent)
    case CloudLocks(c) =>
      var d := s.conns[c].pc.d;
      var ctl := s.controls[d];
      if !ctl.alive then (WithWorker(s, c, Replied(FetchResp(Error, 0, s.conns[c].key))), Silent)
      else
        (WithControl(WithWorker(s, c, Reading(d)), d,
                     ctl.(toEdge := ctl.toEdge + [CrossReq(0, s.conns[c].key)], holder := Some(c))), Silent)
    case CloudReads(c) =>
      var d := s.conns[c].pc.d;
      var ctl := s.controls[d];
      (WithControl(WithWorker(s, c, Replied(ctl.fromEdge[0])), d, ctl.(fromEdge := ctl.fromEdge[1..], holder := None)),
       Silent)
    case CloudFails(c) =>
      var d := s.conns[c].pc.d;
      (WithControl(WithWorker(s, c, Replied(FetchResp(Error, 0, s.conns[c].key))), d, s.controls[d].(holder := None)),
       Silent)
    case EdgeServes(d, registered) => (Serve(cfg, s, d, registered), Silent)
    case CloudPushes(d, target, pairs) =>
      (WithControl(s, d, s.controls[d].(toEdge := s.controls[d].toEdge + [HotUpdate(target, pairs)])), Silent)
    case ControlBreaks(d) => (WithControl(s, d, s.controls[d].(alive := false, toEdge := [], fromEdge := [])), Silent)
    case Registers(e) =>
      (s.(controls := s.controls + [Control(e, true, [], [], None, false)],
          registered := s.registered[e := |s.controls|]), Silent)
    case Acknowledges(d) =>
      (WithControl(s, d, s.controls[d].(toEdge := s.controls[d].toEdge + [HeartbeatAck], acked := true)), Silent)
  }

  /** The Edge's per-End handler reads one request. */
  function Handle(cfg: Config, s: State, n: int, connected: bool): (State, Event)
    requires n in s.sessions && |s.sessions[n].up| > 0
  {
    var ses := s.sessions[n];
    var f := ses.up[0];
    var next := ses.(up := ses.up[1..]);
    match f
    case FetchReq(k, slot) =>
      (WithSession(s, n, next.(down := next.down + [Respond(cfg, EdgeOf(cfg.ends, n), k)])), Silent)
    case CrossReq(id, k) =>
      if connected then
        (WithSession(s, n, next.(serving := Some(|s.conns|))).(conns := s.conns + [Conn(k, Accepting)]), Silent)
      else (WithSession(s, n, next.(down := next.down + [FetchResp(Error, 0, k)])), Silent)
    case ParamPush => (WithSession(s, n, next.(down := next.down + [ParamPush])), Silent)
    case Heartbeat(_) => (WithSession(s, n, next), Silent)
    case _ =>
      var r := Broken(n, next);
      (WithSession(s, n, r.0), r.1)
  }

  /** The Cloud routes a cross-edge request. */
  function Accept(cfg: Config, s: State, k: real): Worker {
    var t := Locate(cfg.ends, k);
    var e := EdgeOf(cfg.ends, t);
    if t < 0 || e < 0 then Replied(FetchResp(NotFound, 0, k))
    else if e in s.registered then Locking(s.registered[e])
    else Replied(FetchResp(Error, 0, k))
  }

  /** The Edge's control thread handles one frame from the Cloud. */
  function Serve(cfg: Config, s: State, d: nat, registered: bool): State
    requires d < |s.controls| && |s.controls[d].toEdge| > 0
  {
    var ctl := s.controls[d];
    var f := ctl.toEdge[0];
    var next := ctl.(toEdge := ctl.toEdge[1..]);
    match f
    case CrossReq(_, k) => WithControl(s, d, next.(fromEdge := next.fromEdge + [Respond(cfg, ctl.edge, k)]))
    case HotUpdate(t, pairs) =>
      if registered && t in s.sessions && s.sessions[t].alive then
        WithSession(WithControl(s, d, next), t, s.sessions[t].(down := s.sessions[t].down + [f]))
      else WithControl(s, d, next)
    case _ => WithControl(s, d, next)
  }

  predicate Init(cfg: Config, s: State) {
    && s.conns == [] && s.controls == [] && s.registered == map[]
    && forall n :: n in s.sessions ==>
                     s.sessions[n] == Session(true, None, [], [], None, map[]) &&
                     exists m :: 0 <= m < |cfg.ends| && cfg.ends[m].id == n
  }

  /** The dataset has a record at this 1-based position and it is routed to the target. */
  predicate Wanted(cfg: Config, target: int, pos: int) {
    1 <= pos <= |cfg.data| && Locate(cfg.ends, cfg.data[pos - 1].key) == target
  }

  /** The dataset records at the hot positions that are routed to the target, in order. */
  ghost function Hot(cfg: Config, target: int, positions: seq<int>): (pairs: seq<Entry>)
    ensures |pairs| <= |positions|
  {
    if positions == [] then []
    else
      var n := |positions| - 1;
      Hot(cfg, target, positions[..n]) +
      if Wanted(cfg, target, positions[n]) then [cfg.data[positions[n] - 1]] else []
  }

  /** Builds the pairs of one push: the first hot records routed to the target, up to a limit that is checked after
      each pair and so lets one pair through even when it is not positive. */
  method BuildHotUpdate(cfg: Config, target: int, positions: seq<int>, topn: int) returns (pairs: seq<Entry>)
    ensures IsHotList(cfg, target, pairs) && |pairs| <= if topn > 1 then topn else 1
    ensures pairs <= Hot(cfg, target, positions)
    ensures |pairs| == |Hot(cfg, target, positions)| || |pairs| == if topn > 1 then topn else 1
    ensures pairs == [] <==> forall i :: 0 <= i < |positions| ==> !Wanted(cfg, target, positions[i])
  {
    hide Locate;
    pairs := [];
    for i := 0 to |positions|
      invariant IsHotList(cfg, target, pairs) && (pairs == [] || |pairs| < topn)
      invariant pairs == Hot(cfg, target, positions[..i])
      invariant pairs != [] ==> exists j :: 0 <= j < i && Wanted(cfg, target, positions[j])
      invariant pairs == [] ==> forall j :: 0 <= j < i ==> !Wanted(cfg, target, positions[j])
    {
      HotNext(cfg, target, positions, i);
      if Wanted(cfg, target, positions[i]) {
        pairs := pairs + [cfg.data[positions[i] - 1]];
        if |pairs| >= topn {
          HotGrows(cfg, target, positions, i + 1);
          return;
        }
      }
    }
    assert positions[..|positions|] == positions;
  }

  lemma HotNext(cfg: Config, target: int, positions: seq<int>, i: nat)
    requires i < |positions|
    ensures Hot(cfg, target, positions[..i + 1]) ==
            Hot(cfg, target, positions[..i]) +
            if Wanted(cfg, target, positions[i]) then [cfg.data[positions[i] - 1]] else []
  {
    hide Locate;
    assert positions[..i + 1][..i] == positions[..i];
  }

  lemma {:induction false} HotGrows(cfg: Config, target: int, positions: seq<int>, i: nat)
    requires i <= |positions|
    ensures Hot(cfg, target, positions[..i]) <= Hot(cfg, target, positions)
    decreases |positions| - i
  {
    hide Wanted, Hot;
    if i == |positions| {
      assert positions[..i] == positions;
    } else {
      HotNext(cfg, target, positions, i);
      HotGrows(cfg, target, positions, i + 1);
    }
  }
}
