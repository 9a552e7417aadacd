/**
 * `IPCClient` of `src/worthless/ipc/client.py` under any number of tasks: ids handed out before the
 * lock, one round trip at a time under it, a connection that is given up on a timeout, and a server
 * that answers each request once, in order. What comes back is bytes, read header first and then body.
 */
module IpcClient {
  import opened Common
  import opened Framing

  type Task = nat

  datatype Request = Request(id: nat, op: string, body: string)

  /** What a frame from the server holds; an error may carry id 0. */
  datatype Envelope = Envelope(isErr: bool, id: nat, op: string, body: string)

  /** msgpack. */
  datatype Wire = Wire(pack: Envelope -> Bytes, unpack: Bytes -> Option<Envelope>)

  ghost predicate Honest(w: Wire) { forall e :: w.unpack(w.pack(e)) == Some(e) }

  datatype Outcome =
    | Returned(body: string)
    | Raised(error: string)
    | ProtocolError | TimedOut | NotConnected | Cancelled

  /** `need` is the length of a body whose header has been read. */
  datatype Phase =
    | Ready(req: Request)
    | Waiting(req: Request, need: Option<nat>)
    | Finished(req: Request, outcome: Outcome)

  /** An envelope, and the id of the request it answers. */
  type Answer = (nat, Envelope)

  /**
   * Frames on their way to the server, and bytes nobody has read. `sent` is history: the answers whose
   * frames those bytes are, as long as they are read frame by frame.
   */
  datatype Conn = Conn(toServer: seq<Request>, inbound: Bytes, sent: seq<Answer>, up: bool)

  /** `answered` is history too: all the server has answered. */
  datatype State = State(nextId: nat, lock: Option<Task>, conn: Option<Conn>, tasks: map<Task, Phase>, answered: seq<Answer>)

  datatype Label =
    | Start(t: Task, op: string, body: string)
    | Write(t: Task) | WriteFails(t: Task)
    | Serve(isErr: bool, knowsId: bool, answer: string)
    | ReadHeader(t: Task) | ReadBody(t: Task)
    | Timeout(t: Task) | PeerCloses | Cancel(t: Task)

  function Finish(s: State, t: Task, req: Request, o: Outcome): State {
    s.(lock := None, tasks := s.tasks[t := Finished(req, o)])
  }

  /** What `_request` makes of a reply: an error is raised before the id is looked at. */
  function Judge(req: Request, e: Envelope): Outcome {
    if e.isErr then Raised(e.body)
    else if e.id != req.id || e.op != req.op then ProtocolError
    else Returned(e.body)
  }

  predicate IsWaiting(s: State, t: Task) { t in s.tasks && s.tasks[t].Waiting? && s.lock == Some(t) && s.conn.Some? }

  predicate IsReady(s: State, t: Task) { t in s.tasks && s.tasks[t].Ready? && s.lock.None? }

  /** The task has read a header and not yet the body. */
  predicate MidFrame(s: State, t: Task) { IsWaiting(s, t) && s.tasks[t].need.Some? }

  function Answering(q: Request, l: Label): Envelope
    requires l.Serve?
  {
    Envelope(l.isErr, if l.isErr && !l.knowsId then 0 else q.id, q.op, l.answer)
  }

  /** The server answers its next request, if the answer fits a frame. */
  function ApplyServe(s: State, l: Label, w: Wire): State
    requires l.Serve?
  {
    if s.conn.None? || !s.conn.value.up || s.conn.value.toServer == [] then s
    else
      var c := s.conn.value;
      var (q, e) := (c.toServer[0], Answering(c.toServer[0], l));
      if !InBounds(w.pack(e)) then s
      else s.(conn := Some(Conn(c.toServer[1..], c.inbound + Frame(w.pack(e)), c.sent + [(q.id, e)], c.up)),
              answered := s.answered + [(q.id, e)])
  }

  /** The stream ended where more was expected: what was left of it is gone. */
  function ApplyTruncated(s: State, t: Task): State
    requires IsWaiting(s, t)
  {
    Finish(s, t, s.tasks[t].req, ProtocolError).(conn := Some(s.conn.value.(inbound := [], sent := [])))
  }

  /** `read_frame`, up to the length. */
  function ApplyHeader(s: State, t: Task): State
    requires IsWaiting(s, t) && s.tasks[t].need.None?
  {
    var c, req := s.conn.value, s.tasks[t].req;
    if |c.inbound| < HEADER_LEN then if c.up then s else ApplyTruncated(s, t)
    else
      var length, rest := FromHeader(c.inbound[..HEADER_LEN]), Some(c.(inbound := c.inbound[HEADER_LEN..]));
      if length == 0 || length > MAX_FRAME_SIZE then Finish(s, t, req, ProtocolError).(conn := rest)
      else s.(tasks := s.tasks[t := Waiting(req, Some(length))], conn := rest)
  }

  /** ... and from there on. */
  function ApplyBody(s: State, t: Task, w: Wire): State
    requires MidFrame(s, t)
  {
    var c, req, length := s.conn.value, s.tasks[t].req, s.tasks[t].need.value;
    if |c.inbound| < length then if c.up then s else ApplyTruncated(s, t)
    else
      var e := w.unpack(c.inbound[..length]);
      Finish(s, t, req, if e.None? then ProtocolError else Judge(req, e.value))
      .(conn := Some(c.(inbound := c.inbound[length..], sent := if c.sent == [] then [] else c.sent[1..])))
  }

  /** A task may be cancelled before it has the lock or while it waits; the connection stays as it is. */
  function ApplyCancel(s: State, t: Task): State {
    if IsWaiting(s, t) then Finish(s, t, s.tasks[t].req, Cancelled)
    else if t in s.tasks && s.tasks[t].Ready? then s.(tasks := s.tasks[t := Finished(s.tasks[t].req, Cancelled)])
    else s
  }

  function Apply(s: State, l: Label, w: Wire): State {
    match l
    case Start(t, op, body) =>
      if t in s.tasks then s
      else s.(nextId := s.nextId + 1, tasks := s.tasks[t := Ready(Request(s.nextId, op, body))])
    case Write(t) =>
      if !IsReady(s, t) then s
      else if s.conn.None? then Finish(s, t, s.tasks[t].req, NotConnected)
      else if !s.conn.value.up then Finish(s, t, s.tasks[t].req, ProtocolError)
      else
        var c, req := s.conn.value, s.tasks[t].req;
        s.(lock := Some(t), tasks := s.tasks[t := Waiting(req, None)], conn := Some(c.(toServer := c.toServer + [req])))
    case WriteFails(t) =>
      if !IsReady(s, t) || s.conn.None? then s
      else Finish(s, t, s.tasks[t].req, ProtocolError).(conn := Some(s.conn.value.(up := false, toServer := [])))
    case Serve(_, _, _) => ApplyServe(s, l, w)
    case ReadHeader(t) => if IsWaiting(s, t) && s.tasks[t].need.None? then ApplyHeader(s, t) else s
    case ReadBody(t) => if MidFrame(s, t) then ApplyBody(s, t, w) else s
    case Timeout(t) => if IsWaiting(s, t) then Finish(s, t, s.tasks[t].req, TimedOut).(conn := None) else s
    case PeerCloses => if s.conn.None? then s else s.(conn := Some(s.conn.value.(up := false, toServer := [])))
    case Cancel(t) => ApplyCancel(s, t)
  }

  function Run(s: State, ls: seq<Label>, w: Wire): State
    decreases |ls|
  {
    if ls == [] then s else Run(Apply(s, ls[0], w), ls[1..], w)
  }

  /** A fresh connection: ids start at 1, for 0 is the server's sentinel. */
  predicate Init(s: State) {
    s.nextId == 1 && s.lock.None? && s.tasks == map[] && s.answered == [] && s.conn == Some(Conn([], [], [], true))
  }

  predicate NoCancel(ls: seq<Label>) { forall l :: l in ls ==> !l.Cancel? }

  /** No task is cancelled between the header of a frame and its body. */
  predicate CleanCancels(s: State, ls: seq<Label>, w: Wire)
    decreases |ls|
  {
    ls == [] || ((ls[0].Cancel? ==> !MidFrame(s, ls[0].t)) && CleanCancels(Apply(s, ls[0], w), ls[1..], w))
  }

  // ----- The bytes on the wire --------------------------------------------------------------------

  function FrameOf(a: Answer, w: Wire): Bytes { if InBounds(w.pack(a.1)) then Frame(w.pack(a.1)) else [] }

  function SentBytes(sent: seq<Answer>, w: Wire): Bytes {
    if sent == [] then [] else FrameOf(sent[0], w) + SentBytes(sent[1..], w)
  }

  lemma {:induction false} SentMore(sent: seq<Answer>, a: Answer, w: Wire)
    ensures SentBytes(sent + [a], w) == SentBytes(sent, w) + FrameOf(a, w)
    decreases |sent|
  {
    if sent == [] {
      assert sent + [a] == [a] && [a][1..] == [];
      assert FrameOf(a, w) + [] == FrameOf(a, w);
    } else {
      SentMore(sent[1..], a, w);
      assert (sent + [a])[1..] == sent[1..] + [a];
      Regroup(FrameOf(sent[0], w), SentBytes(sent[1..], w), FrameOf(a, w));
    }
  }

  /** The bytes are the frames of the answers in `sent`, without the header that has been read. */
  predicate Tidy(c: Conn, need: Option<nat>, w: Wire) {
    && (forall a :: a in c.sent ==> InBounds(w.pack(a.1)))
    && match need
       case None => c.inbound == SentBytes(c.sent, w)
       case Some(n) =>
         c.sent != [] && n == |w.pack(c.sent[0].1)| && c.inbound == w.pack(c.sent[0].1) + SentBytes(c.sent[1..], w)
  }

  /** A header that is read in step announces the first answer. */
  lemma HeaderAnnounces(c: Conn, w: Wire)
    requires Tidy(c, None, w) && |c.inbound| >= HEADER_LEN
    ensures c.sent != []
    ensures var p := w.pack(c.sent[0].1);
            && FromHeader(c.inbound[..HEADER_LEN]) == |p| && InBounds(p)
            && c.inbound[HEADER_LEN..] == p + SentBytes(c.sent[1..], w)
  {
    assert c.sent[0] in c.sent;
    var p := w.pack(c.sent[0].1);
    HeaderRoundTrip(|p|);
    Regroup(ToHeader(|p|), p, SentBytes(c.sent[1..], w));
    assert c.inbound == ToHeader(|p|) + (p + SentBytes(c.sent[1..], w));
  }

  /** A stream that is in step and has less than a header has nothing. */
  lemma NoHeaderNoAnswer(c: Conn, w: Wire)
    requires Tidy(c, None, w) && |c.inbound| < HEADER_LEN
    ensures c.sent == []
  {
  }

  /** A body that is read in step is the first answer. */
  lemma BodyIsAnswer(c: Conn, need: nat, w: Wire)
    requires Honest(w) && Tidy(c, Some(need), w)
    ensures |c.inbound| >= need && w.unpack(c.inbound[..need]) == Some(c.sent[0].1)
    ensures c.inbound[need..] == SentBytes(c.sent[1..], w)
  {
    assert c.inbound[..need] == w.pack(c.sent[0].1);
  }

  // ----- In step ------------------------------------------------------------------------------------

  function NeedOf(s: State): Option<nat> {
    if s.lock.Some? && s.lock.value in s.tasks && s.tasks[s.lock.value].Waiting? then s.tasks[s.lock.value].need else None
  }

  /** An answer knows its request; one that is no error says so. */
  predicate AnswerOk(a: Answer, s: State) { a in s.answered && a.0 < s.nextId && (!a.1.isErr ==> a.1.id == a.0) }

  predicate ConnOk(s: State, w: Wire) {
    s.conn.Some? ==>
      && (forall a :: a in s.conn.value.sent ==> AnswerOk(a, s))
      && (forall q :: q in s.conn.value.toServer ==> q.id < s.nextId)
      && Tidy(s.conn.value, NeedOf(s), w)
  }

  /** The server's answer to this request says so. */
  predicate OwnReturn(s: State, req: Request, body: string) { (req.id, Envelope(false, req.id, req.op, body)) in s.answered }

  /** The server answered this request with that error. */
  predicate ErrorAt(s: State, id: nat, error: string, k: nat) {
    k < |s.answered| && s.answered[k].0 == id && s.answered[k].1.isErr && s.answered[k].1.body == error
  }

  ghost predicate ErrorFor(s: State, id: nat, error: string) { exists k :: ErrorAt(s, id, error, k) }

  /** Only the lock's holder waits; a task that returned got the answer to its own request. */
  predicate TaskOk(s: State, t: Task) {
    t in s.tasks ==>
      var ph := s.tasks[t];
      && ph.req.id < s.nextId
      && (ph.Waiting? <==> s.lock == Some(t))
      && (ph.Finished? && ph.outcome.Returned? ==> OwnReturn(s, ph.req, ph.outcome.body))
  }

  ghost predicate Inv(s: State, w: Wire) {
    && ConnOk(s, w) && (forall t :: TaskOk(s, t)) && (s.lock.Some? ==> s.lock.value in s.tasks)
  }

  lemma ServeKeepsInv(s: State, l: Label, w: Wire)
    requires Inv(s, w) && l.Serve?
    ensures Inv(Apply(s, l, w), w)
  {
    var z := Apply(s, l, w);
    if z != s {
      var c := s.conn.value;
      var a := (c.toServer[0].id, Answering(c.toServer[0], l));
      SentMore(c.sent, a, w);
      assert c.toServer[0] in c.toServer;
      assert forall q :: q in c.toServer[1..] ==> q in c.toServer;
      if c.sent != [] {
        assert (c.sent + [a])[1..] == c.sent[1..] + [a];
        SentMore(c.sent[1..], a, w);
        Regroup(w.pack(c.sent[0].1), SentBytes(c.sent[1..], w), FrameOf(a, w));
      }
    }
    forall t ensures TaskOk(z, t) { assert TaskOk(s, t); }
  }

  lemma HeaderKeepsInv(s: State, t: Task, w: Wire)
    requires Inv(s, w) && IsWaiting(s, t) && s.tasks[t].need.None?
    ensures Inv(Apply(s, ReadHeader(t), w), w)
  {
    var z := Apply(s, ReadHeader(t), w);
    if |s.conn.value.inbound| >= HEADER_LEN { HeaderAnnounces(s.conn.value, w); }
    forall u ensures TaskOk(z, u) { assert TaskOk(s, u); }
  }

  lemma BodyKeepsInv(s: State, t: Task, w: Wire)
    requires Honest(w) && Inv(s, w) && MidFrame(s, t)
    ensures Inv(Apply(s, ReadBody(t), w), w)
    ensures var a := s.conn.value.sent;
            && a != [] && a[0] in s.answered
            && Apply(s, ReadBody(t), w).tasks[t] == Finished(s.tasks[t].req, Judge(s.tasks[t].req, a[0].1))
  {
    var z, c := Apply(s, ReadBody(t), w), s.conn.value;
    BodyIsAnswer(c, s.tasks[t].need.value, w);
    assert AnswerOk(c.sent[0], s) && forall a :: a in c.sent[1..] ==> a in c.sent;
    var req, e := s.tasks[t].req, c.sent[0].1;
    if Judge(req, e).Returned? { assert c.sent[0] == (req.id, Envelope(false, req.id, req.op, e.body)); }
    forall u ensures TaskOk(z, u) { assert TaskOk(s, u); }
  }

  lemma OtherStepKeepsInv(s: State, l: Label, w: Wire)
    requires Inv(s, w) && !l.Serve? && !l.ReadHeader? && !l.ReadBody? && (l.Cancel? ==> !MidFrame(s, l.t))
    ensures Inv(Apply(s, l, w), w)
  {
    var z := Apply(s, l, w);
    if l.Write? || l.Cancel? { assert TaskOk(s, l.t); }
    forall t ensures TaskOk(z, t) { assert TaskOk(s, t); }
  }

  lemma StepKeepsInv(s: State, l: Label, w: Wire)
    requires Honest(w) && Inv(s, w) && (l.Cancel? ==> !MidFrame(s, l.t))
    ensures Inv(Apply(s, l, w), w)
  {
    if l.Serve? {
      ServeKeepsInv(s, l, w);
    } else if l.ReadHeader? {
      if IsWaiting(s, l.t) && s.tasks[l.t].need.None? { HeaderKeepsInv(s, l.t, w); }
    } else if l.ReadBody? {
      if MidFrame(s, l.t) { BodyKeepsInv(s, l.t, w); }
    } else {
      OtherStepKeepsInv(s, l, w);
    }
  }

  lemma {:induction false} RunKeepsInv(s: State, ls: seq<Label>, w: Wire)
    requires Honest(w) && Inv(s, w) && CleanCancels(s, ls, w)
    ensures Inv(Run(s, ls, w), w)
    decreases |ls|
  {
    if ls != [] {
      StepKeepsInv(s, ls[0], w);
      RunKeepsInv(Apply(s, ls[0], w), ls[1..], w);
    }
  }

  /**
   * Even if tasks are cancelled while they wait, what is returned is the answer to the task's own request,
   * provided no task is cancelled in the middle of a frame.
   */
  lemma ReturnsAreOwn(s: State, ls: seq<Label>, w: Wire, t: Task)
    requires Honest(w) && Init(s) && CleanCancels(s, ls, w)
    ensures var z := Run(s, ls, w);
            t in z.tasks && z.tasks[t].Finished? && z.tasks[t].outcome.Returned? ==>
              OwnReturn(z, z.tasks[t].req, z.tasks[t].outcome.body)
  {
    RunKeepsInv(s, ls, w);
    assert TaskOk(Run(s, ls, w), t);
  }

  // ----- Without cancellation -----------------------------------------------------------------------

  /** Nothing but the holder's own request or its answer is on the wire. */
  predicate InStep(s: State) {
    s.conn.Some? ==>
      var c := s.conn.value;
      if s.lock.None? then c.up ==> c.sent == [] && c.toServer == []
      else s.lock.value in s.tasks &&
           var req := s.tasks[s.lock.value].req;
           || (c.toServer == [] && c.sent == [] && !c.up)
           || (c.toServer == [req] && c.sent == [])
           || (c.toServer == [] && |c.sent| == 1 && c.sent[0].0 == req.id)
  }

  /** Errors that were raised are the task's own. */
  ghost predicate RaisedOwn(s: State, t: Task) {
    t in s.tasks && s.tasks[t].Finished? && s.tasks[t].outcome.Raised? ==>
      ErrorFor(s, s.tasks[t].req.id, s.tasks[t].outcome.error)
  }

  ghost predicate Sync(s: State, w: Wire) { Inv(s, w) && InStep(s) && forall t :: RaisedOwn(s, t) }

  lemma ErrorsStay(s: State, z: State, id: nat, error: string)
    requires s.answered <= z.answered && ErrorFor(s, id, error)
    ensures ErrorFor(z, id, error)
  {
    var k :| ErrorAt(s, id, error, k);
    assert ErrorAt(z, id, error, k);
  }

  lemma AnsweredGrows(s: State, l: Label, w: Wire)
    ensures s.answered <= Apply(s, l, w).answered
  {
  }

  lemma BodyKeepsSync(s: State, t: Task, w: Wire)
    requires Honest(w) && Sync(s, w) && MidFrame(s, t)
    ensures Sync(Apply(s, ReadBody(t), w), w)
  {
    var z, a := Apply(s, ReadBody(t), w), s.conn.value.sent[0];
    BodyKeepsInv(s, t, w);
    BodyIsAnswer(s.conn.value, s.tasks[t].need.value, w);
    if a.1.isErr {
      var k :| 0 <= k < |s.answered| && s.answered[k] == a;
      assert ErrorAt(z, a.0, a.1.body, k);
    }
    forall u ensures RaisedOwn(z, u) {
      assert RaisedOwn(s, u);
      if u in s.tasks && s.tasks[u].Finished? && s.tasks[u].outcome.Raised? {
        ErrorsStay(s, z, s.tasks[u].req.id, s.tasks[u].outcome.error);
      }
    }
  }

  lemma HeaderStaysInStep(s: State, t: Task, w: Wire)
    requires Sync(s, w) && IsWaiting(s, t) && s.tasks[t].need.None?
    ensures InStep(Apply(s, ReadHeader(t), w))
  {
    var c := s.conn.value;
    if |c.inbound| >= HEADER_LEN { HeaderAnnounces(c, w); } else { NoHeaderNoAnswer(c, w); }
  }

  lemma StepKeepsSync(s: State, l: Label, w: Wire)
    requires Honest(w) && Sync(s, w) && !l.Cancel?
    ensures Sync(Apply(s, l, w), w)
  {
    if l.ReadBody? && MidFrame(s, l.t) {
      BodyKeepsSync(s, l.t, w);
    } else {
      StepKeepsInv(s, l, w);
      var z := Apply(s, l, w);
      if l.ReadHeader? && IsWaiting(s, l.t) && s.tasks[l.t].need.None? { HeaderStaysInStep(s, l.t, w); }
      if s.lock.Some? { assert TaskOk(s, s.lock.value); }
      AnsweredGrows(s, l, w);
      forall u ensures RaisedOwn(z, u) {
        assert RaisedOwn(s, u);
        if u in s.tasks && s.tasks[u].Finished? && s.tasks[u].outcome.Raised? {
          ErrorsStay(s, z, s.tasks[u].req.id, s.tasks[u].outcome.error);
        }
      }
    }
  }

  lemma {:induction false} RunKeepsSync(s: State, ls: seq<Label>, w: Wire)
    requires Honest(w) && Sync(s, w) && NoCancel(ls)
    ensures Sync(Run(s, ls, w), w)
    decreases |ls|
  {
    if ls != [] {
      assert ls[0] in ls && forall l :: l in ls[1..] ==> l in ls;
      StepKeepsSync(s, ls[0], w);
      RunKeepsSync(Apply(s, ls[0], w), ls[1..], w);
    }
  }

  /** The task's outcome, if it stems from an answer, stems from the answer to its own request. */
  ghost predicate OwnOutcome(s: State, t: Task) {
    t in s.tasks && s.tasks[t].Finished? ==>
      match s.tasks[t].outcome
      case Returned(body) => OwnReturn(s, s.tasks[t].req, body)
      case Raised(error) => ErrorFor(s, s.tasks[t].req.id, error)
      case _ => true
  }

  /**
   * In every run in which requests may time out anywhere, the peer may go away and any number of tasks
   * compete, no request returns or raises another request's reply.
   */
  lemma NoCrossTalk(s: State, ls: seq<Label>, w: Wire, t: Task)
    requires Honest(w) && Init(s) && NoCancel(ls)
    ensures OwnOutcome(Run(s, ls, w), t)
  {
    RunKeepsSync(s, ls, w);
    assert TaskOk(Run(s, ls, w), t) && RaisedOwn(Run(s, ls, w), t);
  }

  lemma RunStep(s: State, l: Label, ls: seq<Label>, w: Wire)
    ensures Run(s, [l] + ls, w) == Run(Apply(s, l, w), ls, w)
  {
    assert ([l] + ls)[1..] == ls;
  }

  // ----- A task cancelled in the middle of a frame ---------------------------------------------------

  /** The next request after one that was cancelled, up to its reading. */
  function Next(s: State, t: Task, u: Task, op: string, body: string, w: Wire): State {
    Apply(Apply(Apply(s, Cancel(t), w), Start(u, op, body), w), Write(u), w)
  }

  lemma NextWaits(s: State, t: Task, u: Task, op: string, body: string, w: Wire)
    requires IsWaiting(s, t) && s.conn.value.up && u !in s.tasks
    ensures var req, z := Request(s.nextId, op, body), Next(s, t, u, op, body, w);
            && IsWaiting(z, u) && z.tasks[u] == Waiting(req, None) && z.answered == s.answered
            && z.conn == Some(s.conn.value.(toServer := s.conn.value.toServer + [req]))
  {
  }

  /** Reading header and body of the next request, whatever is in the stream. */
  lemma ReadsOn(s: State, u: Task, w: Wire)
    requires IsWaiting(s, u) && s.tasks[u].need.None? && s.conn.value.up
    ensures var z := Apply(Apply(s, ReadHeader(u), w), ReadBody(u), w);
            var req := s.tasks[u].req;
            match ReadFrame(s.conn.value.inbound, w.unpack)
            case Ok((e, _)) => u in z.tasks && z.tasks[u] == Finished(req, Judge(req, e))
            case Err(Truncated) => IsWaiting(z, u)
            case Err(_) => u in z.tasks && z.tasks[u] == Finished(req, ProtocolError)
  {
    var inbound := s.conn.value.inbound;
    if |inbound| >= HEADER_LEN {
      var length := FromHeader(inbound[..HEADER_LEN]);
      if 0 < length <= MAX_FRAME_SIZE && |inbound| >= HEADER_LEN + length {
        assert inbound[HEADER_LEN..][..length] == inbound[HEADER_LEN..HEADER_LEN + length];
      }
    }
  }

  /**
   * A task that is cancelled between the header of its reply and the body leaves the body in the stream,
   * and the next request reads that as a frame. It returns what nobody answered to it exactly if the
   * cancelled reply's body begins with a frame that carries its id and its operation.
   */
  lemma MidFrameExactly(s: State, t: Task, u: Task, op: string, body: string, w: Wire)
    requires Honest(w) && Inv(s, w) && MidFrame(s, t) && s.conn.value.up && u !in s.tasks
    requires forall a :: a in s.answered ==> a.0 < s.nextId
    ensures var sent := s.conn.value.sent;
            var z := Apply(Apply(Next(s, t, u, op, body, w), ReadHeader(u), w), ReadBody(u), w);
            && sent != [] && u in z.tasks
            && (z.tasks[u].Finished? && z.tasks[u].outcome.Returned?
                <==> var r := ReadFrame(w.pack(sent[0].1) + SentBytes(sent[1..], w), w.unpack);
                     r.Ok? && var e := r.value.0; !e.isErr && e.id == s.nextId && e.op == op)
            && (z.tasks[u].Finished? && z.tasks[u].outcome.Returned? ==>
                  !OwnReturn(z, z.tasks[u].req, z.tasks[u].outcome.body))
  {
    assert TaskOk(s, t);
    NextWaits(s, t, u, op, body, w);
    ReadsOn(Next(s, t, u, op, body, w), u, w);
  }

  /**
   * msgpack writes a map with a first byte of 128 or more. Read as a header, that is a length no frame may
   * have: the next request fails, it does not return or raise anything.
   */
  lemma MidFrameIsRefused(s: State, t: Task, u: Task, op: string, body: string, w: Wire)
    requires Honest(w) && Inv(s, w) && MidFrame(s, t) && s.conn.value.up && u !in s.tasks
    requires w.pack(s.conn.value.sent[0].1) != [] && w.pack(s.conn.value.sent[0].1)[0] >= 128
    ensures var z := Apply(Apply(Next(s, t, u, op, body, w), ReadHeader(u), w), ReadBody(u), w);
            IsWaiting(z, u) || (u in z.tasks && z.tasks[u] == Finished(Request(s.nextId, op, body), ProtocolError))
  {
    assert TaskOk(s, t);
    NextWaits(s, t, u, op, body, w);
    ReadsOn(Next(s, t, u, op, body, w), u, w);
    var inbound := s.conn.value.inbound;
    assert inbound[0] == w.pack(s.conn.value.sent[0].1)[0];
    if |inbound| >= HEADER_LEN { assert FromHeader(inbound[..HEADER_LEN]) > MAX_FRAME_SIZE; }
  }

  // ----- A task cancelled while its reply is out -----------------------------------------------------

  /** No request is answered twice. */
  predicate AnswersDistinct(s: State) {
    forall i, j :: 0 <= i < j < |s.answered| ==> s.answered[i].0 != s.answered[j].0
  }

  predicate Unanswered(s: State, id: nat) { forall a :: a in s.answered ==> a.0 != id }

  predicate NotSent(s: State, id: nat) { s.conn.Some? ==> forall q :: q in s.conn.value.toServer ==> q.id != id }

  predicate ReadyOk(s: State, t: Task) {
    t in s.tasks && s.tasks[t].Ready? ==>
      var id := s.tasks[t].req.id; id < s.nextId && Unanswered(s, id) && NotSent(s, id)
  }

  predicate OwnId(s: State, t: Task, u: Task) {
    t in s.tasks && u in s.tasks && t != u ==> s.tasks[t].req.id != s.tasks[u].req.id
  }

  predicate QueueOk(s: State) {
    s.conn.Some? ==>
      var q := s.conn.value.toServer;
      && (forall i :: 0 <= i < |q| ==> q[i].id < s.nextId && Unanswered(s, q[i].id))
      && (forall i, j :: 0 <= i < j < |q| ==> q[i].id != q[j].id)
  }

  ghost predicate Once(s: State) {
    && AnswersDistinct(s) && QueueOk(s)
    && (forall a :: a in s.answered ==> a.0 < s.nextId)
    && (forall t :: ReadyOk(s, t)) && (forall t, u :: OwnId(s, t, u))
    && (forall t :: t in s.tasks ==> s.tasks[t].req.id < s.nextId)
  }

  lemma ServeKeepsOnce(s: State, l: Label, w: Wire)
    requires Once(s) && l.Serve?
    ensures Once(Apply(s, l, w))
  {
    var z := Apply(s, l, w);
    if z != s {
      var q := s.conn.value.toServer;
      assert z.conn.value.toServer == q[1..] && z.answered == s.answered + [z.answered[|s.answered|]];
      assert q[0] in q && Unanswered(s, q[0].id);
      forall i | 0 <= i < |q[1..]| ensures Unanswered(z, q[1..][i].id) { assert Unanswered(s, q[i + 1].id); }
      forall t ensures ReadyOk(z, t) { assert ReadyOk(s, t) && forall x :: x in q[1..] ==> x in q; }
      forall t, u ensures OwnId(z, t, u) { assert OwnId(s, t, u); }
    }
  }

  lemma WriteKeepsOnce(s: State, t: Task, w: Wire)
    requires Once(s) && IsReady(s, t)
    ensures Once(Apply(s, Write(t), w))
  {
    var z := Apply(s, Write(t), w);
    assert ReadyOk(s, t);
    forall u ensures ReadyOk(z, u) { assert ReadyOk(s, u) && OwnId(s, t, u); }
    forall u, v ensures OwnId(z, u, v) { assert OwnId(s, u, v); }
  }

  lemma StartKeepsOnce(s: State, l: Label, w: Wire)
    requires Once(s) && l.Start?
    ensures Once(Apply(s, l, w))
  {
    var z := Apply(s, l, w);
    forall u ensures ReadyOk(z, u) { assert ReadyOk(s, u); }
    forall u, v ensures OwnId(z, u, v) { assert OwnId(s, u, v); }
  }

  /** The wire gets emptier or stays, tasks get on or stay, and nothing new is answered. */
  lemma OtherStepKeepsOnce(s: State, z: State)
    requires Once(s) && z.answered == s.answered && z.nextId == s.nextId && z.tasks.Keys == s.tasks.Keys
    requires z.conn.Some? ==> s.conn.Some? && z.conn.value.toServer in {[], s.conn.value.toServer}
    requires forall u :: u in z.tasks ==> z.tasks[u].req == s.tasks[u].req && (z.tasks[u].Ready? ==> s.tasks[u].Ready?)
    ensures Once(z)
  {
    forall u ensures ReadyOk(z, u) { assert ReadyOk(s, u); }
    forall u, v ensures OwnId(z, u, v) { assert OwnId(s, u, v); }
  }

  lemma StepKeepsOnce(s: State, l: Label, w: Wire)
    requires Once(s)
    ensures Once(Apply(s, l, w))
  {
    if l.Serve? {
      ServeKeepsOnce(s, l, w);
    } else if l.Write? {
      if IsReady(s, l.t) { WriteKeepsOnce(s, l.t, w); }
    } else if l.Start? {
      StartKeepsOnce(s, l, w);
    } else {
      OtherStepKeepsOnce(s, Apply(s, l, w));
    }
  }

  /** Task `u` raised an error that answers request `id`, and none that answers its own. */
  ghost predicate RaisesErrorOf(s: State, u: Task, id: nat) {
    && u in s.tasks && s.tasks[u].Finished? && s.tasks[u].outcome.Raised?
    && ErrorFor(s, id, s.tasks[u].outcome.error) && !ErrorFor(s, s.tasks[u].req.id, s.tasks[u].outcome.error)
  }

  /** Some run goes on from here to a new task that raises the error which answers request `id`. */
  ghost predicate CanCross(s: State, id: nat, w: Wire) {
    exists ls, u :: u !in s.tasks && RaisesErrorOf(Run(s, ls, w), u, id)
  }

  /** Nothing is on the wire and nothing will be: no new task gets a reply. */
  ghost predicate Dead(s: State, known: set<Task>) {
    && (s.conn.None? || !s.conn.value.up) && s.lock.None?
    && forall u :: u in s.tasks && u !in known ==> s.tasks[u].Ready? || (s.tasks[u].Finished? && !s.tasks[u].outcome.Raised?)
  }

  lemma {:induction false} DeadStaysDead(s: State, ls: seq<Label>, known: set<Task>, w: Wire)
    requires Dead(s, known)
    ensures Dead(Run(s, ls, w), known)
    decreases |ls|
  {
    if ls != [] { DeadStaysDead(Apply(s, ls[0], w), ls[1..], known, w); }
  }

  /** Request `id` will never be answered by an error. */
  predicate NoErrorTo(s: State, id: nat) {
    && id < s.nextId && NotSent(s, id)
    && (forall a :: a in s.answered ==> a.0 == id ==> !a.1.isErr)
    && (forall t :: t in s.tasks && s.tasks[t].Ready? ==> s.tasks[t].req.id != id)
  }

  lemma {:induction false} NoErrorStays(s: State, ls: seq<Label>, id: nat, w: Wire)
    requires NoErrorTo(s, id)
    ensures NoErrorTo(Run(s, ls, w), id)
    decreases |ls|
  {
    if ls != [] {
      StepKeepsNoError(s, ls[0], id, w);
      NoErrorStays(Apply(s, ls[0], w), ls[1..], id, w);
    }
  }

  lemma StepKeepsNoError(s: State, l: Label, id: nat, w: Wire)
    requires NoErrorTo(s, id)
    ensures NoErrorTo(Apply(s, l, w), id)
  {
    if l.Serve? && Apply(s, l, w) != s {
      var q := s.conn.value.toServer;
      assert q[0] in q && forall x :: x in q[1..] ==> x in q;
    }
  }

  /** The reply of the waiting task that is out, or still to come, may be an error. */
  predicate ErrorMayCome(s: State) {
    s.conn.Some? && s.conn.value.up && (s.conn.value.sent == [] || s.conn.value.sent[0].1.isErr)
  }

  lemma NoErrorNoCross(s: State, id: nat, w: Wire)
    requires NoErrorTo(s, id)
    ensures !CanCross(s, id, w)
  {
    forall ls, u ensures !RaisesErrorOf(Run(s, ls, w), u, id) {
      var z := Run(s, ls, w);
      NoErrorStays(s, ls, id, w);
      if u in z.tasks && z.tasks[u].Finished? && z.tasks[u].outcome.Raised? {
        forall k: nat ensures !ErrorAt(z, id, z.tasks[u].outcome.error, k) {
          if k < |z.answered| { assert z.answered[k] in z.answered; }
        }
      }
    }
  }

  lemma DeadNoCross(s: State, id: nat, w: Wire)
    requires Dead(s, s.tasks.Keys)
    ensures !CanCross(s, id, w)
  {
    forall ls, u | u !in s.tasks ensures !RaisesErrorOf(Run(s, ls, w), u, id) {
      DeadStaysDead(s, ls, s.tasks.Keys, w);
    }
  }

  lemma AnsweredNoError(s: State, t: Task, w: Wire)
    requires Sync(s, w) && Once(s) && IsWaiting(s, t) && s.conn.value.up && !ErrorMayCome(s)
    ensures NoErrorTo(Apply(s, Cancel(t), w), s.tasks[t].req.id)
  {
    var a, id := s.conn.value.sent[0], s.tasks[t].req.id;
    assert TaskOk(s, t) && AnswerOk(a, s);
    forall b | b in s.answered && b.0 == id ensures !b.1.isErr {
      var i :| 0 <= i < |s.answered| && s.answered[i] == a;
      var j :| 0 <= j < |s.answered| && s.answered[j] == b;
      assert i == j;
    }
    forall u | u in s.tasks && s.tasks[u].Ready? ensures s.tasks[u].req.id != id { assert OwnId(s, t, u); }
  }

  /** The header and the body of the next request, when an error to another request comes first. */
  lemma WrongErrorIsRead(s: State, u: Task, w: Wire)
    requires Honest(w) && IsWaiting(s, u) && s.tasks[u].need.None? && Tidy(s.conn.value, None, w)
    requires s.conn.value.up && s.conn.value.sent != [] && s.conn.value.sent[0].1.isErr
    ensures var z := Run(s, [ReadHeader(u), ReadBody(u)], w);
            && z.answered == s.answered
            && u in z.tasks && z.tasks[u] == Finished(s.tasks[u].req, Raised(s.conn.value.sent[0].1.body))
  {
    var c := s.conn.value;
    assert c.sent[0] in c.sent;
    FirstEnvelope(c.sent[0].1, SentBytes(c.sent[1..], w), w.pack, w.unpack);
    ReadsOn(s, u, w);
    RunStep(s, ReadHeader(u), [ReadBody(u)], w);
    RunStep(Apply(s, ReadHeader(u), w), ReadBody(u), [], w);
  }

  lemma CrossesFrom(s: State, u: Task, id: nat, w: Wire)
    requires Honest(w) && IsWaiting(s, u) && s.tasks[u].need.None? && Tidy(s.conn.value, None, w)
    requires s.conn.value.up && s.conn.value.sent != [] && s.conn.value.sent[0].1.isErr && s.conn.value.sent[0].0 == id
    requires s.conn.value.sent[0] in s.answered && Unanswered(s, s.tasks[u].req.id)
    ensures RaisesErrorOf(Run(s, [ReadHeader(u), ReadBody(u)], w), u, id)
  {
    var z, a := Run(s, [ReadHeader(u), ReadBody(u)], w), s.conn.value.sent[0];
    WrongErrorIsRead(s, u, w);
    var k :| 0 <= k < |s.answered| && s.answered[k] == a;
    assert ErrorAt(z, id, a.1.body, k);
    forall j: nat ensures !ErrorAt(z, z.tasks[u].req.id, a.1.body, j) {
      if j < |z.answered| { assert z.answered[j] in s.answered; }
    }
  }

  lemma {:induction false} FreshTask(known: set<Task>) returns (u: Task)
    ensures forall t :: t in known ==> t < u
    decreases known
  {
    if known == {} { return 0; }
    var t :| t in known;
    var v := FreshTask(known - {t});
    u := if t < v then v else t + 1;
    assert forall x :: x in known ==> x == t || x in known - {t};
  }

  /** The next request is written behind the cancelled one, whose answer is an error or can be one. */
  lemma NextIsBehindError(s: State, t: Task, u: Task, w: Wire) returns (ls: seq<Label>)
    requires Honest(w) && Sync(s, w) && Once(s) && IsWaiting(s, t) && s.tasks[t].need.None? && u !in s.tasks
    requires ErrorMayCome(s) && InBounds(w.pack(Envelope(true, s.tasks[t].req.id, s.tasks[t].req.op, "")))
    ensures RaisesErrorOf(Run(Apply(s, Cancel(t), w), ls, w), u, s.tasks[t].req.id)
  {
    var id := s.tasks[t].req.id;
    assert TaskOk(s, t);
    var s0 := Apply(s, Cancel(t), w);
    StepKeepsInv(s, Cancel(t), w);
    var s1 := Apply(s0, Start(u, "", ""), w);
    StepKeepsInv(s0, Start(u, "", ""), w);
    var s2 := Apply(s1, Write(u), w);
    StepKeepsInv(s1, Write(u), w);
    NextWaits(s, t, u, "", "", w);
    assert Unanswered(s2, s.nextId);
    if s.conn.value.sent != [] {
      assert AnswerOk(s.conn.value.sent[0], s);
      CrossesFrom(s2, u, id, w);
      ls := [Start(u, "", "")] + ([Write(u)] + [ReadHeader(u), ReadBody(u)]);
    } else {
      var serve := Serve(true, true, "");
      var s3 := Apply(s2, serve, w);
      StepKeepsInv(s2, serve, w);
      ServedFirst(s2, u, s.tasks[t].req, w);
      CrossesFrom(s3, u, id, w);
      ls := [Start(u, "", "")] + ([Write(u)] + ([serve] + [ReadHeader(u), ReadBody(u)]));
      RunStep(s2, serve, [ReadHeader(u), ReadBody(u)], w);
    }
    RunStep(s0, Start(u, "", ""), ls[1..], w);
    RunStep(s1, Write(u), ls[2..], w);
    assert ls == [Start(u, "", "")] + ls[1..] && ls[1..] == [Write(u)] + ls[2..];
  }

  lemma ServedFirst(s: State, u: Task, q: Request, w: Wire)
    requires IsWaiting(s, u) && s.conn.value.up && |s.conn.value.toServer| == 2 && s.conn.value.toServer[0] == q
    requires s.conn.value.sent == [] && InBounds(w.pack(Envelope(true, q.id, q.op, "")))
    requires Unanswered(s, s.tasks[u].req.id) && q.id != s.tasks[u].req.id
    ensures var z := Apply(s, Serve(true, true, ""), w);
            && IsWaiting(z, u) && z.tasks == s.tasks && z.conn.value.up
            && z.conn.value.sent == [(q.id, Envelope(true, q.id, q.op, ""))] && z.conn.value.sent[0] in z.answered
            && Unanswered(z, s.tasks[u].req.id)
  {
  }

  /**
   * Errors are not matched by id: after a task is cancelled while it waits, a later request can raise the
   * error that answers the cancelled one, if and only if the connection is up and that answer is still to
   * come or is an error.
   */
  lemma CancelledErrorCrossesExactly(s: State, t: Task, w: Wire)
    requires Honest(w) && Sync(s, w) && Once(s) && IsWaiting(s, t) && s.tasks[t].need.None?
    requires InBounds(w.pack(Envelope(true, s.tasks[t].req.id, s.tasks[t].req.op, "")))
    ensures CanCross(Apply(s, Cancel(t), w), s.tasks[t].req.id, w) <==> ErrorMayCome(s)
  {
    var z := Apply(s, Cancel(t), w);
    if ErrorMayCome(s) {
      var u := FreshTask(s.tasks.Keys);
      assert u !in s.tasks;
      var ls := NextIsBehindError(s, t, u, w);
      assert u !in z.tasks && RaisesErrorOf(Run(z, ls, w), u, s.tasks[t].req.id);
    } else if s.conn.value.up {
      AnsweredNoError(s, t, w);
      NoErrorNoCross(z, s.tasks[t].req.id, w);
    } else {
      DeadNoCross(z, s.tasks[t].req.id, w);
    }
  }

  lemma StepKeepsBoth(s: State, l: Label, w: Wire)
    requires Honest(w) && Sync(s, w) && Once(s) && !l.Cancel?
    ensures Sync(Apply(s, l, w), w) && Once(Apply(s, l, w))
  {
    StepKeepsSync(s, l, w);
    StepKeepsOnce(s, l, w);
  }

  function Out(s: State, t: Task, op: string, body: string, w: Wire): State {
    Apply(Apply(s, Start(t, op, body), w), Write(t), w)
  }

  lemma RequestIsOut(s: State, t: Task, op: string, body: string, w: Wire)
    requires Honest(w) && Init(s)
    ensures var z := Out(s, t, op, body, w);
            && Sync(z, w) && Once(z) && IsWaiting(z, t) && z.tasks[t].need.None?
            && z.conn == Some(Conn([Request(1, op, body)], [], [], true))
  {
    StepKeepsBoth(s, Start(t, op, body), w);
    StepKeepsBoth(Apply(s, Start(t, op, body), w), Write(t), w);
    assert [] + [Request(1, op, body)] == [Request(1, op, body)];
  }

  function Served(s: State, t: Task, op: string, body: string, answer: string, w: Wire): State {
    Apply(Out(s, t, op, body, w), Serve(false, true, answer), w)
  }

  lemma AnswerIsThere(s: State, t: Task, op: string, body: string, answer: string, w: Wire)
    requires Honest(w) && Init(s) && InBounds(w.pack(Envelope(false, 1, op, answer)))
    ensures var z := Served(s, t, op, body, answer, w);
            && Sync(z, w) && Once(z) && IsWaiting(z, t) && z.tasks[t].need.None?
            && z.conn.Some? && z.conn.value.sent == [(1, Envelope(false, 1, op, answer))]
  {
    RequestIsOut(s, t, op, body, w);
    StepKeepsBoth(Out(s, t, op, body, w), Serve(false, true, answer), w);
  }

  /** Such points are reached: a request that is out, one that is answered, and one whose header has been read. */
  lemma CancelPointsAreReached(s: State, t: Task, op: string, body: string, answer: string, w: Wire)
    requires Honest(w) && Init(s) && InBounds(w.pack(Envelope(false, 1, op, answer)))
    ensures var out, served := Out(s, t, op, body, w), Served(s, t, op, body, answer, w);
            var mid := Apply(served, ReadHeader(t), w);
            && Sync(out, w) && Once(out) && IsWaiting(out, t) && out.tasks[t].need.None? && ErrorMayCome(out)
            && Sync(served, w) && Once(served) && IsWaiting(served, t) && served.tasks[t].need.None? && !ErrorMayCome(served)
            && Sync(mid, w) && Once(mid) && MidFrame(mid, t)
  {
    RequestIsOut(s, t, op, body, w);
    AnswerIsThere(s, t, op, body, answer, w);
    var served := Served(s, t, op, body, answer, w);
    StepKeepsBoth(served, ReadHeader(t), w);
    HeaderAnnounces(served.conn.value, w);
  }

  // ----- The fields of one client ------------------------------------------------------------------

  /** The client's own fields; what the peer does is chosen as it goes. */
  class Client {
    var nextId: nat
    var reader: Option<Stream>
    var up: bool
    /** The last answer of the server, and the request it answers. */
    ghost var answer: Option<Answer>

    constructor ()
      ensures nextId == 1 && reader.Some? && fresh(reader.value) && reader.value.unread == [] && up
    {
      var s := new Stream([]);
      nextId, reader, up, answer := 1, Some(s), true, None;
    }

    /** Nothing is unread between two requests of a connection that is up. */
    predicate Quiet()
      reads this, if reader.Some? then {reader.value} else {}
    {
      reader.Some? && up ==> reader.value.unread == []
    }

    /** `_allocate_id`. */
    method AllocateId() returns (id: nat)
      modifies this`nextId
      ensures id == old(nextId) && nextId == id + 1
    {
      id := nextId;
      nextId := nextId + 1;
    }

    /** The server answers the request with one frame, or closes the connection in the middle of one, or is late. */
    method Peer(req: Request, w: Wire) returns (late: bool)
      requires reader.Some? && reader.value.unread == [] && up
      modifies reader.value, this`up, this`answer
      ensures !late && up ==> answer.Some? && answer.value.0 == req.id && InBounds(w.pack(answer.value.1))
                              && (!answer.value.1.isErr ==> answer.value.1.id == req.id)
                              && reader.value.unread == Frame(w.pack(answer.value.1))
      ensures !late && !up ==> ReadPayload(reader.value.unread) == Err(Truncated)
    {
      var isErr: bool := *;
      var knowsId: bool := *;
      var text: string := *;
      var e := Answering(req, Serve(isErr, knowsId, text));
      late := *;
      if !InBounds(w.pack(e)) { late := true; }
      if late { return; }
      answer := Some((req.id, e));
      var frame := Frame(w.pack(e));
      var cut: int := *;
      if 0 <= cut < |frame| {
        up := false;
        reader.value.unread := frame[..cut];
        PrefixIsTruncated(w.pack(e), cut);
      } else {
        reader.value.unread := frame;
      }
    }

    /** `_roundtrip`: on a timeout the connection is given up. */
    method Roundtrip(req: Request, w: Wire) returns (r: Result<Envelope, Outcome>)
      requires Honest(w) && Quiet()
      modifies this`reader, this`up, this`answer, if reader.Some? then {reader.value} else {}
      ensures Quiet() && (reader == old(reader) || reader.None?)
      ensures r.Ok? ==> answer == Some((req.id, r.value)) && (!r.value.isErr ==> r.value.id == req.id)
      ensures r.Err? ==> r.error.NotConnected? || r.error.ProtocolError? || r.error.TimedOut?
      ensures r == Err(TimedOut) ==> reader.None?
      ensures old(reader).None? <==> r == Err(NotConnected)
    {
      if reader.None? { return Err(NotConnected); }
      var writeFails: bool := *;
      if writeFails || !up {
        up := false;
        return Err(ProtocolError);
      }
      var late := Peer(req, w);
      if late {
        reader := None;
        return Err(TimedOut);
      }
      ghost var sent := reader.value.unread;
      var e := reader.value.ReadEnvelope(w.unpack);
      if e.Err? {
        up := false;
        return Err(ProtocolError);
      }
      if up {
        FirstEnvelope(answer.value.1, [], w.pack, w.unpack);
        assert sent + [] == sent;
      }
      return Ok(e.value);
    }

    /** `_request`: the reply that is returned or raised is the one to this request. */
    method MakeRequest(op: string, body: string, w: Wire) returns (o: Outcome)
      requires Honest(w) && Quiet()
      modifies this, if reader.Some? then {reader.value} else {}
      ensures Quiet() && nextId == old(nextId) + 1
      ensures o.Returned? ==> answer == Some((old(nextId), Envelope(false, old(nextId), op, o.body)))
      ensures o.Raised? ==> answer.Some? && answer.value.0 == old(nextId) && answer.value.1.isErr && answer.value.1.body == o.error
      ensures o.TimedOut? ==> reader.None?
      ensures old(reader).None? <==> o.NotConnected?
    {
      var id := AllocateId();
      var r := Roundtrip(Request(id, op, body), w);
      if r.Err? { return r.error; }
      return Judge(Request(id, op, body), r.value);
    }
  }
}
