/**
 The connection protocol for any number of concurrent connections.  An event is
 what one connection does between two suspension points: requests run and
 answer in any order, and a connection can be cancelled anywhere.
 */
module Server {
  import opened Bytes
  import opened Frames
  import opened Wrappers
  import Presence
  import Responses
  import opened SystemProvider

  type ConnId = nat

  datatype Method = SystemHello | Other(name: string)

  datatype Request = Request(id: Bytes, call: Method, version: nat, timeout: nat, hello: HelloParams)

  type Response = Responses.Response
  type Payload = Responses.Payload

  // Numbers that stand for the error codes of the protocol.
  const PERMISSION_DENIED: byte := 1
  const INVALID_REQUEST: byte := 2
  const INCOMPATIBLE_VERSION: byte := 3
  const DEADLINE_EXCEEDED: byte := 4

  /** What the router came to within the deadline of a request. */
  datatype Answer = Replied(payload: Payload) | Overdue

  datatype Phase = AwaitHello | Answering(response: Response) | Serving | Ended

  datatype Task = Waiting | Ready(response: Response)

  /** A response whose frame is completely in the output stream; `index` is the request it answers. */
  datatype Sent = Sent(index: nat, response: Response)

  /** `answers` is history: what the router came to on each request that has been run. */
  datatype Conn = Conn(phase: Phase, read: seq<Request>, pending: map<nat, Task>, sent: seq<Sent>, out: Bytes,
                       answers: map<nat, Answer>)

  datatype Entry = Dispatched(conn: ConnId, call: Method) | Authenticated(conn: ConnId)

  datatype World = World(token: Token, conns: map<ConnId, Conn>, live: nat, log: seq<Entry>)

  function Initial(token: Token): World {
    World(token, map[], 0, [])
  }

  datatype Event =
    | Open(conn: ConnId)
    | ReadFirst(conn: ConnId, request: Request, answer: Answer)
    | WriteFirst(conn: ConnId, ok: bool)
    | Read(conn: ConnId, request: Request)
    | Run(conn: ConnId, index: nat, answer: Answer)
    | Write(conn: ConnId, index: nat, ok: bool)
    | Close(conn: ConnId)  // end of stream, read error or cancellation

  // ---- one request ----

  /** `execute_request` reaches the router. */
  predicate Dispatches(r: Request) {
    r.version == PROTOCOL_VERSION && r.timeout > 0
  }

  /** What the handler of hello answers: success exactly on the right credentials. */
  predicate HelloTrue(token: Token, r: Request, a: Answer) {
    a.Replied? ==>
      && (a.payload.Success? <==> Credentials(r.hello, token))
      && (a.payload.Failure? ==>
            a.payload.code == if r.hello.token != token then PERMISSION_DENIED else INCOMPATIBLE_VERSION)
  }

  /** `execute_request`. */
  function Execute(r: Request, a: Answer): Payload {
    if r.version != PROTOCOL_VERSION then Responses.Failure(INCOMPATIBLE_VERSION, [])
    else if r.timeout == 0 then Responses.Failure(INVALID_REQUEST, [])
    else match a
      case Replied(payload) => payload
      case Overdue => Responses.Failure(DEADLINE_EXCEEDED, [])
  }

  /** The first request has to be a hello, and no other may be one. */
  function Answered(index: nat, r: Request, a: Answer): Response {
    Responses.Response(r.id,
      if index == 0 && !r.call.SystemHello? then Responses.Failure(PERMISSION_DENIED, [])
      else if index > 0 && r.call.SystemHello? then Responses.Failure(INVALID_REQUEST, [])
      else Execute(r, a))
  }

  function LogRun(log: seq<Entry>, c: ConnId, r: Request): seq<Entry> {
    if Dispatches(r) then log + [Dispatched(c, r.call)] else log
  }

  // ---- the transition system ----

  predicate Enabled(w: World, e: Event) {
    if e.Open? then e.conn !in w.conns
    else
      && e.conn in w.conns
      && var c := w.conns[e.conn];
      match e
      case ReadFirst(_, request, answer) =>
        c.phase.AwaitHello? && (request.call.SystemHello? ==> HelloTrue(w.token, request, answer))
      case WriteFirst(_, ok) => c.phase.Answering? && (ok ==> Fits(Responses.Encode(c.phase.response)))
      case Read(_, _) => c.phase.Serving?
      case Run(_, index, _) =>
        c.phase.Serving? && index in c.pending && c.pending[index].Waiting? && index < |c.read|
      case Write(_, index, ok) =>
        c.phase.Serving? && index in c.pending && c.pending[index].Ready?
        && (ok ==> Fits(Responses.Encode(c.pending[index].response)))
      case Close(_) => !c.phase.Ended?
      case Open(_) => false
  }

  /** The writer lock: a frame goes out in one piece. */
  function Put(c: Conn, index: nat, r: Response): Conn
    requires Fits(Responses.Encode(r))
  {
    c.(sent := c.sent + [Sent(index, r)], out := c.out + Frame(Responses.Encode(r)))
  }

  function Apply(w: World, e: Event): World
    requires Enabled(w, e)
  {
    match e
    case Open(id) => w.(conns := w.conns[id := Conn(AwaitHello, [], map[], [], [], map[])])
    case ReadFirst(id, request, answer) =>
      var c := w.conns[id];
      w.(conns := w.conns[id := c.(phase := Answering(Answered(0, request, answer)), read := [request],
                                   answers := map[0 := answer])],
         log := if request.call.SystemHello? then LogRun(w.log, id, request) else w.log)
    case WriteFirst(id, ok) =>
      var c := w.conns[id];
      var r := c.phase.response;
      if !ok then w.(conns := w.conns[id := c.(phase := Ended)])
      else if r.payload.Failure? then w.(conns := w.conns[id := Put(c, 0, r).(phase := Ended)])
      else w.(conns := w.conns[id := Put(c, 0, r).(phase := Serving)], live := w.live + 1,
              log := w.log + [Authenticated(id)])
    case Read(id, request) =>
      var c := w.conns[id];
      w.(conns := w.conns[id := c.(read := c.read + [request], pending := c.pending[|c.read| := Waiting])])
    case Run(id, index, answer) =>
      var c := w.conns[id];
      // A second hello is refused without reaching the router.
      w.(conns := w.conns[id := c.(pending := c.pending[index := Ready(Answered(index, c.read[index], answer))],
                                   answers := c.answers[index := answer])],
         log := if c.read[index].call.SystemHello? then w.log else LogRun(w.log, id, c.read[index]))
    case Write(id, index, ok) =>
      var c := w.conns[id];
      var d := c.(pending := c.pending - {index});
      w.(conns := w.conns[id := if ok then Put(d, index, c.pending[index].response) else d])
    case Close(id) =>
      var c := w.conns[id];
      w.(conns := w.conns[id := c.(phase := Ended, pending := map[])],
         live := if c.phase.Serving? && w.live > 0 then w.live - 1 else w.live)
  }

  predicate Possible(w: World, es: seq<Event>)
    decreases |es|
  {
    es == [] || (Enabled(w, es[0]) && Possible(Apply(w, es[0]), es[1..]))
  }

  function After(w: World, es: seq<Event>): World
    requires Possible(w, es)
    decreases |es|
  {
    if es == [] then w else After(Apply(w, es[0]), es[1..])
  }

  // ---- the invariant ----

  function Payloads(sent: seq<Sent>): seq<Bytes> {
    seq(|sent|, i requires 0 <= i < |sent| => Responses.Encode(sent[i].response))
  }

  /** The response is what the router's answer to that request comes to. */
  predicate AnswerOk(c: Conn, index: nat, r: Response) {
    index < |c.read| && index in c.answers && r == Answered(index, c.read[index], c.answers[index])
  }

  /** Every response answers a request that was read, as its outcome says, and no request twice. */
  ghost predicate AnswersOk(c: Conn) {
    && (forall i | 0 <= i < |c.sent| :: AnswerOk(c, c.sent[i].index, c.sent[i].response))
    && (forall i, j | 0 <= i < j < |c.sent| :: c.sent[i].index != c.sent[j].index)
    && (forall n <- c.pending :: 0 < n < |c.read| && forall i | 0 <= i < |c.sent| :: c.sent[i].index != n)
    && (forall n <- c.pending :: c.pending[n].Ready? ==> AnswerOk(c, n, c.pending[n].response))
  }

  ghost predicate OutputOk(c: Conn) {
    AllFit(Payloads(c.sent)) && c.out == Stream(Payloads(c.sent))
  }

  ghost predicate PhaseOk(token: Token, c: Conn) {
    match c.phase
    case AwaitHello => c.read == [] && c.sent == [] && c.pending == map[]
    case Answering(r) =>
      && |c.read| == 1 && c.sent == [] && c.pending == map[] && AnswerOk(c, 0, r)
      && (r.payload.Success? ==> HelloOk(token, c))
    case Serving => HelloOk(token, c)
    case Ended => c.pending == map[]
  }

  /** The first request is a hello with the configured token that offers this version. */
  predicate HelloOk(token: Token, c: Conn) {
    c.read != [] && c.read[0].call.SystemHello? && Credentials(c.read[0].hello, token)
  }

  ghost predicate ConnOk(token: Token, c: Conn) {
    PhaseOk(token, c) && AnswersOk(c) && OutputOk(c)
  }

  function ServingSet(conns: map<ConnId, Conn>): set<ConnId> {
    set id | id in conns && conns[id].phase.Serving?
  }

  ghost predicate AuthenticatedBefore(log: seq<Entry>, k: nat, id: ConnId)
    requires k <= |log|
  {
    exists j | 0 <= j < k :: log[j] == Authenticated(id)
  }

  ghost predicate LogOk(w: World) {
    && (forall k | 0 <= k < |w.log| && w.log[k].Dispatched? && !w.log[k].call.SystemHello? ::
          AuthenticatedBefore(w.log, k, w.log[k].conn))
    && (forall k | 0 <= k < |w.log| && w.log[k].Authenticated? ::
          w.log[k].conn in w.conns && HelloOk(w.token, w.conns[w.log[k].conn]))
    && (forall id <- w.conns :: w.conns[id].phase.Serving? ==> AuthenticatedBefore(w.log, |w.log|, id))
  }

  ghost predicate Inv(w: World) {
    && ConnsOk(w.token, w.conns)
    && w.live == |ServingSet(w.conns)|
    && LogOk(w)
  }

  // ---- it is inductive ----

  lemma PayloadsAppend(sent: seq<Sent>, s: Sent)
    ensures Payloads(sent + [s]) == Payloads(sent) + [Responses.Encode(s.response)]
  {
  }

  lemma PutOk(c: Conn, index: nat, r: Response)
    requires OutputOk(c) && Fits(Responses.Encode(r))
    ensures OutputOk(Put(c, index, r))
  {
    PayloadsAppend(c.sent, Sent(index, r));
    StreamAppend(Payloads(c.sent), Responses.Encode(r));
  }

  lemma AnswersPut(c: Conn, index: nat, r: Response)
    requires AnswersOk(c) && Fits(Responses.Encode(r)) && AnswerOk(c, index, r)
    requires forall i | 0 <= i < |c.sent| :: c.sent[i].index != index
    requires index !in c.pending
    ensures AnswersOk(Put(c, index, r))
  {
  }

  /** A completed request `index` moves from pending to sent. */
  lemma PutKeeps(token: Token, c: Conn, index: nat, r: Response, phase: Phase)
    requires AnswersOk(c) && OutputOk(c) && Fits(Responses.Encode(r))
    requires AnswerOk(c, index, r)
    requires forall i | 0 <= i < |c.sent| :: c.sent[i].index != index
    requires index !in c.pending
    requires phase.Serving? ==> HelloOk(token, c)
    requires phase.Ended? ==> c.pending == map[]
    requires phase.Serving? || phase.Ended?
    ensures ConnOk(token, Put(c, index, r).(phase := phase))
  {
    PutOk(c, index, r);
    AnswersPut(c, index, r);
  }

  lemma FirstKept(token: Token, w: World, e: Event)
    requires w.token == token && Enabled(w, e) && (e.ReadFirst? || e.WriteFirst?) && ConnOk(token, w.conns[e.conn])
    ensures ConnOk(token, Apply(w, e).conns[e.conn])
  {
    var c := w.conns[e.conn];
    if e.WriteFirst? && e.ok {
      var r := c.phase.response;
      PutKeeps(token, c, 0, r, if r.payload.Success? then Serving else Ended);
    }
  }

  lemma ReadKept(token: Token, c: Conn, r: Request)
    requires ConnOk(token, c) && c.phase.Serving?
    ensures ConnOk(token, c.(read := c.read + [r], pending := c.pending[|c.read| := Waiting]))
  {
    var d := c.(read := c.read + [r], pending := c.pending[|c.read| := Waiting]);
    assert AnswersOk(d);
  }

  lemma RunKept(token: Token, c: Conn, index: nat, a: Answer)
    requires ConnOk(token, c) && c.phase.Serving? && index in c.pending
    ensures var r := Answered(index, c.read[index], a);
            ConnOk(token, c.(pending := c.pending[index := Ready(r)], answers := c.answers[index := a]))
  {
    var r := Answered(index, c.read[index], a);
    var d := c.(pending := c.pending[index := Ready(r)], answers := c.answers[index := a]);
    assert AnswersOk(d);
  }

  lemma WriteKept(token: Token, c: Conn, index: nat, ok: bool)
    requires ConnOk(token, c) && c.phase.Serving? && index in c.pending && c.pending[index].Ready?
    requires ok ==> Fits(Responses.Encode(c.pending[index].response))
    ensures var d := c.(pending := c.pending - {index});
            ConnOk(token, if ok then Put(d, index, c.pending[index].response) else d)
  {
    var d := c.(pending := c.pending - {index});
    assert AnswersOk(d);
    if ok {
      PutKeeps(token, d, index, c.pending[index].response, Serving);
    }
  }

  lemma ConnKept(w: World, e: Event)
    requires Enabled(w, e) && !e.Open? && ConnOk(w.token, w.conns[e.conn])
    ensures ConnOk(w.token, Apply(w, e).conns[e.conn])
  {
    var c := w.conns[e.conn];
    match e
    case ReadFirst(_, _, _) => FirstKept(w.token, w, e);
    case WriteFirst(_, _) => FirstKept(w.token, w, e);
    case Read(_, request) => ReadKept(w.token, c, request);
    case Run(_, index, answer) => RunKept(w.token, c, index, answer);
    case Write(_, index, ok) => WriteKept(w.token, c, index, ok);
    case Close(_) =>
  }

  /** An event changes one connection. */
  lemma OneConnChanges(w: World, e: Event)
    requires Enabled(w, e)
    ensures e.conn in Apply(w, e).conns
    ensures Apply(w, e).conns == w.conns[e.conn := Apply(w, e).conns[e.conn]]
  {
  }

  lemma ServingSetOf(conns: map<ConnId, Conn>, id: ConnId, c: Conn)
    ensures ServingSet(conns[id := c])
         == if c.phase.Serving? then ServingSet(conns) + {id} else ServingSet(conns) - {id}
  {
  }

  lemma SizeWith(s: set<ConnId>, id: ConnId)
    ensures |s + {id}| == if id in s then |s| else |s| + 1
    ensures |s - {id}| == if id in s then |s| - 1 else |s|
  {
    if id in s {
      assert s + {id} == s;
    } else {
      assert s - {id} == s;
    }
  }

  lemma LiveKept(w: World, e: Event)
    requires Enabled(w, e) && w.live == |ServingSet(w.conns)|
    ensures Apply(w, e).live == |ServingSet(Apply(w, e).conns)|
  {
    var c, was := Apply(w, e).conns[e.conn], ServingSet(w.conns);
    OneConnChanges(w, e);
    ServingSetOf(w.conns, e.conn, c);
    SizeWith(was, e.conn);
    assert e.conn in was <==> e.conn in w.conns && w.conns[e.conn].phase.Serving?;
    assert e.conn in was ==> |was| > 0;
    LiveOfStep(w, e);
  }

  /** The counter moves with the phase. */
  lemma LiveOfStep(w: World, e: Event)
    requires Enabled(w, e) && (e.conn in w.conns && w.conns[e.conn].phase.Serving? ==> w.live > 0)
    ensures var was, now := e.conn in w.conns && w.conns[e.conn].phase.Serving?,
                            Apply(w, e).conns[e.conn].phase.Serving?;
            Apply(w, e).live == if now && !was then w.live + 1 else if was && !now then w.live - 1 else w.live
  {
  }

  lemma LogExtended(log: seq<Entry>, entry: Entry, k: nat, id: ConnId)
    requires k <= |log| && AuthenticatedBefore(log, k, id)
    ensures AuthenticatedBefore(log + [entry], k, id)
  {
    var j :| 0 <= j < k && log[j] == Authenticated(id);
    assert (log + [entry])[j] == log[j];
  }

  /** Appending one entry that is itself in order. */
  lemma LogKept(w: World, conns: map<ConnId, Conn>, entry: Entry)
    requires LogOk(w)
    requires w.conns.Keys <= conns.Keys
    requires forall id <- w.conns :: w.conns[id].read <= conns[id].read
    requires entry.Dispatched? && !entry.call.SystemHello? ==> AuthenticatedBefore(w.log, |w.log|, entry.conn)
    requires entry.Authenticated? ==> entry.conn in conns && HelloOk(w.token, conns[entry.conn])
    requires forall id <- conns :: conns[id].phase.Serving? ==>
               (id in w.conns && w.conns[id].phase.Serving?) || entry == Authenticated(id)
    ensures LogOk(w.(conns := conns, log := w.log + [entry]))
  {
    var log := w.log + [entry];
    forall k | 0 <= k < |log| && log[k].Dispatched? && !log[k].call.SystemHello?
      ensures AuthenticatedBefore(log, k, log[k].conn)
    {
      LogExtended(w.log, entry, k, log[k].conn);
    }
    forall id <- conns | conns[id].phase.Serving?
      ensures AuthenticatedBefore(log, |log|, id)
    {
      if entry == Authenticated(id) {
        assert log[|w.log|] == entry;
      } else {
        LogExtended(w.log, entry, |w.log|, id);
      }
    }
  }

  /** An event that logs nothing. */
  lemma LogUnchanged(w: World, conns: map<ConnId, Conn>)
    requires LogOk(w) && w.conns.Keys <= conns.Keys
    requires forall id <- w.conns :: w.conns[id].read <= conns[id].read
    requires forall id <- conns :: conns[id].phase.Serving? ==> id in w.conns && w.conns[id].phase.Serving?
    ensures LogOk(w.(conns := conns))
  {
  }

  lemma ConnOfStep(w: World, e: Event)
    requires Enabled(w, e) && (!e.Open? ==> ConnOk(w.token, w.conns[e.conn]))
    ensures var v, c := Apply(w, e), Apply(w, e).conns[e.conn];
            && (e.conn in w.conns ==> w.conns[e.conn].read <= c.read)
            && (c.phase.Serving? && !(e.conn in w.conns && w.conns[e.conn].phase.Serving?) ==>
                  v.log == w.log + [Authenticated(e.conn)])
            && v.token == w.token
  {
  }

  lemma ConnsOfStep(w: World, e: Event)
    requires Enabled(w, e) && (!e.Open? ==> ConnOk(w.token, w.conns[e.conn]))
    ensures var v := Apply(w, e);
            && w.conns.Keys <= v.conns.Keys
            && (forall id <- w.conns :: w.conns[id].read <= v.conns[id].read)
            && (forall id <- v.conns :: v.conns[id].phase.Serving? && !(id in w.conns && w.conns[id].phase.Serving?) ==>
                  v.log == w.log + [Authenticated(id)])
            && v.token == w.token
  {
    OneConnChanges(w, e);
    ConnOfStep(w, e);
  }

  /** What an event may append to the log. */
  lemma LogOfStep(w: World, e: Event)
    requires Enabled(w, e) && (!e.Open? ==> ConnOk(w.token, w.conns[e.conn]))
    ensures var v := Apply(w, e);
            v.log == w.log || exists entry ::
              && v.log == w.log + [entry] && entry.conn == e.conn && e.conn in w.conns
              && (entry.Dispatched? && !entry.call.SystemHello? ==> w.conns[e.conn].phase.Serving?)
              && (entry.Authenticated? ==> HelloOk(w.token, v.conns[e.conn]))
  {
    var v := Apply(w, e);
    if v.log != w.log {
      assert v.log == w.log + [v.log[|w.log|]];
    }
  }

  ghost predicate ConnsOk(token: Token, conns: map<ConnId, Conn>) {
    forall id <- conns :: ConnOk(token, conns[id])
  }

  lemma LogOkKept(w: World, e: Event)
    requires LogOk(w) && Enabled(w, e) && (!e.Open? ==> ConnOk(w.token, w.conns[e.conn]))
    ensures LogOk(Apply(w, e))
  {
    var v := Apply(w, e);
    ConnsOfStep(w, e);
    LogOfStep(w, e);
    if v.log == w.log {
      LogUnchanged(w, v.conns);
      assert v.(live := w.live) == w.(conns := v.conns);
    } else {
      var entry :| v.log == w.log + [entry] && entry.conn == e.conn && e.conn in w.conns
                   && (entry.Dispatched? && !entry.call.SystemHello? ==> w.conns[e.conn].phase.Serving?)
                   && (entry.Authenticated? ==> HelloOk(w.token, v.conns[e.conn]));
      forall id <- v.conns | v.conns[id].phase.Serving? && !(id in w.conns && w.conns[id].phase.Serving?)
        ensures entry == Authenticated(id)
      {
        assert v.log[|w.log|] == entry && (w.log + [Authenticated(id)])[|w.log|] == Authenticated(id);
      }
      LogKept(w, v.conns, entry);
      assert v.(live := w.live) == w.(conns := v.conns, log := w.log + [entry]);
    }
  }

  lemma OthersUntouched(w: World, e: Event)
    requires Enabled(w, e)
    ensures var v := Apply(w, e);
            && e.conn in v.conns && v.conns.Keys == w.conns.Keys + {e.conn}
            && forall id <- w.conns :: id != e.conn ==> v.conns[id] == w.conns[id]
  {
  }

  lemma ConnsKept(w: World, e: Event)
    requires ConnsOk(w.token, w.conns) && Enabled(w, e)
    ensures ConnsOk(w.token, Apply(w, e).conns)
  {
    OthersUntouched(w, e);
    if e.Open? {
      assert ConnOk(w.token, Conn(AwaitHello, [], map[], [], [], map[]));
    } else {
      ConnKept(w, e);
    }
  }

  lemma StepKeeps(w: World, e: Event)
    requires Inv(w) && Enabled(w, e)
    ensures Inv(Apply(w, e)) && Apply(w, e).token == w.token
  {
    LiveKept(w, e);
    ConnsOfStep(w, e);
    LogOkKept(w, e);
    ConnsKept(w, e);
  }

  lemma {:induction false} RunKeeps(w: World, es: seq<Event>)
    requires Inv(w) && Possible(w, es)
    ensures Inv(After(w, es)) && After(w, es).token == w.token
    decreases |es|
  {
    if es != [] {
      StepKeeps(w, es[0]);
      RunKeeps(Apply(w, es[0]), es[1..]);
    }
  }

  lemma InitialOk(token: Token)
    ensures Inv(Initial(token))
  {
    assert ServingSet(map[]) == {};
  }

  // ---- what it means ----

  /**
   The attendance counter is the number of connections that are past a
   successful hello and have not ended, whichever way they ended.
   */
  lemma LiveIsExact(token: Token, es: seq<Event>)
    requires Possible(Initial(token), es)
    ensures var w := After(Initial(token), es);
            w.live == |set id | id in w.conns && w.conns[id].phase.Serving?|
  {
    InitialOk(token);
    RunKeeps(Initial(token), es);
    var w := After(Initial(token), es);
    assert ServingSet(w.conns) == set id | id in w.conns && w.conns[id].phase.Serving?;
  }

  /**
   Nothing but hello reaches the router before its connection has
   authenticated, and authenticating takes a first request that is a hello with
   exactly the configured token and an offer of this protocol version.
   */
  lemma NothingBeforeHello(token: Token, es: seq<Event>, k: nat)
    requires Possible(Initial(token), es) && k < |After(Initial(token), es).log|
    ensures var w := After(Initial(token), es); var entry := w.log[k];
            entry.Dispatched? && !entry.call.SystemHello? ==>
              && AuthenticatedBefore(w.log, k, entry.conn)
              && entry.conn in w.conns && HelloOk(token, w.conns[entry.conn])
  {
    InitialOk(token);
    RunKeeps(Initial(token), es);
    var w := After(Initial(token), es);
    var entry := w.log[k];
    if entry.Dispatched? && !entry.call.SystemHello? {
      var j :| 0 <= j < k && w.log[j] == Authenticated(entry.conn);
    }
  }

  /**
   What comes out of every connection: its bytes decode to the texts of the
   completed responses, in some order; each text carries the id of the request it
   answers, and there is at most one for each request that was read.  And it says
   what that request came to: the router's own result or error, unless the request
   was not let through to the router or was not answered in time.
   */
  lemma ResponsesMatchRequests(token: Token, es: seq<Event>, id: ConnId)
    requires Possible(Initial(token), es) && id in After(Initial(token), es).conns
    ensures var c := After(Initial(token), es).conns[id];
            var (texts, end) := Decode(c.out);
            && end == UnexpectedEof && |texts| == |c.sent| <= |c.read|
            && (forall i, j | 0 <= i < j < |texts| :: c.sent[i].index != c.sent[j].index)
            && (forall i | 0 <= i < |texts| ::
                  var n := c.sent[i].index;
                  && n < |c.read| && n in c.answers && Responses.Decode(texts[i]).Some?
                  && var r, request, answer := Responses.Decode(texts[i]).value, c.read[n], c.answers[n];
                  && r.id == request.id
                  && (if n == 0 && !request.call.SystemHello? then r.payload == Responses.Failure(PERMISSION_DENIED, [])
                      else if n > 0 && request.call.SystemHello? then
                        r.payload == Responses.Failure(INVALID_REQUEST, [])
                      else if request.version != 1 then r.payload == Responses.Failure(INCOMPATIBLE_VERSION, [])
                      else if request.timeout == 0 then r.payload == Responses.Failure(INVALID_REQUEST, [])
                      else if answer.Overdue? then r.payload == Responses.Failure(DEADLINE_EXCEEDED, [])
                      else r.payload == answer.payload))
  {
    InitialOk(token);
    RunKeeps(Initial(token), es);
    var c := After(Initial(token), es).conns[id];
    RoundTrip(Payloads(c.sent));
    Pigeonhole(c.sent, |c.read|);
    forall i | 0 <= i < |c.sent|
      ensures Responses.Decode(Payloads(c.sent)[i]) == Some(c.sent[i].response)
      ensures AnswerOk(c, c.sent[i].index, c.sent[i].response)
    {
      Responses.ReadBack(c.sent[i].response);
    }
  }

  // ---- the server does serve ----

  lemma Cons(w: World, e: Event, rest: seq<Event>)
    requires Enabled(w, e) && Possible(Apply(w, e), rest)
    ensures Possible(w, [e] + rest) && After(w, [e] + rest) == After(Apply(w, e), rest)
  {
    assert ([e] + rest)[1..] == rest;
  }

  lemma Two(w: World, e: Event, f: Event)
    requires Enabled(w, e) && Enabled(Apply(w, e), f)
    ensures Possible(w, [e, f]) && After(w, [e, f]) == Apply(Apply(w, e), f)
  {
    Cons(Apply(w, e), f, []);
    Cons(w, e, [f] + []);
    assert [e] + ([f] + []) == [e, f];
  }

  /**
   A connection is served exactly when its first request is a hello of this protocol version, with
   time to answer it, the configured token and an offer of this version, that is answered in time
   and whose answer gets out.  The attendance counter goes up then and only then.
   */
  lemma ServedIff(w: World, id: ConnId, r: Request, a: Answer)
    requires id in w.conns && w.conns[id].phase.AwaitHello? && (r.call.SystemHello? ==> HelloTrue(w.token, r, a))
    requires Fits(Responses.Encode(Answered(0, r, a)))
    ensures var es := [ReadFirst(id, r, a), WriteFirst(id, true)];
            && Possible(w, es)
            && var v := After(w, es);
            && id in v.conns
            && (v.conns[id].phase.Serving? <==>
                  && r.call.SystemHello? && r.version == 1 && r.timeout > 0 && a.Replied?
                  && r.hello.token == w.token && 1 in r.hello.versions)
            && v.live == w.live + (if v.conns[id].phase.Serving? then 1 else 0)
            && (!v.conns[id].phase.Serving? ==> v.conns[id].phase.Ended?)
            && v.conns[id].out == w.conns[id].out + Frame(Responses.Encode(Answered(0, r, a)))
            && (v.conns[id].phase.Serving? <==> Answered(0, r, a).payload.Success?)
  {
    Two(w, ReadFirst(id, r, a), WriteFirst(id, true));
  }

  /**
   A request on a served connection can be run and answered: it reaches the router exactly when its
   version is this one and it leaves time, and the frame of its response goes out with the
   router's answer, or with the error of what became of it.
   */
  lemma RequestIsAnswered(w: World, id: ConnId, r: Request, a: Answer)
    requires Inv(w) && id in w.conns && w.conns[id].phase.Serving? && !r.call.SystemHello?
    requires Fits(Responses.Encode(Answered(|w.conns[id].read|, r, a)))
    ensures var n := |w.conns[id].read|;
            var payload := if r.version != 1 then Responses.Failure(INCOMPATIBLE_VERSION, [])
                           else if r.timeout == 0 then Responses.Failure(INVALID_REQUEST, [])
                           else if a.Overdue? then Responses.Failure(DEADLINE_EXCEEDED, [])
                           else a.payload;
            var es := [Read(id, r), Run(id, n, a), Write(id, n, true)];
            && Possible(w, es) && id in After(w, es).conns
            && var text := Responses.Encode(Responses.Response(r.id, payload));
            && Fits(text) && After(w, es).conns[id].out == w.conns[id].out + Frame(text)
            && After(w, es).log == if r.version == 1 && r.timeout > 0 then w.log + [Dispatched(id, r.call)] else w.log
  {
    var n := |w.conns[id].read|;
    var read, run, write := Read(id, r), Run(id, n, a), Write(id, n, true);
    assert ConnOk(w.token, w.conns[id]);
    var v := Apply(w, read);
    Two(v, run, write);
    Cons(w, read, [run, write]);
    assert [read] + [run, write] == [read, run, write];
  }

  /** A connection that ends is not counted any more, and nothing that was running for it answers. */
  lemma CloseEnds(w: World, id: ConnId, e: Event)
    requires Inv(w) && Enabled(w, Close(id))
    ensures var v := Apply(w, Close(id));
            && v.conns[id].phase.Ended? && v.conns[id].out == w.conns[id].out && v.log == w.log
            && v.live == |ServingSet(w.conns) - {id}|
            && (Enabled(v, e) ==> e.conn != id)
  {
    LiveKept(w, Close(id));
    ServingSetOf(w.conns, id, Apply(w, Close(id)).conns[id]);
  }

  // ---- the counter itself ----

  /** The connection's code takes an attendance with this event. */
  predicate Attends(w: World, e: Event)
    requires Enabled(w, e)
  {
    e.WriteFirst? && e.ok && w.conns[e.conn].phase.response.payload.Success?
  }

  /** The guard of an attendance is dropped with this event. */
  predicate Leaves(w: World, e: Event)
    requires Enabled(w, e)
  {
    e.Close? && w.conns[e.conn].phase.Serving?
  }

  /**
   The attendance counter of the agent, taken and dropped by its connections in
   any order: it counts the connections that are being served.
   */
  method CountClients(token: Token, es: seq<Event>) returns (presence: Presence.ClientPresence)
    requires Possible(Initial(token), es)
    ensures fresh(presence) && presence.live == |ServingSet(After(Initial(token), es).conns)|
  {
    presence := new Presence.ClientPresence();
    var w := Initial(token);
    InitialOk(token);
    assert es[0..] == es;
    for n := 0 to |es|
      invariant Possible(w, es[n..]) && After(w, es[n..]) == After(Initial(token), es)
      invariant Inv(w) && presence.live == w.live
    {
      var e := es[n];
      assert es[n..][0] == e && es[n..][1..] == es[n + 1..];
      AttendsAndLeaves(w, e);
      StepKeeps(w, e);
      if Attends(w, e) {
        presence.Attend();
      }
      if Leaves(w, e) {
        presence.Release();
      }
      w := Apply(w, e);
    }
  }

  lemma AttendsAndLeaves(w: World, e: Event)
    requires Inv(w) && Enabled(w, e)
    ensures Leaves(w, e) ==> w.live > 0
    ensures Apply(w, e).live == w.live + (if Attends(w, e) then 1 else 0) - (if Leaves(w, e) then 1 else 0)
  {
    if Leaves(w, e) {
      assert e.conn in ServingSet(w.conns);
    }
  }

  function Indices(sent: seq<Sent>): set<nat> {
    set s | s in sent :: s.index
  }

  lemma {:induction false} CountDistinct(sent: seq<Sent>)
    requires forall i, j | 0 <= i < j < |sent| :: sent[i].index != sent[j].index
    ensures |Indices(sent)| == |sent|
  {
    if sent != [] {
      var front, last := sent[..|sent| - 1], sent[|sent| - 1];
      CountDistinct(front);
      assert sent == front + [last];
      assert Indices(sent) == Indices(front) + {last.index};
    }
  }

  lemma {:induction false} CountBelow(s: set<nat>, n: nat)
    requires forall x <- s :: x < n
    ensures |s| <= n
  {
    if n > 0 {
      CountBelow(s - {n - 1}, n - 1);
    } else {
      assert s == {};
    }
  }

  lemma Pigeonhole(sent: seq<Sent>, n: nat)
    requires forall i | 0 <= i < |sent| :: sent[i].index < n
    requires forall i, j | 0 <= i < j < |sent| :: sent[i].index != sent[j].index
    ensures |sent| <= n
  {
    CountDistinct(sent);
    CountBelow(Indices(sent), n);
  }
}
