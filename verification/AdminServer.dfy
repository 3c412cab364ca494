/** The Caddy admin server as the client sees it: two ordered lists of objects
    with optional ids, and a network that may drop requests or replies. */
module AdminServer {
  import opened Text

  const ROUTE_PREFIX := "devlocal-route-"
  const TLS_ID := "devlocal-tls"

  /** JSON bodies as records; `Other` is anything the user's own config holds. */
  datatype Body =
    | Proxy(host: string, upstreams: seq<string>, tracing: bool)
    | Tls(subjects: seq<string>)
    | Other(json: string)

  datatype Obj = Obj(id: Option<string>, body: Body)

  predicate OwnedId(id: string) {
    ROUTE_PREFIX <= id || id == TLS_ID
  }

  predicate Owned(o: Obj) {
    o.id.Some? && OwnedId(o.id.value)
  }

  /** `routes`/`policies` are None while the config node does not exist. A
      `lenient` server answers a GET of a missing node with 200 and a null body. */
  datatype Server = Server(lenient: bool, up: bool, routes: Option<seq<Obj>>, policies: Option<seq<Obj>>)

  function PolicyList(s: Server): seq<Obj> {
    if s.policies.Some? then s.policies.value else []
  }

  datatype Path = ServerNode | RouteNode | PolicyNode

  datatype Request =
    | GetPorts
    | Get(path: Path)
    | Put(path: Path, body: seq<Obj>)
    | Delete(id: string)
    | PatchId(id: string, obj: Obj)
    | PatchPolicies(body: seq<Obj>)
    | Post(obj: Obj)

  datatype Reply = Reply(status: int, body: seq<Obj>)

  /* ---------- lists of objects ---------- */

  function IdCount(r: seq<Obj>, id: string): nat {
    if r == [] then 0 else (if r[0].id == Some(id) then 1 else 0) + IdCount(r[1..], id)
  }

  function RemoveFirst(r: seq<Obj>, id: string): seq<Obj> {
    if r == [] then []
    else if r[0].id == Some(id) then r[1..]
    else [r[0]] + RemoveFirst(r[1..], id)
  }

  function ReplaceFirst(r: seq<Obj>, id: string, obj: Obj): seq<Obj> {
    if r == [] then []
    else if r[0].id == Some(id) then [obj] + r[1..]
    else [r[0]] + ReplaceFirst(r[1..], id, obj)
  }

  /* ---------- one request, delivered ---------- */

  function ServeGet(s: Server, path: Path): Reply {
    match path
    case ServerNode => Reply(if s.up || s.lenient then 200 else 404, [])
    case RouteNode =>
      if s.routes.Some? then Reply(200, s.routes.value)
      else Reply(if s.up && s.lenient then 200 else 404, [])
    case PolicyNode =>
      if s.policies.Some? then Reply(200, s.policies.value)
      else Reply(if s.lenient then 200 else 404, [])
  }

  function ServePut(s: Server, path: Path, body: seq<Obj>): (Server, Reply) {
    match path
    case ServerNode =>
      if s.up then (s, Reply(409, [])) else (s.(up := true, routes := Some(body)), Reply(200, []))
    case RouteNode =>
      if s.routes.Some? then (s, Reply(409, [])) else (s.(up := true, routes := Some(body)), Reply(200, []))
    case PolicyNode =>
      if s.policies.Some? then (s, Reply(409, [])) else (s.(policies := Some(body)), Reply(200, []))
  }

  function Serve(s: Server, q: Request): (Server, Reply) {
    match q
    case GetPorts => (s, Reply(200, []))
    case Get(path) => (s, ServeGet(s, path))
    case Put(path, body) => ServePut(s, path, body)
    case Delete(id) =>
      if s.routes.Some? && IdCount(s.routes.value, id) > 0 then
        (s.(routes := Some(RemoveFirst(s.routes.value, id))), Reply(200, []))
      else if s.policies.Some? && IdCount(s.policies.value, id) > 0 then
        (s.(policies := Some(RemoveFirst(s.policies.value, id))), Reply(200, []))
      else (s, Reply(404, []))
    case PatchId(id, obj) =>
      if s.routes.Some? && IdCount(s.routes.value, id) > 0 then
        (s.(routes := Some(ReplaceFirst(s.routes.value, id, obj))), Reply(200, []))
      else if s.policies.Some? && IdCount(s.policies.value, id) > 0 then
        (s.(policies := Some(ReplaceFirst(s.policies.value, id, obj))), Reply(200, []))
      else (s, Reply(404, []))
    case PatchPolicies(body) =>
      if s.policies.Some? then (s.(policies := Some(body)), Reply(200, [])) else (s, Reply(404, []))
    case Post(obj) =>
      if s.routes.Some? then (s.(routes := Some(s.routes.value + [obj])), Reply(200, []))
      else (s, Reply(404, []))
  }

  /* ---------- the network ---------- */

  /** Statuses with which a server turns a request down without acting on it. */
  type ErrStatus = x: int | 400 <= x < 600 && x != 404 && x != 409 witness 500

  /** What befalls one attempt: delivered and answered; dropped before or after it
      took effect, with a transient or a permanent error; or turned down. */
  datatype Fault = Deliver | Drop(effect: bool, transient: bool) | Refuse(status: ErrStatus)

  predicate Effective(f: Fault) {
    f.Deliver? || (f.Drop? && f.effect)
  }

  datatype Entry = Entry(req: Request, fault: Fault)

  /** The server, the faults still to come (none once the script is empty) and
      every attempt made so far. */
  datatype World = World(srv: Server, script: seq<Fault>, log: seq<Entry>)

  function Reliable(s: Server): World {
    World(s, [], [])
  }

  datatype Outcome = Got(reply: Reply) | Lost(transient: bool)

  function Attempt(w: World, q: Request): (World, Outcome) {
    var f := if w.script == [] then Deliver else w.script[0];
    var rest := if w.script == [] then [] else w.script[1..];
    var (srv', reply) := Serve(w.srv, q);
    var w' := World(if Effective(f) then srv' else w.srv, rest, w.log + [Entry(q, f)]);
    match f
    case Deliver => (w', Got(reply))
    case Drop(_, transient) => (w', Lost(transient))
    case Refuse(status) => (w', Got(Reply(status, [])))
  }

  datatype Served = Served(w: World, reply: Option<Reply>)

  const MAX_TRIES: nat := 3

  /** A lost attempt is repeated unless it was a POST or the error was permanent. */
  function Retry(w: World, q: Request, tries: nat): Served
    decreases tries
  {
    if tries == 0 then Served(w, None) else
    var (w', o) := Attempt(w, q);
    match o
    case Got(reply) => Served(w', Some(reply))
    case Lost(transient) =>
      if q.Post? || !transient then Served(w', None) else Retry(w', q, tries - 1)
  }

  function DoRequest(w: World, q: Request): Served {
    Retry(w, q, MAX_TRIES)
  }

  /* ---------- at-least-once delivery ---------- */

  /** The attempts made between two worlds. */
  ghost function Made(w: World, w': World): seq<Entry>
    requires w.log <= w'.log
  {
    w'.log[|w.log|..]
  }

  ghost predicate Took(made: seq<Entry>) {
    exists e :: e in made && Effective(e.fault)
  }

  /** Delivering `q` a second time changes nothing. */
  ghost predicate Idempotent(s: Server, q: Request) {
    Serve(Serve(s, q).0, q).0 == Serve(s, q).0
  }

  lemma TookConcat(a: seq<Entry>, b: seq<Entry>)
    ensures Took(a + b) <==> Took(a) || Took(b)
  {
    if e :| e in a && Effective(e.fault) { assert e in a + b; }
    if e :| e in b && Effective(e.fault) { assert e in a + b; }
  }

  /** What may be said of a request and all its attempts: the server is as after one
      delivery or as after none, and the answer is that of the last attempt. */
  ghost predicate DeliveredOnce(w: World, q: Request, s: Served) {
    && w.log <= s.w.log
    && var made := Made(w, s.w);
    && (forall e :: e in made ==> e.req == q)
    && s.w.srv == (if Took(made) then Serve(w.srv, q).0 else w.srv)
    && (s.reply.Some? ==>
          made != [] && AnsweredBy(w.srv, q, made[|made| - 1].fault, Took(made), s.reply.value))
  }

  ghost predicate AnsweredBy(srv: Server, q: Request, last: Fault, took: bool, reply: Reply) {
    match last
    case Drop(_, _) => false
    case Refuse(status) => reply == Reply(status, [])
    case Deliver =>
      took && (reply == Serve(srv, q).1 || (!q.Post? && reply == Serve(Serve(srv, q).0, q).1))
  }

  lemma AttemptOnce(w: World, q: Request)
    ensures var (w', o) := Attempt(w, q);
      var s := Served(w', if o.Got? then Some(o.reply) else None);
      |w'.log| == |w.log| + 1 && w.log <= w'.log && DeliveredOnce(w, q, s)
  {
    var (w', o) := Attempt(w, q);
    var e := w'.log[|w.log|];
    assert Made(w, w') == [e];
    assert Took([e]) <==> Effective(e.fault) by { assert e in [e]; }
  }

  lemma DeliveredAgain(w: World, q: Request, w1: World, s: Served)
    requires Idempotent(w.srv, q) && !q.Post?
    requires DeliveredOnce(w, q, Served(w1, None)) && DeliveredOnce(w1, q, s)
    ensures DeliveredOnce(w, q, s)
  {
    var m0, m1 := Made(w, w1), Made(w1, s.w);
    assert Made(w, s.w) == m0 + m1;
    TookConcat(m0, m1);
    if s.reply.Some? {
      assert (m0 + m1)[|m0 + m1| - 1] == m1[|m1| - 1];
    }
  }

  /** However many replies were lost, retrying leaves the effect of one delivery or of none. */
  lemma {:induction false} RetryOutcome(w: World, q: Request, tries: nat)
    requires q.Post? || Idempotent(w.srv, q)
    ensures DeliveredOnce(w, q, Retry(w, q, tries))
    decreases tries
  {
    if tries == 0 {
      assert Made(w, w) == [];
      return;
    }
    AttemptOnce(w, q);
    var (w', o) := Attempt(w, q);
    if o.Lost? && !q.Post? && o.transient {
      IdempotentStays(w, q, w');
      RetryOutcome(w', q, tries - 1);
      DeliveredAgain(w, q, w', Retry(w', q, tries - 1));
    }
  }

  lemma IdempotentStays(w: World, q: Request, w': World)
    requires Idempotent(w.srv, q)
    requires w'.srv == w.srv || w'.srv == Serve(w.srv, q).0
    ensures Idempotent(w'.srv, q)
  {
  }

  /* ---------- any request, idempotent or not ---------- */

  /** How many of the attempts took effect. */
  function Landed(made: seq<Entry>): nat {
    if made == [] then 0 else (if Effective(made[0].fault) then 1 else 0) + Landed(made[1..])
  }

  /** The server after `q` has arrived `n` times. */
  function ServedTimes(s: Server, q: Request, n: nat): Server {
    if n == 0 then s else Serve(ServedTimes(s, q, n - 1), q).0
  }

  lemma {:induction false} ServedOnceMore(s: Server, q: Request, n: nat)
    ensures ServedTimes(Serve(s, q).0, q, n) == ServedTimes(s, q, n + 1)
  {
    if n > 0 { ServedOnceMore(s, q, n - 1); }
  }

  /** The reply is that of the last attempt: of the server as it was then, or of one that turned it down. */
  ghost predicate LastAnswers(srv: Server, q: Request, made: seq<Entry>, reply: Option<Reply>) {
    made != [] && match made[|made| - 1].fault
      case Drop(_, _) => reply == None
      case Refuse(status) => reply == Some(Reply(status, []))
      case Deliver => Landed(made) > 0 && reply == Some(Serve(ServedTimes(srv, q, Landed(made) - 1), q).1)
  }

  /** Attempts are made until one is answered, is lost for good, is a POST's, or is the last of `tries`: all before the
      last were lost by transient errors. */
  ghost predicate AttemptsFit(q: Request, made: seq<Entry>, tries: nat) {
    && 1 <= |made| <= tries && (q.Post? ==> |made| == 1)
    && (forall e :: e in made ==> e.req == q)
    && (forall i :: 0 <= i < |made| - 1 ==> LostInPassing(made[i].fault))
    && (LostInPassing(made[|made| - 1].fault) ==> q.Post? || |made| == tries)
  }

  /** The server is as after as many deliveries as attempts took effect. */
  ghost predicate Effected(w: World, q: Request, s: Served, tries: nat) {
    && w.log <= s.w.log
    && var made := Made(w, s.w);
    && AttemptsFit(q, made, tries)
    && s.w.srv == ServedTimes(w.srv, q, Landed(made))
    && LastAnswers(w.srv, q, made, s.reply)
  }

  predicate LostInPassing(f: Fault) {
    f.Drop? && f.transient
  }

  lemma AttemptEffect(w: World, q: Request)
    ensures var (w', o) := Attempt(w, q);
      |w'.log| == |w.log| + 1 && w.log <= w'.log && var e := w'.log[|w.log|];
      && e.req == q
      && w'.srv == (if Effective(e.fault) then Serve(w.srv, q).0 else w.srv)
      && (o.Lost? <==> e.fault.Drop?) && (o.Lost? ==> o.transient == e.fault.transient)
      && Effected(w, q, Served(w', if o.Got? then Some(o.reply) else None), 1)
  {
    hide Serve;
    var w' := Attempt(w, q).0;
    var e := w'.log[|w.log|];
    assert Made(w, w') == [e] && [e][1..] == [] && Landed([e][1..]) == 0;
    assert ServedTimes(w.srv, q, 0) == w.srv && ServedTimes(w.srv, q, 1) == Serve(w.srv, q).0;
  }

  lemma LandedOn(e: Entry, more: seq<Entry>)
    ensures Landed([e] + more) == (if Effective(e.fault) then 1 else 0) + Landed(more)
  {
    assert ([e] + more)[1..] == more;
  }

  lemma EffectedAgain(w: World, q: Request, w1: World, s: Served, tries: nat)
    requires Effected(w, q, Served(w1, None), 1) && Effected(w1, q, s, tries) && !q.Post?
    requires LostInPassing(Made(w, w1)[0].fault)
    ensures Effected(w, q, s, tries + 1)
  {
    hide Serve, ServedTimes, Landed, Effective, AttemptsFit;
    var m0, m1 := Made(w, w1), Made(w1, s.w);
    var e := FitsOne(q, m0);
    FitsAgain(q, e, m1, tries);
    assert m0 == [e] && [e] + [] == [e] && Made(w, s.w) == [e] + m1;
    assert ([e] + m1)[|m1|] == m1[|m1| - 1];
    LandedOn(e, []);
    LandedOn(e, m1);
    LandedNone();
    ServedZero(w.srv, q);
    ServedOnceMore(w.srv, q, 0);
    ServedZero(Serve(w.srv, q).0, q);
    ServedOnceMore(w.srv, q, Landed(m1));
    if Landed(m1) > 0 { ServedOnceMore(w.srv, q, Landed(m1) - 1); }
  }

  lemma FitsOne(q: Request, made: seq<Entry>) returns (e: Entry)
    requires AttemptsFit(q, made, 1)
    ensures made == [e]
  {
    e := made[0];
  }

  lemma FitsAgain(q: Request, e: Entry, made: seq<Entry>, tries: nat)
    requires AttemptsFit(q, [e], 1) && AttemptsFit(q, made, tries) && LostInPassing(e.fault) && !q.Post?
    ensures AttemptsFit(q, [e] + made, tries + 1) && made != []
  {
    hide LostInPassing;
    forall i | 0 <= i < |made| ensures ([e] + made)[i + 1] == made[i] {}
    assert e in [e];
  }

  lemma LandedNone()
    ensures Landed([]) == 0
  {
  }

  lemma ServedZero(s: Server, q: Request)
    ensures ServedTimes(s, q, 0) == s
  {
  }

  /** So it is with every request, whether repeating it is harmless or not. */
  lemma {:induction false} RetryEffects(w: World, q: Request, tries: nat)
    requires tries > 0
    ensures Effected(w, q, Retry(w, q, tries), tries)
    decreases tries
  {
    hide Effected, Serve, Attempt;
    AttemptEffect(w, q);
    var (w', o) := Attempt(w, q);
    assert Made(w, w') == [w'.log[|w.log|]];
    if o.Lost? && !q.Post? && o.transient && tries > 1 {
      RetryEffects(w', q, tries - 1);
      EffectedAgain(w, q, w', Retry(w', q, tries - 1), tries - 1);
    } else if tries > 1 {
      EffectedMore(w, q, Retry(w, q, tries), tries);
    }
  }

  lemma EffectedMore(w: World, q: Request, s: Served, tries: nat)
    requires Effected(w, q, s, 1) && tries > 0
    requires !LostInPassing(Made(w, s.w)[0].fault) || q.Post?
    ensures Effected(w, q, s, tries)
  {
  }

  /** A request makes three attempts at most. */
  lemma RequestEffects(w: World, q: Request)
    ensures Effected(w, q, DoRequest(w, q), 3)
  {
    hide Retry, Effected;
    RetryEffects(w, q, 3);
  }
}
