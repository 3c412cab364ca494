/** The TLS policy part of a reconcile, and the checks that the config nodes exist,
    under any faults at all. */
module PolicyProgress {
  import opened Text
  import opened AdminServer
  import opened AdminClient
  import opened Edits
  import opened RouteProgress

  /** At most one policy of ours, and it comes first. */
  ghost predicate Headed(p: seq<Obj>) {
    forall i :: 0 < i < |p| ==> p[i].id != Some(TLS_ID)
  }

  /** `m` holds nothing but, perhaps, the one policy the builder makes. */
  ghost predicate PolicyKeyed(m: ObjMap) {
    Keyed(m) && forall id :: id in m ==> id == TLS_ID
  }

  /* ---------- PUT, GET, PATCH of whole nodes ---------- */

  lemma PutOp(w: World, path: Path, body: seq<Obj>)
    ensures var s := PutNew(w, path, body); var srv' := Serve(w.srv, Put(path, body)).0;
      Quiet(w, s.w) && (s.w.srv == w.srv || s.w.srv == srv') && (s.ok ==> s.w.srv == srv')
  {
    hide Retry;
    RequestLog(w, Put(path, body));
  }

  ghost predicate TurnedDown(reply: Reply) {
    400 <= reply.status && reply.status !in {404, 409} && reply.body == []
  }

  lemma LastMade(made: seq<Entry>)
    requires made != [] && made[|made| - 1].fault.Refuse? && made[|made| - 1].req == Get(PolicyNode)
    ensures ReadRefused(made)
  {
    assert made[|made| - 1] in made;
  }

  lemma GetOp(w: World, path: Path)
    ensures var s := DoRequest(w, Get(path));
      && w.log <= s.w.log && !Posted(Made(w, s.w)) && s.w.srv == w.srv
      && (s.reply.None? || s.reply.value == ServeGet(w.srv, path)
          || (TurnedDown(s.reply.value) && (path == PolicyNode ==> ReadRefused(Made(w, s.w)))))
  {
    hide Retry;
    RequestLog(w, Get(path));
    var s := DoRequest(w, Get(path));
    var made := Made(w, s.w);
    if s.reply.Some? {
      var last := made[|made| - 1];
      assert last in made;
      if last.fault.Refuse? && path == PolicyNode { LastMade(made); }
    }
  }

  lemma PatchPoliciesOp(w: World, body: seq<Obj>)
    ensures var s := DoRequest(w, PatchPolicies(body)); var (srv', reply) := Serve(w.srv, PatchPolicies(body));
      && Quiet(w, s.w)
      && (s.w.srv == w.srv || s.w.srv == srv')
      && (s.reply.None? || (s.reply.value == reply && s.w.srv == srv') || TurnedDown(s.reply.value))
  {
    hide Retry;
    RequestLog(w, PatchPolicies(body));
  }

  ghost predicate Merged(w: World, w': World, obj: Obj) {
    w'.srv == w.srv.(policies := Some([obj] + DropTls(PolicyList(w.srv))))
  }

  /** Prepending takes effect or not at all. A success is no lie, except that when the
      read of an existing list is refused, the PUT meets 409, which counts as success. */
  lemma PrependOp(w: World, obj: Obj)
    ensures var s := PrependPolicy(w, obj);
      && w.log <= s.w.log && !Posted(Made(w, s.w))
      && (s.w.srv == w.srv || Merged(w, s.w, obj))
      && (s.ok && w.srv.policies.None? ==> Merged(w, s.w, obj))
      && (s.ok && w.srv.policies.Some? && !Merged(w, s.w, obj) ==> ReadRefused(Made(w, s.w)))
  {
    hide Retry;
    var got := DoRequest(w, Get(PolicyNode));
    GetOp(w, PolicyNode);
    var s := PrependPolicy(w, obj);
    if got.reply.None? {
    } else if got.reply.value.status == 200 {
      assert got.reply.value == Serve(w.srv, Get(PolicyNode)).1;
      assert got.reply.value.body == PolicyList(w.srv);
      var merged := [obj] + DropTls(PolicyList(w.srv));
      PatchPoliciesOp(got.w, merged);
      var patched := DoRequest(got.w, PatchPolicies(merged));
      LogTrans(w, got.w, patched.w);
      PutOp(patched.w, PolicyNode, merged);
      LogTrans(w, patched.w, PutNew(patched.w, PolicyNode, merged).w);
    } else {
      var merged := [obj] + DropTls([]);
      PutOp(got.w, PolicyNode, merged);
      LogTrans(w, got.w, PutNew(got.w, PolicyNode, merged).w);
      assert w.srv.policies.None? ==> DropTls(PolicyList(w.srv)) == DropTls([]);
    }
  }

  /** Only the last attempt of a request can have been refused. */
  lemma {:induction false} ReadNotRefused(w: World, q: Request, tries: nat)
    requires q == Get(PolicyNode)
    requires var s := Retry(w, q, tries); s.reply.Some? && s.reply.value.status == 200
    requires w.log <= Retry(w, q, tries).w.log
    ensures !ReadRefused(Made(w, Retry(w, q, tries).w))
    decreases tries
  {
    hide Serve, ReadRefused;
    var (w', o) := Attempt(w, q);
    var s := Retry(w, q, tries);
    OneRead(w, q);
    if o.Lost? {
      RetryOutcome(w', q, tries - 1);
      ReadNotRefused(w', q, tries - 1);
      LogTrans(w, w', s.w);
    }
  }

  lemma OneRead(w: World, q: Request)
    requires q == Get(PolicyNode)
    ensures var (w', o) := Attempt(w, q);
      && w.log <= w'.log
      && (ReadRefused(Made(w, w')) ==> o.Got? && o.reply.status != 200)
      && Idempotent(w'.srv, q)
  {
    AttemptOnce(w, q);
  }

  lemma PatchExisting(w: World, body: seq<Obj>)
    requires w.srv.policies.Some?
    ensures var s := DoRequest(w, PatchPolicies(body));
      Quiet(w, s.w) && (s.reply.None? || s.reply.value.status != 404)
  {
    hide Retry;
    PatchPoliciesOp(w, body);
  }

  lemma PrependRead(w: World, obj: Obj)
    requires w.srv.policies.Some?
    requires var got := DoRequest(w, Get(PolicyNode)); got.reply.Some? && got.reply.value.status == 200
    ensures Quiet(w, PrependPolicy(w, obj).w)
  {
    hide Retry;
    var got := DoRequest(w, Get(PolicyNode));
    GetOp(w, PolicyNode);
    ReadNotRefused(w, Get(PolicyNode), MAX_TRIES);
    var merged := [obj] + DropTls(got.reply.value.body);
    PatchExisting(got.w, merged);
    LogTrans(w, got.w, DoRequest(got.w, PatchPolicies(merged)).w);
  }

  /** If the read of an existing list was refused, nothing is changed. */
  lemma PrependRefused(w: World, obj: Obj)
    requires w.srv.policies.Some?
    requires w.log <= PrependPolicy(w, obj).w.log && ReadRefused(Made(w, PrependPolicy(w, obj).w))
    requires PrependPolicy(w, obj).ok
    ensures PrependPolicy(w, obj).w.srv == w.srv
  {
    hide Retry;
    var got := DoRequest(w, Get(PolicyNode));
    GetOp(w, PolicyNode);
    if got.reply.value.status == 200 {
      PrependRead(w, obj);
    } else {
      PutOp(got.w, PolicyNode, [obj] + DropTls([]));
    }
  }

  /* ---------- making sure the nodes exist ---------- */

  lemma EnsureOp(w: World, path: Path)
    ensures var s := EnsureNode(w, path);
      && w.log <= s.w.log && !Posted(Made(w, s.w))
      && (s.w.srv == w.srv || s.w.srv == Serve(w.srv, Put(path, [])).0)
      && (s.ok && !w.srv.lenient ==> s.w.srv == Serve(w.srv, Put(path, [])).0)
  {
    hide Retry;
    GetOp(w, path);
    var got := DoRequest(w, Get(path));
    if got.reply.Some? && got.reply.value.status != 200 {
      if path == ServerNode {
        RequestLog(got.w, GetPorts);
        var ports := DoRequest(got.w, GetPorts);
        LogTrans(w, got.w, ports.w);
        PutOp(ports.w, path, []);
        LogTrans(w, ports.w, PutNew(ports.w, path, []).w);
      } else {
        PutOp(got.w, path, []);
        LogTrans(w, got.w, PutNew(got.w, path, []).w);
      }
    }
  }

  /** Only missing nodes are created, and they are created empty. */
  lemma EnsureServerOp(w: World)
    requires w.srv.routes.Some? ==> w.srv.up
    ensures var s := EnsureServer(w);
      && w.log <= s.w.log && !Posted(Made(w, s.w))
      && s.w.srv.lenient == w.srv.lenient
      && (w.srv.routes.Some? ==> s.w.srv.up)
      && (s.w.srv.routes.Some? ==> s.w.srv.up)
      && (s.w.srv.routes == w.srv.routes || (w.srv.routes.None? && s.w.srv.routes == Some([])))
      && (w.srv.up ==> s.w.srv.up)
      && (s.w.srv.policies == w.srv.policies || (w.srv.policies.None? && s.w.srv.policies == Some([])))
      && (s.ok && !w.srv.lenient ==> s.w.srv.up && s.w.srv.routes.Some? && s.w.srv.policies.Some?)
  {
    hide EnsureNode;
    EnsureOp(w, ServerNode);
    var s1 := EnsureNode(w, ServerNode);
    if s1.ok {
      EnsureOp(s1.w, RouteNode);
      var s2 := EnsureNode(s1.w, RouteNode);
      LogTrans(w, s1.w, s2.w);
      if s2.ok {
        EnsureOp(s2.w, PolicyNode);
        LogTrans(w, s2.w, EnsureNode(s2.w, PolicyNode).w);
      }
    }
  }
}
