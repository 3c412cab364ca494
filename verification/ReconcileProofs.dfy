/** What a whole reconcile does to the server: the list it aims at, how far it gets
    under any faults, and when running it again repairs a failure. */
module ReconcileProofs {
  import opened Text
  import opened AdminServer
  import opened AdminClient
  import opened Edits
  import opened RouteProgress
  import opened PolicyProgress

  ghost predicate RouteKeyed(m: ObjMap) {
    Keyed(m) && forall id :: id in m ==> ROUTE_PREFIX <= id
  }

  ghost predicate WellFormed(mem: Memory) {
    RouteKeyed(mem.routes) && PolicyKeyed(mem.policies)
  }

  /** Our objects in `r` are exactly those of `m`, each once. */
  ghost predicate Mirrors(r: seq<Obj>, m: ObjMap) {
    && (forall id :: OwnedId(id) ==> IdCount(r, id) == if id in m then 1 else 0)
    && (forall o :: o in r && Owned(o) ==> o.id.value in m && m[o.id.value] == o)
  }

  ghost predicate InSync(srv: Server, mem: Memory) {
    && srv.up && srv.routes.Some?
    && Mirrors(srv.routes.value, mem.routes)
    && Mirrors(PolicyList(srv), mem.policies)
    && Headed(PolicyList(srv))
  }

  /* ---------- the lists a reconcile aims at ---------- */

  function EditedRoutes(r: seq<Obj>, prev: ObjMap, desired: ObjMap): seq<Obj> {
    Edit(r, Removed(prev, desired).Keys, Updated(prev, desired).Keys, desired)
  }

  /** Removed ids taken out, changed ones replaced in place, new ones at the end in ascending order. */
  ghost function FinalRoutes(r: seq<Obj>, prev: ObjMap, desired: ObjMap): seq<Obj> {
    EditedRoutes(r, prev, desired) + AscendingObjs(Added(prev, desired))
  }

  function FinalPolicies(p: seq<Obj>, prev: ObjMap, desired: ObjMap): seq<Obj> {
    if TLS_ID !in desired then
      if TLS_ID in prev then RemoveFirst(p, TLS_ID) else p
    else if TLS_ID !in prev then [desired[TLS_ID]] + DropTls(p)
    else if prev[TLS_ID] != desired[TLS_ID] then ReplaceFirst(p, TLS_ID, desired[TLS_ID])
    else p
  }

  lemma TlsIsNoRoute(id: string)
    requires ROUTE_PREFIX <= id
    ensures id != TLS_ID && OwnedId(id) && OwnedId(TLS_ID)
  {
    assert id[9] == ROUTE_PREFIX[9] != TLS_ID[9];
  }

  /* ---------- the route part ---------- */

  lemma AscendingObjsIn(m: ObjMap, o: Obj)
    ensures o in AscendingObjs(m) <==> o in m.Values
  {
    AscendingLists(m.Keys);
    var ks := Ascending(m.Keys);
    if o in m.Values {
      var id :| id in m && m[id] == o;
      var i :| 0 <= i < |ks| && ks[i] == id;
      assert AscendingObjs(m)[i] == o;
    }
  }

  lemma {:induction false} ObjsCount(ids: seq<string>, m: ObjMap, id: string)
    requires Keyed(m) && NoDup(ids) && forall x :: x in ids ==> x in m
    ensures IdCount(Objs(ids, m), id) == if id in ids then 1 else 0
  {
    if ids != [] {
      assert Objs(ids, m)[1..] == Objs(ids[1..], m);
      ObjsCount(ids[1..], m, id);
      assert id in ids <==> id == ids[0] || id in ids[1..];
      assert ids[0] !in ids[1..];
    }
  }

  lemma AscendingObjsCount(m: ObjMap, id: string)
    requires Keyed(m)
    ensures IdCount(AscendingObjs(m), id) == if id in m then 1 else 0
  {
    AscendingLists(m.Keys);
    ObjsCount(Ascending(m.Keys), m, id);
  }

  /** The aimed-at routes are the desired ones. */
  lemma FinalMirrors(r: seq<Obj>, prev: ObjMap, desired: ObjMap)
    requires Mirrors(r, prev) && Keyed(desired)
    ensures Mirrors(FinalRoutes(r, prev, desired), desired)
  {
    var gone, new_ := Removed(prev, desired).Keys, Updated(prev, desired).Keys;
    var adds := AscendingObjs(Added(prev, desired));
    var final := FinalRoutes(r, prev, desired);
    forall id | OwnedId(id) ensures IdCount(final, id) == if id in desired then 1 else 0 {
      EditCount(r, gone, new_, desired, id);
      AscendingObjsCount(Added(prev, desired), id);
      CountConcat(Edit(r, gone, new_, desired), adds, id);
    }
    forall o | o in final && Owned(o) ensures o.id.value in desired && desired[o.id.value] == o {
      if o in adds {
        AscendingObjsIn(Added(prev, desired), o);
      } else {
        EditMember(r, gone, new_, desired, o);
      }
    }
  }

  /** The state of the route list part-way: some deletions, then some
      replacements, then some additions. */
  datatype Progress = Progress(gone: set<string>, new_: set<string>, posted: nat)

  ghost predicate ProgressFits(p: Progress, prev: ObjMap, desired: ObjMap) {
    && p.gone <= Removed(prev, desired).Keys
    && p.new_ <= Updated(prev, desired).Keys
    && p.posted <= |Added(prev, desired)|
    && (p.posted > 0 ==> p.gone == Removed(prev, desired).Keys && p.new_ == Updated(prev, desired).Keys)
  }

  ghost function PartialRoutes(r: seq<Obj>, prev: ObjMap, desired: ObjMap, p: Progress): seq<Obj>
    requires ProgressFits(p, prev, desired)
  {
    Edit(r, p.gone, p.new_, desired) + AscendingObjs(Added(prev, desired))[..p.posted]
  }

  ghost function Complete(prev: ObjMap, desired: ObjMap): Progress {
    Progress(Removed(prev, desired).Keys, Updated(prev, desired).Keys, |Added(prev, desired)|)
  }

  lemma CompleteIsFinal(r: seq<Obj>, prev: ObjMap, desired: ObjMap)
    ensures PartialRoutes(r, prev, desired, Complete(prev, desired)) == FinalRoutes(r, prev, desired)
  {
    var adds := AscendingObjs(Added(prev, desired));
    assert adds[..|adds|] == adds;
  }

  lemma ElemsOfListing(ids: seq<string>, s: set<string>)
    requires Lists(ids, s)
    ensures Elems(ids) == s
  {
  }

  /** What the edits need of a list: no id to be removed occurs twice, each id to be changed occurs once. */
  ghost predicate Patchable(r: seq<Obj>, prev: ObjMap, desired: ObjMap) {
    && (forall id :: id in Removed(prev, desired) ==> IdCount(r, id) <= 1)
    && (forall id :: id in Updated(prev, desired) ==> IdCount(r, id) == 1)
  }

  lemma MirrorsPatchable(r: seq<Obj>, prev: ObjMap, desired: ObjMap)
    requires Mirrors(r, prev) && RouteKeyed(prev)
    ensures Patchable(r, prev, desired)
  {
    forall id | id in prev ensures IdCount(r, id) == 1 {
      assert OwnedId(id);
    }
  }

  lemma EditsFit(r: seq<Obj>, policies: seq<Obj>, prev: ObjMap, desired: ObjMap, dels: seq<string>)
    requires RouteKeyed(prev) && Lists(dels, Removed(prev, desired).Keys)
    requires Patchable(r, prev, desired) && forall id :: ROUTE_PREFIX <= id ==> IdCount(policies, id) == 0
    ensures var ups := Ascending(Updated(prev, desired).Keys);
      && Lists(ups, Updated(prev, desired).Keys)
      && Elems(dels) == Removed(prev, desired).Keys && Elems(ups) == Updated(prev, desired).Keys
      && Removed(prev, desired).Keys !! Updated(prev, desired).Keys && Updated(prev, desired).Keys <= desired.Keys
      && Editable(r, policies, dels)
      && (forall id :: id in ups ==> id in Updated(prev, desired) && id in desired)
      && (forall id :: id in ups ==> Updated(prev, desired)[id] == desired[id] && IdCount(r, id) == 1)
  {
    AscendingLists(Updated(prev, desired).Keys);
    ElemsOfListing(dels, Removed(prev, desired).Keys);
    ElemsOfListing(Ascending(Updated(prev, desired).Keys), Updated(prev, desired).Keys);
  }

  lemma RouteEditsProgress(w: World, base: Server, r: seq<Obj>, prev: ObjMap, desired: ObjMap,
                           dels: seq<string>, gone0: set<string>, new0: set<string>)
      returns (gone: set<string>, new_: set<string>)
    requires RouteKeyed(prev) && RouteKeyed(desired) && Lists(dels, Removed(prev, desired).Keys)
    requires Patchable(r, prev, desired) && forall id :: ROUTE_PREFIX <= id ==> IdCount(PolicyList(base), id) == 0
    requires gone0 <= Removed(prev, desired).Keys && new0 <= Updated(prev, desired).Keys
    requires RoutesAre(w.srv, base, Edit(r, gone0, new0, desired))
    ensures var s := ExecAll(w, RouteEdits(prev, desired, dels));
      && Quiet(w, s.w)
      && gone <= Removed(prev, desired).Keys && new_ <= Updated(prev, desired).Keys
      && RoutesAre(s.w.srv, base, Edit(r, gone, new_, desired))
      && (s.ok ==> gone == Removed(prev, desired).Keys && new_ == Updated(prev, desired).Keys)
  {
    hide Exec, ExecAll, Edit, IdCount, Quiet, Removed, Updated, Patchable, Lists;
    AscendingLists(Updated(prev, desired).Keys);
    var updated := Updated(prev, desired);
    var ups := Ascending(updated.Keys);
    EditsFit(r, PolicyList(base), prev, desired, dels);
    ExecAllConcat(w, Deletes(dels), RouteUpdates(ups, updated));
    new_ := new0;
    gone := DeletesProgress(w, base, r, gone0, new0, desired, dels);
    var s1 := ExecAll(w, Deletes(dels));
    if s1.ok {
      new_ := UpdatesProgress(s1.w, base, r, gone, new0, desired, ups, updated);
      QuietTrans(w, s1.w, ExecAll(s1.w, RouteUpdates(ups, updated)).w);
    }
  }

  /** From any list half-way through its deletions and replacements, the route part
      leads to such a list again, and to the end if it succeeds. */
  lemma RoutePlanProgress(w: World, base: Server, r: seq<Obj>, prev: ObjMap, desired: ObjMap,
                          dels: seq<string>, from: Progress)
      returns (to: Progress)
    requires RouteKeyed(prev) && RouteKeyed(desired) && Lists(dels, Removed(prev, desired).Keys)
    requires Patchable(r, prev, desired) && forall id :: ROUTE_PREFIX <= id ==> IdCount(PolicyList(base), id) == 0
    requires ProgressFits(from, prev, desired) && from.posted == 0
    requires RoutesAre(w.srv, base, PartialRoutes(r, prev, desired, from))
    ensures var s := ExecAll(w, RoutePlan(prev, desired, dels));
      && w.log <= s.w.log && !ReadRefused(Made(w, s.w))
      && ProgressFits(to, prev, desired)
      && RoutesAre(s.w.srv, base, PartialRoutes(r, prev, desired, to))
      && (Posted(Made(w, s.w)) <==> to.posted > 0)
      && (s.ok ==> to == Complete(prev, desired))
  {
    hide Exec, ExecAll, Edit, IdCount, Patchable;
    var edits := RouteEdits(prev, desired, dels);
    var adds := AscendingObjs(Added(prev, desired));
    ExecAllConcat(w, edits, RouteAdds(adds));
    assert PartialRoutes(r, prev, desired, from) == Edit(r, from.gone, from.new_, desired);
    var gone, new_ := RouteEditsProgress(w, base, r, prev, desired, dels, from.gone, from.new_);
    var s1 := ExecAll(w, edits);
    to := Progress(gone, new_, 0);
    var edited := Edit(r, gone, new_, desired);
    assert edited + adds[..0] == edited;
    if s1.ok {
      var k := AddsProgress(s1.w, base, edited, adds);
      LogTrans(w, s1.w, ExecAll(s1.w, RouteAdds(adds)).w);
      to := Progress(gone, new_, k);
    }
  }

  /* ---------- the policy part ---------- */

  lemma AscendingOne(s: set<string>, x: string)
    requires s == {} || s == {x}
    ensures Ascending(s) == if s == {} then [] else [x]
  {
    AscendingLists(s);
    if s != {} {
      assert |Ascending(s)| == 1;
      assert Ascending(s)[0] in s;
    }
  }

  ghost function PolicyOp(prev: ObjMap, desired: ObjMap): seq<Op> {
    if TLS_ID !in desired then
      if TLS_ID in prev then [Del(TLS_ID)] else []
    else if TLS_ID !in prev then [AddPolicy(desired[TLS_ID])]
    else if prev[TLS_ID] != desired[TLS_ID] then [UpdatePolicy(TLS_ID, desired[TLS_ID])]
    else []
  }

  /** The policy part is at most one operation. */
  lemma PolicyPlanIsOneOp(prev: ObjMap, desired: ObjMap, dels: seq<string>)
    requires PolicyKeyed(prev) && PolicyKeyed(desired) && Lists(dels, Removed(prev, desired).Keys)
    ensures PolicyPlan(prev, desired, dels) == PolicyOp(prev, desired)
  {
    var removed, updated, added := Removed(prev, desired).Keys, Updated(prev, desired).Keys, Added(prev, desired).Keys;
    ListsMultiset(dels, removed);
    AscendingOne(updated, TLS_ID);
    AscendingOne(added, TLS_ID);
    if TLS_ID in removed {
      assert removed == {TLS_ID} && |dels| == 1;
      assert dels[0] in removed;
    } else {
      assert removed == {} && dels == [];
    }
    assert updated == if TLS_ID in updated then {TLS_ID} else {};
    assert added == if TLS_ID in added then {TLS_ID} else {};
  }

  lemma {:induction false} HeadedRemove(p: seq<Obj>)
    requires Headed(p) && IdCount(p, TLS_ID) <= 1
    ensures Headed(RemoveFirst(p, TLS_ID))
  {
    if p != [] && p[0].id != Some(TLS_ID) {
      RemoveAbsent(p, TLS_ID) by { NoHead(p); }
    }
  }

  lemma {:induction false} NoHead(p: seq<Obj>)
    requires Headed(p) && (p == [] || p[0].id != Some(TLS_ID))
    ensures IdCount(p, TLS_ID) == 0
  {
    if IdCount(p, TLS_ID) > 0 {
      var i := CountWitness(p, TLS_ID);
    }
  }

  lemma DropTlsHeaded(p: seq<Obj>, obj: Obj)
    ensures Headed([obj] + DropTls(p))
  {
    var q := [obj] + DropTls(p);
    forall i | 0 < i < |q| ensures q[i].id != Some(TLS_ID) {
      assert q[i] in DropTls(p);
      DropTlsMember(p, q[i]);
    }
  }

  lemma {:induction false} ReplacedIsIt(p: seq<Obj>, id: string, obj: Obj, o: Obj)
    requires IdCount(p, id) <= 1 && o in ReplaceFirst(p, id, obj) && o.id == Some(id)
    ensures o == obj
  {
    if p[0].id == Some(id) {
      if o in p[1..] {
        var i :| 0 <= i < |p[1..]| && p[1..][i] == o;
        CountPositive(p[1..], i, id);
        assert false;
      }
    } else {
      ReplacedIsIt(p[1..], id, obj, o);
    }
  }

  lemma {:induction false} HeadedReplace(p: seq<Obj>, obj: Obj)
    requires Headed(p)
    ensures Headed(ReplaceFirst(p, TLS_ID, obj))
  {
    if p != [] && p[0].id != Some(TLS_ID) {
      NoHead(p);
      ReplaceAbsent(p, TLS_ID, obj);
    }
  }

  lemma {:induction false} ReplaceAbsent(r: seq<Obj>, id: string, obj: Obj)
    requires IdCount(r, id) == 0
    ensures ReplaceFirst(r, id, obj) == r
  {
    if r != [] { ReplaceAbsent(r[1..], id, obj); }
  }

  lemma {:induction false} RemovedIsIn(p: seq<Obj>, id: string, o: Obj)
    requires o in RemoveFirst(p, id)
    ensures o in p
  {
    if p[0].id != Some(id) && o != p[0] { RemovedIsIn(p[1..], id, o); }
  }

  lemma {:induction false} ReplacedIsIn(p: seq<Obj>, id: string, obj: Obj, o: Obj)
    requires o in ReplaceFirst(p, id, obj)
    ensures o in p || o == obj
  {
    if p[0].id != Some(id) && o != p[0] { ReplacedIsIn(p[1..], id, obj, o); }
  }

  lemma FinalPoliciesCount(p: seq<Obj>, prev: ObjMap, desired: ObjMap, id: string)
    requires Mirrors(p, prev) && PolicyKeyed(prev) && PolicyKeyed(desired) && OwnedId(id)
    ensures IdCount(FinalPolicies(p, prev, desired), id) == if id in desired then 1 else 0
  {
    RemoveCount(p, TLS_ID, id);
    DropTlsCount(p, id);
    if TLS_ID in desired {
      ReplaceCount(p, TLS_ID, desired[TLS_ID], id);
    }
    assert OwnedId(TLS_ID);
  }

  /** The aimed-at policies are the desired ones, ours in front. */
  lemma FinalPoliciesMirror(p: seq<Obj>, prev: ObjMap, desired: ObjMap)
    requires Mirrors(p, prev) && Headed(p) && PolicyKeyed(prev) && PolicyKeyed(desired)
    ensures Mirrors(FinalPolicies(p, prev, desired), desired) && Headed(FinalPolicies(p, prev, desired))
  {
    var final := FinalPolicies(p, prev, desired);
    assert OwnedId(TLS_ID);
    forall id | OwnedId(id) ensures IdCount(final, id) == if id in desired then 1 else 0 {
      FinalPoliciesCount(p, prev, desired, id);
    }
    forall o | o in final && Owned(o) ensures o.id.value in desired && desired[o.id.value] == o {
      var i :| 0 <= i < |final| && final[i] == o;
      CountPositive(final, i, o.id.value);
      assert o.id.value in desired && o.id.value == TLS_ID;
      if TLS_ID !in prev {
        DropTlsMember(p, o);
      } else if prev[TLS_ID] != desired[TLS_ID] {
        ReplacedIsIt(p, TLS_ID, desired[TLS_ID], o);
      }
    }
    HeadedRemove(p);
    if TLS_ID in desired {
      HeadedReplace(p, desired[TLS_ID]);
      DropTlsHeaded(p, desired[TLS_ID]);
    }
  }

  ghost predicate PolicyStep(w: World, s: Step, final: seq<Obj>) {
    && w.log <= s.w.log && !Posted(Made(w, s.w))
    && s.w.srv == w.srv.(policies := s.w.srv.policies)
    && (s.w.srv.policies == w.srv.policies || s.w.srv.policies == Some(final))
  }

  lemma DeletePolicy(w: World, final: seq<Obj>)
    requires w.srv.routes.Some? && IdCount(w.srv.routes.value, TLS_ID) == 0
    requires IdCount(PolicyList(w.srv), TLS_ID) <= 1 && final == RemoveFirst(PolicyList(w.srv), TLS_ID)
    ensures var s := Exec(w, Del(TLS_ID));
      PolicyStep(w, s, final) && !ReadRefused(Made(w, s.w)) && (s.ok ==> PolicyList(s.w.srv) == final)
  {
    hide Retry;
    DeleteOp(w, TLS_ID);
    if IdCount(PolicyList(w.srv), TLS_ID) == 0 { RemoveAbsent(PolicyList(w.srv), TLS_ID); }
  }

  lemma PatchPolicy(w: World, obj: Obj, final: seq<Obj>)
    requires w.srv.routes.Some? && IdCount(w.srv.routes.value, TLS_ID) == 0
    requires IdCount(PolicyList(w.srv), TLS_ID) == 1 && obj.id == Some(TLS_ID)
    requires final == ReplaceFirst(PolicyList(w.srv), TLS_ID, obj)
    ensures var s := Exec(w, UpdatePolicy(TLS_ID, obj));
      PolicyStep(w, s, final) && !ReadRefused(Made(w, s.w)) && (s.ok ==> PolicyList(s.w.srv) == final)
  {
    hide Retry;
    ReplaceTwice(PolicyList(w.srv), TLS_ID, obj);
    ReplaceCount(PolicyList(w.srv), TLS_ID, obj, TLS_ID);
    RequestLog(w, PatchId(TLS_ID, obj));
  }

  lemma AddPolicyStep(w: World, obj: Obj, final: seq<Obj>)
    requires final == [obj] + DropTls(PolicyList(w.srv))
    ensures var s := Exec(w, AddPolicy(obj));
      && PolicyStep(w, s, final)
      && (s.ok && (w.srv.policies.None? || !ReadRefused(Made(w, s.w))) ==> PolicyList(s.w.srv) == final)
      && (s.ok && w.srv.policies.Some? && ReadRefused(Made(w, s.w)) ==> s.w.srv == w.srv)
  {
    PrependOp(w, obj);
    if w.srv.policies.Some? && PrependPolicy(w, obj).ok && ReadRefused(Made(w, PrependPolicy(w, obj).w)) {
      PrependRefused(w, obj);
    }
  }

  /** Aiming twice is aiming once. */
  lemma FinalTwice(p: seq<Obj>, prev: ObjMap, desired: ObjMap)
    requires Mirrors(p, prev) && PolicyKeyed(prev) && PolicyKeyed(desired)
    ensures FinalPolicies(FinalPolicies(p, prev, desired), prev, desired) == FinalPolicies(p, prev, desired)
  {
    assert OwnedId(TLS_ID);
    FinalPoliciesCount(p, prev, desired, TLS_ID);
    var final := FinalPolicies(p, prev, desired);
    if TLS_ID !in desired {
      if TLS_ID in prev { RemoveAbsent(final, TLS_ID); }
    } else if TLS_ID !in prev {
      DropTlsCount(p, TLS_ID);
      DropTlsNone(DropTls(p));
      assert final[1..] == DropTls(p);
    } else if prev[TLS_ID] != desired[TLS_ID] {
      ReplaceTwice(p, TLS_ID, desired[TLS_ID]);
    }
  }

  /** The policy part moves the list to the aimed-at one or leaves it; it reports
      success without moving it exactly when the read of an existing list was refused. */
  lemma PolicyPlanProgress(w: World, p: seq<Obj>, prev: ObjMap, desired: ObjMap, dels: seq<string>)
    requires w.srv.routes.Some? && IdCount(w.srv.routes.value, TLS_ID) == 0
    requires PolicyKeyed(prev) && PolicyKeyed(desired) && Lists(dels, Removed(prev, desired).Keys)
    requires Mirrors(p, prev)
    requires PolicyList(w.srv) == p || PolicyList(w.srv) == FinalPolicies(p, prev, desired)
    ensures var s := ExecAll(w, PolicyPlan(prev, desired, dels)); var final := FinalPolicies(p, prev, desired);
      && PolicyStep(w, s, final)
      && (s.ok && (w.srv.policies.None? || !ReadRefused(Made(w, s.w))) ==> PolicyList(s.w.srv) == final)
      && (s.ok && w.srv.policies.Some? && ReadRefused(Made(w, s.w)) ==>
            s.w.srv == w.srv && TLS_ID in desired && TLS_ID !in prev)
  {
    hide Exec;
    var final := FinalPolicies(p, prev, desired);
    PolicyPlanIsOneOp(prev, desired, dels);
    var ops := PolicyOp(prev, desired);
    FinalTwice(p, prev, desired);
    assert FinalPolicies(PolicyList(w.srv), prev, desired) == final;
    assert OwnedId(TLS_ID);
    FinalPoliciesCount(p, prev, desired, TLS_ID);
    if ops == [] {
      assert Made(w, w) == [];
    } else {
      ExecAllOne(w, ops[0]);
      match ops[0]
      case Del(_) => DeletePolicy(w, final);
      case UpdatePolicy(_, obj) => PatchPolicy(w, obj, final);
      case AddPolicy(obj) => AddPolicyStep(w, obj, final);
    }
  }
}
