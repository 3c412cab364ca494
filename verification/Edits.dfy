/** Lists of objects under deletion and in-place replacement by id. */
module Edits {
  import opened Text
  import opened AdminServer
  import opened AdminClient

  /** Each object of `m` carries its own key as its id. */
  ghost predicate Keyed(m: ObjMap) {
    forall id :: id in m ==> m[id].id == Some(id)
  }

  /** `r` without the ids in `gone`, and with `m[id]` in the place of each id in `new_`. */
  function Edit(r: seq<Obj>, gone: set<string>, new_: set<string>, m: ObjMap): seq<Obj>
    requires new_ <= m.Keys
  {
    if r == [] then [] else
    var tail := Edit(r[1..], gone, new_, m);
    match r[0].id
    case None => [r[0]] + tail
    case Some(id) =>
      if id in gone then tail else if id in new_ then [m[id]] + tail else [r[0]] + tail
  }

  lemma {:induction false} EditNothing(r: seq<Obj>, m: ObjMap)
    ensures Edit(r, {}, {}, m) == r
  {
    if r != [] { EditNothing(r[1..], m); }
  }

  lemma {:induction false} EditAbsent(r: seq<Obj>, gone: set<string>, new_: set<string>, m: ObjMap, id: string)
    requires new_ <= m.Keys && IdCount(r, id) == 0
    ensures Edit(r, gone + {id}, new_, m) == Edit(r, gone, new_, m)
    ensures id in m ==> Edit(r, gone, new_ + {id}, m) == Edit(r, gone, new_, m)
  {
    if r != [] { EditAbsent(r[1..], gone, new_, m, id); }
  }

  lemma {:induction false} EditCount(r: seq<Obj>, gone: set<string>, new_: set<string>, m: ObjMap, id: string)
    requires new_ <= m.Keys && Keyed(m)
    ensures IdCount(Edit(r, gone, new_, m), id) == if id in gone then 0 else IdCount(r, id)
  {
    if r != [] { EditCount(r[1..], gone, new_, m, id); }
  }

  lemma {:induction false} RemoveAbsent(r: seq<Obj>, id: string)
    requires IdCount(r, id) == 0
    ensures RemoveFirst(r, id) == r
  {
    if r != [] { RemoveAbsent(r[1..], id); }
  }

  lemma {:induction false} RemoveCount(r: seq<Obj>, id: string, other: string)
    ensures IdCount(RemoveFirst(r, id), other)
         == if id == other && IdCount(r, id) > 0 then IdCount(r, other) - 1 else IdCount(r, other)
  {
    if r != [] && r[0].id != Some(id) { RemoveCount(r[1..], id, other); }
  }

  lemma {:induction false} ReplaceTwice(r: seq<Obj>, id: string, obj: Obj)
    requires obj.id == Some(id)
    ensures ReplaceFirst(ReplaceFirst(r, id, obj), id, obj) == ReplaceFirst(r, id, obj)
  {
    if r != [] && r[0].id != Some(id) { ReplaceTwice(r[1..], id, obj); }
  }

  lemma {:induction false} ReplaceCount(r: seq<Obj>, id: string, obj: Obj, other: string)
    requires obj.id == Some(id)
    ensures IdCount(ReplaceFirst(r, id, obj), other) == IdCount(r, other)
  {
    if r != [] && r[0].id != Some(id) { ReplaceCount(r[1..], id, obj, other); }
  }

  /** Deleting an id from a half-edited list is a further edit of the original. */
  lemma {:induction false} EditRemove(r: seq<Obj>, gone: set<string>, new_: set<string>, m: ObjMap, id: string)
    requires new_ <= m.Keys && Keyed(m) && IdCount(r, id) <= 1 && id !in new_
    ensures RemoveFirst(Edit(r, gone, new_, m), id) == Edit(r, gone + {id}, new_, m)
  {
    if r == [] {
    } else if r[0].id != Some(id) {
      EditRemove(r[1..], gone, new_, m, id);
    } else {
      EditAbsent(r[1..], gone, new_, m, id);
      if id in gone {
        EditCount(r[1..], gone, new_, m, id);
        RemoveAbsent(Edit(r[1..], gone, new_, m), id);
      }
    }
  }

  /** So is replacing one, whether or not it was replaced before. */
  lemma {:induction false} EditReplace(r: seq<Obj>, gone: set<string>, new_: set<string>, m: ObjMap, id: string)
    requires new_ <= m.Keys && Keyed(m) && IdCount(r, id) <= 1 && id in m && id !in gone
    ensures ReplaceFirst(Edit(r, gone, new_, m), id, m[id]) == Edit(r, gone, new_ + {id}, m)
  {
    if r == [] {
    } else if r[0].id != Some(id) {
      EditReplace(r[1..], gone, new_, m, id);
    } else {
      EditAbsent(r[1..], gone, new_, m, id);
    }
  }

  lemma {:induction false} CountConcat(a: seq<Obj>, b: seq<Obj>, id: string)
    ensures IdCount(a + b, id) == IdCount(a, id) + IdCount(b, id)
  {
    if a == [] {
      assert a + b == b;
    } else {
      assert (a + b)[1..] == a[1..] + b;
      CountConcat(a[1..], b, id);
    }
  }

  lemma {:induction false} CountPositive(r: seq<Obj>, i: nat, id: string)
    requires i < |r| && r[i].id == Some(id)
    ensures IdCount(r, id) > 0
  {
    if i > 0 { CountPositive(r[1..], i - 1, id); }
  }

  lemma {:induction false} CountWitness(r: seq<Obj>, id: string) returns (i: nat)
    requires IdCount(r, id) > 0
    ensures i < |r| && r[i].id == Some(id)
  {
    if r[0].id == Some(id) {
      i := 0;
    } else {
      var j := CountWitness(r[1..], id);
      i := j + 1;
    }
  }

  lemma {:induction false} CountUnique(r: seq<Obj>, i: nat, j: nat, id: string)
    requires i < j < |r| && r[i].id == Some(id) && r[j].id == Some(id)
    ensures IdCount(r, id) >= 2
  {
    if i == 0 {
      CountPositive(r[1..], j - 1, id);
    } else {
      CountUnique(r[1..], i - 1, j - 1, id);
    }
  }

  lemma {:induction false} EditMember(r: seq<Obj>, gone: set<string>, new_: set<string>, m: ObjMap, o: Obj)
    requires new_ <= m.Keys && o in Edit(r, gone, new_, m)
    ensures (o in r && (o.id.Some? ==> o.id.value !in gone && o.id.value !in new_))
         || (exists id :: id in new_ && o == m[id])
  {
    var tail := Edit(r[1..], gone, new_, m);
    if o in tail { EditMember(r[1..], gone, new_, m, o); }
  }

  /* ---------- what is not ours ---------- */

  /** The objects whose id is not one of ours, in order. */
  function Foreign(r: seq<Obj>): seq<Obj> {
    if r == [] then []
    else if Owned(r[0]) then Foreign(r[1..])
    else [r[0]] + Foreign(r[1..])
  }

  lemma {:induction false} ForeignConcat(a: seq<Obj>, b: seq<Obj>)
    ensures Foreign(a + b) == Foreign(a) + Foreign(b)
  {
    if a == [] {
      assert a + b == b;
    } else {
      assert (a + b)[1..] == a[1..] + b;
      ForeignConcat(a[1..], b);
    }
  }

  lemma {:induction false} ForeignRemove(r: seq<Obj>, id: string)
    requires OwnedId(id)
    ensures Foreign(RemoveFirst(r, id)) == Foreign(r)
  {
    if r != [] && r[0].id != Some(id) { ForeignRemove(r[1..], id); }
  }

  lemma {:induction false} ForeignReplace(r: seq<Obj>, id: string, obj: Obj)
    requires OwnedId(id) && Owned(obj)
    ensures Foreign(ReplaceFirst(r, id, obj)) == Foreign(r)
  {
    if r != [] && r[0].id != Some(id) { ForeignReplace(r[1..], id, obj); }
  }

  lemma {:induction false} ForeignDropTls(r: seq<Obj>)
    ensures Foreign(DropTls(r)) == Foreign(r)
  {
    if r != [] { ForeignDropTls(r[1..]); }
  }

  lemma {:induction false} DropTlsCount(r: seq<Obj>, id: string)
    ensures IdCount(DropTls(r), id) == if id == TLS_ID then 0 else IdCount(r, id)
  {
    if r != [] { DropTlsCount(r[1..], id); }
  }

  lemma {:induction false} DropTlsNone(r: seq<Obj>)
    requires IdCount(r, TLS_ID) == 0
    ensures DropTls(r) == r
  {
    if r != [] { DropTlsNone(r[1..]); }
  }

  lemma {:induction false} DropTlsMember(r: seq<Obj>, o: Obj)
    ensures o in DropTls(r) <==> o in r && o.id != Some(TLS_ID)
  {
    if r != [] { DropTlsMember(r[1..], o); }
  }
}
