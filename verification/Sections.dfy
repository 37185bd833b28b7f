/** Requests that each enter one keyed critical section: take the key's lock, work, and
    give it back. What the lock table knows of a request always matches where it is. */
module Sections {
  import opened Locks

  datatype Place = Outside | Queueing | Inside | Leaving

  datatype Visit = Visit(key: string, place: Place)

  type Visits = map<nat, Visit>

  predicate CanMove(l: Table<nat>, r: nat, v: Visit) {
    match v.place
    case Outside => r !in l.refs
    case Queueing => CanAcquire(l, r)
    case Inside => Holds(l, r)
    case Leaving => CanDrop(l, r)
  }

  function LockOp(r: nat, v: Visit): Op<nat> {
    match v.place
    case Outside => DoEnter(r, v.key)
    case Queueing => DoAcquire(r)
    case Inside => DoUnlock(r)
    case Leaving => DoDrop(r)
  }

  function Next(p: Place): Place {
    match p case Outside => Queueing case Queueing => Inside case Inside => Leaving case Leaving => Outside
  }

  function Move(l: Table<nat>, r: nat, v: Visit): Table<nat>
    requires CanMove(l, r, v)
  {
    Apply(l, LockOp(r, v))
  }

  ghost predicate Has(l: Table<nat>, r: nat, key: string, phase: Phase) {
    r in l.refs && l.refs[r].key == key && l.refs[r].phase == phase
  }

  ghost predicate At(l: Table<nat>, r: nat, v: Visit) {
    match v.place
    case Outside => r !in l.refs
    case Queueing => Has(l, r, v.key, Waiting)
    case Inside => Has(l, r, v.key, Held)
    case Leaving => Has(l, r, v.key, Dropping)
  }

  ghost predicate Consistent(l: Table<nat>, vs: Visits) {
    Inv(l) && (forall r <- l.refs :: r in vs) && (forall r <- vs :: At(l, r, vs[r]))
  }

  lemma MoveIsLocal(l: Table<nat>, r: nat, v: Visit, u: nat)
    requires CanMove(l, r, v) && u != r
    ensures var m := Move(l, r, v); (u in m.refs <==> u in l.refs) && (u in l.refs ==> m.refs[u] == l.refs[u])
  {
  }

  lemma MoveArrives(l: Table<nat>, r: nat, v: Visit)
    requires At(l, r, v) && CanMove(l, r, v)
    ensures At(Move(l, r, v), r, v.(place := Next(v.place)))
  {
  }

  lemma OnlyMoves(l: Table<nat>, m: Table<nat>, vs: Visits, r: nat, v: Visit)
    requires Consistent(l, vs) && Inv(m) && At(m, r, v)
    requires forall u | u != r :: (u in m.refs <==> u in l.refs) && (u in l.refs ==> m.refs[u] == l.refs[u])
    ensures Consistent(m, vs[r := v])
  {
    forall u | u in vs && u != r ensures At(m, u, vs[u]) {
      assert At(l, u, vs[u]);
    }
  }

  lemma MoveKeeps(l: Table<nat>, vs: Visits, r: nat)
    requires Consistent(l, vs) && r in vs && CanMove(l, r, vs[r])
    ensures Consistent(Move(l, r, vs[r]), vs[r := vs[r].(place := Next(vs[r].place))])
  {
    var v := vs[r];
    var m := Move(l, r, v);
    ApplyKeepsInv(l, LockOp(r, v));
    assert At(l, r, v);
    MoveArrives(l, r, v);
    forall u | u != r ensures (u in m.refs <==> u in l.refs) && (u in l.refs ==> m.refs[u] == l.refs[u]) {
      MoveIsLocal(l, r, v, u);
    }
    OnlyMoves(l, m, vs, r, v.(place := Next(v.place)));
  }

  lemma ArriveKeeps(l: Table<nat>, vs: Visits, r: nat, key: string)
    requires Consistent(l, vs) && r !in vs
    ensures Consistent(l, vs[r := Visit(key, Outside)])
  {
  }

  /** Two requests inside the same key's section are one request. */
  lemma OneInside(l: Table<nat>, vs: Visits, r: nat, u: nat)
    requires Consistent(l, vs) && r in vs && u in vs
    requires vs[r].place == Inside && vs[u].place == Inside && vs[r].key == vs[u].key
    ensures r == u
  {
    assert At(l, r, vs[r]) && At(l, u, vs[u]);
    MutualExclusion(l, r, u);
  }

  lemma EnterEmpty(r: nat, key: string)
    ensures Enter(Empty(), r, key) == Table(map[key := 0], map[r := Ref(key, 0, Waiting)], {}, 1)
  {
    assert Retained<nat>(Empty()) == map[];
  }

  /** With one request in the process, the lock table goes through four states. */
  lemma AloneInside(r: nat, key: string)
    ensures var t0, t1 := Empty<nat>(), Enter(Empty(), r, key);
            CanMove(t0, r, Visit(key, Outside)) && Move(t0, r, Visit(key, Outside)) == t1
            && CanMove(t1, r, Visit(key, Queueing))
            && Move(t1, r, Visit(key, Queueing)) == Table(map[key := 0], map[r := Ref(key, 0, Held)], {0}, 1)
  {
    EnterEmpty(r, key);
  }
}
