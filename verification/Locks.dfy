/** The table of keyed in-process locks. Entering the table evicts every entry nobody
    references, finds or creates the key's mutex and takes a reference to it; the mutex is
    then awaited outside the table. `T` names the callers. */
module Locks {
  import opened Decimals

  type Mutex = nat

  /** A caller's reference: waiting for the mutex, holding it, or released but with the
      reference not yet dropped. */
  datatype Phase = Waiting | Held | Dropping

  datatype Ref = Ref(key: string, mutex: Mutex, phase: Phase)

  datatype Table<T> = Table(entries: map<string, Mutex>, refs: map<T, Ref>, locked: set<Mutex>, next: Mutex)

  function Empty<T>(): Table<T> { Table(map[], map[], {}, 0) }

  /** References to `m`: one per live caller, one for the table's own entry. */
  function StrongCount<T>(s: Table<T>, m: Mutex): nat {
    |set id | id in s.refs && s.refs[id].mutex == m| + |set k | k in s.entries && s.entries[k] == m|
  }

  function Retained<T>(s: Table<T>): map<string, Mutex> {
    map k | k in s.entries && StrongCount(s, s.entries[k]) > 1 :: s.entries[k]
  }

  function Enter<T>(s: Table<T>, id: T, key: string): Table<T>
    requires id !in s.refs
  {
    var kept := Retained(s);
    if key in kept
    then Table(kept, s.refs[id := Ref(key, kept[key], Waiting)], s.locked, s.next)
    else Table(kept[key := s.next], s.refs[id := Ref(key, s.next, Waiting)], s.locked, s.next + 1)
  }

  predicate CanAcquire<T>(s: Table<T>, id: T) {
    id in s.refs && s.refs[id].phase == Waiting && s.refs[id].mutex !in s.locked
  }

  function Acquire<T>(s: Table<T>, id: T): Table<T>
    requires CanAcquire(s, id)
  {
    var r := s.refs[id];
    s.(refs := s.refs[id := r.(phase := Held)], locked := s.locked + {r.mutex})
  }

  predicate Holds<T>(s: Table<T>, id: T) { id in s.refs && s.refs[id].phase == Held }

  /** Dropping a guard first unlocks the mutex and then drops the reference. */
  function Unlock<T>(s: Table<T>, id: T): Table<T>
    requires Holds(s, id)
  {
    var r := s.refs[id];
    s.(refs := s.refs[id := r.(phase := Dropping)], locked := s.locked - {r.mutex})
  }

  predicate CanDrop<T>(s: Table<T>, id: T) { id in s.refs && s.refs[id].phase != Held }

  /** Also how a caller that stops waiting leaves. */
  function Drop<T>(s: Table<T>, id: T): Table<T>
    requires CanDrop(s, id)
  {
    s.(refs := s.refs - {id})
  }

  // ---- eviction never splits a key -----------------------------------------------

  /** A reference is to the mutex now in the table for its key. */
  ghost predicate RefsCurrent<T(!new)>(s: Table<T>) {
    forall id <- s.refs :: s.refs[id].key in s.entries && s.entries[s.refs[id].key] == s.refs[id].mutex
  }

  /** Keys do not share a mutex, and new ones are fresh. */
  ghost predicate MutexesDistinct<T(!new)>(s: Table<T>) {
    (forall k, l | k in s.entries && l in s.entries && s.entries[k] == s.entries[l] :: k == l)
    && (forall k <- s.entries :: s.entries[k] < s.next)
  }

  ghost predicate LockedIsHeld<T(!new)>(s: Table<T>) {
    forall m <- s.locked :: exists id :: Holds(s, id) && s.refs[id].mutex == m
  }

  ghost predicate HeldIsLocked<T(!new)>(s: Table<T>) {
    forall id | Holds(s, id) :: s.refs[id].mutex in s.locked
  }

  ghost predicate OneHolder<T(!new)>(s: Table<T>) {
    forall id, jd | Holds(s, id) && Holds(s, jd) && s.refs[id].mutex == s.refs[jd].mutex :: id == jd
  }

  ghost predicate Inv<T(!new)>(s: Table<T>) {
    RefsCurrent(s) && MutexesDistinct(s) && LockedIsHeld(s) && HeldIsLocked(s) && OneHolder(s)
  }

  lemma NonEmptySet<A>(x: A, s: set<A>)
    requires x in s
    ensures |s| >= 1
  {
  }

  /** An entry survives eviction whenever some caller references its mutex. */
  lemma ReferencedIsRetained<T(!new)>(s: Table<T>, id: T)
    requires Inv(s) && id in s.refs
    ensures s.refs[id].key in Retained(s) && Retained(s)[s.refs[id].key] == s.refs[id].mutex
  {
    var m := s.refs[id].mutex;
    NonEmptySet(id, set i | i in s.refs && s.refs[i].mutex == m);
    NonEmptySet(s.refs[id].key, set k | k in s.entries && s.entries[k] == m);
  }

  /** And only then: what eviction keeps is referenced, so the table never outgrows its
      callers. */
  lemma RetainedIsReferenced<T(!new)>(s: Table<T>, k: string)
    requires Inv(s) && k in Retained(s)
    ensures exists id :: id in s.refs && s.refs[id].key == k
  {
    var m := s.entries[k];
    var own := set l | l in s.entries && s.entries[l] == m;
    assert own == {k};
    var users := set i | i in s.refs && s.refs[i].mutex == m;
    assert StrongCount(s, m) == |users| + 1;
    var id :| id in users;
    assert s.entries[s.refs[id].key] == m;
    assert id in s.refs && s.refs[id].key == k;
  }

  lemma EnterKeepsRefs<T(!new)>(s: Table<T>, id: T, key: string, i: T)
    requires Inv(s) && id !in s.refs && i in s.refs
    ensures var t := Enter(s, id, key);
            i in t.refs && t.refs[i] == s.refs[i]
            && s.refs[i].key in t.entries && t.entries[s.refs[i].key] == s.refs[i].mutex
  {
    ReferencedIsRetained(s, i);
  }

  lemma EnterKeepsEntries<T(!new)>(s: Table<T>, id: T, key: string)
    requires Inv(s) && id !in s.refs
    ensures var t := Enter(s, id, key);
            (forall k, l | k in t.entries && l in t.entries && t.entries[k] == t.entries[l] :: k == l)
            && (forall k <- t.entries :: t.entries[k] < t.next)
  {
  }

  lemma EnterKeepsInv<T(!new)>(s: Table<T>, id: T, key: string)
    requires Inv(s) && id !in s.refs
    ensures Inv(Enter(s, id, key))
  {
    var t := Enter(s, id, key);
    EnterKeepsEntries(s, id, key);
    forall i | i in t.refs
      ensures t.refs[i].key in t.entries && t.entries[t.refs[i].key] == t.refs[i].mutex
      ensures Holds(t, i) <==> Holds(s, i)
      ensures Holds(t, i) ==> t.refs[i] == s.refs[i]
    {
      if i in s.refs { EnterKeepsRefs(s, id, key, i); }
    }
    forall m | m in t.locked ensures exists i :: Holds(t, i) && t.refs[i].mutex == m {
      var i :| Holds(s, i) && s.refs[i].mutex == m;
      EnterKeepsRefs(s, id, key, i);
      assert Holds(t, i);
    }
  }

  /** Entering leaves no idle entry behind: each one has a live reference. */
  lemma EnterEvictsIdle<T(!new)>(s: Table<T>, id: T, key: string, k: string)
    requires Inv(s) && id !in s.refs && k in Enter(s, id, key).entries
    ensures exists i :: i in Enter(s, id, key).refs && Enter(s, id, key).refs[i].key == k
  {
    var t := Enter(s, id, key);
    if k == key {
      assert id in t.refs && t.refs[id].key == k;
    } else {
      RetainedIsReferenced(s, k);
      var i :| i in s.refs && s.refs[i].key == k;
      assert i in t.refs;
    }
  }

  lemma AcquireLocksHeld<T(!new)>(s: Table<T>, id: T)
    requires LockedIsHeld(s) && CanAcquire(s, id)
    ensures LockedIsHeld(Acquire(s, id))
  {
    var t := Acquire(s, id);
    forall m | m in t.locked ensures exists i :: Holds(t, i) && t.refs[i].mutex == m {
      if m == s.refs[id].mutex {
        assert Holds(t, id);
      } else {
        var i :| Holds(s, i) && s.refs[i].mutex == m;
        assert Holds(t, i);
      }
    }
  }

  lemma AcquireOneHolder<T(!new)>(s: Table<T>, id: T)
    requires HeldIsLocked(s) && OneHolder(s) && CanAcquire(s, id)
    ensures HeldIsLocked(Acquire(s, id)) && OneHolder(Acquire(s, id))
  {
    var t := Acquire(s, id);
    forall i | Holds(t, i) ensures i == id || (Holds(s, i) && t.refs[i] == s.refs[i]) {
    }
  }

  lemma AcquireKeepsRefs<T(!new)>(s: Table<T>, id: T)
    requires RefsCurrent(s) && MutexesDistinct(s) && CanAcquire(s, id)
    ensures RefsCurrent(Acquire(s, id)) && MutexesDistinct(Acquire(s, id))
  {
  }

  lemma AcquireKeepsInv<T(!new)>(s: Table<T>, id: T)
    requires Inv(s) && CanAcquire(s, id)
    ensures Inv(Acquire(s, id))
  {
    AcquireKeepsRefs(s, id);
    AcquireLocksHeld(s, id);
    AcquireOneHolder(s, id);
  }

  lemma UnlockKeepsInv<T(!new)>(s: Table<T>, id: T)
    requires Inv(s) && Holds(s, id)
    ensures Inv(Unlock(s, id))
  {
    var t := Unlock(s, id);
    forall m | m in t.locked ensures exists i :: Holds(t, i) && t.refs[i].mutex == m {
      var i :| Holds(s, i) && s.refs[i].mutex == m;
      assert Holds(t, i);
    }
    forall i | Holds(t, i) ensures i != id && Holds(s, i) && t.refs[i] == s.refs[i] {
    }
  }

  lemma DropKeepsInv<T(!new)>(s: Table<T>, id: T)
    requires Inv(s) && CanDrop(s, id)
    ensures Inv(Drop(s, id))
  {
    var t := Drop(s, id);
    forall m | m in t.locked ensures exists i :: Holds(t, i) && t.refs[i].mutex == m {
      var i :| Holds(s, i) && s.refs[i].mutex == m;
      assert Holds(t, i);
    }
    forall i | Holds(t, i) ensures Holds(s, i) && t.refs[i] == s.refs[i] {
    }
  }

  /** Two callers holding the same key are the same caller. */
  lemma MutualExclusion<T(!new)>(s: Table<T>, id: T, jd: T)
    requires Inv(s) && Holds(s, id) && Holds(s, jd) && s.refs[id].key == s.refs[jd].key
    ensures id == jd
  {
  }

  // ---- over runs -----------------------------------------------------------------

  datatype Op<T> = DoEnter(id: T, key: string) | DoAcquire(id: T) | DoUnlock(id: T) | DoDrop(id: T)

  predicate Enabled<T>(s: Table<T>, op: Op<T>) {
    match op
    case DoEnter(id, _) => id !in s.refs
    case DoAcquire(id) => CanAcquire(s, id)
    case DoUnlock(id) => Holds(s, id)
    case DoDrop(id) => CanDrop(s, id)
  }

  function Apply<T>(s: Table<T>, op: Op<T>): Table<T>
    requires Enabled(s, op)
  {
    match op
    case DoEnter(id, key) => Enter(s, id, key)
    case DoAcquire(id) => Acquire(s, id)
    case DoUnlock(id) => Unlock(s, id)
    case DoDrop(id) => Drop(s, id)
  }

  lemma ApplyKeepsInv<T(!new)>(s: Table<T>, op: Op<T>)
    requires Inv(s) && Enabled(s, op)
    ensures Inv(Apply(s, op))
  {
    match op
    case DoEnter(id, key) => EnterKeepsInv(s, id, key);
    case DoAcquire(id) => AcquireKeepsInv(s, id);
    case DoUnlock(id) => UnlockKeepsInv(s, id);
    case DoDrop(id) => DropKeepsInv(s, id);
  }

  ghost predicate IsRun<T(!new)>(ops: seq<Op<T>>, ss: seq<Table<T>>) {
    |ss| == |ops| + 1 && ss[0] == Empty()
    && forall i | 0 <= i < |ops| :: Enabled(ss[i], ops[i]) && ss[i + 1] == Apply(ss[i], ops[i])
  }

  lemma {:induction false} RunKeepsInv<T(!new)>(ops: seq<Op<T>>, ss: seq<Table<T>>, n: nat)
    requires IsRun(ops, ss) && n <= |ops|
    ensures Inv(ss[n])
  {
    if n > 0 {
      RunKeepsInv(ops, ss, n - 1);
      ApplyKeepsInv(ss[n - 1], ops[n - 1]);
    }
  }

  /** Whatever is evicted along the way: in every reachable state a waiting or holding
      caller references the mutex now in the table for its key, and no key has two holders. */
  lemma LocksExclude<T(!new)>(ops: seq<Op<T>>, ss: seq<Table<T>>, n: nat, id: T, jd: T)
    requires IsRun(ops, ss) && n <= |ops| && id in ss[n].refs && jd in ss[n].refs
    ensures ss[n].refs[id].key in ss[n].entries
            && ss[n].entries[ss[n].refs[id].key] == ss[n].refs[id].mutex
    ensures Holds(ss[n], id) && Holds(ss[n], jd) && ss[n].refs[id].key == ss[n].refs[jd].key ==> id == jd
  {
    RunKeepsInv(ops, ss, n);
  }

  // ---- the table in memory -------------------------------------------------------

  class OperationLocks<T(==)> {
    var s: Table<T>

    constructor ()
      ensures s == Empty<T>()
    {
      s := Empty<T>();
    }

    /** The part of taking a lock that runs under the table's own mutex. */
    method LockOperation(id: T, key: string) returns (m: Mutex)
      requires id !in s.refs
      modifies this
      ensures s == Enter(old(s), id, key)
      ensures m == s.refs[id].mutex
    {
      var kept, rest := s.entries, s.entries.Keys;
      while rest != {}
        invariant rest <= kept.Keys <= s.entries.Keys && s == old(s)
        invariant forall k <- kept :: kept[k] == s.entries[k]
        invariant forall k <- kept.Keys - rest :: StrongCount(s, s.entries[k]) > 1
        invariant forall k <- s.entries.Keys - kept.Keys :: StrongCount(s, s.entries[k]) <= 1
        decreases rest
      {
        var k :| k in rest;
        if StrongCount(s, s.entries[k]) <= 1 { kept := kept - {k}; }
        rest := rest - {k};
      }
      assert kept == Retained(s);
      var next := s.next;
      if key !in kept {
        kept, next := kept[key := next], next + 1;
      }
      m := kept[key];
      s := Table(kept, s.refs[id := Ref(key, m, Waiting)], s.locked, next);
    }
  }

  // ---- lock names ----------------------------------------------------------------

  function TransactionKey(id: string): string { "txn:" + id }
  function SubscriptionKey(id: string): string { "sub:" + id }
  function PeerQuoteKey(id: string): string { "peer_quote:" + id }

  /** `idem:{len}:{tenant}{key}`. */
  function IdempotencyKey(tenant: string, name: string): string {
    "idem:" + (Decimal(|tenant|) + (":" + (tenant + name)))
  }

  lemma {:induction false} SplitAtColon(p: string, q: string, s: string, t: string)
    requires forall i | 0 <= i < |p| :: p[i] != ':'
    requires forall i | 0 <= i < |q| :: q[i] != ':'
    requires p + (":" + s) == q + (":" + t)
    ensures p == q && s == t
  {
    var u, v := p + (":" + s), q + (":" + t);
    assert u[|p|] == ':' && v[|q|] == ':';
    assert |p| == |q|;
    assert u[..|p|] == p && v[..|p|] == q;
    assert u[|p| + 1..] == s && v[|p| + 1..] == t;
  }

  /** Two requests share an idempotency lock only for the same tenant and key: the length
      keeps the concatenation unambiguous. */
  lemma IdempotencyKeyInjective(tenant1: string, name1: string, tenant2: string, name2: string)
    requires IdempotencyKey(tenant1, name1) == IdempotencyKey(tenant2, name2)
    ensures tenant1 == tenant2 && name1 == name2
  {
    var u, v := IdempotencyKey(tenant1, name1), IdempotencyKey(tenant2, name2);
    var d1, d2 := Decimal(|tenant1|), Decimal(|tenant2|);
    assert u[5..] == d1 + (":" + (tenant1 + name1)) && v[5..] == d2 + (":" + (tenant2 + name2));
    SplitAtColon(d1, d2, tenant1 + name1, tenant2 + name2);
    DecimalInjective(|tenant1|, |tenant2|);
    assert (tenant1 + name1)[..|tenant1|] == tenant1 && (tenant2 + name2)[..|tenant2|] == tenant2;
    assert (tenant1 + name1)[|tenant1|..] == name1 && (tenant2 + name2)[|tenant2|..] == name2;
  }
}
