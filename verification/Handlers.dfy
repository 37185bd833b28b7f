/** Requests inside one handler process: each takes at most an idempotency lock and then
    at most one entity lock from the shared lock table, in that order, and gives them back
    in reverse. No reachable state is stuck. */
module Handlers {
  import opened Locks
  import opened Wrappers

  datatype Level = Idem | Entity

  /** A request's place in the lock table at one level. */
  datatype Slot = Slot(task: nat, level: Level)

  datatype Pc =
    | Start | AwaitIdem | AfterIdem | AwaitEntity | Working
    | EntityUnlocked | EntityDone | IdemUnlocked | Done

  /** The lock names this request needs. */
  datatype Task = Task(idem: Option<string>, entity: Option<string>, pc: Pc)

  datatype State = State(locks: Table<Slot>, tasks: map<nat, Task>)

  predicate IdemName(k: string) { k != "" && k[0] == 'i' }
  predicate EntityName(k: string) { k != "" && k[0] in {'t', 's', 'p'} }

  predicate WellNamed(t: Task) {
    (t.idem.Some? ==> IdemName(t.idem.value)) && (t.entity.Some? ==> EntityName(t.entity.value))
  }

  /** The names the service builds fall in the two classes, and entities of different
      kinds never share a lock. */
  lemma ServiceNames(tenant: string, name: string, id: string, jd: string)
    ensures IdemName(IdempotencyKey(tenant, name))
    ensures EntityName(TransactionKey(id)) && EntityName(SubscriptionKey(id)) && EntityName(PeerQuoteKey(id))
    ensures TransactionKey(id) == TransactionKey(jd) ==> id == jd
    ensures SubscriptionKey(id) == SubscriptionKey(jd) ==> id == jd
    ensures PeerQuoteKey(id) == PeerQuoteKey(jd) ==> id == jd
  {
    assert TransactionKey(id)[4..] == id && TransactionKey(jd)[4..] == jd;
    assert SubscriptionKey(id)[4..] == id && SubscriptionKey(jd)[4..] == jd;
    assert PeerQuoteKey(id)[11..] == id && PeerQuoteKey(jd)[11..] == jd;
  }

  /** `Skip` is a request that turns back after its idempotency lock: a replay, a conflict,
      or a poller letting go before it sleeps. `Cancel` is one dropped while it waits. */
  datatype Op = Spawn(id: nat, task: Task) | Step(id: nat) | Skip(id: nat) | Cancel(id: nat)

  /** The lock a request is waiting for. */
  function Awaited(id: nat, pc: Pc): Slot { Slot(id, if pc == AwaitIdem then Idem else Entity) }

  predicate Enabled(s: State, op: Op) {
    match op
    case Spawn(id, t) => id !in s.tasks && t.pc == Start && WellNamed(t)
    case Skip(id) => id in s.tasks && s.tasks[id].pc == AfterIdem
    case Cancel(id) =>
      id in s.tasks && s.tasks[id].pc in {AwaitIdem, AwaitEntity} && CanDrop(s.locks, Awaited(id, s.tasks[id].pc))
    case Step(id) =>
      id in s.tasks
      && var t := s.tasks[id];
         match t.pc
         case Start => t.idem.Some? ==> Slot(id, Idem) !in s.locks.refs
         case AwaitIdem => CanAcquire(s.locks, Slot(id, Idem))
         case AfterIdem => t.entity.Some? ==> Slot(id, Entity) !in s.locks.refs
         case AwaitEntity => CanAcquire(s.locks, Slot(id, Entity))
         case Working => t.entity.Some? ==> Holds(s.locks, Slot(id, Entity))
         case EntityUnlocked => CanDrop(s.locks, Slot(id, Entity))
         case EntityDone => t.idem.Some? ==> Holds(s.locks, Slot(id, Idem))
         case IdemUnlocked => CanDrop(s.locks, Slot(id, Idem))
         case Done => false
  }

  function Apply(s: State, op: Op): State
    requires Enabled(s, op)
  {
    match op
    case Spawn(id, t) => s.(tasks := s.tasks[id := t])
    case Skip(id) => s.(tasks := s.tasks[id := s.tasks[id].(pc := EntityDone)])
    case Cancel(id) =>
      var pc := s.tasks[id].pc;
      Move(s, id, if pc == AwaitIdem then Done else EntityDone, Drop(s.locks, Awaited(id, pc)))
    case Step(id) =>
      var t := s.tasks[id];
      match t.pc
      case Start =>
        if t.idem.Some? then Move(s, id, AwaitIdem, Enter(s.locks, Slot(id, Idem), t.idem.value))
        else Move(s, id, AfterIdem, s.locks)
      case AwaitIdem => Move(s, id, AfterIdem, Acquire(s.locks, Slot(id, Idem)))
      case AfterIdem =>
        if t.entity.Some? then Move(s, id, AwaitEntity, Enter(s.locks, Slot(id, Entity), t.entity.value))
        else Move(s, id, Working, s.locks)
      case AwaitEntity => Move(s, id, Working, Acquire(s.locks, Slot(id, Entity)))
      case Working =>
        if t.entity.Some? then Move(s, id, EntityUnlocked, Unlock(s.locks, Slot(id, Entity)))
        else Move(s, id, EntityDone, s.locks)
      case EntityUnlocked => Move(s, id, EntityDone, Drop(s.locks, Slot(id, Entity)))
      case EntityDone =>
        if t.idem.Some? then Move(s, id, IdemUnlocked, Unlock(s.locks, Slot(id, Idem)))
        else Move(s, id, Done, s.locks)
      case IdemUnlocked => Move(s, id, Done, Drop(s.locks, Slot(id, Idem)))
  }

  function Move(s: State, id: nat, pc: Pc, locks: Table<Slot>): State
    requires id in s.tasks
  {
    State(locks, s.tasks[id := s.tasks[id].(pc := pc)])
  }

  // ---- where each request's references stand -------------------------------------

  ghost predicate Has(l: Table<Slot>, slot: Slot, key: Option<string>, phase: Phase) {
    if key.Some? then slot in l.refs && l.refs[slot].key == key.value && l.refs[slot].phase == phase
    else slot !in l.refs
  }

  ghost predicate TaskOk(l: Table<Slot>, id: nat, t: Task) {
    var i, e := Slot(id, Idem), Slot(id, Entity);
    WellNamed(t) && match t.pc
    case Start => i !in l.refs && e !in l.refs
    case AwaitIdem => t.idem.Some? && Has(l, i, t.idem, Waiting) && e !in l.refs
    case AfterIdem => Has(l, i, t.idem, Held) && e !in l.refs
    case AwaitEntity => Has(l, i, t.idem, Held) && t.entity.Some? && Has(l, e, t.entity, Waiting)
    case Working => Has(l, i, t.idem, Held) && Has(l, e, t.entity, Held)
    case EntityUnlocked => Has(l, i, t.idem, Held) && t.entity.Some? && Has(l, e, t.entity, Dropping)
    case EntityDone => Has(l, i, t.idem, Held) && e !in l.refs
    case IdemUnlocked => t.idem.Some? && Has(l, i, t.idem, Dropping) && e !in l.refs
    case Done => i !in l.refs && e !in l.refs
  }

  ghost predicate Valid(s: State) {
    Inv(s.locks)
    && (forall slot <- s.locks.refs :: slot.task in s.tasks)
    && (forall id <- s.tasks :: TaskOk(s.locks, id, s.tasks[id]))
  }

  lemma LockOpFrame(l: Table<Slot>, op: Locks.Op<Slot>, other: Slot)
    requires Inv(l) && Locks.Enabled(l, op) && other != op.id
    ensures var m := Locks.Apply(l, op);
            (other in m.refs <==> other in l.refs) && (other in l.refs ==> m.refs[other] == l.refs[other])
  {
  }

  /** The lock-table operation a request's step performs, if any. */
  function LockOp(s: State, op: Op): Option<Locks.Op<Slot>>
    requires Enabled(s, op)
  {
    if op.Cancel? then Some(DoDrop(Awaited(op.id, s.tasks[op.id].pc)))
    else if !op.Step? then None
    else
      var t := s.tasks[op.id];
      match t.pc
      case Start => if t.idem.Some? then Some(DoEnter(Slot(op.id, Idem), t.idem.value)) else None
      case AwaitIdem => Some(DoAcquire(Slot(op.id, Idem)))
      case AfterIdem => if t.entity.Some? then Some(DoEnter(Slot(op.id, Entity), t.entity.value)) else None
      case AwaitEntity => Some(DoAcquire(Slot(op.id, Entity)))
      case Working => if t.entity.Some? then Some(DoUnlock(Slot(op.id, Entity))) else None
      case EntityUnlocked => Some(DoDrop(Slot(op.id, Entity)))
      case EntityDone => if t.idem.Some? then Some(DoUnlock(Slot(op.id, Idem))) else None
      case IdemUnlocked => Some(DoDrop(Slot(op.id, Idem)))
  }

  lemma ApplyLocks(s: State, op: Op)
    requires Enabled(s, op)
    ensures match LockOp(s, op)
            case None => Apply(s, op).locks == s.locks
            case Some(l) => Locks.Enabled(s.locks, l) && Apply(s, op).locks == Locks.Apply(s.locks, l)
                            && l.id.task == op.id
  {
  }

  lemma StepKeepsOthers(s: State, op: Op, id: nat)
    requires Valid(s) && Enabled(s, op) && id != op.id && id in s.tasks
    ensures id in Apply(s, op).tasks && TaskOk(Apply(s, op).locks, id, Apply(s, op).tasks[id])
  {
    ApplyLocks(s, op);
    if LockOp(s, op).Some? {
      LockOpFrame(s.locks, LockOp(s, op).value, Slot(id, Idem));
      LockOpFrame(s.locks, LockOp(s, op).value, Slot(id, Entity));
    }
    assert TaskOk(s.locks, id, s.tasks[id]);
  }

  lemma SpawnKeepsOwn(s: State, op: Op)
    requires Valid(s) && Enabled(s, op) && op.Spawn?
    ensures op.id in Apply(s, op).tasks && TaskOk(Apply(s, op).locks, op.id, Apply(s, op).tasks[op.id])
  {
    ApplyLocks(s, op);
    assert Slot(op.id, Idem) !in s.locks.refs && Slot(op.id, Entity) !in s.locks.refs;
  }

  lemma CancelKeepsOwn(s: State, op: Op)
    requires Valid(s) && Enabled(s, op) && op.Cancel?
    ensures op.id in Apply(s, op).tasks && TaskOk(Apply(s, op).locks, op.id, Apply(s, op).tasks[op.id])
  {
    ApplyLocks(s, op);
    assert TaskOk(s.locks, op.id, s.tasks[op.id]);
  }

  lemma StepKeepsOwn(s: State, op: Op)
    requires Valid(s) && Enabled(s, op)
    ensures op.id in Apply(s, op).tasks && TaskOk(Apply(s, op).locks, op.id, Apply(s, op).tasks[op.id])
  {
    if op.Spawn? {
      SpawnKeepsOwn(s, op);
    } else if op.Cancel? {
      CancelKeepsOwn(s, op);
    } else {
      ApplyLocks(s, op);
      assert TaskOk(s.locks, op.id, s.tasks[op.id]);
    }
  }

  lemma StepKeepsValid(s: State, op: Op)
    requires Valid(s) && Enabled(s, op)
    ensures Valid(Apply(s, op))
  {
    var t := Apply(s, op);
    ApplyLocks(s, op);
    if LockOp(s, op).Some? { ApplyKeepsInv(s.locks, LockOp(s, op).value); }
    StepKeepsOwn(s, op);
    forall id | id in t.tasks ensures TaskOk(t.locks, id, t.tasks[id]) {
      if id != op.id { StepKeepsOthers(s, op, id); }
    }
  }

  ghost predicate IsRun(ops: seq<Op>, ss: seq<State>) {
    |ss| == |ops| + 1 && ss[0] == State(Empty(), map[])
    && forall i | 0 <= i < |ops| :: Enabled(ss[i], ops[i]) && ss[i + 1] == Apply(ss[i], ops[i])
  }

  lemma {:induction false} RunKeepsValid(ops: seq<Op>, ss: seq<State>, n: nat)
    requires IsRun(ops, ss) && n <= |ops|
    ensures Valid(ss[n])
  {
    if n > 0 {
      RunKeepsValid(ops, ss, n - 1);
      StepKeepsValid(ss[n - 1], ops[n - 1]);
    }
  }

  /** A request at work holds the locks it named, under their names; one that is done has
      left nothing behind. */
  lemma WorkingHoldsLocks(ops: seq<Op>, ss: seq<State>, n: nat, id: nat)
    requires IsRun(ops, ss) && n <= |ops| && id in ss[n].tasks
    ensures var t, l := ss[n].tasks[id], ss[n].locks;
            (t.pc in {AfterIdem, AwaitEntity, Working, EntityUnlocked, EntityDone} && t.idem.Some? ==>
               Holds(l, Slot(id, Idem)) && l.refs[Slot(id, Idem)].key == t.idem.value)
            && (t.pc == Working && t.entity.Some? ==>
                  Holds(l, Slot(id, Entity)) && l.refs[Slot(id, Entity)].key == t.entity.value)
            && (t.pc == Done ==> Slot(id, Idem) !in l.refs && Slot(id, Entity) !in l.refs)
  {
    RunKeepsValid(ops, ss, n);
    assert TaskOk(ss[n].locks, id, ss[n].tasks[id]);
  }

  /** So two requests at work on one entity are the same request, and so are two between
      taking and giving back one idempotency lock. */
  lemma WorkersExclude(ops: seq<Op>, ss: seq<State>, n: nat, id: nat, jd: nat)
    requires IsRun(ops, ss) && n <= |ops| && id in ss[n].tasks && jd in ss[n].tasks
    ensures var t, u := ss[n].tasks[id], ss[n].tasks[jd];
            t.pc == u.pc == Working && t.entity.Some? && t.entity == u.entity ==> id == jd
    ensures var t, u, inside := ss[n].tasks[id], ss[n].tasks[jd],
                                {AfterIdem, AwaitEntity, Working, EntityUnlocked, EntityDone};
            t.pc in inside && u.pc in inside && t.idem.Some? && t.idem == u.idem ==> id == jd
  {
    var l := ss[n].locks;
    RunKeepsValid(ops, ss, n);
    WorkingHoldsLocks(ops, ss, n, id);
    WorkingHoldsLocks(ops, ss, n, jd);
    forall level: Level | Holds(l, Slot(id, level)) && Holds(l, Slot(jd, level))
      && l.refs[Slot(id, level)].key == l.refs[Slot(jd, level)].key
      ensures id == jd
    {
      MutualExclusion(l, Slot(id, level), Slot(jd, level));
    }
  }

  // ---- no deadlock ---------------------------------------------------------------

  /** Only waiting for a locked mutex can hold a request up. */
  lemma NotWaitingCanStep(s: State, id: nat)
    requires Valid(s) && id in s.tasks && s.tasks[id].pc !in {AwaitIdem, AwaitEntity, Done}
    ensures Enabled(s, Step(id))
  {
    assert TaskOk(s.locks, id, s.tasks[id]);
  }

  /** A waiting request can always be given up. */
  lemma WaitingCanCancel(s: State, id: nat)
    requires Valid(s) && id in s.tasks && s.tasks[id].pc in {AwaitIdem, AwaitEntity}
    ensures Enabled(s, Cancel(id))
  {
    assert TaskOk(s.locks, id, s.tasks[id]);
  }

  lemma LevelFromName(s: State, slot: Slot)
    requires Valid(s) && slot in s.locks.refs
    ensures slot.task in s.tasks && s.locks.refs[slot].key != ""
    ensures slot.level == Idem <==> s.locks.refs[slot].key[0] == 'i'
  {
    assert TaskOk(s.locks, slot.task, s.tasks[slot.task]);
    match slot.level
    case Idem => assert slot == Slot(slot.task, Idem);
    case Entity => assert slot == Slot(slot.task, Entity);
  }

  /** The mutex a waiting request is blocked on is held by a request at the same level. */
  lemma BlockedByHolder(s: State, id: nat, level: Level) returns (holder: nat)
    requires Valid(s) && id in s.tasks
    requires s.tasks[id].pc == (if level == Idem then AwaitIdem else AwaitEntity)
    requires !Enabled(s, Step(id))
    ensures holder in s.tasks && Holds(s.locks, Slot(holder, level))
  {
    assert TaskOk(s.locks, id, s.tasks[id]);
    var r := s.locks.refs[Slot(id, level)];
    var h :| Holds(s.locks, h) && s.locks.refs[h].mutex == r.mutex;
    holder := h.task;
    assert s.locks.entries[r.key] == s.locks.entries[s.locks.refs[h].key];
    LevelFromName(s, Slot(id, level));
    LevelFromName(s, h);
    assert h == Slot(holder, level);
  }

  /** As long as any request is unfinished, some request can move. */
  lemma NoDeadlock(ops: seq<Op>, ss: seq<State>, n: nat, id: nat) returns (mover: nat)
    requires IsRun(ops, ss) && n <= |ops|
    requires id in ss[n].tasks && ss[n].tasks[id].pc != Done
    ensures mover in ss[n].tasks && Enabled(ss[n], Step(mover))
  {
    RunKeepsValid(ops, ss, n);
    var s := ss[n];
    mover := id;
    if s.tasks[mover].pc == AwaitIdem && !Enabled(s, Step(mover)) {
      mover := BlockedByHolder(s, mover, Idem);
      assert TaskOk(s.locks, mover, s.tasks[mover]);
    }
    if s.tasks[mover].pc == AwaitEntity && !Enabled(s, Step(mover)) {
      mover := BlockedByHolder(s, mover, Entity);
      assert TaskOk(s.locks, mover, s.tasks[mover]);
    }
    if !Enabled(s, Step(mover)) { NotWaitingCanStep(s, mover); }
  }

  /** Steps a request still has to take. */
  function Remaining(pc: Pc): nat {
    match pc
    case Start => 8 case AwaitIdem => 7 case AfterIdem => 6 case AwaitEntity => 5 case Working => 4
    case EntityUnlocked => 3 case EntityDone => 2 case IdemUnlocked => 1 case Done => 0
  }

  /** Every step brings its request nearer the end and moves no other: a request needs at
      most eight, so with progress every request is answered. */
  lemma StepsAreBounded(s: State, op: Op)
    requires Enabled(s, op) && !op.Spawn?
    ensures var t := Apply(s, op);
            Remaining(t.tasks[op.id].pc) < Remaining(s.tasks[op.id].pc) <= 8
            && t.tasks - {op.id} == s.tasks - {op.id}
  {
  }
}
