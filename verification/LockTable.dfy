/** The reference-counted lock table of internal/credentials/service.go, as the atomic steps of any number
    of threads: register under the table mutex, acquire, release, deregister under the table mutex. */
module LockTable {

  import opened Wrappers

  type Reference = string
  type Thread = nat
  type LockId = nat

  /** referenceLock; "holder" is the thread inside its mutex. */
  datatype Lock = Lock(users: int, holder: Option<Thread>)

  /** Where a thread is in a call of lock and of the function it returns. */
  datatype Pc =
    | Idle
    | Registered(ref: Reference, lock: LockId)
    | Holding(ref: Reference, lock: LockId)
    | Unlocked(ref: Reference, lock: LockId)

  datatype State = State(table: map<Reference, LockId>, heap: map<LockId, Lock>, pcs: map<Thread, Pc>) {
    function PcOf(t: Thread): Pc { if t in pcs then pcs[t] else Idle }
  }

  datatype Step =
    | Register(t: Thread, ref: Reference, unused: LockId)
    | Acquire(t: Thread)
    | Release(t: Thread)
    | Deregister(t: Thread)

  predicate Enabled(s: State, step: Step) {
    match step
    case Register(t, _, unused) => s.PcOf(t).Idle? && unused !in s.heap
    case Acquire(t) => s.PcOf(t).Registered? && s.PcOf(t).lock in s.heap && s.heap[s.PcOf(t).lock].holder.None?
    case Release(t) => s.PcOf(t).Holding? && s.PcOf(t).lock in s.heap
    case Deregister(t) => s.PcOf(t).Unlocked? && s.PcOf(t).lock in s.heap
  }

  function After(s: State, step: Step): State
    requires Enabled(s, step)
  {
    match step
    case Register(t, ref, unused) =>
      var l := if ref in s.table then s.table[ref] else unused;
      var lock := if l in s.heap then s.heap[l] else Lock(0, None);
      State(s.table[ref := l], s.heap[l := lock.(users := lock.users + 1)], s.pcs[t := Registered(ref, l)])
    case Acquire(t) =>
      var l := s.PcOf(t).lock;
      s.(heap := s.heap[l := s.heap[l].(holder := Some(t))], pcs := s.pcs[t := Holding(s.PcOf(t).ref, l)])
    case Release(t) =>
      var l := s.PcOf(t).lock;
      s.(heap := s.heap[l := s.heap[l].(holder := None)], pcs := s.pcs[t := Unlocked(s.PcOf(t).ref, l)])
    case Deregister(t) =>
      var ref, l := s.PcOf(t).ref, s.PcOf(t).lock;
      var lock := s.heap[l].(users := s.heap[l].users - 1);
      State(if lock.users == 0 && ref in s.table && s.table[ref] == l then s.table - {ref} else s.table,
            s.heap[l := lock], s.pcs[t := Idle])
  }

  const START := State(map[], map[], map[])

  /** A run: a sequence of states from the start, each an enabled step after the one before. */
  ghost predicate IsRun(states: seq<State>) {
    && states != [] && states[0] == START
    && forall i | 0 <= i < |states| - 1 :: Follows(states[i], states[i + 1])
  }

  ghost predicate Follows(s: State, s': State) {
    exists step: Step :: Enabled(s, step) && s' == After(s, step)
  }

  // ---------------------------------------------------------------- the invariant

  /** The threads registered with a lock. */
  function Users(s: State, l: LockId): set<Thread> {
    set t | t in s.pcs && !s.pcs[t].Idle? && s.pcs[t].lock == l
  }

  /** A busy thread's reference is in the table with the thread's own lock, and the lock is held by it
      exactly when it is inside. */
  predicate ThreadOk(s: State, t: Thread)
    requires t in s.pcs
  {
    var pc := s.pcs[t];
    !pc.Idle? ==>
      && pc.ref in s.table && s.table[pc.ref] == pc.lock && pc.lock in s.heap
      && (pc.Holding? <==> s.heap[pc.lock].holder == Some(t))
  }

  /** A table entry has a live lock with a user, and no two references share a lock. */
  predicate EntryOk(s: State, ref: Reference)
    requires ref in s.table
  {
    && s.table[ref] in s.heap && Users(s, s.table[ref]) != {}
    && forall t | t in Users(s, s.table[ref]) :: s.pcs[t].ref == ref
  }

  predicate LockOk(s: State, l: LockId)
    requires l in s.heap
  {
    && s.heap[l].users == |Users(s, l)|
    && (s.heap[l].holder.Some? ==> s.heap[l].holder.value in Users(s, l) && s.pcs[s.heap[l].holder.value].Holding?)
  }

  predicate Inv(s: State) {
    && (forall t | t in s.pcs :: ThreadOk(s, t))
    && (forall ref | ref in s.table :: EntryOk(s, ref))
    && (forall l | l in s.heap :: LockOk(s, l))
  }

  lemma RegisterFirst(s: State, t: Thread, ref: Reference, unused: LockId)
    requires Inv(s) && Enabled(s, Register(t, ref, unused)) && ref !in s.table
    ensures Inv(After(s, Register(t, ref, unused)))
  {
    var s' := After(s, Register(t, ref, unused));
    forall u | u in s.pcs ensures s.pcs[u].Idle? || (s.pcs[u].lock != unused && s.pcs[u].ref != ref) {
      assert ThreadOk(s, u);
    }
    assert Users(s', unused) == {t};
    forall k | k != unused ensures Users(s', k) == Users(s, k) {}
    forall u | u in s'.pcs ensures ThreadOk(s', u) {
      if u != t { assert ThreadOk(s, u); }
    }
    forall r | r in s'.table ensures EntryOk(s', r) {
      if r != ref { EntryKept(s, s', r, t); }
    }
    forall k | k in s'.heap ensures LockOk(s', k) {
      if k != unused { assert LockOk(s, k); }
    }
  }

  /** An entry whose lock keeps its users is still right. */
  lemma EntryKept(s: State, s': State, ref: Reference, t: Thread)
    requires ref in s.table && EntryOk(s, ref)
    requires ref in s'.table && s'.table[ref] == s.table[ref] && s.table[ref] in s'.heap
    requires Users(s', s.table[ref]) == Users(s, s.table[ref])
    requires forall u | u != t && u in s.pcs :: u in s'.pcs && s'.pcs[u] == s.pcs[u]
    requires t !in Users(s, s.table[ref])
    ensures EntryOk(s', ref)
  {
    forall u | u in Users(s', s'.table[ref]) ensures s'.pcs[u].ref == ref {
      assert u in Users(s, s.table[ref]);
    }
  }

  lemma RegisterAgain(s: State, t: Thread, ref: Reference, unused: LockId)
    requires Inv(s) && Enabled(s, Register(t, ref, unused)) && ref in s.table
    ensures Inv(After(s, Register(t, ref, unused)))
  {
    var s' := After(s, Register(t, ref, unused));
    var l := s.table[ref];
    assert EntryOk(s, ref) && LockOk(s, l);
    assert t !in Users(s, l);
    assert Users(s', l) == Users(s, l) + {t};
    forall k | k != l ensures Users(s', k) == Users(s, k) {}
    forall u | u in s'.pcs ensures ThreadOk(s', u) {
      if u != t { assert ThreadOk(s, u); }
    }
    forall r | r in s'.table ensures EntryOk(s', r) {
      if r != ref {
        LocksAreSeparate(s, r, ref);
        assert t !in Users(s, s.table[r]);
        EntryKept(s, s', r, t);
      }
    }
    forall k | k in s'.heap ensures LockOk(s', k) { assert LockOk(s, k); }
  }

  lemma LocksAreSeparate(s: State, r: Reference, ref: Reference)
    requires Inv(s) && r in s.table && ref in s.table && r != ref
    ensures s.table[r] != s.table[ref]
  {
    assert EntryOk(s, r) && EntryOk(s, ref);
    var t :| t in Users(s, s.table[r]);
    assert s.pcs[t].ref == r;
  }

  lemma MoveKeepsInv(s: State, step: Step)
    requires Inv(s) && Enabled(s, step) && (step.Acquire? || step.Release?)
    ensures Inv(After(s, step))
  {
    var s' := After(s, step);
    assert forall k :: Users(s', k) == Users(s, k);
    forall r | r in s'.table ensures EntryOk(s', r) { assert EntryOk(s, r); }
    forall k | k in s'.heap ensures LockOk(s', k) { assert LockOk(s, k); }
    forall t | t in s'.pcs ensures ThreadOk(s', t) {
      if t != step.t { assert ThreadOk(s, t); }
    }
  }

  lemma DeregisterKeepsInv(s: State, t: Thread)
    requires Inv(s) && Enabled(s, Deregister(t))
    ensures Inv(After(s, Deregister(t)))
  {
    var s' := After(s, Deregister(t));
    var ref, l := s.PcOf(t).ref, s.PcOf(t).lock;
    assert ThreadOk(s, t) && LockOk(s, l) && EntryOk(s, ref);
    assert Users(s', l) == Users(s, l) - {t};
    forall k | k != l ensures Users(s', k) == Users(s, k) {}
    forall r | r in s'.table ensures EntryOk(s', r) {
      if r != ref {
        LocksAreSeparate(s, r, ref);
        assert EntryOk(s, r) && t !in Users(s, s.table[r]);
        EntryKept(s, s', r, t);
      } else {
        assert |Users(s', l)| == s'.heap[l].users != 0;
      }
    }
    forall k | k in s'.heap ensures LockOk(s', k) { assert LockOk(s, k); }
    forall u | u in s'.pcs ensures ThreadOk(s', u) {
      if u != t {
        assert ThreadOk(s, u);
        if !s.pcs[u].Idle? && s.pcs[u].ref == ref { assert u in Users(s', l); }
      }
    }
  }

  lemma {:induction false} RunKeepsInv(states: seq<State>, i: nat)
    requires IsRun(states) && i < |states|
    ensures Inv(states[i])
  {
    if i > 0 {
      RunKeepsInv(states, i - 1);
      assert Follows(states[i - 1], states[i]);
      var step: Step :| Enabled(states[i - 1], step) && states[i] == After(states[i - 1], step);
      match step
      case Register(t, ref, unused) =>
        if ref in states[i - 1].table {
          RegisterAgain(states[i - 1], t, ref, unused);
        } else {
          RegisterFirst(states[i - 1], t, ref, unused);
        }
      case Acquire(_) => MoveKeepsInv(states[i - 1], step);
      case Release(_) => MoveKeepsInv(states[i - 1], step);
      case Deregister(t) => DeregisterKeepsInv(states[i - 1], t);
    }
  }

  // ---------------------------------------------------------------- what every run guarantees

  /** At every moment: two threads inside the lock of one reference are one thread; the user count of a
      lock is the number of threads registered with it; the table has an entry for a reference exactly
      while some thread is using that reference. */
  lemma MutexFamily(states: seq<State>, i: nat)
    requires IsRun(states) && i < |states|
    ensures var s := states[i];
            && (forall t, u :: s.PcOf(t).Holding? && s.PcOf(u).Holding? && s.PcOf(t).ref == s.PcOf(u).ref ==> t == u)
            && (forall l | l in s.heap :: s.heap[l].users == |Users(s, l)|)
            && (forall ref :: ref in s.table <==> exists t :: !s.PcOf(t).Idle? && s.PcOf(t).ref == ref)
  {
    var s := states[i];
    RunKeepsInv(states, i);
    forall t, u | s.PcOf(t).Holding? && s.PcOf(u).Holding? && s.PcOf(t).ref == s.PcOf(u).ref ensures t == u {
      assert ThreadOk(s, t) && ThreadOk(s, u);
    }
    forall ref ensures ref in s.table <==> exists t :: !s.PcOf(t).Idle? && s.PcOf(t).ref == ref {
      if ref in s.table {
        assert EntryOk(s, ref);
        var t :| t in Users(s, s.table[ref]);
        assert !s.PcOf(t).Idle? && s.PcOf(t).ref == ref;
      } else {
        forall t ensures !(!s.PcOf(t).Idle? && s.PcOf(t).ref == ref) {
          if t in s.pcs { assert ThreadOk(s, t); }
        }
      }
    }
  }

  /** No thread waits for ever behind nobody: whenever some thread is busy, some busy thread can step. */
  lemma NoDeadlock(states: seq<State>, i: nat, t: Thread) returns (step: Step)
    requires IsRun(states) && i < |states| && !states[i].PcOf(t).Idle?
    ensures Enabled(states[i], step) && !step.Register? && !states[i].PcOf(step.t).Idle?
  {
    var s := states[i];
    RunKeepsInv(states, i);
    assert ThreadOk(s, t) && LockOk(s, s.PcOf(t).lock);
    match s.PcOf(t)
    case Holding(_, _) => step := Release(t);
    case Unlocked(_, _) => step := Deregister(t);
    case Registered(_, l) =>
      match s.heap[l].holder
      case None => step := Acquire(t);
      case Some(u) => step := Release(u);
  }
}
