/** One replica's requests against shared staging, in the order its code takes
    the steps (storage/shared.go). Between any two steps of an append the other
    replicas run: `others(n)` is what they do before the n-th one. */
module SharedStaging {
  import opened Wrappers
  import opened Staging
  import opened StagingSweep

  datatype AppendResult = Appended(offset: nat) | NotFound | OffsetMismatch(offset: nat) | Failed

  predicate ActsAs(a: Action, pid: Pid) {
    !a.Create? && a.pid == pid
  }

  predicate ByOthers(trace: seq<Action>, pid: Pid) {
    forall i :: 0 <= i < |trace| ==> !ActsAs(trace[i], pid)
  }

  /** How many lock steps of the request succeeded. */
  function WinsOf(w: World, trace: seq<Action>, pid: Pid): nat
    decreases |trace|
  {
    if trace == [] then 0
    else (if Wins(w, trace[0]) && trace[0].pid == pid then 1 else 0) + WinsOf(Step(w, trace[0]), trace[1..], pid)
  }

  lemma {:induction false} WinsOfAppend(w: World, a: seq<Action>, b: seq<Action>, pid: Pid)
    ensures WinsOf(w, a + b, pid) == WinsOf(w, a, pid) + WinsOf(Run(w, a), b, pid)
    decreases |a|
  {
    hide Step, Wins;
    if a == [] {
      assert a + b == b;
    } else {
      assert (a + b)[1..] == a[1..] + b;
      WinsOfAppend(Step(w, a[0]), a[1..], b, pid);
    }
  }

  lemma OtherStep(w: World, a: Action, pid: Pid)
    requires !ActsAs(a, pid)
    ensures pid in w.procs <==> pid in Step(w, a).procs
    ensures pid in w.procs ==> Step(w, a).procs[pid] == w.procs[pid]
  {
  }

  /** The others neither move the request nor win in its name. */
  lemma {:induction false} OthersLeaveAlone(w: World, trace: seq<Action>, pid: Pid)
    requires ByOthers(trace, pid)
    ensures pid in w.procs <==> pid in Run(w, trace).procs
    ensures pid in w.procs ==> Run(w, trace).procs[pid] == w.procs[pid]
    ensures WinsOf(w, trace, pid) == 0
    decreases |trace|
  {
    if trace != [] {
      OtherStep(w, trace[0], pid);
      hide Step;
      OthersLeaveAlone(Step(w, trace[0]), trace[1..], pid);
    }
  }

  // ---- What an append keeps ----

  function NextKey(w: World, id: Id, nonce: nat): Key {
    ChunkKey(id, if id in w.sessions then |w.sessions[id].chunks| else 0, nonce)
  }

  /** The session has come at least this far, or is gone for good. */
  predicate Reached(w: World, id: Id, offset: nat) {
    id in w.usedIds && (id in w.sessions ==> w.sessions[id].offset >= offset)
  }

  /** No other request writes the key. */
  predicate Mine(w: World, pid: Pid, key: Key) {
    && key in w.usedKeys
    && forall q :: q in w.procs && q != pid && w.procs[q].Putting? ==> w.procs[q].key != key
  }

  /** Offsets never shrink, ids are never reused, and keys have one writer. */
  lemma {:induction false} RunKeepsReachedAndMine(w: World, trace: seq<Action>, pid: Pid, key: Key, id: Id, offset: nat)
    ensures Reached(w, id, offset) ==> Reached(Run(w, trace), id, offset)
    ensures Mine(w, pid, key) ==> Mine(Run(w, trace), pid, key)
    decreases |trace|
  {
    if trace != [] {
      StepKeepsReached(w, trace[0], id, offset);
      StepKeepsMine(w, trace[0], pid, key);
      hide Step, Reached, Mine;
      RunKeepsReachedAndMine(Step(w, trace[0]), trace[1..], pid, key, id, offset);
    }
  }

  lemma StepKeepsReached(w: World, a: Action, id: Id, offset: nat)
    ensures Reached(w, id, offset) ==> Reached(Step(w, a), id, offset)
  {
  }

  lemma StepKeepsMine(w: World, a: Action, pid: Pid, key: Key)
    ensures Mine(w, pid, key) ==> Mine(Step(w, a), pid, key)
  {
  }

  /** A key no request has used is neither stored nor about to be. */
  lemma FreshKeyIsFree(start: World, trace: seq<Action>, key: Key)
    requires Start(start) && key !in Run(start, trace).usedKeys
    ensures key !in Run(start, trace).objects
    ensures var w := Run(start, trace);
            && w.sessions.Keys <= w.usedIds
            && forall q :: q in w.procs && w.procs[q].Putting? ==> w.procs[q].key != key
  {
    var w, h := Run(start, trace), Observed(start, trace, map[]);
    RunKeepsInv(start, map[], trace);
    hide RowOk, LogOk, Run;
    forall q | q in w.procs && w.procs[q].Putting? ensures w.procs[q].key != key {
      assert ProcOk(w, h, w.procs[q]) && Owned(w.procs[q]) == Some(w.procs[q].key);
    }
  }

  // ---- What a removal leaves ----

  predicate AllWritten(w: World, keys: seq<Key>) {
    forall k :: k in keys ==> Written(w, k)
  }

  predicate GoneBut(w: World, keys: seq<Key>, stuck: set<Key>) {
    forall k :: k in keys && k !in stuck ==> k !in w.objects
  }

  lemma WrittenStays(w: World, trace: seq<Action>, all: seq<Key>, gone: seq<Key>, stuck: set<Key>)
    requires AllWritten(w, all) && (forall k :: k in gone ==> k in all)
    ensures AllWritten(Run(w, trace), all)
    ensures GoneBut(w, gone, stuck) ==> GoneBut(Run(w, trace), gone, stuck)
  {
    hide Run, Written;
    forall k | k in all ensures Written(Run(w, trace), k) && (k !in w.objects ==> k !in Run(w, trace).objects) {
      GoneStaysGone(w, trace, k);
    }
  }

  lemma RowKeysAreWritten(start: World, trace: seq<Action>, id: Id)
    requires Start(start) && id in Run(start, trace).sessions
    ensures var w := Run(start, trace);
            AllWritten(w, ChunkKeys(w.sessions[id].chunks)) && id in w.usedIds
  {
    var w := Run(start, trace);
    RunKeepsInv(start, map[], trace);
    forall i | 0 <= i < |w.sessions[id].chunks| ensures Written(w, w.sessions[id].chunks[i].key) {
      ChunkIsStored(start, trace, id, i);
    }
    hide Run, Written;
    forall k | k in ChunkKeys(w.sessions[id].chunks) ensures Written(w, k) {
      var i :| 0 <= i < |w.sessions[id].chunks| && ChunkKeys(w.sessions[id].chunks)[i] == k;
    }
  }

  lemma RunOfOne(w: World, a: Action)
    ensures Run(w, [a]) == Step(w, a)
  {
    hide Step;
    assert [a][1..] == [];
    assert Run(Step(w, a), []) == Step(w, a);
  }

  lemma RowRemoved(w: World, pid: Pid, id: Id)
    requires pid !in w.procs && id in w.sessions && id in w.usedIds
    ensures var t := Step(w, RemoveRow(pid, id));
            pid in t.procs && t.procs[pid] == Removing(ChunkKeys(w.sessions[id].chunks)) && Dead(t, id)
  {
  }

  lemma NextRemoved(w: World, pid: Pid, ok: bool)
    requires pid in w.procs && w.procs[pid].Removing?
    ensures var keys, t := w.procs[pid].keys, Step(w, DeleteNext(pid, ok));
            if keys == [] then pid !in t.procs
            else pid in t.procs && t.procs[pid] == Removing(keys[1..]) && (ok ==> keys[0] !in t.objects)
  {
  }

  lemma NothingGoneYet(w: World, all: seq<Key>, stuck: set<Key>)
    ensures GoneBut(w, all[..0], stuck)
  {
  }

  lemma OneMoreGone(w: World, all: seq<Key>, n: nat, stuck: set<Key>)
    requires n < |all| && GoneBut(w, all[..n], stuck) && (all[n] !in stuck ==> all[n] !in w.objects)
    ensures GoneBut(w, all[..n + 1], stuck) && all[n..][1..] == all[n + 1..]
  {
    assert all[..n + 1] == all[..n] + [all[n]];
  }

  class Replica {
    var w: World
    ghost var origin: World
    ghost var trace: seq<Action>

    /** The world is where a run of the protocol has led. */
    ghost predicate Valid() reads this {
      Start(origin) && w == Run(origin, trace)
    }

    constructor (start: World)
      requires Start(start)
      ensures Valid() && w == origin == start && trace == []
    {
      w, origin, trace := start, start, [];
    }

    /** One step of this replica. */
    method Do(a: Action, ghost pid: Pid)
      requires Valid()
      modifies this
      ensures Valid() && origin == old(origin) && trace == old(trace) + [a] && w == Step(old(w), a)
      ensures WinsOf(origin, trace, pid)
           == WinsOf(origin, old(trace), pid) + (if Wins(old(w), a) && a.pid == pid then 1 else 0)
    {
      RunAppend(origin, trace, [a]);
      WinsOfAppend(origin, trace, [a], pid);
      assert [a][1..] == [];
      hide Step, Wins;
      assert WinsOf(Step(w, a), [], pid) == 0;
      assert Run(w, [a]) == Run(Step(w, a), []) == Step(w, a);
      w, trace := Step(w, a), trace + [a];
    }

    /** Any number of steps of the other replicas. */
    method Others(actions: seq<Action>, ghost pid: Pid)
      requires Valid() && ByOthers(actions, pid)
      modifies this
      ensures Valid() && origin == old(origin) && trace == old(trace) + actions && w == Run(old(w), actions)
      ensures pid in w.procs <==> pid in old(w).procs
      ensures pid in w.procs ==> w.procs[pid] == old(w).procs[pid]
      ensures WinsOf(origin, trace, pid) == WinsOf(origin, old(trace), pid)
    {
      RunAppend(origin, trace, actions);
      WinsOfAppend(origin, trace, actions, pid);
      OthersLeaveAlone(w, actions, pid);
      hide Step;
      w, trace := Run(w, actions), trace + actions;
    }

    /** Append, racing with everybody else. Its answer is Appended exactly when
        its own lock step succeeded; then the session stands behind its body.
        Otherwise its object is gone when its delete succeeded, and a mismatch
        answer tells where the session stands, which is not where the caller
        expected it. A database error counts as a lock that was not taken. */
    method Append(pid: Pid, id: Id, expected: nat, body: Bytes, nonce: nat, others: nat -> seq<Action>,
                  putFails: bool, partial: Option<Bytes>, lockFails: bool, dropped: bool)
      returns (r: AppendResult)
      requires Valid() && pid !in w.procs
      requires forall n :: ByOthers(others(n), pid)
      requires forall k :: k in Run(w, others(0)).usedKeys ==> k.nonce != nonce
      modifies this
      ensures Valid() && origin == old(origin) && old(trace) <= trace && pid !in w.procs
      ensures WinsOf(origin, trace, pid) == WinsOf(origin, old(trace), pid) + (if r.Appended? then 1 else 0)
      ensures r.Appended? ==> StandsBehind(w, id, r.offset, expected, body)
      ensures r.OffsetMismatch? ==> id in w.sessions && w.sessions[id].offset == r.offset != expected
      ensures r.NotFound? ==> id !in w.sessions
      ensures r.Failed? ==> putFails || lockFails
      ensures !r.Appended? && dropped ==> NextKey(Run(old(w), others(0)), id, nonce) !in w.objects
    {
      hide Step, Run, WinsOf, Start, StandsBehind, Mine, Reached, Written;
      Others(others(0), pid);
      ghost var key := NextKey(w, id, nonce);
      FreshKeyIsFree(origin, trace, key);
      if id !in w.sessions { return NotFound; }
      if w.sessions[id].offset != expected { return OffsetMismatch(w.sessions[id].offset); }
      Read(pid, id, expected, body, nonce);
      RunKeepsReachedAndMine(w, others(1), pid, key, id, expected);
      Others(others(1), pid);
      if putFails {
        PutFail(pid, partial);
        Drop(pid, others, dropped, id, expected);
        return Failed;
      }
      Put(pid);
      RunKeepsReachedAndMine(w, others(2), pid, key, id, expected);
      Others(others(2), pid);
      r := LockOrDrop(pid, others, lockFails, dropped);
    }

    method Read(pid: Pid, id: Id, expected: nat, body: Bytes, nonce: nat)
      requires Valid() && pid !in w.procs && LockApplies(w.sessions, id, expected)
      requires forall k :: k in w.usedKeys ==> k.nonce != nonce
      modifies this
      ensures Valid() && origin == old(origin) && old(trace) <= trace
      ensures pid in w.procs && w.procs[pid] == Putting(id, expected, NextKey(old(w), id, nonce), body)
      ensures Mine(w, pid, NextKey(old(w), id, nonce)) && Reached(w, id, expected)
      ensures WinsOf(origin, trace, pid) == WinsOf(origin, old(trace), pid)
    {
      hide Run, WinsOf, Start;
      FreshKeyIsFree(origin, trace, NextKey(w, id, nonce));
      Do(AppendRead(pid, id, expected, body, nonce), pid);
    }

    method Put(pid: Pid)
      requires Valid() && pid in w.procs && w.procs[pid].Putting?
      requires Mine(w, pid, w.procs[pid].key) && Reached(w, w.procs[pid].id, w.procs[pid].expected)
      modifies this
      ensures Valid() && origin == old(origin) && old(trace) <= trace
      ensures var p := old(w).procs[pid];
              && pid in w.procs && w.procs[pid].Locking? && w.procs[pid].chunk.size == |p.body|
              && w.procs[pid].chunk.key == p.key
              && w.procs[pid].id == p.id && w.procs[pid].expected == p.expected && w.procs[pid].body == p.body
              && Mine(w, pid, p.key) && Reached(w, p.id, p.expected)
      ensures WinsOf(origin, trace, pid) == WinsOf(origin, old(trace), pid)
    {
      hide Run, WinsOf, Start, Mine, Reached;
      StepKeepsMine(w, PutDone(pid), pid, w.procs[pid].key);
      StepKeepsReached(w, PutDone(pid), w.procs[pid].id, w.procs[pid].expected);
      Do(PutDone(pid), pid);
    }

    method PutFail(pid: Pid, partial: Option<Bytes>)
      requires Valid() && pid in w.procs && w.procs[pid].Putting?
      requires Mine(w, pid, w.procs[pid].key) && Reached(w, w.procs[pid].id, w.procs[pid].expected)
      modifies this
      ensures Valid() && origin == old(origin) && old(trace) <= trace
      ensures var p := old(w).procs[pid];
              && pid in w.procs && w.procs[pid] == Discarding(p.key)
              && Mine(w, pid, p.key) && Reached(w, p.id, p.expected)
      ensures WinsOf(origin, trace, pid) == WinsOf(origin, old(trace), pid)
    {
      hide Run, WinsOf, Start, Mine, Reached;
      StepKeepsMine(w, PutFailed(pid, partial), pid, w.procs[pid].key);
      StepKeepsReached(w, PutFailed(pid, partial), w.procs[pid].id, w.procs[pid].expected);
      Do(PutFailed(pid, partial), pid);
    }

    /** The lock step and what follows a lost race. */
    method LockOrDrop(pid: Pid, others: nat -> seq<Action>, lockFails: bool, dropped: bool) returns (r: AppendResult)
      requires Valid() && pid in w.procs && w.procs[pid].Locking? && w.procs[pid].chunk.size == |w.procs[pid].body|
      requires Mine(w, pid, w.procs[pid].chunk.key) && Reached(w, w.procs[pid].id, w.procs[pid].expected)
      requires forall n :: ByOthers(others(n), pid)
      modifies this
      ensures Valid() && origin == old(origin) && old(trace) <= trace && pid !in w.procs
      ensures WinsOf(origin, trace, pid) == WinsOf(origin, old(trace), pid) + (if r.Appended? then 1 else 0)
      ensures var p := old(w).procs[pid];
              && (r.Appended? ==> StandsBehind(w, p.id, r.offset, p.expected, p.body))
              && (r.OffsetMismatch? ==> p.id in w.sessions && w.sessions[p.id].offset == r.offset != p.expected)
              && (r.NotFound? ==> p.id !in w.sessions)
              && (!r.Appended? && dropped ==> p.chunk.key !in w.objects)
      ensures r.Failed? ==> lockFails
    {
      hide Run, Start, Mine, Written;
      var p := w.procs[pid];
      if lockFails {
        FailLock(pid);
        Drop(pid, others, dropped, p.id, p.expected);
        return Failed;
      }
      var won := LockApplies(w.sessions, p.id, p.expected);
      StepKeepsMine(w, Lock(pid), pid, p.chunk.key);
      Do(Lock(pid), pid);
      if won {
        return Appended(w.sessions[p.id].offset);
      }
      hide Step, WinsOf, Reached;
      r := AfterLoss(pid, others, dropped, p.id, p.expected);
    }

    method FailLock(pid: Pid)
      requires Valid() && pid in w.procs && w.procs[pid].Locking? && Mine(w, pid, w.procs[pid].chunk.key)
      modifies this
      ensures Valid() && origin == old(origin) && old(trace) <= trace
      ensures pid in w.procs && w.procs[pid] == Discarding(old(w).procs[pid].chunk.key)
      ensures Mine(w, pid, old(w).procs[pid].chunk.key)
      ensures WinsOf(origin, trace, pid) == WinsOf(origin, old(trace), pid)
    {
      hide Run, WinsOf, Start, Mine;
      StepKeepsMine(w, LockError(pid), pid, w.procs[pid].chunk.key);
      Do(LockError(pid), pid);
    }

    /** The loser drops its object and looks where the session stands: past the
        expected offset. */
    method AfterLoss(pid: Pid, others: nat -> seq<Action>, dropped: bool, id: Id, expected: nat)
      returns (r: AppendResult)
      requires Valid() && pid in w.procs && w.procs[pid].Discarding? && Mine(w, pid, w.procs[pid].key)
      requires Reached(w, id, expected + 1)
      requires forall n :: ByOthers(others(n), pid)
      modifies this
      ensures Valid() && origin == old(origin) && old(trace) <= trace && pid !in w.procs
      ensures WinsOf(origin, trace, pid) == WinsOf(origin, old(trace), pid)
      ensures r.NotFound? || r.OffsetMismatch?
      ensures r.OffsetMismatch? ==> id in w.sessions && w.sessions[id].offset == r.offset != expected
      ensures r.NotFound? ==> id !in w.sessions
      ensures dropped ==> old(w).procs[pid].key !in w.objects
    {
      hide Run, WinsOf, Start, Step, Mine, Written;
      ghost var key := w.procs[pid].key;
      Drop(pid, others, dropped, id, expected + 1);
      GoneStaysGone(w, others(4), key);
      RunKeepsReachedAndMine(w, others(4), pid, key, id, expected + 1);
      Others(others(4), pid);
      if id !in w.sessions { return NotFound; }
      r := OffsetMismatch(w.sessions[id].offset);
    }

    /** The request gives its object up; the delete may fail. */
    method Drop(pid: Pid, others: nat -> seq<Action>, dropped: bool, ghost id: Id, ghost offset: nat)
      requires Valid() && pid in w.procs && w.procs[pid].Discarding? && Mine(w, pid, w.procs[pid].key)
      requires forall n :: ByOthers(others(n), pid)
      modifies this
      ensures Valid() && origin == old(origin) && old(trace) <= trace && pid !in w.procs
      ensures Written(w, old(w).procs[pid].key) && (dropped ==> old(w).procs[pid].key !in w.objects)
      ensures Reached(old(w), id, offset) ==> Reached(w, id, offset)
      ensures WinsOf(origin, trace, pid) == WinsOf(origin, old(trace), pid)
    {
      hide Run, WinsOf, Start, Reached;
      RunKeepsReachedAndMine(w, others(3), pid, w.procs[pid].key, id, offset);
      Others(others(3), pid);
      StepKeepsReached(w, Discard(pid, dropped), id, offset);
      Do(Discard(pid, dropped), pid);
    }

    /** Remove, which a cancel and a finished commit call: the session is dead at
        once, and its objects go one by one, while the others act in between. When
        it returns, those are gone whose delete did not fail. */
    method Remove(pid: Pid, id: Id, others: nat -> seq<Action>, stuck: set<Key>) returns (found: bool)
      requires Valid() && pid !in w.procs
      requires forall n :: ByOthers(others(n), pid)
      modifies this
      ensures Valid() && origin == old(origin) && old(trace) <= trace && pid !in w.procs
      ensures found <==> id in old(w).sessions
      ensures id !in w.sessions || !found
      ensures found ==>
                forall c :: c in old(w).sessions[id].chunks && c.key !in stuck ==> c.key !in w.objects
    {
      if id !in w.sessions { return false; }
      hide Run, WinsOf, Start, AllWritten, GoneBut;
      ghost var all := ChunkKeys(w.sessions[id].chunks);
      RowKeysAreWritten(origin, trace, id);
      RowRemoved(w, pid, id);
      WrittenStays(w, [RemoveRow(pid, id)], all, [], stuck);
      RunOfOne(w, RemoveRow(pid, id));
      hide Step;
      Do(RemoveRow(pid, id), pid);
      DeleteAll(pid, id, all, others, stuck);
      found := true;
    }

    method DeleteAll(pid: Pid, id: Id, ghost all: seq<Key>, others: nat -> seq<Action>, stuck: set<Key>)
      requires Valid() && pid in w.procs && w.procs[pid] == Removing(all) && Dead(w, id) && AllWritten(w, all)
      requires forall n :: ByOthers(others(n), pid)
      modifies this
      ensures Valid() && origin == old(origin) && old(trace) <= trace && pid !in w.procs && Dead(w, id)
      ensures GoneBut(w, all, stuck)
    {
      hide Run, WinsOf, Start, AllWritten, GoneBut, Step, Dead;
      var n := 0;
      assert all[0..] == all;
      NothingGoneYet(w, all, stuck);
      while w.procs[pid].keys != []
        invariant Valid() && origin == old(origin) && old(trace) <= trace && Dead(w, id)
        invariant n <= |all| && pid in w.procs && w.procs[pid] == Removing(all[n..])
        invariant AllWritten(w, all) && GoneBut(w, all[..n], stuck)
        decreases |all| - n
      {
        DeadStaysDead(w, id, others(n));
        WrittenStays(w, others(n), all, all[..n], stuck);
        Others(others(n), pid);
        ghost var a := DeleteNext(pid, all[n] !in stuck);
        DeadStaysDead(w, id, [a]);
        WrittenStays(w, [a], all, all[..n], stuck);
        RunOfOne(w, a);
        NextRemoved(w, pid, all[n] !in stuck);
        OneMoreGone(Step(w, a), all, n, stuck);
        var key := w.procs[pid].keys[0];
        Do(DeleteNext(pid, key !in stuck), pid);
        n := n + 1;
      }
      assert all[..n] == all;
      ghost var a := DeleteNext(pid, true);
      NextRemoved(w, pid, true);
      DeadStaysDead(w, id, [a]);
      WrittenStays(w, [a], all, all, stuck);
      RunOfOne(w, a);
      Do(DeleteNext(pid, true), pid);
    }

    /** Sweep, with no other replica active. Afterwards exactly the objects of
        live sessions remain, and those of dead ones whose delete failed. It
        counts the expired sessions and the sessions whose orphans went. For a
        sweep among others see `StagingSweep`. */
    method Sweep(pid: Pid, ids: seq<Id>, stuck: set<Key>, ghost h: History) returns (removed: nat)
      requires Valid() && pid !in w.procs && Inv(w, h)
      modifies this
      ensures Valid() && origin == old(origin) && Inv(w, h)
      ensures w.sessions == old(w).sessions - (set i | i in ids) && w.procs == old(w).procs
      ensures w.objects == map k | k in old(w).objects && (k.session in w.sessions || k in stuck) :: old(w).objects[k]
      ensures removed == |set i | i in ids && i in old(w).sessions|
                       + |SessionsOf(OrphansLeft(old(w), ids, stuck))|
    {
      hide Inv, WinsOf, Step, Run, Start, KeysOf, ElementsOf;
      ghost var start := w;
      removed := DropExpired(pid, ids, stuck, h);
      OrphansAreLeft(start, w, ids, stuck);
      List(pid, h);
      if w.objects != map[] {
        var orphans := DropOrphans(pid, stuck, h);
        removed := removed + orphans;
      }
      Close(pid, h);
      FewerIsExact(start, w, stuck);
    }

    /** What is listed is what is stored now. */
    method List(pid: Pid, ghost h: History)
      requires Valid() && Inv(w, h) && pid in w.procs && w.procs[pid] == SweepExpired([])
      modifies this
      ensures Valid() && origin == old(origin) && Inv(w, h)
      ensures w == old(w).(procs := old(w).procs[pid := SweepListed(old(w).objects.Keys)])
    {
      StepKeepsInv(w, h, SweepList(pid));
      Do(SweepList(pid), pid);
    }

    method Close(pid: Pid, ghost h: History)
      requires Valid() && Inv(w, h)
      modifies this
      ensures Valid() && origin == old(origin) && Inv(w, h)
      ensures w == Finish(old(w), pid)
    {
      StepKeepsInv(w, h, End(pid));
      Do(End(pid), pid);
    }

    /** The expired rows go first, then their objects one by one. */
    method DropExpired(pid: Pid, ids: seq<Id>, stuck: set<Key>, ghost h: History) returns (removed: nat)
      requires Valid() && pid !in w.procs && Inv(w, h)
      modifies this
      ensures Valid() && origin == old(origin) && Inv(w, h)
      ensures w.procs == old(w).procs[pid := SweepExpired([])]
      ensures w.sessions == old(w).sessions - (set i | i in ids)
      ensures Fewer(old(w), w, stuck)
      ensures w.objects == old(w).objects - (ElementsOf(KeysOf(old(w).sessions, ids)) - stuck)
      ensures removed == |set i | i in ids && i in old(w).sessions|
    {
      hide Inv, WinsOf, Run, ElementsOf, KeysOf;
      removed := |set i | i in ids && i in w.sessions|;
      StepKeepsInv(w, h, SweepExpire(pid, ids));
      Do(SweepExpire(pid, ids), pid);
      hide Step;
      DropKeys(pid, stuck, h);
    }

    method DropKeys(pid: Pid, stuck: set<Key>, ghost h: History)
      requires Valid() && Inv(w, h) && pid in w.procs && w.procs[pid].SweepExpired?
      modifies this
      ensures Valid() && origin == old(origin) && Inv(w, h)
      ensures w.procs == old(w).procs[pid := SweepExpired([])] && w.sessions == old(w).sessions
      ensures w.objects == old(w).objects - (ElementsOf(old(w).procs[pid].keys) - stuck)
      ensures Fewer(old(w), w, stuck)
    {
      hide Inv, WinsOf, Step, Run;
      ghost var all, n := w.procs[pid].keys, 0;
      assert all[0..] == all && ElementsOf(all[..0]) == {};
      assert w.objects == w.objects - (ElementsOf(all[..0]) - stuck);
      while w.procs[pid].keys != []
        invariant Valid() && origin == old(origin) && Inv(w, h)
        invariant n <= |all| && pid in w.procs && w.procs == old(w).procs[pid := SweepExpired(all[n..])]
        invariant w.sessions == old(w).sessions && Fewer(old(w), w, stuck)
        invariant w.objects == old(w).objects - (ElementsOf(all[..n]) - stuck)
        decreases |all| - n
      {
        DropNext(pid, stuck, h);
        OneMoreKey(old(w).objects, all, n, stuck);
        n := n + 1;
      }
      assert all[..n] == all;
    }

    method DropNext(pid: Pid, stuck: set<Key>, ghost h: History)
      requires Valid() && Inv(w, h)
      requires pid in w.procs && w.procs[pid].SweepExpired? && w.procs[pid].keys != []
      modifies this
      ensures Valid() && origin == old(origin) && Inv(w, h)
      ensures w.procs == old(w).procs[pid := SweepExpired(old(w).procs[pid].keys[1..])] && w.sessions == old(w).sessions
      ensures var key := old(w).procs[pid].keys[0];
              w.objects == if key in stuck then old(w).objects else old(w).objects - {key}
      ensures forall other :: Fewer(other, old(w), stuck) && other.sessions.Keys >= w.sessions.Keys ==>
                Fewer(other, w, stuck)
    {
      var key := w.procs[pid].keys[0];
      assert ProcOk(w, h, w.procs[pid]);
      StepKeepsInv(w, h, DeleteNext(pid, key !in stuck));
      Do(DeleteNext(pid, key !in stuck), pid);
    }

    /** Then every listed object whose session is not live. */
    method DropOrphans(pid: Pid, stuck: set<Key>, ghost h: History) returns (removed: nat)
      requires Valid() && Inv(w, h) && pid in w.procs && w.procs[pid] == SweepListed(w.objects.Keys)
      modifies this
      ensures Valid() && origin == old(origin) && Inv(w, h)
      ensures pid in w.procs && w.procs == old(w).procs[pid := w.procs[pid]] && w.sessions == old(w).sessions
      ensures Fewer(old(w), w, stuck)
      ensures forall k :: k in w.objects ==> k.session in w.sessions || k in stuck
      ensures removed == |SessionsOf((set k | k in old(w).objects && k.session !in w.sessions) - stuck)|
    {
      hide Inv, WinsOf;
      StepKeepsInv(w, h, SweepIds(pid));
      Do(SweepIds(pid), pid);
      assert w.procs[pid].orphans == set k | k in w.objects && k.session !in w.sessions;
      hide Step;
      removed := DropEach(pid, stuck, h);
    }

    method DropEach(pid: Pid, stuck: set<Key>, ghost h: History) returns (removed: nat)
      requires Valid() && Inv(w, h) && pid in w.procs && w.procs[pid].SweepOrphans?
      modifies this
      ensures Valid() && origin == old(origin) && Inv(w, h)
      ensures w.procs == old(w).procs[pid := SweepOrphans({})] && w.sessions == old(w).sessions
      ensures w.objects == old(w).objects - (old(w).procs[pid].orphans - stuck)
      ensures forall k :: k in old(w).procs[pid].orphans ==> k.session !in w.sessions
      ensures removed == |SessionsOf(old(w).procs[pid].orphans - stuck)|
    {
      hide Inv, WinsOf, Step, Run, Start;
      hide Half;
      ghost var start, all := w, w.procs[pid].orphans;
      OrphansAreDead(w, h, pid);
      HalfStarts(w, pid, stuck);
      ghost var left := all;
      var dropped: set<Key> := {};
      while w.procs[pid].orphans != {}
        invariant Valid() && origin == old(origin) && Inv(w, h)
        invariant left <= all && w == Half(start, pid, all, left, stuck)
        invariant pid in w.procs && w.procs[pid] == SweepOrphans(left) && dropped == all - left - stuck
        decreases |left|
      {
        var key := DropOrphan(pid, stuck, h);
        HalfGoesOn(start, pid, all, left, stuck, key);
        if key !in stuck { dropped := dropped + {key}; }
        left := left - {key};
      }
      HalfEnds(start, pid, all, stuck);
      assert dropped == all - stuck;
      removed := |SessionsOf(dropped)|;
    }

    method DropOrphan(pid: Pid, stuck: set<Key>, ghost h: History) returns (key: Key)
      requires Valid() && Inv(w, h)
      requires pid in w.procs && w.procs[pid].SweepOrphans? && w.procs[pid].orphans != {}
      modifies this
      ensures Valid() && origin == old(origin) && Inv(w, h) && w.sessions == old(w).sessions
      ensures key in old(w).procs[pid].orphans && key.session !in w.sessions
      ensures w == OneSwept(old(w), pid, key, stuck)
    {
      hide Inv, WinsOf, Run, Start;
      key :| key in w.procs[pid].orphans;
      OrphansAreDead(w, h, pid);
      StepKeepsInv(w, h, SweepDelete(pid, key, key !in stuck));
      OrphanGoes(w, pid, key, key !in stuck);
      hide Step;
      Do(SweepDelete(pid, key, key !in stuck), pid);
    }
  }

  lemma OrphanGoes(w: World, pid: Pid, key: Key, ok: bool)
    requires pid in w.procs && w.procs[pid].SweepOrphans? && key in w.procs[pid].orphans
    ensures forall stuck :: (key in stuck <==> !ok) ==>
              Step(w, SweepDelete(pid, key, ok)) == OneSwept(w, pid, key, stuck)
    ensures !Wins(w, SweepDelete(pid, key, ok))
  {
  }

  lemma OrphansAreDead(w: World, h: History, pid: Pid)
    requires Inv(w, h) && pid in w.procs && w.procs[pid].SweepOrphans?
    ensures forall k :: k in w.procs[pid].orphans ==> k.session !in w.sessions
  {
    assert ProcOk(w, h, w.procs[pid]);
  }

  /** One orphan further. */
  function OneSwept(w: World, pid: Pid, key: Key, stuck: set<Key>): World
    requires pid in w.procs && w.procs[pid].SweepOrphans?
  {
    w.(objects := if key in stuck then w.objects else w.objects - {key},
       procs := w.procs[pid := SweepOrphans(w.procs[pid].orphans - {key})])
  }

  /** The sweep that still has `left` of all its orphans before it. */
  function Half(start: World, pid: Pid, all: set<Key>, left: set<Key>, stuck: set<Key>): World {
    start.(objects := start.objects - (all - left - stuck), procs := start.procs[pid := SweepOrphans(left)])
  }

  lemma HalfStarts(w: World, pid: Pid, stuck: set<Key>)
    requires pid in w.procs && w.procs[pid].SweepOrphans?
    ensures var all := w.procs[pid].orphans; Half(w, pid, all, all, stuck) == w && all - all - stuck == {}
  {
    var all := w.procs[pid].orphans;
    assert all - all - stuck == {};
    assert w.objects - {} == w.objects && w.procs[pid := w.procs[pid]] == w.procs;
  }

  lemma HalfGoesOn(start: World, pid: Pid, all: set<Key>, left: set<Key>, stuck: set<Key>, key: Key)
    requires key in left && left <= all
    ensures var h := Half(start, pid, all, left, stuck);
            && pid in h.procs && h.procs[pid] == SweepOrphans(left)
            && OneSwept(h, pid, key, stuck) == Half(start, pid, all, left - {key}, stuck)
    ensures all - (left - {key}) - stuck == (all - left - stuck) + (if key in stuck then {} else {key})
    ensures |left - {key}| < |left|
  {
    OneMoreDropped(all, left, stuck, key);
    if key in stuck {
      assert all - (left - {key}) - stuck == all - left - stuck;
    } else {
      TwoMinus(start.objects, all - left - stuck, {key});
    }
    hide OneSwept;
    assert OneSwept(Half(start, pid, all, left, stuck), pid, key, stuck).procs
        == start.procs[pid := SweepOrphans(left - {key})] by { SweptProcs(start, pid, all, left, stuck, key); }
    SweptObjects(Half(start, pid, all, left, stuck), pid, key, stuck);
  }

  lemma OneMoreDropped(all: set<Key>, left: set<Key>, stuck: set<Key>, key: Key)
    requires key in left && left <= all
    ensures all - (left - {key}) - stuck == (all - left - stuck) + (if key in stuck then {} else {key})
    ensures |left - {key}| < |left|
  {
  }

  lemma SweptProcs(start: World, pid: Pid, all: set<Key>, left: set<Key>, stuck: set<Key>, key: Key)
    ensures var h := Half(start, pid, all, left, stuck);
            && pid in h.procs && h.procs[pid] == SweepOrphans(left)
            && OneSwept(h, pid, key, stuck).procs == start.procs[pid := SweepOrphans(left - {key})]
  {
  }

  lemma SweptObjects(w: World, pid: Pid, key: Key, stuck: set<Key>)
    requires pid in w.procs && w.procs[pid].SweepOrphans?
    ensures var v := OneSwept(w, pid, key, stuck);
            && v == w.(objects := v.objects, procs := v.procs)
            && v.objects == if key in stuck then w.objects else w.objects - {key}
  {
  }

  lemma HalfEnds(start: World, pid: Pid, all: set<Key>, stuck: set<Key>)
    ensures Half(start, pid, all, {}, stuck)
         == start.(objects := start.objects - (all - stuck), procs := start.procs[pid := SweepOrphans({})])
  {
    assert all - {} == all;
  }

  lemma TwoMinus<K, V>(m: map<K, V>, a: set<K>, b: set<K>)
    ensures m - a - b == m - (a + b)
  {
  }

  function ElementsOf(keys: seq<Key>): set<Key> {
    set k | k in keys
  }

  /** The orphans that are still there when the expired sessions are gone, and
      whose delete succeeds. */
  function OrphansLeft(w: World, ids: seq<Id>, stuck: set<Key>): set<Key> {
    set k | k in w.objects && (k.session !in w.sessions || k.session in ids)
            && k !in ElementsOf(KeysOf(w.sessions, ids)) && k !in stuck
  }

  lemma OrphansAreLeft(before: World, now: World, ids: seq<Id>, stuck: set<Key>)
    requires now.sessions == before.sessions - (set i | i in ids)
    requires now.objects == before.objects - (ElementsOf(KeysOf(before.sessions, ids)) - stuck)
    ensures (set k | k in now.objects && k.session !in now.sessions) - stuck == OrphansLeft(before, ids, stuck)
  {
    hide ElementsOf, KeysOf;
  }

  lemma OneMoreKey(objects: map<Key, Bytes>, all: seq<Key>, n: nat, stuck: set<Key>)
    requires n < |all|
    ensures var before, after := objects - (ElementsOf(all[..n]) - stuck), objects - (ElementsOf(all[..n + 1]) - stuck);
            after == if all[n] in stuck then before else before - {all[n]}
  {
    assert all[..n + 1] == all[..n] + [all[n]];
    assert ElementsOf(all[..n + 1]) == ElementsOf(all[..n]) + {all[n]};
    hide ElementsOf;
  }

  function SessionsOf(keys: set<Key>): set<Id> {
    set k | k in keys :: k.session
  }

  /** The session stands right behind a body appended at the expected offset. */
  predicate StandsBehind(w: World, id: Id, offset: nat, expected: nat, body: Bytes) {
    && id in w.sessions && w.sessions[id].offset == offset == expected + |body|
    && var chunks := w.sessions[id].chunks; chunks != [] && chunks[|chunks| - 1].size == |body|
  }

  /** Objects have gone, but none of a live session and none that is stuck. */
  predicate Fewer(before: World, now: World, stuck: set<Key>) {
    && (forall k :: k in now.objects ==> k in before.objects && now.objects[k] == before.objects[k])
    && (forall k :: k in before.objects && (k.session in now.sessions || k in stuck) ==> k in now.objects)
  }

  lemma FewerIsExact(before: World, now: World, stuck: set<Key>)
    requires Fewer(before, now, stuck)
    requires forall k :: k in now.objects ==> k.session in now.sessions || k in stuck
    ensures now.objects == map k | k in before.objects && (k.session in now.sessions || k in stuck) :: before.objects[k]
  {
  }
}
