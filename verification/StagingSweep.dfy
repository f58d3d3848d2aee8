/** What a sweep of shared staging (storage/shared.go) leaves behind, whatever the
    other replicas do meanwhile. An object listed for a session that was dead when
    the ids were read goes for good: its key belonged to one append, and is not
    written again once it has been listed. */
module StagingSweep {
  import opened Wrappers
  import opened Staging

  /** Nobody will write the key again. */
  predicate Written(w: World, key: Key) {
    key in w.usedKeys && forall pid :: pid in w.procs && w.procs[pid].Putting? ==> w.procs[pid].key != key
  }

  /** An append writes its object once. */
  predicate PutsAreNew(w: World) {
    forall pid :: pid in w.procs && w.procs[pid].Putting? ==> w.procs[pid].key !in w.objects
  }

  lemma StepKeepsPutsNew(w: World, h: History, a: Action)
    requires Inv(w, h) && PutsAreNew(w)
    ensures PutsAreNew(Step(w, a))
  {
    hide RowOk, LogOk, ProcOk;
    if a.PutDone? || a.PutFailed? {
      PutIsOnesOwn(w, h, a);
    } else {
      OtherStepsPutNothing(w, h, a);
    }
  }

  lemma PutIsOnesOwn(w: World, h: History, a: Action)
    requires Inv(w, h) && PutsAreNew(w) && (a.PutDone? || a.PutFailed?)
    ensures PutsAreNew(Step(w, a))
  {
    hide RowOk, LogOk, ProcOk, NamesUsed;
    var t := Step(w, a);
    if a.pid in w.procs && w.procs[a.pid].Putting? {
      assert Owned(w.procs[a.pid]) == Some(w.procs[a.pid].key);
      forall pid | pid in t.procs && t.procs[pid].Putting? ensures t.procs[pid].key !in t.objects {
        assert pid != a.pid && Owned(w.procs[pid]) == Some(w.procs[pid].key);
      }
    }
  }

  lemma OtherStepsPutNothing(w: World, h: History, a: Action)
    requires Inv(w, h) && PutsAreNew(w) && !a.PutDone? && !a.PutFailed?
    ensures PutsAreNew(Step(w, a))
  {
    hide RowOk, LogOk, ProcOk, OneOwner;
  }

  lemma {:induction false} RunKeepsPutsNew(w: World, h: History, trace: seq<Action>)
    requires Inv(w, h) && PutsAreNew(w)
    ensures PutsAreNew(Run(w, trace))
    decreases |trace|
  {
    if trace != [] {
      StepKeepsPutsNew(w, h, trace[0]);
      StepKeepsInv(w, h, trace[0]);
      hide Step, Inv, PutsAreNew;
      RunKeepsPutsNew(Step(w, trace[0]), Observe(w, trace[0], h), trace[1..]);
    }
  }

  /** What is stored has been written. */
  lemma StoredIsWritten(w0: World, trace: seq<Action>, key: Key)
    requires Start(w0) && key in Run(w0, trace).objects
    ensures Written(Run(w0, trace), key)
  {
    RunKeepsInv(w0, map[], trace);
    RunKeepsPutsNew(w0, map[], trace);
    hide Run, RowOk, LogOk, ProcOk;
  }

  lemma StepKeepsWritten(w: World, a: Action, key: Key)
    requires Written(w, key)
    ensures Written(Step(w, a), key)
    ensures key !in w.objects ==> key !in Step(w, a).objects
  {
  }

  lemma {:induction false} GoneStaysGone(w: World, trace: seq<Action>, key: Key)
    requires Written(w, key)
    ensures Written(Run(w, trace), key)
    ensures key !in w.objects ==> key !in Run(w, trace).objects
    decreases |trace|
  {
    if trace != [] {
      StepKeepsWritten(w, trace[0], key);
      hide Step, Written;
      GoneStaysGone(Step(w, trace[0]), trace[1..], key);
    }
  }

  // ---- From the reading of the ids to the last delete ----

  /** The sweep neither dies nor fails to delete this key. */
  predicate Deletes(a: Action, pid: Pid, key: Key) {
    a != End(pid) && a != SweepDelete(pid, key, false)
  }

  /** The sweep still has the key before it, or the key is gone. */
  predicate InHand(w: World, pid: Pid, key: Key) {
    && pid in w.procs && w.procs[pid].SweepOrphans?
    && (key in w.procs[pid].orphans || key !in w.objects)
  }

  lemma StepKeepsInHand(w: World, a: Action, pid: Pid, key: Key)
    requires Written(w, key) && InHand(w, pid, key) && Deletes(a, pid, key)
    ensures InHand(Step(w, a), pid, key)
  {
    StepKeepsWritten(w, a, key);
  }

  lemma {:induction false} RunKeepsInHand(w: World, trace: seq<Action>, pid: Pid, key: Key)
    requires Written(w, key) && InHand(w, pid, key)
    requires forall i :: 0 <= i < |trace| ==> Deletes(trace[i], pid, key)
    ensures InHand(Run(w, trace), pid, key)
    decreases |trace|
  {
    if trace != [] {
      StepKeepsInHand(w, trace[0], pid, key);
      StepKeepsWritten(w, trace[0], key);
      hide Step, Written, InHand, Deletes;
      RunKeepsInHand(Step(w, trace[0]), trace[1..], pid, key);
    }
  }

  // ---- The whole sweep ----

  /** A sweep by `pid`: the listing follows `before`, the ids are read after
      `listed`, and the deletes are done after `deleting`. Other requests act in
      all three stretches. */
  ghost predicate Sweeps(w0: World, before: seq<Action>, listed: seq<Action>, deleting: seq<Action>, pid: Pid) {
    var w1 := Run(w0, before);
    var w2 := Run(Step(w1, SweepList(pid)), listed);
    var w3 := Run(Step(w2, SweepIds(pid)), deleting);
    && pid in w1.procs && w1.procs[pid] == SweepExpired([])
    && (forall i :: 0 <= i < |listed| ==> listed[i] != End(pid) && listed[i] != SweepIds(pid))
    && (forall i :: 0 <= i < |deleting| ==> deleting[i] != End(pid))
    && pid in w3.procs && w3.procs[pid] == SweepOrphans({})
  }

  /** The sessions that are live when the sweep reads the ids. */
  function LiveAtIds(w0: World, before: seq<Action>, listed: seq<Action>, pid: Pid): set<Id> {
    Run(Step(Run(w0, before), SweepList(pid)), listed).sessions.Keys
  }

  function Swept(w0: World, before: seq<Action>, listed: seq<Action>, deleting: seq<Action>, pid: Pid): World {
    Run(Step(Run(Step(Run(w0, before), SweepList(pid)), listed), SweepIds(pid)), deleting)
  }

  lemma {:induction false} ListingIsKept(w: World, trace: seq<Action>, pid: Pid)
    requires pid in w.procs && w.procs[pid].SweepListed?
    requires forall i :: 0 <= i < |trace| ==> trace[i] != End(pid) && trace[i] != SweepIds(pid)
    ensures pid in Run(w, trace).procs && Run(w, trace).procs[pid] == w.procs[pid]
    decreases |trace|
  {
    if trace != [] {
      var t := Step(w, trace[0]);
      assert pid in t.procs && t.procs[pid] == w.procs[pid];
      hide Step;
      ListingIsKept(t, trace[1..], pid);
    }
  }

  /** Once a sweep is done, an object it listed whose session was dead when it
      read the ids is gone, then and forever, unless its own delete failed. */
  lemma ListedOrphansAreGone(w0: World, before: seq<Action>, listed: seq<Action>, deleting: seq<Action>, pid: Pid,
                             key: Key, later: seq<Action>)
    requires Start(w0) && Sweeps(w0, before, listed, deleting, pid)
    requires key in Run(w0, before).objects && key.session !in LiveAtIds(w0, before, listed, pid)
    requires SweepDelete(pid, key, false) !in deleting
    ensures key !in Run(Swept(w0, before, listed, deleting, pid), later).objects
  {
    var w1 := Run(w0, before);
    var w2 := Step(w1, SweepList(pid));
    var w3 := Run(w2, listed);
    var w4 := Step(w3, SweepIds(pid));
    StoredIsWritten(w0, before, key);
    StepKeepsWritten(w1, SweepList(pid), key);
    GoneStaysGone(w2, listed, key);
    ListingIsKept(w2, listed, pid);
    StepKeepsWritten(w3, SweepIds(pid), key);
    assert InHand(w4, pid, key);
    hide Step, Written;
    RunKeepsInHand(w4, deleting, pid, key);
    GoneStaysGone(w4, deleting, key);
    GoneStaysGone(Run(w4, deleting), later, key);
  }

  /** So whatever is stored after a sweep whose deletes succeeded belongs to a
      session that was live when the ids were read, or came after the listing. */
  lemma OnlyLiveOrLaterRemains(w0: World, before: seq<Action>, listed: seq<Action>, deleting: seq<Action>, pid: Pid,
                               later: seq<Action>, key: Key)
    requires Start(w0) && Sweeps(w0, before, listed, deleting, pid)
    requires forall k :: SweepDelete(pid, k, false) !in deleting
    requires key in Run(Swept(w0, before, listed, deleting, pid), later).objects
    ensures key.session in LiveAtIds(w0, before, listed, pid) || key !in Run(w0, before).objects
  {
    if key in Run(w0, before).objects && key.session !in LiveAtIds(w0, before, listed, pid) {
      ListedOrphansAreGone(w0, before, listed, deleting, pid, key, later);
    }
  }

  // ---- Removing a session, and the expired ones ----

  /** The request still has the key before it, or the key is gone. */
  predicate StillToDelete(w: World, pid: Pid, key: Key) {
    && pid in w.procs && (w.procs[pid].Removing? || w.procs[pid].SweepExpired?)
    && (key in w.procs[pid].keys || key !in w.objects)
  }

  /** The request goes on deleting, and its deletes succeed. */
  predicate GoesOnDeleting(a: Action, pid: Pid) {
    a != End(pid) && a != DeleteNext(pid, false) && a != SweepList(pid)
  }

  lemma StepKeepsDeleting(w: World, a: Action, pid: Pid, key: Key)
    requires Written(w, key) && StillToDelete(w, pid, key) && GoesOnDeleting(a, pid)
    requires pid in Step(w, a).procs
    ensures StillToDelete(Step(w, a), pid, key)
  {
    StepKeepsWritten(w, a, key);
  }

  lemma {:induction false} RunKeepsDeleting(w: World, trace: seq<Action>, pid: Pid, key: Key)
    requires Written(w, key) && StillToDelete(w, pid, key)
    requires forall i :: 0 <= i < |trace| ==> GoesOnDeleting(trace[i], pid)
    requires forall n :: 0 <= n <= |trace| ==> pid in Run(w, trace[..n]).procs
    ensures StillToDelete(Run(w, trace), pid, key)
    decreases |trace|
  {
    hide Step, Written, StillToDelete, GoesOnDeleting;
    if trace != [] {
      var t, rest := Step(w, trace[0]), trace[1..];
      forall n | 0 <= n <= |rest| ensures pid in Run(t, rest[..n]).procs {
        assert trace[..n + 1][1..] == rest[..n] && trace[..n + 1][0] == trace[0];
        assert Run(w, trace[..n + 1]) == Run(t, rest[..n]);
      }
      assert rest[..0] == [] && Run(t, []) == t;
      StepKeepsDeleting(w, trace[0], pid, key);
      StepKeepsWritten(w, trace[0], key);
      RunKeepsDeleting(t, rest, pid, key);
    }
  }

  /** The request stays with it until it has come to the end of its keys. */
  ghost predicate DeletesAll(w: World, pid: Pid, deleting: seq<Action>) {
    && (forall i :: 0 <= i < |deleting| ==> GoesOnDeleting(deleting[i], pid))
    && (forall n :: 0 <= n <= |deleting| ==> pid in Run(w, deleting[..n]).procs)
    && pid in Run(w, deleting).procs
    && (Run(w, deleting).procs[pid] == Removing([]) || Run(w, deleting).procs[pid] == SweepExpired([]))
  }

  /** A session that is cancelled, or removed after its commit, is dead at once;
      when its request has come to the end of its keys and the deletes succeeded,
      none of its chunks is stored, then or later, whatever others do meanwhile. */
  lemma RemovedSessionIsGone(w0: World, before: seq<Action>, pid: Pid, id: Id, deleting: seq<Action>,
                             later: seq<Action>, i: nat)
    requires var w := Run(w0, before);
             && Start(w0) && id in w.sessions && pid !in w.procs && i < |w.sessions[id].chunks|
             && DeletesAll(Step(w, RemoveRow(pid, id)), pid, deleting)
    ensures var w := Run(w0, before);
            && id !in Step(w, RemoveRow(pid, id)).sessions
            && w.sessions[id].chunks[i].key
                 !in Run(Run(Step(w, RemoveRow(pid, id)), deleting), later).objects
  {
    var w := Run(w0, before);
    var key := w.sessions[id].chunks[i].key;
    ChunkIsStored(w0, before, id, i);
    var u := Step(w, RemoveRow(pid, id));
    StepKeepsWritten(w, RemoveRow(pid, id), key);
    hide Run, Written, DeletesAll;
    assert ChunkKeys(w.sessions[id].chunks)[i] == key;
    assert StillToDelete(u, pid, key);
    DeletedToTheEnd(u, pid, key, deleting, later);
  }

  /** So are the chunks of the sessions a sweep finds expired. */
  lemma ExpiredSessionIsGone(w0: World, before: seq<Action>, pid: Pid, ids: seq<Id>, id: Id, deleting: seq<Action>,
                             later: seq<Action>, i: nat)
    requires var w := Run(w0, before);
             && Start(w0) && id in ids && id in w.sessions && pid !in w.procs && i < |w.sessions[id].chunks|
             && DeletesAll(Step(w, SweepExpire(pid, ids)), pid, deleting)
    ensures var w := Run(w0, before);
            && id !in Step(w, SweepExpire(pid, ids)).sessions
            && w.sessions[id].chunks[i].key
                 !in Run(Run(Step(w, SweepExpire(pid, ids)), deleting), later).objects
  {
    var w := Run(w0, before);
    var key := w.sessions[id].chunks[i].key;
    ChunkIsStored(w0, before, id, i);
    var u := Step(w, SweepExpire(pid, ids));
    StepKeepsWritten(w, SweepExpire(pid, ids), key);
    hide Run, Written, DeletesAll;
    KeysHoldChunks(w.sessions, ids, id, i);
    assert StillToDelete(u, pid, key);
    DeletedToTheEnd(u, pid, key, deleting, later);
  }

  lemma {:induction false} KeysHoldChunks(sessions: map<Id, Session>, ids: seq<Id>, id: Id, i: nat)
    requires id in ids && id in sessions && i < |sessions[id].chunks|
    ensures sessions[id].chunks[i].key in KeysOf(sessions, ids)
    decreases |ids|
  {
    if ids[0] == id {
      assert ChunkKeys(sessions[id].chunks)[i] == sessions[id].chunks[i].key;
    } else {
      KeysHoldChunks(sessions, ids[1..], id, i);
    }
  }

  lemma ChunkIsStored(w0: World, before: seq<Action>, id: Id, i: nat)
    requires Start(w0) && id in Run(w0, before).sessions && i < |Run(w0, before).sessions[id].chunks|
    ensures Written(Run(w0, before), Run(w0, before).sessions[id].chunks[i].key)
  {
    StagedContentIsExact(w0, before, id);
    hide Run;
    StoredIsWritten(w0, before, Run(w0, before).sessions[id].chunks[i].key);
  }

  lemma DeletedToTheEnd(w: World, pid: Pid, key: Key, deleting: seq<Action>, later: seq<Action>)
    requires Written(w, key) && StillToDelete(w, pid, key)
    requires DeletesAll(w, pid, deleting)
    ensures key !in Run(Run(w, deleting), later).objects
  {
    RunKeepsDeleting(w, deleting, pid, key);
    hide Run, Written;
    GoneStaysGone(w, deleting, key);
    GoneStaysGone(Run(w, deleting), later, key);
  }

  /** A fresh id opens an empty session. */
  lemma CreateOpens(w: World, id: Id, org: string, repo: string)
    requires id !in w.usedIds
    ensures var t := Step(w, Create(id, org, repo));
            && id in t.sessions && t.sessions[id] == Session(org, repo, 0, [])
            && forall other :: other in w.sessions && other != id ==>
                 other in t.sessions && t.sessions[other] == w.sessions[other]
  {
  }
}
