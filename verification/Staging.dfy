/** Shared upload staging (storage/shared.go, store/uploads.go) as a protocol
    between any number of replicas.

    The world is the session table in Postgres, the chunk objects in the storage
    backend, and the requests in flight, each at the step it has reached. One
    action is one SQL statement or one call to the object store; actions of
    different requests interleave freely, and a request may end, by returning or
    because its replica crashes, between any two. `Step` is total: an action that is not enabled changes nothing.

    Hypotheses, made part of the actions: session ids and chunk keys are fresh
    (UUIDs, random suffixes), and a database error means that the update was not
    applied. An expiry may hit any live session at any time. */
module Staging {
  import opened Wrappers

  type Id = nat
  type Pid = nat
  type Bytes = seq<bv8>

  /** `_uploads/<session>/<seq>-<nonce>`; see `Paths.SessionOfKey`. */
  datatype Key = ChunkKey(session: Id, seqNo: nat, nonce: nat)

  datatype Chunk = Chunk(seqNo: nat, size: nat, key: Key)

  datatype Session = Session(org: string, repo: string, offset: nat, chunks: seq<Chunk>)

  /** A request in flight. */
  datatype Proc =
    | Putting(id: Id, expected: nat, key: Key, body: Bytes)
    | Locking(id: Id, expected: nat, chunk: Chunk, body: Bytes)
    | Discarding(key: Key)
    | Removing(keys: seq<Key>)
    | SweepExpired(keys: seq<Key>)
    | SweepListed(listed: set<Key>)
    | SweepOrphans(orphans: set<Key>)

  datatype World = World(
    sessions: map<Id, Session>, objects: map<Key, Bytes>,
    usedIds: set<Id>, usedKeys: set<Key>, procs: map<Pid, Proc>)

  datatype Action =
    | Create(id: Id, org: string, repo: string)
    | AppendRead(pid: Pid, id: Id, expected: nat, body: Bytes, nonce: nat)
    | PutDone(pid: Pid)
    | PutFailed(pid: Pid, partial: Option<Bytes>)
    | Lock(pid: Pid)
    | LockError(pid: Pid)
    | Discard(pid: Pid, ok: bool)
    | RemoveRow(pid: Pid, id: Id)
    | DeleteNext(pid: Pid, ok: bool)
    | SweepExpire(pid: Pid, ids: seq<Id>)
    | SweepList(pid: Pid)
    | SweepIds(pid: Pid)
    | SweepDelete(pid: Pid, key: Key, ok: bool)
    | End(pid: Pid)

  // ---- The session table's statements ----

  /** The optimistic lock: the update applies only while the stored offset is
      still the expected one. */
  predicate LockApplies(sessions: map<Id, Session>, id: Id, expected: nat) {
    id in sessions && sessions[id].offset == expected
  }

  function AppendChunkRow(s: Session, chunk: Chunk): Session {
    s.(offset := s.offset + chunk.size, chunks := s.chunks + [chunk])
  }

  function ChunkKeys(chunks: seq<Chunk>): (keys: seq<Key>)
    ensures |keys| == |chunks|
    ensures forall i :: 0 <= i < |chunks| ==> keys[i] == chunks[i].key
  {
    seq(|chunks|, i requires 0 <= i < |chunks| => chunks[i].key)
  }

  /** The chunk keys of the expired rows, row by row. */
  function KeysOf(sessions: map<Id, Session>, ids: seq<Id>): seq<Key> {
    if ids == [] then []
    else (if ids[0] in sessions then ChunkKeys(sessions[ids[0]].chunks) else []) + KeysOf(sessions, ids[1..])
  }

  function Without<K, V>(m: map<K, V>, gone: set<K>): map<K, V> {
    m - gone
  }

  // ---- One step ----

  function Finish(w: World, pid: Pid): World {
    w.(procs := Without(w.procs, {pid}))
  }

  function Goto(w: World, pid: Pid, p: Proc): World {
    w.(procs := w.procs[pid := p])
  }

  function DeleteObject(w: World, key: Key, ok: bool): World {
    if ok then w.(objects := Without(w.objects, {key})) else w
  }

  function Step(w: World, a: Action): World {
    match a
    case Create(id, org, repo) =>
      if id in w.usedIds then w
      else w.(sessions := w.sessions[id := Session(org, repo, 0, [])], usedIds := w.usedIds + {id})
    case AppendRead(pid, id, expected, body, nonce) =>
      if pid in w.procs || !LockApplies(w.sessions, id, expected) then w
      else
        var key := ChunkKey(id, |w.sessions[id].chunks|, nonce);
        if key in w.usedKeys then w
        else Goto(w, pid, Putting(id, expected, key, body)).(usedKeys := w.usedKeys + {key})
    case PutDone(pid) =>
      if pid in w.procs && w.procs[pid].Putting? then
        var p := w.procs[pid];
        Goto(w.(objects := w.objects[p.key := p.body]), pid,
             Locking(p.id, p.expected, Chunk(p.key.seqNo, |p.body|, p.key), p.body))
      else w
    case PutFailed(pid, partial) =>
      if pid in w.procs && w.procs[pid].Putting? then
        var p := w.procs[pid];
        Goto(if partial.None? then w else w.(objects := w.objects[p.key := partial.value]), pid, Discarding(p.key))
      else w
    case Lock(pid) =>
      if pid in w.procs && w.procs[pid].Locking? then
        var p := w.procs[pid];
        if LockApplies(w.sessions, p.id, p.expected) then
          Finish(w.(sessions := w.sessions[p.id := AppendChunkRow(w.sessions[p.id], p.chunk)]), pid)
        else Goto(w, pid, Discarding(p.chunk.key))
      else w
    case LockError(pid) =>
      if pid in w.procs && w.procs[pid].Locking? then Goto(w, pid, Discarding(w.procs[pid].chunk.key)) else w
    case Discard(pid, ok) =>
      if pid in w.procs && w.procs[pid].Discarding? then
        Finish(DeleteObject(w, w.procs[pid].key, ok), pid)
      else w
    case RemoveRow(pid, id) =>
      if pid in w.procs || id !in w.sessions then w
      else Goto(w.(sessions := Without(w.sessions, {id})), pid, Removing(ChunkKeys(w.sessions[id].chunks)))
    case DeleteNext(pid, ok) =>
      if pid in w.procs && w.procs[pid].Removing? then
        var keys := w.procs[pid].keys;
        if keys == [] then Finish(w, pid) else Goto(DeleteObject(w, keys[0], ok), pid, Removing(keys[1..]))
      else if pid in w.procs && w.procs[pid].SweepExpired? && w.procs[pid].keys != [] then
        var keys := w.procs[pid].keys;
        Goto(DeleteObject(w, keys[0], ok), pid, SweepExpired(keys[1..]))
      else w
    case SweepExpire(pid, ids) =>
      if pid in w.procs then w
      else Goto(w.(sessions := Without(w.sessions, set i | i in ids)), pid, SweepExpired(KeysOf(w.sessions, ids)))
    case SweepList(pid) =>
      if pid in w.procs && w.procs[pid] == SweepExpired([]) then Goto(w, pid, SweepListed(w.objects.Keys)) else w
    case SweepIds(pid) =>
      if pid in w.procs && w.procs[pid].SweepListed? then
        Goto(w, pid, SweepOrphans(set k | k in w.procs[pid].listed && k.session !in w.sessions))
      else w
    case SweepDelete(pid, key, ok) =>
      if pid in w.procs && w.procs[pid].SweepOrphans? && key in w.procs[pid].orphans then
        Goto(DeleteObject(w, key, ok), pid, SweepOrphans(w.procs[pid].orphans - {key}))
      else w
    case End(pid) => Finish(w, pid)
  }

  function Run(w: World, trace: seq<Action>): World
    decreases |trace|
  {
    if trace == [] then w else Run(Step(w, trace[0]), trace[1..])
  }

  lemma {:induction false} RunAppend(w: World, a: seq<Action>, b: seq<Action>)
    ensures Run(w, a + b) == Run(Run(w, a), b)
    decreases |a|
  {
    if a == [] {
      assert a + b == b;
    } else {
      assert (a + b)[1..] == a[1..] + b;
      RunAppend(Step(w, a[0]), a[1..], b);
    }
  }

  // ---- The history: what an observer of the lock steps writes down ----

  /** An append whose lock step succeeded. */
  datatype Entry = Entry(expected: nat, body: Bytes, key: Key)

  type History = map<Id, seq<Entry>>

  function Log(h: History, id: Id): seq<Entry> {
    if id in h then h[id] else []
  }

  predicate Wins(w: World, a: Action) {
    && a.Lock? && a.pid in w.procs && w.procs[a.pid].Locking?
    && LockApplies(w.sessions, w.procs[a.pid].id, w.procs[a.pid].expected)
  }

  function Observe(w: World, a: Action, h: History): History {
    if Wins(w, a) then
      var p := w.procs[a.pid];
      h[p.id := Log(h, p.id) + [Entry(p.expected, p.body, p.chunk.key)]]
    else h
  }

  function Observed(w: World, trace: seq<Action>, h: History): History
    decreases |trace|
  {
    if trace == [] then h else Observed(Step(w, trace[0]), trace[1..], Observe(w, trace[0], h))
  }

  /** The bytes of the accepted bodies, in lock order. */
  function Content(log: seq<Entry>): Bytes {
    if log == [] then [] else Content(log[..|log| - 1]) + log[|log| - 1].body
  }

  function ChunksOf(log: seq<Entry>): (chunks: seq<Chunk>)
    ensures |chunks| == |log|
  {
    seq(|log|, i requires 0 <= i < |log| => Chunk(log[i].key.seqNo, |log[i].body|, log[i].key))
  }

  function SumSizes(chunks: seq<Chunk>): nat {
    if chunks == [] then 0 else SumSizes(chunks[..|chunks| - 1]) + chunks[|chunks| - 1].size
  }

  /** The chunk objects of a session, one after the other: what a reader of all
      the chunks gets. */
  function Stored(objects: map<Key, Bytes>, chunks: seq<Chunk>): Bytes
    requires forall i :: 0 <= i < |chunks| ==> chunks[i].key in objects
  {
    if chunks == [] then [] else Stored(objects, chunks[..|chunks| - 1]) + objects[chunks[|chunks| - 1].key]
  }

  // ---- The invariant ----

  predicate Dead(w: World, id: Id) {
    id in w.usedIds && id !in w.sessions
  }

  function LogKeys(h: History, id: Id): set<Key> {
    set e | e in Log(h, id) :: e.key
  }

  /** The object a request has written and not yet handed over or dropped. */
  function Owned(p: Proc): Option<Key> {
    match p
    case Putting(_, _, key, _) => Some(key)
    case Locking(_, _, chunk, _) => Some(chunk.key)
    case Discarding(key) => Some(key)
    case _ => None
  }

  /** A live row is exactly what the log says, and its objects are stored. */
  predicate RowOk(w: World, h: History, id: Id)
    requires id in w.sessions
  {
    && w.sessions[id].chunks == ChunksOf(Log(h, id))
    && w.sessions[id].offset == |Content(Log(h, id))|
    && forall e :: e in Log(h, id) ==> e.key in w.objects
  }

  /** Every accepted append continued where the session stood, and its object
      holds its body for as long as there is one. */
  predicate LogOk(w: World, h: History, id: Id) {
    && (forall i :: 0 <= i < |Log(h, id)| ==> Log(h, id)[i].expected == |Content(Log(h, id)[..i])|)
    && forall e :: e in Log(h, id) ==>
         && e.key.session == id && e.key in w.usedKeys
         && (e.key in w.objects ==> w.objects[e.key] == e.body)
  }

  predicate ProcOk(w: World, h: History, p: Proc) {
    && (Owned(p).Some? ==> Owned(p).value in w.usedKeys && Owned(p).value !in LogKeys(h, Owned(p).value.session))
    && match p
       case Putting(id, _, key, _) => key.session == id
       case Locking(id, _, chunk, body) =>
         && chunk == Chunk(chunk.key.seqNo, |body|, chunk.key) && chunk.key.session == id
         && (id in w.sessions ==> chunk.key in w.objects && w.objects[chunk.key] == body)
       case Discarding(_) => true
       case Removing(keys) => forall k :: k in keys ==> Dead(w, k.session)
       case SweepExpired(keys) => forall k :: k in keys ==> Dead(w, k.session)
       case SweepListed(listed) => listed <= w.usedKeys
       case SweepOrphans(orphans) => forall k :: k in orphans ==> Dead(w, k.session)
  }

  predicate OneOwner(w: World) {
    forall i, j :: i in w.procs && j in w.procs && i != j && Owned(w.procs[i]).Some? ==>
      Owned(w.procs[i]) != Owned(w.procs[j])
  }

  predicate NamesUsed(w: World, h: History) {
    && w.objects.Keys <= w.usedKeys
    && (forall k :: k in w.usedKeys ==> k.session in w.usedIds)
    && w.sessions.Keys <= w.usedIds
    && h.Keys <= w.usedIds
  }

  predicate Inv(w: World, h: History) {
    && NamesUsed(w, h)
    && OneOwner(w)
    && (forall id :: id in w.sessions ==> RowOk(w, h, id))
    && (forall id :: id in h ==> LogOk(w, h, id))
    && (forall pid :: pid in w.procs ==> ProcOk(w, h, w.procs[pid]))
  }

  /** Any state without sessions and requests, with any leftovers of earlier
      ones among the objects. */
  predicate Start(w: World) {
    && w.sessions == map[] && w.procs == map[]
    && w.objects.Keys <= w.usedKeys && forall k :: k in w.usedKeys ==> k.session in w.usedIds
  }

  // ---- Every step keeps the invariant ----

  lemma StepKeepsInv(w: World, h: History, a: Action)
    requires Inv(w, h)
    ensures Inv(Step(w, a), Observe(w, a, h))
  {
    match a
    case Create(_, _, _) => CreateKeeps(w, h, a);
    case AppendRead(_, _, _, _, _) => AppendReadKeeps(w, h, a);
    case PutDone(_) => PutKeeps(w, h, a);
    case PutFailed(_, _) => PutKeeps(w, h, a);
    case Lock(_) => LockKeeps(w, h, a);
    case LockError(_) => LockErrorKeeps(w, h, a);
    case Discard(_, _) => DiscardKeeps(w, h, a);
    case RemoveRow(_, _) => RowsGoneKeeps(w, h, a);
    case DeleteNext(_, _) => DeleteNextKeeps(w, h, a);
    case SweepExpire(_, _) => RowsGoneKeeps(w, h, a);
    case SweepList(_) => SweepLookKeeps(w, h, a);
    case SweepIds(_) => SweepLookKeeps(w, h, a);
    case SweepDelete(_, _, _) => SweepDeleteKeeps(w, h, a);
    case End(pid) => RequestEnds(w, h, pid);
  }

  lemma CreateKeeps(w: World, h: History, a: Action)
    requires Inv(w, h) && a.Create?
    ensures Inv(Step(w, a), h)
  {
    var w' := Step(w, a);
    if a.id !in w.usedIds {
      hide Step;
      assert Log(h, a.id) == [];
      assert RowOk(w', h, a.id);
      hide Content, ChunksOf;
      forall id | id in w'.sessions && id != a.id ensures RowOk(w', h, id) { assert RowOk(w, h, id); }
      forall id | id in h ensures LogOk(w', h, id) { assert LogOk(w, h, id); }
      forall i | i in w'.procs ensures ProcOk(w', h, w'.procs[i]) { assert ProcOk(w, h, w.procs[i]); }
    }
  }

  lemma AppendReadKeeps(w: World, h: History, a: Action)
    requires Inv(w, h) && a.AppendRead?
    ensures Inv(Step(w, a), h)
  {
    hide Content, ChunksOf;
    var w' := Step(w, a);
    if w' != w {
      var key := w'.procs[a.pid].key;
      assert key !in LogKeys(h, a.id);
      assert forall pid :: pid in w.procs ==> ProcOk(w, h, w.procs[pid]) && Owned(w.procs[pid]) != Some(key);
    }
  }

  /** An object that no log mentions changes: rows and logs do not notice. */
  lemma UnloggedObjectChanges(w: World, h: History, w': World, key: Key)
    requires Inv(w, h) && key !in LogKeys(h, key.session)
    requires w'.sessions == w.sessions && w'.usedKeys == w.usedKeys && w'.usedIds == w.usedIds
    requires forall k :: k != key ==> (k in w'.objects <==> k in w.objects)
    requires forall k :: k != key && k in w.objects ==> w'.objects[k] == w.objects[k]
    ensures forall id :: id in w'.sessions ==> RowOk(w', h, id)
    ensures forall id :: id in h ==> LogOk(w', h, id)
  {
    hide Content, ChunksOf;
    forall id, e | id in h && e in Log(h, id) ensures e.key != key {
      assert LogOk(w, h, id) && e.key in LogKeys(h, id);
    }
    forall id | id in w'.sessions ensures RowOk(w', h, id) {
      assert RowOk(w, h, id);
    }
    forall id | id in h ensures LogOk(w', h, id) {
      assert LogOk(w, h, id);
    }
  }

  lemma PutKeeps(w: World, h: History, a: Action)
    requires Inv(w, h) && (a.PutDone? || a.PutFailed?)
    ensures Inv(Step(w, a), h)
  {
    hide Content, ChunksOf, Step;
    if Puts(w, a) {
      var key := w.procs[a.pid].key;
      PutMoves(w, h, a);
      hide ProcOk;
      UnloggedObjectChanges(w, h, Step(w, a), key);
      OwnerGoesOn(w, h, a.pid, Step(w, a), key);
    } else {
      NothingToPut(w, a);
    }
  }

  predicate Puts(w: World, a: Action) {
    (a.PutDone? || a.PutFailed?) && a.pid in w.procs && w.procs[a.pid].Putting?
  }

  lemma NothingToPut(w: World, a: Action)
    requires (a.PutDone? || a.PutFailed?) && !Puts(w, a)
    ensures Step(w, a) == w
  {
  }

  /** A put changes its own object and its own request. */
  lemma PutMoves(w: World, h: History, a: Action)
    requires Inv(w, h) && Puts(w, a)
    ensures var key, w' := w.procs[a.pid].key, Step(w, a);
            && Owned(w.procs[a.pid]) == Some(key) && ProcOk(w, h, w.procs[a.pid])
            && a.pid in w'.procs
            && w' == w.(objects := w'.objects, procs := w.procs[a.pid := w'.procs[a.pid]])
            && (forall k :: k != key ==> (k in w'.objects <==> k in w.objects))
            && (forall k :: k != key && k in w.objects ==> w'.objects[k] == w.objects[k])
            && ProcOk(w', h, w'.procs[a.pid]) && Owned(w'.procs[a.pid]) == Some(key)
  {
    hide Content, ChunksOf, RowOk, LogOk, OneOwner, NamesUsed;
    assert ProcOk(w, h, w.procs[a.pid]);
  }

  /** Only the owner of an object moves, and it keeps at most that object. */
  lemma OwnerGoesOn(w: World, h: History, pid: Pid, w': World, key: Key)
    requires Inv(w, h) && pid in w.procs && Owned(w.procs[pid]) == Some(key)
    requires w'.sessions == w.sessions && w'.usedKeys == w.usedKeys && w'.usedIds == w.usedIds
    requires w'.procs.Keys <= w.procs.Keys && forall i :: i in w'.procs && i != pid ==> w'.procs[i] == w.procs[i]
    requires forall k :: k != key ==> (k in w'.objects <==> k in w.objects)
    requires forall k :: k != key && k in w.objects ==> w'.objects[k] == w.objects[k]
    requires pid in w'.procs ==> ProcOk(w', h, w'.procs[pid]) && Owned(w'.procs[pid]) in {None, Some(key)}
    ensures OneOwner(w')
    ensures forall i :: i in w'.procs ==> ProcOk(w', h, w'.procs[i])
  {
    hide Content, ChunksOf;
    forall i | i in w'.procs && i != pid ensures ProcOk(w', h, w'.procs[i]) {
      assert ProcOk(w, h, w.procs[i]);
      assert Owned(w.procs[i]) != Some(key);
    }
  }

  lemma ContentSnoc(log: seq<Entry>, e: Entry)
    ensures Content(log + [e]) == Content(log) + e.body
  {
    assert (log + [e])[..|log|] == log;
  }

  lemma LockKeeps(w: World, h: History, a: Action)
    requires Inv(w, h) && a.Lock?
    ensures Inv(Step(w, a), Observe(w, a, h))
  {
    hide Step, Observe, Inv;
    if Wins(w, a) {
      WonLockKeeps(w, h, a);
    } else {
      LostLock(w, h, a);
      LockErrorKeeps(w, h, LockError(a.pid));
    }
  }

  lemma LostLock(w: World, h: History, a: Action)
    requires a.Lock? && !Wins(w, a)
    ensures Step(w, a) == Step(w, LockError(a.pid)) && Observe(w, a, h) == h
  {
  }

  lemma WonLock(w: World, h: History, a: Action)
    requires Wins(w, a)
    ensures Appended(w, h, w.procs[a.pid], Step(w, a), Observe(w, a, h))
    ensures Step(w, a).procs == Without(w.procs, {a.pid})
  {
  }

  lemma WonLockKeeps(w: World, h: History, a: Action)
    requires Inv(w, h) && Wins(w, a)
    ensures Inv(Step(w, a), Observe(w, a, h))
  {
    hide Step, Observe, Content, ChunksOf;
    var p := w.procs[a.pid];
    assert ProcOk(w, h, p);
    WonLock(w, h, a);
    hide ProcOk, RowOk, LogOk;
    WinnerIsLogged(w, h, p, Step(w, a), Observe(w, a, h));
    OthersUnlogged(w, h, a.pid, p, Step(w, a), Observe(w, a, h));
  }

  /** The row and the log of the winner's session grow by the same append. */
  predicate Appended(w: World, h: History, p: Proc, w': World, h': History) {
    && p.Locking? && LockApplies(w.sessions, p.id, p.expected)
    && w' == w.(sessions := w.sessions[p.id := AppendChunkRow(w.sessions[p.id], p.chunk)], procs := w'.procs)
    && h' == h[p.id := Log(h, p.id) + [Entry(p.expected, p.body, p.chunk.key)]]
  }

  lemma ChunksOfSnoc(log: seq<Entry>, e: Entry)
    ensures ChunksOf(log + [e]) == ChunksOf(log) + [Chunk(e.key.seqNo, |e.body|, e.key)]
  {
  }

  /** The winner's row and log stay in step. */
  lemma WinnerIsLogged(w: World, h: History, p: Proc, w': World, h': History)
    requires Inv(w, h) && Appended(w, h, p, w', h') && ProcOk(w, h, p)
    ensures forall id :: id in w'.sessions ==> RowOk(w', h', id)
    ensures forall id :: id in h' ==> LogOk(w', h', id)
  {
    hide Content, ChunksOf;
    var e, log := Entry(p.expected, p.body, p.chunk.key), Log(h, p.id);
    assert RowOk(w, h, p.id);
    ContentSnoc(log, e);
    ChunksOfSnoc(log, e);
    assert Log(h', p.id) == log + [e];
    assert p.id in h ==> LogOk(w, h, p.id);
    forall i | 0 <= i < |log| + 1 ensures (log + [e])[i].expected == |Content((log + [e])[..i])| {
      assert (log + [e])[..i] == log[..i];
      assert i == |log| ==> log[..i] == log;
    }
    forall id | id in w'.sessions && id != p.id ensures RowOk(w', h', id) {
      assert RowOk(w, h, id) && Log(h', id) == Log(h, id);
    }
    forall id | id in h' && id != p.id ensures LogOk(w', h', id) {
      assert LogOk(w, h, id) && Log(h', id) == Log(h, id);
    }
  }

  /** The logged object was the winner's alone. */
  lemma OthersUnlogged(w: World, h: History, pid: Pid, p: Proc, w': World, h': History)
    requires Inv(w, h) && Appended(w, h, p, w', h') && ProcOk(w, h, p)
    requires pid in w.procs && w.procs[pid] == p && w'.procs == Without(w.procs, {pid})
    ensures OneOwner(w') && forall i :: i in w'.procs ==> ProcOk(w', h', w'.procs[i])
  {
    forall i | i in w'.procs && Owned(w'.procs[i]).Some?
      ensures Owned(w'.procs[i]).value !in LogKeys(h', Owned(w'.procs[i]).value.session)
    {
      var k := Owned(w'.procs[i]).value;
      assert ProcOk(w, h, w.procs[i]);
      assert k != p.chunk.key && k !in LogKeys(h, k.session);
      forall x | x in Log(h', k.session) ensures x.key != k {
        if x in Log(h, k.session) { assert x.key in LogKeys(h, k.session); }
      }
    }
    forall i | i in w'.procs ensures ProcOk(w', h', w'.procs[i]) {
      assert ProcOk(w, h, w.procs[i]);
    }
  }

  /** A request moves on without touching rows or objects. */
  lemma MovesOn(w: World, h: History, pid: Pid, p': Proc)
    requires Inv(w, h) && pid in w.procs && ProcOk(w, h, p')
    requires Owned(p') in {None, Owned(w.procs[pid])}
    ensures Inv(Goto(w, pid, p'), h)
  {
    hide Content, ChunksOf;
    var w' := Goto(w, pid, p');
    forall id | id in w'.sessions ensures RowOk(w', h, id) { assert RowOk(w, h, id); }
    forall id | id in h ensures LogOk(w', h, id) { assert LogOk(w, h, id); }
    forall i | i in w'.procs ensures ProcOk(w', h, w'.procs[i]) {
      assert i != pid ==> ProcOk(w, h, w.procs[i]);
    }
  }

  lemma LockErrorKeeps(w: World, h: History, a: Action)
    requires Inv(w, h) && a.LockError?
    ensures Inv(Step(w, a), h)
  {
    hide Content, ChunksOf;
    var w' := Step(w, a);
    if w' != w {
      var p := w.procs[a.pid];
      assert ProcOk(w, h, p);
      MovesOn(w, h, a.pid, Discarding(p.chunk.key));
    }
  }

  /** Rows disappear; their ids are dead from then on. */
  lemma RowsGoneKeeps(w: World, h: History, a: Action)
    requires Inv(w, h) && (a.RemoveRow? || a.SweepExpire?)
    ensures Inv(Step(w, a), h)
  {
    var w' := Step(w, a);
    if w' != w {
      forall k | k in w'.procs[a.pid].keys ensures Dead(w', k.session) {
        if a.RemoveRow? {
          RowKeysOfSession(w, h, a.id);
        } else {
          KeysAreOfRows(w, h, a.ids, k);
        }
      }
      FewerRows(w, h, a.pid, w');
    }
  }

  lemma FewerRows(w: World, h: History, pid: Pid, w': World)
    requires Inv(w, h) && pid !in w.procs
    requires w'.sessions.Keys <= w.sessions.Keys && forall id :: id in w'.sessions ==> w'.sessions[id] == w.sessions[id]
    requires w' == w.(sessions := w'.sessions, procs := w'.procs)
    requires pid in w'.procs && w'.procs == w.procs[pid := w'.procs[pid]]
    requires ProcOk(w', h, w'.procs[pid]) && Owned(w'.procs[pid]) == None
    ensures Inv(w', h)
  {
    hide Content, ChunksOf;
    forall id | id in w'.sessions ensures RowOk(w', h, id) { assert RowOk(w, h, id); }
    forall id | id in h ensures LogOk(w', h, id) { assert LogOk(w, h, id); }
    forall i | i in w'.procs && i != pid ensures ProcOk(w', h, w'.procs[i]) { assert ProcOk(w, h, w.procs[i]); }
  }

  lemma RowKeysOfSession(w: World, h: History, id: Id)
    requires Inv(w, h) && id in w.sessions
    ensures forall k :: k in ChunkKeys(w.sessions[id].chunks) ==> k.session == id
  {
    assert RowOk(w, h, id);
    var log := Log(h, id);
    if log != [] {
      assert LogOk(w, h, id);
      forall i | 0 <= i < |log| ensures ChunksOf(log)[i].key.session == id { assert log[i] in log; }
    }
  }

  lemma {:induction false} KeysAreOfRows(w: World, h: History, ids: seq<Id>, k: Key)
    requires Inv(w, h) && k in KeysOf(w.sessions, ids)
    ensures k.session in ids && k.session in w.sessions
    decreases |ids|
  {
    if ids[0] in w.sessions && k in ChunkKeys(w.sessions[ids[0]].chunks) {
      RowKeysOfSession(w, h, ids[0]);
    } else {
      KeysAreOfRows(w, h, ids[1..], k);
    }
  }

  /** A request drops its own object, which no log mentions. */
  lemma DiscardKeeps(w: World, h: History, a: Action)
    requires Inv(w, h) && a.Discard?
    ensures Inv(Step(w, a), h)
  {
    hide Content, ChunksOf, Step;
    if a.pid in w.procs && w.procs[a.pid].Discarding? {
      var p := w.procs[a.pid];
      DiscardMoves(w, a);
      assert ProcOk(w, h, p);
      hide ProcOk;
      UnloggedObjectChanges(w, h, Step(w, a), p.key);
      OwnerGoesOn(w, h, a.pid, Step(w, a), p.key);
    } else {
      NothingToDiscard(w, a);
    }
  }

  lemma NothingToDiscard(w: World, a: Action)
    requires a.Discard? && !(a.pid in w.procs && w.procs[a.pid].Discarding?)
    ensures Step(w, a) == w
  {
  }

  lemma DiscardMoves(w: World, a: Action)
    requires a.Discard? && a.pid in w.procs && w.procs[a.pid].Discarding?
    ensures var key, w' := w.procs[a.pid].key, Step(w, a);
            && Owned(w.procs[a.pid]) == Some(key)
            && w' == w.(objects := w'.objects, procs := w'.procs)
            && w'.procs.Keys == w.procs.Keys - {a.pid}
            && (forall i :: i in w'.procs ==> w'.procs[i] == w.procs[i])
            && (forall k :: k != key ==> (k in w'.objects <==> k in w.objects))
            && (forall k :: k != key && k in w.objects ==> w'.objects[k] == w.objects[k])
            && w'.objects.Keys <= w.objects.Keys
  {
  }

  /** The next object of a removed or expired session goes. */
  lemma DeleteNextKeeps(w: World, h: History, a: Action)
    requires Inv(w, h) && a.DeleteNext?
    ensures Inv(Step(w, a), h)
  {
    hide Content, ChunksOf;
    var w' := Step(w, a);
    if w' != w {
      var p := w.procs[a.pid];
      assert ProcOk(w, h, p);
      if p.keys == [] {
        assert w' == Finish(w, a.pid);
        RequestEnds(w, h, a.pid);
      } else {
        assert p.keys[0] in p.keys && forall k :: k in p.keys[1..] ==> k in p.keys;
        assert ProcOk(w', h, w'.procs[a.pid]);
        DeadObjectGoes(w, h, a.pid, p.keys[0], w');
      }
    }
  }

  lemma RequestEnds(w: World, h: History, pid: Pid)
    requires Inv(w, h)
    ensures Inv(Finish(w, pid), h)
  {
    hide Content, ChunksOf;
    var w' := Finish(w, pid);
    forall id | id in w'.sessions ensures RowOk(w', h, id) { assert RowOk(w, h, id); }
    forall id | id in h ensures LogOk(w', h, id) { assert LogOk(w, h, id); }
    forall i | i in w'.procs ensures ProcOk(w', h, w'.procs[i]) { assert ProcOk(w, h, w.procs[i]); }
  }

  lemma SweepDeleteKeeps(w: World, h: History, a: Action)
    requires Inv(w, h) && a.SweepDelete?
    ensures Inv(Step(w, a), h)
  {
    hide Content, ChunksOf;
    var w' := Step(w, a);
    if w' != w {
      assert ProcOk(w, h, w.procs[a.pid]);
      assert ProcOk(w', h, w'.procs[a.pid]);
      DeadObjectGoes(w, h, a.pid, a.key, w');
    }
  }

  /** An object of a dead session may go: no row needs it. */
  lemma DeadObjectGoes(w: World, h: History, pid: Pid, key: Key, w': World)
    requires Inv(w, h) && pid in w.procs && Dead(w, key.session)
    requires w' == w.(objects := w'.objects, procs := w'.procs)
    requires w'.objects == w.objects || w'.objects == Without(w.objects, {key})
    requires pid in w'.procs && w'.procs == w.procs[pid := w'.procs[pid]]
    requires ProcOk(w', h, w'.procs[pid]) && Owned(w'.procs[pid]) == None
    ensures Inv(w', h)
  {
    hide Content, ChunksOf;
    forall id | id in w'.sessions ensures RowOk(w', h, id) {
      assert RowOk(w, h, id);
      if id in h { assert LogOk(w, h, id); }
    }
    forall id | id in h ensures LogOk(w', h, id) { assert LogOk(w, h, id); }
    forall i | i in w'.procs && i != pid ensures ProcOk(w', h, w'.procs[i]) { assert ProcOk(w, h, w.procs[i]); }
  }

  /** The sweep's two reads: a key listed before the ids were read, whose
      session is then not live, belongs to a session that can never be live. */
  lemma SweepLookKeeps(w: World, h: History, a: Action)
    requires Inv(w, h) && (a.SweepList? || a.SweepIds?)
    ensures Inv(Step(w, a), h)
  {
    hide Content, ChunksOf;
    var w' := Step(w, a);
    if w' != w {
      var p := w.procs[a.pid];
      assert ProcOk(w, h, p);
      if a.SweepList? {
        MovesOn(w, h, a.pid, SweepListed(w.objects.Keys));
      } else {
        MovesOn(w, h, a.pid, SweepOrphans(set k | k in p.listed && k.session !in w.sessions));
      }
    }
  }

  lemma {:induction false} RunKeepsInv(w: World, h: History, trace: seq<Action>)
    requires Inv(w, h)
    ensures Inv(Run(w, trace), Observed(w, trace, h))
    decreases |trace|
  {
    if trace != [] {
      StepKeepsInv(w, h, trace[0]);
      RunKeepsInv(Step(w, trace[0]), Observe(w, trace[0], h), trace[1..]);
    }
  }

  // ---- Main results ----

  lemma {:induction false} RowHoldsLog(objects: map<Key, Bytes>, log: seq<Entry>)
    requires forall e :: e in log ==> e.key in objects && objects[e.key] == e.body
    ensures forall i :: 0 <= i < |log| ==> ChunksOf(log)[i].key in objects
    ensures Stored(objects, ChunksOf(log)) == Content(log)
    ensures SumSizes(ChunksOf(log)) == |Content(log)|
    decreases |log|
  {
    forall i | 0 <= i < |log| ensures ChunksOf(log)[i].key in objects { assert log[i] in log; }
    if log != [] {
      var front := log[..|log| - 1];
      assert ChunksOf(log)[..|log| - 1] == ChunksOf(front);
      assert log[|log| - 1] in log;
      RowHoldsLog(objects, front);
    }
  }

  /** For every interleaving of any number of requests with crashes, sweeps and
      failures: a live session's offset is the sum of its chunk sizes, its chunk
      objects are stored and concatenate to exactly the bodies whose lock step
      succeeded, in lock order, and each of these started at the offset its
      caller expected. */
  lemma StagedContentIsExact(w0: World, trace: seq<Action>, id: Id)
    requires Start(w0) && id in Run(w0, trace).sessions
    ensures var w := Run(w0, trace); var log := Log(Observed(w0, trace, map[]), id); var row := w.sessions[id];
            && row.offset == SumSizes(row.chunks) == |Content(log)|
            && (forall i :: 0 <= i < |row.chunks| ==> row.chunks[i].key in w.objects)
            && Stored(w.objects, row.chunks) == Content(log)
            && (forall i :: 0 <= i < |log| ==> log[i].expected == |Content(log[..i])|)
  {
    RunKeepsInv(w0, map[], trace);
    var w, h := Run(w0, trace), Observed(w0, trace, map[]);
    assert RowOk(w, h, id);
    assert id in h ==> LogOk(w, h, id);
    RowHoldsLog(w.objects, Log(h, id));
  }

  /** A chunk object never changes: at any later time it is gone or it holds the
      body it was accepted with, even when its session is long dead. A reader
      that opened the session earlier gets the right bytes or an error. */
  lemma AcceptedObjectsNeverChange(w0: World, trace: seq<Action>, id: Id, e: Entry)
    requires Start(w0) && e in Log(Observed(w0, trace, map[]), id)
    ensures var w := Run(w0, trace); e.key in w.objects ==> w.objects[e.key] == e.body
  {
    RunKeepsInv(w0, map[], trace);
    assert LogOk(Run(w0, trace), Observed(w0, trace, map[]), id);
  }

  lemma {:induction false} DeadStaysDead(w: World, id: Id, trace: seq<Action>)
    requires Dead(w, id)
    ensures Dead(Run(w, trace), id)
    decreases |trace|
  {
    if trace != [] {
      assert Dead(Step(w, trace[0]), id);
      DeadStaysDead(Step(w, trace[0]), id, trace[1..]);
    }
  }

  /** A sweep, or the removal of a session, never deletes an object of a session
      that is live then or at any later time. */
  lemma DeletesOnlyOfTheDead(w0: World, trace: seq<Action>, a: Action, k: Key, later: seq<Action>)
    requires Start(w0) && (a.DeleteNext? || a.SweepDelete?)
    requires k in Run(w0, trace).objects && k !in Step(Run(w0, trace), a).objects
    ensures k.session !in Run(w0, trace).sessions
    ensures k.session !in Run(Step(Run(w0, trace), a), later).sessions
  {
    var w, h := Run(w0, trace), Observed(w0, trace, map[]);
    RunKeepsInv(w0, map[], trace);
    hide Run, Observed;
    DeletedIsDead(w, h, a, k);
    hide Step;
    DeadStaysDead(Step(w, a), k.session, later);
  }

  lemma DeletedIsDead(w: World, h: History, a: Action, k: Key)
    requires Inv(w, h) && (a.DeleteNext? || a.SweepDelete?) && k in w.objects && k !in Step(w, a).objects
    ensures Dead(w, k.session) && Dead(Step(w, a), k.session)
  {
    hide Content, ChunksOf, RowOk, LogOk, OneOwner, NamesUsed;
    assert ProcOk(w, h, w.procs[a.pid]);
  }

  // ---- Sequence numbers ----

  lemma {:induction false} ContentGrows(log: seq<Entry>, n: nat)
    requires n <= |log|
    ensures |Content(log[..n])| <= |Content(log)|
    ensures |Content(log[..n])| == |Content(log)| ==> forall j :: n <= j < |log| ==> log[j].body == []
    decreases |log|
  {
    if n == |log| {
      assert log[..n] == log;
    } else {
      var front := log[..|log| - 1];
      assert front[..n] == log[..n];
      ContentGrows(front, n);
    }
  }

  /** The sequence number of a chunk was the number of chunks at a time when the
      session already stood at the expected offset. */
  predicate SeqOk(log: seq<Entry>, expected: nat, seqNo: nat) {
    seqNo <= |log| && |Content(log[..seqNo])| == expected
  }

  /** What an append in flight has read: the session, its offset and its number
      of chunks. */
  datatype Claim = NoClaim | Claim(id: Id, expected: nat, seqNo: nat)

  function ClaimOf(p: Proc): Claim {
    match p
    case Putting(id, expected, key, _) => Claim(id, expected, key.seqNo)
    case Locking(id, expected, chunk, _) => Claim(id, expected, chunk.key.seqNo)
    case _ => NoClaim
  }

  predicate ClaimOk(h: History, c: Claim) {
    c.Claim? ==> SeqOk(Log(h, c.id), c.expected, c.seqNo)
  }

  predicate SeqInv(w: World, h: History) {
    && (forall pid :: pid in w.procs ==> ClaimOk(h, ClaimOf(w.procs[pid])))
    && forall id, i :: id in h && 0 <= i < |h[id]| ==> SeqOk(h[id][..i], h[id][i].expected, h[id][i].key.seqNo)
  }

  lemma SeqOkLater(log: seq<Entry>, e: Entry, expected: nat, seqNo: nat)
    requires SeqOk(log, expected, seqNo)
    ensures SeqOk(log + [e], expected, seqNo)
  {
    assert (log + [e])[..seqNo] == log[..seqNo];
  }

  /** Only reading the session makes a claim. */
  lemma ClaimsComeFromReads(w: World, a: Action, pid: Pid)
    requires !a.AppendRead? && pid in Step(w, a).procs
    ensures var c := ClaimOf(Step(w, a).procs[pid]); c.Claim? ==> pid in w.procs && ClaimOf(w.procs[pid]) == c
  {
  }

  lemma StepKeepsSeqInv(w: World, h: History, a: Action)
    requires Inv(w, h) && SeqInv(w, h)
    ensures SeqInv(Step(w, a), Observe(w, a, h))
  {
    var w', h' := Step(w, a), Observe(w, a, h);
    if a.AppendRead? {
      hide Content, ChunksOf;
      if w' != w {
        assert RowOk(w, h, a.id);
        var log := Log(h, a.id);
        assert log[..|log|] == log;
        assert ClaimOk(h, ClaimOf(w'.procs[a.pid]));
      }
    } else {
      forall pid | pid in w'.procs ensures ClaimOk(h, ClaimOf(w'.procs[pid])) { ClaimsComeFromReads(w, a, pid); }
      if Wins(w, a) {
        var p := w.procs[a.pid];
        hide Step;
        WinKeepsSeqInv(w, h, p, w', h');
      }
    }
  }

  lemma WinKeepsSeqInv(w: World, h: History, p: Proc, w': World, h': History)
    requires SeqInv(w, h) && p.Locking? && ClaimOk(h, ClaimOf(p))
    requires h' == h[p.id := Log(h, p.id) + [Entry(p.expected, p.body, p.chunk.key)]]
    requires forall i :: i in w'.procs ==> ClaimOk(h, ClaimOf(w'.procs[i]))
    ensures SeqInv(w', h')
  {
    hide Content;
    var e, log := Entry(p.expected, p.body, p.chunk.key), Log(h, p.id);
    assert h'[p.id] == log + [e];
    forall pid | pid in w'.procs ensures ClaimOk(h', ClaimOf(w'.procs[pid])) {
      var c := ClaimOf(w'.procs[pid]);
      if c.Claim? && c.id == p.id { SeqOkLater(log, e, c.expected, c.seqNo); }
    }
    forall i | 0 <= i < |log| + 1
      ensures SeqOk((log + [e])[..i], (log + [e])[i].expected, (log + [e])[i].key.seqNo)
    {
      assert (log + [e])[..i] == log[..i];
      if i == |log| { assert log[..i] == log; } else { assert log[i] == h[p.id][i]; }
    }
  }

  lemma {:induction false} RunKeepsSeqInv(w: World, h: History, trace: seq<Action>)
    requires Inv(w, h) && SeqInv(w, h)
    ensures SeqInv(Run(w, trace), Observed(w, trace, h))
    decreases |trace|
  {
    if trace != [] {
      StepKeepsInv(w, h, trace[0]);
      StepKeepsSeqInv(w, h, trace[0]);
      RunKeepsSeqInv(Step(w, trace[0]), Observe(w, trace[0], h), trace[1..]);
    }
  }

  /** The exact reach of the offset-only lock: an accepted chunk's sequence
      number is its index, less the appends accepted between its read and its
      lock, and every one of these was empty. */
  lemma SeqLagsOnlyOverEmptyChunks(w0: World, trace: seq<Action>, id: Id, i: nat)
    requires Start(w0) && i < |Log(Observed(w0, trace, map[]), id)|
    ensures var log := Log(Observed(w0, trace, map[]), id); var seqNo := log[i].key.seqNo;
            seqNo <= i && forall j :: seqNo <= j < i ==> log[j].body == []
  {
    RunKeepsSeqInv(w0, map[], trace);
    RunKeepsInv(w0, map[], trace);
    var h := Observed(w0, trace, map[]);
    var log := Log(h, id);
    assert LogOk(Run(w0, trace), h, id);
    assert SeqOk(h[id][..i], h[id][i].expected, h[id][i].key.seqNo);
    ContentGrows(log[..i], log[i].key.seqNo);
    forall j | log[i].key.seqNo <= j < i ensures log[j].body == [] { assert log[..i][j] == log[j]; }
  }

  const NOTHING := World(map[], map[], {}, {}, map[])

  /** Two appends have read the same empty session. */
  function BothRead(body: Bytes): World {
    World(map[0 := Session("", "", 0, [])], map[], {0}, {ChunkKey(0, 0, 0), ChunkKey(0, 0, 1)},
          map[0 := Putting(0, 0, ChunkKey(0, 0, 0), []), 1 := Putting(0, 0, ChunkKey(0, 0, 1), body)])
  }

  lemma ThreeSteps(w: World, a: Action, b: Action, c: Action, rest: seq<Action>)
    ensures Run(w, [a, b, c] + rest) == Run(Step(Step(Step(w, a), b), c), rest)
  {
    hide Step;
    var t := [a, b, c] + rest;
    assert t[1..] == [b, c] + rest && ([b, c] + rest)[1..] == [c] + rest && ([c] + rest)[1..] == rest;
    assert Run(w, t) == Run(Step(w, a), [b, c] + rest);
    assert Run(Step(w, a), [b, c] + rest) == Run(Step(Step(w, a), b), [c] + rest);
  }

  lemma ReadsAreConcurrent(body: Bytes)
    ensures Step(Step(Step(NOTHING, Create(0, "", "")), AppendRead(0, 0, 0, [], 0)), AppendRead(1, 0, 0, body, 1))
         == BothRead(body)
  {
  }

  lemma BothWin(body: Bytes)
    ensures var w := Step(Step(Step(Step(BothRead(body), PutDone(0)), PutDone(1)), Lock(0)), Lock(1));
            0 in w.sessions && w.sessions[0].offset == |body|
            && w.sessions[0].chunks == [Chunk(0, 0, ChunkKey(0, 0, 0)), Chunk(0, |body|, ChunkKey(0, 0, 1))]
  {
    var w := Step(Step(BothRead(body), PutDone(0)), PutDone(1));
    assert w.sessions[0] == Session("", "", 0, []);
    assert w.procs[0] == Locking(0, 0, Chunk(0, 0, ChunkKey(0, 0, 0)), []);
    assert w.procs[1] == Locking(0, 0, Chunk(0, |body|, ChunkKey(0, 0, 1)), body);
    var w' := Step(w, Lock(0));
    assert w'.sessions[0] == Session("", "", 0, [Chunk(0, 0, ChunkKey(0, 0, 0))]);
  }

  /** And it does repeat: an empty append and a full one that both read an empty
      session are both accepted, with the same sequence number. */
  lemma SeqMayRepeat(body: Bytes)
    ensures var trace := [Create(0, "", ""), AppendRead(0, 0, 0, [], 0), AppendRead(1, 0, 0, body, 1),
                          PutDone(0), PutDone(1), Lock(0), Lock(1)];
            var rows := Run(NOTHING, trace).sessions;
            0 in rows && rows[0].offset == |body| && |rows[0].chunks| == 2
            && rows[0].chunks[0].seqNo == rows[0].chunks[1].seqNo
  {
    ReadsAreConcurrent(body);
    BothWin(body);
    hide Step, BothRead;
    ThreeSteps(NOTHING, Create(0, "", ""), AppendRead(0, 0, 0, [], 0), AppendRead(1, 0, 0, body, 1),
               [PutDone(0), PutDone(1), Lock(0), Lock(1)]);
    ThreeSteps(BothRead(body), PutDone(0), PutDone(1), Lock(0), [Lock(1)]);
    assert [PutDone(0), PutDone(1), Lock(0)] + [Lock(1)] == [PutDone(0), PutDone(1), Lock(0), Lock(1)];
    assert [Create(0, "", ""), AppendRead(0, 0, 0, [], 0), AppendRead(1, 0, 0, body, 1)]
           + [PutDone(0), PutDone(1), Lock(0), Lock(1)]
        == [Create(0, "", ""), AppendRead(0, 0, 0, [], 0), AppendRead(1, 0, 0, body, 1),
            PutDone(0), PutDone(1), Lock(0), Lock(1)];
    var w := Step(Step(Step(BothRead(body), PutDone(0)), PutDone(1)), Lock(0));
    assert [Lock(1)][1..] == [];
    assert Run(w, [Lock(1)]) == Step(w, Lock(1));
  }
}
