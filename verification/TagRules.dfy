/** Tag rules (store/tagrules.go): immutable tags are not re-pointed, protected
    tags are not deleted, nor the manifests they name.

    Each guarded operation is a check followed by a write. `Step` lets operations
    of different requests interleave between the two; only the row that a guarded
    upsert found is locked until it writes, for `FOR UPDATE` locks no absent row.
    Rules may come and go at any time. */
module TagRules {
  import opened Wrappers
  import opened Glob

  type Org = nat
  type Repo = nat
  type Tag = string
  type Digest = nat
  type Pid = nat

  /** A row of tag_rules; without a repository it holds for the organization. */
  datatype TagRule = TagRule(org: Org, repo: Option<Repo>, pattern: string, immutable: bool, protected: bool)

  datatype Key = Key(repo: Repo, tag: Tag)
  datatype Manifest = Manifest(repo: Repo, digest: Digest)
  datatype Want = Immutable | Protected

  predicate Wants(want: Want, r: TagRule) {
    match want
    case Immutable => r.immutable
    case Protected => r.protected
  }

  /** An operation between its check and its write. */
  datatype Pending =
    | Upserting(key: Key, digest: Digest, seen: Option<Digest>)
    | DroppingTag(key: Key)
    | DroppingManifest(manifest: Manifest)

  datatype State = State(
    orgOf: Repo -> Org, rules: seq<TagRule>, tags: map<Key, Digest>, manifests: set<Manifest>,
    pending: map<Pid, Pending>)

  datatype Action =
    | StoreManifest(manifest: Manifest)
    | SetRules(rules: seq<TagRule>)
    | ReadTag(pid: Pid, key: Key, digest: Digest)
    | WriteTag(pid: Pid)
    | CheckTagDelete(pid: Pid, key: Key)
    | DropTag(pid: Pid)
    | CheckManifestDelete(pid: Pid, manifest: Manifest)
    | DropManifest(pid: Pid)
    | Abort(pid: Pid)

  // ---- Rules ----

  predicate Applies(r: TagRule, org: Org, repo: Repo) {
    r.org == org && (r.repo.None? || r.repo.value == repo)
  }

  /** Some rule of the repository or its organization says so for the tag. */
  predicate Covered(s: State, key: Key, want: Want) {
    exists r :: r in s.rules && Applies(r, s.orgOf(key.repo), key.repo) && Wants(want, r)
                && GlobAnswer(r.pattern, key.tag)
  }

  // ---- Steps ----

  /** A guarded upsert that found the row holds its lock. */
  predicate LockedBy(s: State, pid: Pid, key: Key) {
    pid in s.pending && s.pending[pid].Upserting? && s.pending[pid].key == key && s.pending[pid].seen.Some?
  }

  predicate Blocked(s: State, pid: Pid, key: Key) {
    exists other :: other in s.pending && other != pid && LockedBy(s, other, key)
  }

  predicate Names(tags: map<Key, Digest>, key: Key, m: Manifest) {
    key in tags && key.repo == m.repo && tags[key] == m.digest
  }

  function Found(s: State, key: Key): Option<Digest> {
    if key in s.tags then Some(s.tags[key]) else None
  }

  predicate RefusesUpsert(s: State, key: Key, digest: Digest) {
    key in s.tags && s.tags[key] != digest && Covered(s, key, Immutable)
  }

  predicate RefusesManifestDelete(s: State, m: Manifest) {
    exists key :: key in s.tags && Names(s.tags, key, m) && Covered(s, key, Protected)
  }

  function Step(s: State, a: Action): State {
    match a
    case StoreManifest(m) => s.(manifests := s.manifests + {m})
    case SetRules(rules) => s.(rules := rules)
    case ReadTag(pid, key, digest) =>
      if pid in s.pending || Blocked(s, pid, key) || RefusesUpsert(s, key, digest) then s
      else s.(pending := s.pending[pid := Upserting(key, digest, Found(s, key))])
    case WriteTag(pid) =>
      if pid in s.pending && s.pending[pid].Upserting? && !Blocked(s, pid, s.pending[pid].key) then
        var p := s.pending[pid];
        if Manifest(p.key.repo, p.digest) in s.manifests then
          s.(tags := s.tags[p.key := p.digest], pending := s.pending - {pid})
        else s.(pending := s.pending - {pid})
      else s
    case CheckTagDelete(pid, key) =>
      if pid in s.pending || Covered(s, key, Protected) then s
      else s.(pending := s.pending[pid := DroppingTag(key)])
    case DropTag(pid) =>
      if pid in s.pending && s.pending[pid].DroppingTag? && !Blocked(s, pid, s.pending[pid].key) then
        s.(tags := s.tags - {s.pending[pid].key}, pending := s.pending - {pid})
      else s
    case CheckManifestDelete(pid, m) =>
      if pid in s.pending || RefusesManifestDelete(s, m) then s
      else s.(pending := s.pending[pid := DroppingManifest(m)])
    case DropManifest(pid) =>
      if pid in s.pending && s.pending[pid].DroppingManifest?
         && forall key :: key in s.tags && Names(s.tags, key, s.pending[pid].manifest) ==> !Blocked(s, pid, key) then
        var m := s.pending[pid].manifest;
        s.(manifests := s.manifests - {m}, pending := s.pending - {pid},
           tags := map key | key in s.tags && !Names(s.tags, key, m) :: s.tags[key])
      else s
    case Abort(pid) => s.(pending := s.pending - {pid})
  }

  function Run(s: State, trace: seq<Action>): State
    decreases |trace|
  {
    if trace == [] then s else Run(Step(s, trace[0]), trace[1..])
  }

  /** The tags' foreign key, and what the row locks are worth: a locked row is
      what its holder read, and has one holder. */
  predicate Inv(s: State) {
    && (forall key :: key in s.tags ==> Manifest(key.repo, s.tags[key]) in s.manifests)
    && (forall pid :: pid in s.pending ==> LockOk(s, pid))
    && (forall p, q :: p in s.pending && q in s.pending && p != q ==> !SameLock(s.pending[p], s.pending[q]))
  }

  predicate LockOk(s: State, pid: Pid)
    requires pid in s.pending
  {
    var p := s.pending[pid];
    p.Upserting? && p.seen.Some? ==> p.key in s.tags && s.tags[p.key] == p.seen.value
  }

  predicate SameLock(p: Pending, q: Pending) {
    p.Upserting? && q.Upserting? && p.seen.Some? && q.seen.Some? && p.key == q.key
  }

  lemma StepKeepsInv(s: State, a: Action)
    requires Inv(s)
    ensures Inv(Step(s, a))
  {
    hide Covered, RefusesUpsert, RefusesManifestDelete;
  }

  lemma {:induction false} RunAppend(s: State, a: seq<Action>, b: seq<Action>)
    ensures Run(s, a + b) == Run(Run(s, a), b)
    decreases |a|
  {
    hide Step;
    if a == [] {
      assert a + b == b;
    } else {
      assert (a + b)[1..] == a[1..] + b;
      RunAppend(Step(s, a[0]), a[1..], b);
    }
  }

  lemma {:induction false} RunKeepsInv(s: State, trace: seq<Action>)
    requires Inv(s)
    ensures Inv(Run(s, trace))
    decreases |trace|
  {
    if trace != [] {
      StepKeepsInv(s, trace[0]);
      hide Step, Inv;
      RunKeepsInv(Step(s, trace[0]), trace[1..]);
    }
  }

  // ---- A covered tag keeps its manifest ----

  /** In every state of the run some rule covers the tag. Which one may change. */
  predicate CoveredThroughout(s: State, trace: seq<Action>, key: Key, want: Want)
    decreases |trace|
  {
    Covered(s, key, want) && (trace == [] || CoveredThroughout(Step(s, trace[0]), trace[1..], key, want))
  }

  /** An operation that passed its check already and would move the tag. */
  predicate Threatens(p: Pending, key: Key, digest: Digest) {
    match p
    case Upserting(k, d, _) => k == key && d != digest
    case DroppingTag(k) => k == key
    case DroppingManifest(m) => m == Manifest(key.repo, digest)
  }

  predicate Settled(s: State, key: Key, digest: Digest) {
    forall pid :: pid in s.pending ==> !Threatens(s.pending[pid], key, digest)
  }

  predicate Bound(s: State, key: Key, digest: Digest) {
    key in s.tags && s.tags[key] == digest && Manifest(key.repo, digest) in s.manifests
  }

  lemma StepKeepsSettled(s: State, a: Action, key: Key, digest: Digest)
    requires Bound(s, key, digest) && Settled(s, key, digest)
    requires Covered(s, key, Immutable) && Covered(s, key, Protected)
    ensures Bound(Step(s, a), key, digest) && Settled(Step(s, a), key, digest)
  {
    hide Covered;
    if a.CheckManifestDelete? && a.manifest == Manifest(key.repo, digest) {
      assert Names(s.tags, key, a.manifest);
    }
  }

  /** A tag that rules keep both immutable and protected stays bound to its
      manifest, which is never deleted, however the requests interleave: unless
      one was past its check before. */
  lemma {:induction false} CoveredTagStaysBound(s: State, trace: seq<Action>, key: Key, digest: Digest)
    requires Bound(s, key, digest) && Settled(s, key, digest)
    requires CoveredThroughout(s, trace, key, Immutable) && CoveredThroughout(s, trace, key, Protected)
    ensures Bound(Run(s, trace), key, digest)
    decreases |trace|
  {
    if trace != [] {
      StepKeepsSettled(s, trace[0], key, digest);
      hide Step, Covered, Bound, Settled;
      CoveredTagStaysBound(Step(s, trace[0]), trace[1..], key, digest);
    }
  }

  /** Ending the given requests changes nothing else. */
  function Aborts(pids: seq<Pid>): seq<Action> {
    seq(|pids|, i requires 0 <= i < |pids| => Abort(pids[i]))
  }

  lemma {:induction false} AbortedAreGone(s: State, pids: seq<Pid>)
    ensures Run(s, Aborts(pids)) == s.(pending := s.pending - Elements(pids))
    decreases |pids|
  {
    if pids == [] {
      assert s.pending - Elements(pids) == s.pending;
    } else {
      var t := Step(s, Abort(pids[0]));
      assert Aborts(pids)[1..] == Aborts(pids[1..]);
      AbortedAreGone(t, pids[1..]);
      assert t.pending - Elements(pids[1..]) == s.pending - Elements(pids);
    }
  }

  function Elements(pids: seq<Pid>): set<Pid> {
    set p | p in pids
  }

  lemma {:induction false} ListOf(pids: set<Pid>) returns (list: seq<Pid>)
    ensures Elements(list) == pids
    decreases |pids|
  {
    if pids == {} {
      list := [];
    } else {
      var p :| p in pids;
      var rest := ListOf(pids - {p});
      list := [p] + rest;
      forall q ensures q in Elements(list) <==> q in pids {
        assert q in Elements(rest) <==> q in pids - {p};
      }
    }
  }

  predicate LeavesRules(trace: seq<Action>) {
    forall i :: 0 <= i < |trace| ==> !trace[i].SetRules?
  }

  /** What the threatening request does next. */
  function Blow(s: State, pid: Pid): seq<Action>
    requires pid in s.pending
  {
    match s.pending[pid]
    case Upserting(key, d, _) => [StoreManifest(Manifest(key.repo, d)), WriteTag(pid)]
    case DroppingTag(_) => [DropTag(pid)]
    case DroppingManifest(_) => [DropManifest(pid)]
  }

  lemma BlowUnbinds(s: State, pid: Pid, key: Key, digest: Digest)
    requires Bound(s, key, digest) && pid in s.pending && Threatens(s.pending[pid], key, digest)
    requires s.pending.Keys == {pid}
    ensures !Bound(Run(s, Blow(s, pid)), key, digest)
  {
    var p := s.pending[pid];
    assert forall k :: !Blocked(s, pid, k);
    var blow := Blow(s, pid);
    var t := Step(s, blow[0]);
    assert blow[1..] == [] || blow[1..][1..] == [];
    assert Run(t, []) == t;
    if p.Upserting? {
      assert blow[1..] == [WriteTag(pid)];
      assert forall k :: !Blocked(t, pid, k);
      assert Run(Step(t, WriteTag(pid)), []) == Step(t, WriteTag(pid));
    }
  }

  lemma {:induction false} UntouchedRulesStillCover(s: State, trace: seq<Action>, key: Key, want: Want)
    requires LeavesRules(trace) && Covered(s, key, want)
    ensures CoveredThroughout(s, trace, key, want)
    decreases |trace|
  {
    if trace != [] {
      var t := Step(s, trace[0]);
      assert t.rules == s.rules && t.orgOf == s.orgOf;
      assert Covered(t, key, want);
      assert LeavesRules(trace[1..]);
      hide Step, Covered;
      UntouchedRulesStillCover(t, trace[1..], key, want);
    }
  }

  /** From the moment on that rules cover a tag, it is safe exactly when no
      request is past its check that would move it. */
  lemma BoundForGoodIffSettled(s: State, key: Key, digest: Digest)
    requires Bound(s, key, digest) && Covered(s, key, Immutable) && Covered(s, key, Protected)
    ensures Settled(s, key, digest) <==>
              forall trace ::
                CoveredThroughout(s, trace, key, Immutable) && CoveredThroughout(s, trace, key, Protected)
                ==> Bound(Run(s, trace), key, digest)
  {
    if Settled(s, key, digest) {
      forall trace | CoveredThroughout(s, trace, key, Immutable) && CoveredThroughout(s, trace, key, Protected)
        ensures Bound(Run(s, trace), key, digest)
      {
        CoveredTagStaysBound(s, trace, key, digest);
      }
    } else {
      var pid :| pid in s.pending && Threatens(s.pending[pid], key, digest);
      var trace := UnsettledCanBreak(s, pid, key, digest);
      assert !Bound(Run(s, trace), key, digest);
    }
  }

  lemma UnsettledCanBreak(s: State, pid: Pid, key: Key, digest: Digest) returns (trace: seq<Action>)
    requires Bound(s, key, digest) && Covered(s, key, Immutable) && Covered(s, key, Protected)
    requires pid in s.pending && Threatens(s.pending[pid], key, digest)
    ensures CoveredThroughout(s, trace, key, Immutable) && CoveredThroughout(s, trace, key, Protected)
    ensures !Bound(Run(s, trace), key, digest)
  {
    hide Covered, Step;
    var others := ListOf(s.pending.Keys - {pid});
    AbortedAreGone(s, others);
    var t := s.(pending := s.pending - Elements(others));
    assert t.pending.Keys == s.pending.Keys - (s.pending.Keys - {pid}) == {pid};
    BlowUnbinds(t, pid, key, digest);
    trace := Aborts(others) + Blow(t, pid);
    RunAppend(s, Aborts(others), Blow(t, pid));
    UntouchedRulesStillCover(s, trace, key, Immutable);
    UntouchedRulesStillCover(s, trace, key, Protected);
  }

  // ---- What the row lock is worth ----

  /** A guarded upsert of the tag that found a row found the digest it writes. */
  predicate SeenIsOwn(s: State, key: Key) {
    forall pid :: pid in s.pending && LockedBy(s, pid, key) ==> s.pending[pid].seen == Some(s.pending[pid].digest)
  }

  lemma StepKeepsSeenIsOwn(s: State, a: Action, key: Key)
    requires SeenIsOwn(s, key) && Covered(s, key, Immutable)
    ensures SeenIsOwn(Step(s, a), key)
  {
    hide Covered;
  }

  lemma RepointIsBlind(s: State, a: Action, key: Key)
    requires Inv(s) && SeenIsOwn(s, key)
    requires key in s.tags && key in Step(s, a).tags && Step(s, a).tags[key] != s.tags[key]
    ensures a.WriteTag? && a.pid in s.pending && s.pending[a.pid].Upserting?
            && s.pending[a.pid].key == key && s.pending[a.pid].seen.None?
  {
    if a.WriteTag? {
      var pid := a.pid;
      assert pid in s.pending && LockOk(s, pid);
      assert s.pending[pid].Upserting? && s.pending[pid].seen.Some? ==> LockedBy(s, pid, s.pending[pid].key);
    }
  }

  /** While a rule keeps a tag immutable, a step that re-points it is the write of
      a guarded upsert that found no row. Here the tag need not be protected: it
      may be deleted and pushed again while an upsert is on its way. */
  lemma {:induction false} OnlyBlindWritesRepoint(s: State, trace: seq<Action>, a: Action, key: Key)
    requires Inv(s) && SeenIsOwn(s, key) && CoveredThroughout(s, trace, key, Immutable)
    requires var t := Run(s, trace);
             key in t.tags && key in Step(t, a).tags && Step(t, a).tags[key] != t.tags[key]
    ensures var t := Run(s, trace);
            && a.WriteTag? && a.pid in t.pending && t.pending[a.pid].Upserting?
            && t.pending[a.pid].key == key && t.pending[a.pid].seen.None?
    decreases |trace|
  {
    if trace == [] {
      RepointIsBlind(s, a, key);
    } else {
      StepKeepsInv(s, trace[0]);
      StepKeepsSeenIsOwn(s, trace[0], key);
      hide Inv, SeenIsOwn, Covered;
      OnlyBlindWritesRepoint(Step(s, trace[0]), trace[1..], a, key);
    }
  }

  /** Such a write exists: two first pushes of an immutable tag both find no row,
      and the second re-points what the first has just bound. */
  lemma TwoFirstPushesRace(s: State, key: Key, d1: Digest, d2: Digest)
    requires s.pending == map[] && key !in s.tags && d1 != d2 && Covered(s, key, Immutable)
    requires {Manifest(key.repo, d1), Manifest(key.repo, d2)} <= s.manifests
    ensures CoveredThroughout(s, [ReadTag(1, key, d1), ReadTag(2, key, d2), WriteTag(1), WriteTag(2)], key, Immutable)
    ensures var t := Run(s, [ReadTag(1, key, d1), ReadTag(2, key, d2), WriteTag(1)]);
            Bound(t, key, d1) && Bound(Step(t, WriteTag(2)), key, d2)
  {
    UntouchedRulesStillCover(s, [ReadTag(1, key, d1), ReadTag(2, key, d2), WriteTag(1), WriteTag(2)], key, Immutable);
    hide Covered, CoveredThroughout, Blocked, RefusesUpsert;
    BothReadNothing(s, key, d1, d2);
    var s2 := s.(pending := map[1 := Upserting(key, d1, None), 2 := Upserting(key, d2, None)]);
    var s3 := s2.(tags := s.tags[key := d1], pending := map[2 := Upserting(key, d2, None)]);
    BlindWrite(s2, 1);
    BlindWrite(s3, 2);
    assert s2.pending - {1} == s3.pending;
    hide Step;
    RunThree(s, ReadTag(1, key, d1), ReadTag(2, key, d2), WriteTag(1));
  }

  lemma RunThree(s: State, a: Action, b: Action, c: Action)
    ensures Run(s, [a, b, c]) == Step(Step(Step(s, a), b), c)
  {
    hide Step;
    assert [a, b, c][1..] == [b, c] && [b, c][1..] == [c] && [c][1..] == [];
    assert Run(Step(Step(s, a), b), [c]) == Step(Step(Step(s, a), b), c);
  }

  lemma BothReadNothing(s: State, key: Key, d1: Digest, d2: Digest)
    requires s.pending == map[] && key !in s.tags
    ensures Step(Step(s, ReadTag(1, key, d1)), ReadTag(2, key, d2))
         == s.(pending := map[1 := Upserting(key, d1, None), 2 := Upserting(key, d2, None)])
  {
    hide Covered;
    var s1 := s.(pending := map[1 := Upserting(key, d1, None)]);
    assert Step(s, ReadTag(1, key, d1)) == s1;
    assert !Blocked(s1, 2, key);
    assert s1.pending[2 := Upserting(key, d2, None)]
        == map[1 := Upserting(key, d1, None), 2 := Upserting(key, d2, None)];
  }

  lemma BlindWrite(s: State, pid: Pid)
    requires pid in s.pending && s.pending[pid].Upserting?
    requires forall p :: p in s.pending && s.pending[p].Upserting? ==> s.pending[p].seen.None?
    requires Manifest(s.pending[pid].key.repo, s.pending[pid].digest) in s.manifests
    ensures Step(s, WriteTag(pid)) ==
              s.(tags := s.tags[s.pending[pid].key := s.pending[pid].digest], pending := s.pending - {pid})
  {
  }

  // ---- In the rules' own terms ----

  /** A rule of the repository or its whole organization makes the tag immutable. */
  predicate MarkedImmutable(s: State, key: Key) {
    exists r :: r in s.rules && r.org == s.orgOf(key.repo) && (r.repo == None || r.repo == Some(key.repo))
                && r.immutable && Matches(r.pattern, key.tag)
  }

  /** And one protects it. */
  predicate MarkedProtected(s: State, key: Key) {
    exists r :: r in s.rules && r.org == s.orgOf(key.repo) && (r.repo == None || r.repo == Some(key.repo))
                && r.protected && Matches(r.pattern, key.tag)
  }

  /** On the tags the registry accepts, which have no star, covered means that a
      rule of the right scope has the flag and a pattern that matches. */
  lemma CoveredMeansMatched(s: State, key: Key)
    requires StarFree(key.tag)
    ensures Covered(s, key, Immutable) <==> MarkedImmutable(s, key)
    ensures Covered(s, key, Protected) <==> MarkedProtected(s, key)
  {
    forall r: TagRule ensures GlobAnswer(r.pattern, key.tag) <==> Matches(r.pattern, key.tag) {
      DecidesStarFreeNames(r.pattern, key.tag);
    }
    hide GlobAnswer, Matches;
  }

  /** A covered tag in the rules' own terms, for good: if from some moment on rules
      mark it immutable and protected, and no request is past its check, it keeps
      its manifest. */
  lemma MarkedTagStaysBound(s: State, trace: seq<Action>, key: Key, digest: Digest)
    requires StarFree(key.tag) && Bound(s, key, digest) && Settled(s, key, digest)
    requires forall n :: 0 <= n <= |trace| ==>
               MarkedImmutable(Run(s, trace[..n]), key) && MarkedProtected(Run(s, trace[..n]), key)
    ensures Bound(Run(s, trace), key, digest)
  {
    hide MarkedImmutable, MarkedProtected, Bound, Settled, Run;
    MarkedIsCovered(s, trace, key, Immutable);
    MarkedIsCovered(s, trace, key, Protected);
    CoveredTagStaysBound(s, trace, key, digest);
  }

  lemma {:induction false} MarkedIsCovered(s: State, trace: seq<Action>, key: Key, want: Want)
    requires StarFree(key.tag)
    requires forall n :: 0 <= n <= |trace| ==>
               if want == Immutable then MarkedImmutable(Run(s, trace[..n]), key)
               else MarkedProtected(Run(s, trace[..n]), key)
    ensures CoveredThroughout(s, trace, key, want)
    decreases |trace|
  {
    hide MarkedImmutable, MarkedProtected, Covered, Step, StarFree;
    CoveredMeansMatched(s, key);
    assert Run(s, trace[..0]) == s;
    if trace != [] {
      var t, rest := Step(s, trace[0]), trace[1..];
      forall n | 0 <= n <= |rest|
        ensures if want == Immutable then MarkedImmutable(Run(t, rest[..n]), key)
                else MarkedProtected(Run(t, rest[..n]), key)
      {
        assert trace[..n + 1][1..] == rest[..n] && trace[..n + 1][0] == trace[0];
        assert Run(s, trace[..n + 1]) == Run(t, rest[..n]);
      }
      MarkedIsCovered(t, rest, key, want);
    }
  }

  // ---- The store's functions ----

  predicate Hits(r: TagRule, tag: Tag, want: Want) {
    Wants(want, r) && GlobAnswer(r.pattern, tag)
  }

  class Store {
    var s: State

    constructor (s: State)
      ensures this.s == s
    {
      this.s := s;
    }

    /** The repository's own rules, then its organization's. */
    method TagRulesFor(repo: Repo) returns (rules: seq<TagRule>)
      ensures forall r :: r in rules <==> r in s.rules && Applies(r, s.orgOf(repo), repo)
      ensures forall i, j :: 0 <= i < j < |rules| && rules[j].repo.Some? ==> rules[i].repo.Some?
    {
      var own, shared := [], [];
      for i := 0 to |s.rules|
        invariant forall r :: r in own <==> r in s.rules[..i] && Applies(r, s.orgOf(repo), repo) && r.repo.Some?
        invariant forall r :: r in shared <==> r in s.rules[..i] && Applies(r, s.orgOf(repo), repo) && r.repo.None?
      {
        var r := s.rules[i];
        assert s.rules[..i + 1] == s.rules[..i] + [r];
        if Applies(r, s.orgOf(repo), repo) {
          if r.repo.Some? { own := own + [r]; } else { shared := shared + [r]; }
        }
      }
      assert s.rules[..|s.rules|] == s.rules;
      assert forall r :: r in own ==> r.repo.Some?;
      assert forall r :: r in shared ==> r.repo.None?;
      rules := own + shared;
    }

    /** The first rule of the list that wants it and matches the tag. */
    method FirstRule(rules: seq<TagRule>, tag: Tag, want: Want) returns (found: Option<TagRule>)
      ensures found.None? ==> forall r :: r in rules ==> !Hits(r, tag, want)
      ensures found.Some? ==>
                exists i :: 0 <= i < |rules| && rules[i] == found.value && Hits(rules[i], tag, want)
                            && forall j :: 0 <= j < i ==> !Hits(rules[j], tag, want)
    {
      for i := 0 to |rules|
        invariant forall j :: 0 <= j < i ==> !Hits(rules[j], tag, want)
      {
        if Wants(want, rules[i]) {
          var ok := MatchTagGlob(rules[i].pattern, tag);
          if ok { return Some(rules[i]); }
        }
      }
      return None;
    }

    method IsCovered(key: Key, want: Want) returns (yes: bool)
      ensures yes <==> Covered(s, key, want)
    {
      var rules := TagRulesFor(key.repo);
      var rule := FirstRule(rules, key.tag, want);
      yes := rule.Some?;
      assert forall r :: r in rules <==> r in s.rules && Applies(r, s.orgOf(key.repo), key.repo);
      assert forall r :: Hits(r, key.tag, want) <==> Wants(want, r) && GlobAnswer(r.pattern, key.tag);
      assert yes ==> rule.value in rules && Hits(rule.value, key.tag, want);
    }

    /** Refused: the tag names another manifest and is immutable. */
    method CheckTagImmutable(key: Key, digest: Digest) returns (ok: bool)
      ensures ok <==> !RefusesUpsert(s, key, digest)
      ensures StarFree(key.tag) ==>
                (ok <==> !(key in s.tags && s.tags[key] != digest && MarkedImmutable(s, key)))
    {
      if StarFree(key.tag) { CoveredMeansMatched(s, key); }
      hide MarkedImmutable, StarFree;
      if key !in s.tags || s.tags[key] == digest { return true; }
      var immutable := IsCovered(key, Immutable);
      return !immutable;
    }

    /** The guarded upsert, with whatever others do between its read and its
        write; the write waits until no other request holds the row. A row that
        was found is the row that is replaced. */
    method UpsertTagGuarded(pid: Pid, key: Key, digest: Digest, others: seq<Action>) returns (ok: bool)
      requires Inv(s) && pid !in s.pending && !Blocked(s, pid, key) && ByOthers(others, pid)
      requires !Blocked(Run(Step(s, ReadTag(pid, key, digest)), others), pid, key)
      modifies this
      ensures Inv(s) && pid !in s.pending
      ensures StarFree(key.tag) ==>
                (RefusesUpsert(old(s), key, digest) <==>
                   key in old(s).tags && old(s).tags[key] != digest && MarkedImmutable(old(s), key))
      ensures RefusesUpsert(old(s), key, digest) ==> !ok && s == old(s)
      ensures !RefusesUpsert(old(s), key, digest) ==>
                var mid := Run(Step(old(s), ReadTag(pid, key, digest)), others);
                && s == Step(mid, WriteTag(pid))
                && (ok <==> Manifest(key.repo, digest) in mid.manifests)
                && s.tags == (if ok then mid.tags[key := digest] else mid.tags)
                && (key in old(s).tags ==> key in mid.tags && mid.tags[key] == old(s).tags[key])
    {
      if StarFree(key.tag) { CoveredMeansMatched(s, key); }
      hide Inv, Blocked, Covered, Run, Step, MarkedImmutable, StarFree;
      var refused := false;
      if key in s.tags && s.tags[key] != digest { refused := IsCovered(key, Immutable); }
      assert refused <==> RefusesUpsert(s, key, digest);
      if refused { return false; }
      ReadTagStep(s, pid, key, digest);
      StepKeepsInv(s, ReadTag(pid, key, digest));
      s := s.(pending := s.pending[pid := Upserting(key, digest, Found(s, key))]);
      RunKeepsInv(s, others);
      OthersLeavePending(s, others, pid);
      s := Run(s, others);
      if s.pending[pid].seen.Some? { LockedRowStays(s, pid); }
      WriteTagStep(s, pid);
      StepKeepsInv(s, WriteTag(pid));
      ok := Manifest(key.repo, digest) in s.manifests;
      if ok { s := s.(tags := s.tags[key := digest]); }
      s := s.(pending := s.pending - {pid});
    }

    method DeleteTag(pid: Pid, key: Key) returns (ok: bool)
      requires pid !in s.pending && !Blocked(s, pid, key)
      modifies this
      ensures s == Step(Step(old(s), CheckTagDelete(pid, key)), DropTag(pid))
      ensures ok <==> !Covered(old(s), key, Protected)
      ensures StarFree(key.tag) ==> (ok <==> !MarkedProtected(old(s), key))
      ensures s == if ok then old(s).(tags := old(s).tags - {key}) else old(s)
    {
      if StarFree(key.tag) { CoveredMeansMatched(s, key); }
      hide MarkedProtected, StarFree, Covered, Step;
      var protected := IsCovered(key, Protected);
      AtomicTagDelete(s, pid, key);
      if protected { return false; }
      s := s.(tags := s.tags - {key});
      return true;
    }

    /** Refused exactly when a protected tag names the manifest. */
    method CheckManifestDeletable(m: Manifest) returns (ok: bool)
      ensures ok <==> !RefusesManifestDelete(s, m)
      ensures (forall key :: key in s.tags ==> StarFree(key.tag)) ==>
                (ok <==> !exists key :: key in s.tags && key.repo == m.repo && s.tags[key] == m.digest
                                        && MarkedProtected(s, key))
    {
      forall key | key in s.tags && StarFree(key.tag) ensures Covered(s, key, Protected) <==> MarkedProtected(s, key) {
        CoveredMeansMatched(s, key);
      }
      hide MarkedProtected, StarFree, Covered;
      var named := set key | key in s.tags && Names(s.tags, key, m);
      var left := named;
      while left != {}
        invariant left <= named
        invariant forall key :: key in named && key !in left ==> !Covered(s, key, Protected)
      {
        var key :| key in left;
        var protected := IsCovered(key, Protected);
        if protected {
          assert Names(s.tags, key, m) && Covered(s, key, Protected);
          return false;
        }
        left := left - {key};
      }
      assert forall key :: key in s.tags && Names(s.tags, key, m) ==> key in named;
      return true;
    }
  }

  predicate ByOthers(trace: seq<Action>, pid: Pid) {
    forall i :: 0 <= i < |trace| ==> trace[i].StoreManifest? || trace[i].SetRules? || trace[i].pid != pid
  }

  lemma {:induction false} OthersLeavePending(s: State, trace: seq<Action>, pid: Pid)
    requires ByOthers(trace, pid) && pid in s.pending
    ensures pid in Run(s, trace).pending && Run(s, trace).pending[pid] == s.pending[pid]
    decreases |trace|
  {
    if trace != [] {
      var t := Step(s, trace[0]);
      assert pid in t.pending && t.pending[pid] == s.pending[pid];
      hide Step;
      OthersLeavePending(t, trace[1..], pid);
    }
  }

  lemma ReadTagStep(s: State, pid: Pid, key: Key, digest: Digest)
    requires pid !in s.pending && !Blocked(s, pid, key) && !RefusesUpsert(s, key, digest)
    ensures Step(s, ReadTag(pid, key, digest)) ==
              s.(pending := s.pending[pid := Upserting(key, digest, Found(s, key))])
  {
    hide Blocked, RefusesUpsert;
  }

  lemma LockedRowStays(s: State, pid: Pid)
    requires Inv(s) && pid in s.pending && s.pending[pid].Upserting? && s.pending[pid].seen.Some?
    ensures var p := s.pending[pid]; p.key in s.tags && s.tags[p.key] == p.seen.value
  {
    assert LockOk(s, pid);
  }

  lemma WriteTagStep(s: State, pid: Pid)
    requires pid in s.pending && s.pending[pid].Upserting? && !Blocked(s, pid, s.pending[pid].key)
    ensures var p := s.pending[pid];
            Step(s, WriteTag(pid)) ==
              (if Manifest(p.key.repo, p.digest) in s.manifests then s.(tags := s.tags[p.key := p.digest]) else s)
              .(pending := s.pending - {pid})
  {
    hide Blocked;
  }

  lemma AtomicTagDelete(s: State, pid: Pid, key: Key)
    requires pid !in s.pending && !Blocked(s, pid, key)
    ensures Step(Step(s, CheckTagDelete(pid, key)), DropTag(pid)) ==
              if Covered(s, key, Protected) then s else s.(tags := s.tags - {key})
  {
    hide Covered;
    var t := Step(s, CheckTagDelete(pid, key));
    if Covered(s, key, Protected) {
      assert t == s && Step(s, DropTag(pid)) == s;
    } else {
      assert forall p :: p in t.pending && p != pid ==> p in s.pending && t.pending[p] == s.pending[p];
      assert !Blocked(t, pid, key);
      assert t.pending - {pid} == s.pending;
    }
  }
}
