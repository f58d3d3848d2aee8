/** The registry's handlers over its tables (api/manifests.go, api/blobs.go,
    api/internal.go, store/store.go), each tied to the steps of `BlobGraph`.
    `stopAt` is the number of steps after which the replica dies, if the handler
    gets that far; every handler, however it ends, leaves the server idle for the
    next one. What other parts decide (quotas, tag rules) and what may fail
    (driver, database) enters as flags. */
module Registry {
  import opened Wrappers
  import opened BlobGraph

  datatype Answer =
    | Created | Accepted | ManifestInvalid | DigestInvalid | BlobUnknown | StillReferenced
    | Denied | NotFound | Internal | Stopped

  datatype GcAnswer = GcDone(unlinkedBlobs: nat, deletedBlobs: nat, deletedObjects: nat) | GcStopped

  /** A request with what others decide and what fails for it. */
  datatype Request =
    | CommitBlob(repo: Repo, digest: Digest, staged: Bytes, quotaOk: bool, driverOk: bool, databaseOk: bool)
    | MountBlob(source: Repo, repo: Repo, digest: Digest, quotaOk: bool)
    | PushManifest(repo: Repo, contentType: MediaType, payload: Bytes, reference: Option<Digest>, name: Option<Tag>,
                   quotaOk: bool, tagFree: bool, stillFree: bool)
    | RemoveTag(repo: Repo, tag: Tag, allowed: bool)
    | RemoveManifest(repo: Repo, digest: Digest, allowed: bool)
    | RemoveBlob(repo: Repo, digest: Digest, driverOk: bool)
    | Collect(grace: nat, fails: Digest -> bool)

  /** The digests the manifest points at, for the reference table. */
  method References(p: Parsed) returns (refs: seq<Digest>)
    ensures forall d :: d in refs <==> PointsAt(p, d)
  {
    refs := [];
    if p.config.Some? { refs := refs + [p.config.value.digest]; }
    for i := 0 to |p.layers|
      invariant forall d :: d in refs <==>
        (p.config.Some? && p.config.value.digest == d)
        || exists l :: l in p.layers[..i] && !l.foreign && l.digest == d
    {
      assert p.layers[..i + 1] == p.layers[..i] + [p.layers[i]];
      if !p.layers[i].foreign { refs := refs + [p.layers[i].digest]; }
    }
    assert p.layers[..|p.layers|] == p.layers;
    for i := 0 to |p.children|
      invariant forall d :: d in refs <==> Needs(p, d) || exists c :: c in p.children[..i] && c.digest == d
    {
      assert p.children[..i + 1] == p.children[..i] + [p.children[i]];
      refs := refs + [p.children[i].digest];
    }
    assert p.children[..|p.children|] == p.children;
  }

  class Server {
    const env: Env
    var blobs: map<Digest, BlobRow>
    var links: map<Link, int>
    var manifests: map<Link, ManifestRow>
    var refs: set<Ref>
    var tags: map<(Repo, Tag), Digest>
    var content: map<Digest, Bytes>
    var now: int
    ghost var pc: Pc
    ghost var origin: State
    ghost var trace: seq<Action>

    ghost function Db(): State reads this {
      State(blobs, links, manifests, refs, tags, content, now, pc)
    }

    /** The tables are where a run of `BlobGraph` has led. */
    ghost predicate Valid() reads this {
      CollisionFree(env) && Inv(env, origin) && Db() == Run(env, origin, trace)
    }

    constructor (env: Env)
      requires CollisionFree(env)
      ensures Valid() && this.env == env && pc.Idle?
    {
      this.env := env;
      blobs, links, manifests, refs, tags, content, now := map[], map[], map[], {}, map[], map[], 0;
      pc, trace := Idle, [];
      origin := State(map[], map[], map[], {}, map[], map[], 0, Idle);
    }

    lemma IsInv()
      requires Valid()
      ensures Inv(env, Db())
    {
      RunKeepsInv(env, origin, trace);
    }

    /** Nothing but bookkeeping: the tables have just taken the step `a`. */
    ghost method Took(a: Action, before: State)
      requires CollisionFree(env) && Inv(env, origin) && before == Run(env, origin, trace)
      requires Step(env, before, a).(pc := pc) == Db()
      modifies this`pc, this`trace
      ensures Valid() && Db() == Step(env, before, a) && trace == old(trace) + [a]
    {
      hide Step, Inv, CollisionFree;
      RunAppend(env, origin, trace, [a]);
      RunOne(env, before, a);
      pc := Step(env, before, a).pc;
      trace := trace + [a];
    }

    /** The handler returns, or its replica dies. */
    ghost method Finish()
      requires Valid()
      modifies this`pc, this`trace
      ensures Valid() && pc.Idle? && Db() == old(Db()).(pc := Idle)
    {
      hide Inv, CollisionFree, Run;
      ghost var before := Db();
      pc := Idle;
      Took(Stop, before);
    }

    /** Time passes. */
    method Tick(elapsed: nat)
      requires Valid()
      modifies this`now, this`pc, this`trace
      ensures Valid() && Db() == old(Db()).(now := old(now) + elapsed)
    {
      hide Inv, CollisionFree, Run;
      now := now + elapsed;
      Took(BlobGraph.Tick(elapsed), old(Db()));
    }

    // ---- The store's transactions ----

    method UpsertBlob(repo: Repo, digest: Digest, size: nat)
      requires Valid() && pc == Recording(repo, digest, size)
      modifies this
      ensures Valid() && Db() == Step(env, old(Db()), RecordBlob)
    {
      hide Inv, CollisionFree, Run;
      if digest !in blobs { blobs := blobs[digest := BlobRow(size, now)]; }
      if Link(repo, digest) !in links { links := links[Link(repo, digest) := now]; }
      Took(RecordBlob, old(Db()));
    }

    /** Removes the link and tells how many links the digest has left. */
    method UnlinkBlob(repo: Repo, digest: Digest) returns (found: bool, remaining: nat)
      requires Valid() && pc.Idle? && !Referenced(refs, Link(repo, digest))
      modifies this
      ensures Valid() && Db() == Step(env, old(Db()), DeleteBlob(repo, digest))
      ensures found <==> Link(repo, digest) in old(links)
      ensures found ==> remaining == |set l | l in links && l.digest == digest|
      ensures found ==> (remaining == 0 <==> pc == Purging({digest})) && (remaining > 0 <==> pc == Idle)
    {
      hide Step, Inv, CollisionFree, Run, Reading, Complete, RefsOf, PointsAt, Needs, Referenced, HasLink, RefsTo,
           KeptLinks, KeptRows, Orphans, OtherRefs;
      DeleteBlobStep(env, Db(), repo, digest);
      if Link(repo, digest) !in links {
        Took(DeleteBlob(repo, digest), old(Db()));
        return false, 0;
      }
      links := links - {Link(repo, digest)};
      remaining := |set l | l in links && l.digest == digest|;
      NoLinksLeft(links, digest);
      if remaining == 0 { blobs := blobs - {digest}; }
      Took(DeleteBlob(repo, digest), old(Db()));
      found := true;
    }

    /** Writes the row, then replaces the manifest's references one by one. */
    method UpsertManifest(repo: Repo, contentType: MediaType, p: Parsed, payload: Bytes, tag: Option<Tag>)
      requires Valid() && pc.Idle? && Reading(env, contentType, payload) == Some(p) && Complete(Db(), repo, p)
      modifies this
      ensures Valid() && Db() == Step(env, old(Db()), PutManifest(repo, contentType, payload, tag))
    {
      hide Step, Inv, CollisionFree, Run, Reading, Complete, RefsOf, PointsAt, Needs, Referenced, HasLink, RefsTo,
           KeptLinks, KeptRows, Orphans, OtherRefs;
      var m := Link(repo, env.sha(payload));
      var digests := References(p);
      manifests := manifests[m := if m in manifests then manifests[m].(mediaType := p.mediaType)
                                  else ManifestRow(p.mediaType, payload, ConfigDigest(p))];
      refs := OtherRefs(refs, m);
      ghost var rows, others := manifests, refs;
      RefsToAll(m, p, digests);
      assert digests[..0] == [];
      for i := 0 to |digests|
        invariant Db() == old(Db()).(manifests := rows, refs := refs)
        invariant refs == others + RefsTo(m, digests[..i])
        invariant trace == old(trace) && origin == old(origin)
      {
        RefsToSnoc(m, digests, i);
        refs := refs + {Ref(m, digests[i])};
      }
      assert digests[..|digests|] == digests;
      PutManifestStep(env, old(Db()), repo, contentType, payload, tag);
      Took(PutManifest(repo, contentType, payload, tag), old(Db()));
    }

    /** The first deletion of a collection. */
    method DropLinks(grace: nat) returns (unlinked: nat)
      requires Valid() && pc.Idle?
      modifies this
      ensures Valid() && Db() == Step(env, old(Db()), GcLinks(grace))
      ensures Db() == old(Db()).(links := links, pc := Collecting(old(now) - grace))
      ensures blobs == old(blobs) && content == old(content) && now == old(now)
      ensures manifests == old(manifests) && tags == old(tags) && refs == old(refs)
      ensures unlinked == |old(links).Keys - links.Keys|
    {
      hide Step, Inv, CollisionFree, Run, Reading, Complete, RefsOf, PointsAt, Needs, Referenced, HasLink, RefsTo,
           KeptLinks, KeptRows, Orphans, OtherRefs;
      var cutoff := now - grace;
      var before := links.Keys;
      links := KeptLinks(links, refs, cutoff);
      unlinked := |before - links.Keys|;
      GcLinksStep(env, old(Db()), grace);
      Took(GcLinks(grace), old(Db()));
    }

    /** The second one; it returns the digests whose rows went, once each. */
    method DropRows(cutoff: int) returns (orphaned: seq<Digest>)
      requires Valid() && pc == Collecting(cutoff)
      modifies this
      ensures Valid() && Db() == Step(env, old(Db()), GcRows)
      ensures Db() == old(Db()).(blobs := blobs, pc := Purging(set d | d in orphaned))
      ensures forall i, j :: 0 <= i < j < |orphaned| ==> orphaned[i] != orphaned[j]
      ensures (set d | d in orphaned) == old(blobs).Keys - blobs.Keys
    {
      hide Step, Inv, CollisionFree, Run, Reading, Complete, RefsOf, PointsAt, Needs, Referenced, HasLink, RefsTo,
           KeptLinks, KeptRows, Orphans, OtherRefs;
      var rows := Orphans(blobs, links, cutoff);
      orphaned := Listed(rows);
      blobs := blobs - rows;
      GcRowsStep(env, old(Db()));
      assert (set d | d in orphaned) == rows;
      Took(GcRows, old(Db()));
    }

    // ---- The handlers ----

    /** The driver's part of a commit, then the rows. Content that exists is
        compared before the quota is asked, and other content is stored after. */
    method HandleCommit(repo: Repo, digest: Digest, staged: Bytes, quotaOk: bool, driverOk: bool, databaseOk: bool,
                        stopAt: nat)
      returns (answer: Answer)
      requires Valid() && pc.Idle?
      modifies this
      ensures Valid() && pc.Idle? && now == old(now)
      ensures manifests == old(manifests) && tags == old(tags) && refs == old(refs)
      ensures answer in {Created, DigestInvalid, Denied, Internal, Stopped}
      ensures quotaOk && driverOk && databaseOk && stopAt > 1 ==>
                answer == if env.sha(staged) == digest then Created else DigestInvalid
      ensures env.sha(staged) != digest ==> answer != Created && Db() == old(Db())
      ensures answer == DigestInvalid ==> env.sha(staged) != digest
      ensures answer == Denied ==> !quotaOk && Db() == old(Db())
      ensures answer != Created ==> blobs == old(blobs) && links == old(links)
      ensures forall l :: l in old(links) ==> l in links && links[l] == old(links)[l]
      ensures forall d :: d in old(blobs) ==> d in blobs && blobs[d] == old(blobs)[d]
      ensures answer == Created ==>
                && quotaOk && content == old(content)[digest := staged]
                && blobs.Keys == old(blobs).Keys + {digest} && blobs[digest].size == |staged|
                && links.Keys == old(links).Keys + {Link(repo, digest)}
                && (Link(repo, digest) !in old(links) ==> links[Link(repo, digest)] == now)
                && (digest !in old(blobs) ==> blobs[digest].created == now)
    {
      hide Step, Inv, CollisionFree, Run, Reading, Complete, RefsOf, PointsAt, Needs, Referenced, HasLink, RefsTo;
      if digest in content && env.sha(staged) != digest { return DigestInvalid; }
      if !quotaOk { return Denied; }
      if stopAt == 0 { return Stopped; }
      if digest !in content {
        if !driverOk { return Internal; }
        if env.sha(staged) != digest { return DigestInvalid; }
      }
      PublishContent(repo, digest, staged);
      if stopAt == 1 || !databaseOk {
        Finish();
        return if stopAt == 1 then Stopped else Internal;
      }
      ghost var mid := Db();
      UpsertBlob(repo, digest, |staged|);
      RecordBlobStep(env, mid);
      IsInv();
      WhatInvSays(env, Db());
      answer := Created;
    }

    /** The driver holds the content afterwards, whether it did before or not. */
    method PublishContent(repo: Repo, digest: Digest, staged: Bytes)
      requires Valid() && pc.Idle? && env.sha(staged) == digest
      modifies this
      ensures Valid() && pc == Recording(repo, digest, |staged|)
      ensures Db() == old(Db()).(content := old(content)[digest := staged], pc := pc)
    {
      hide Step, Inv, CollisionFree, Run, Reading, Complete, RefsOf, PointsAt, Needs, Referenced, HasLink, RefsTo;
      IsInv();
      WhatInvSays(env, Db());
      if digest in content {
        SameHashSameBytes(env, content[digest], staged);
        assert content == content[digest := staged];
      } else {
        content := content[digest := staged];
      }
      StoreContentStep(env, old(Db()), repo, digest, staged);
      Took(StoreContent(repo, digest, staged), old(Db()));
    }

    /** A mount. Where the source does not link the blob, the client falls back to
        an upload. */
    method HandleMount(source: Repo, repo: Repo, digest: Digest, quotaOk: bool) returns (answer: Answer)
      requires Valid() && pc.Idle?
      modifies this
      ensures Valid() && pc.Idle? && now == old(now)
      ensures Db() == if quotaOk then Step(env, old(Db()), Mount(source, repo, digest)) else old(Db())
      ensures answer == if Link(source, digest) !in old(links) then NotFound else if quotaOk then Created else Denied
      ensures links.Keys == if answer == Created then old(links).Keys + {Link(repo, digest)} else old(links).Keys
      ensures answer == Created ==> digest in content && env.sha(content[digest]) == digest
      ensures forall l :: l in old(links) ==> l in links && links[l] == old(links)[l]
      ensures answer == Created && Link(repo, digest) !in old(links) ==> links[Link(repo, digest)] == now
    {
      hide Inv, CollisionFree, Run;
      IsInv();
      WhatInvSays(env, Db());
      var found := Link(source, digest) in links && digest in blobs;
      if !quotaOk { return if found then Denied else NotFound; }
      if found && Link(repo, digest) !in links { links := links[Link(repo, digest) := now]; }
      Took(Mount(source, repo, digest), old(Db()));
      answer := if found then Created else NotFound;
    }

    /** The existence checks of a manifest push. */
    method ReferencesAreThere(repo: Repo, p: Parsed) returns (ok: bool)
      ensures ok <==> Complete(Db(), repo, p)
    {
      if p.config.Some? {
        var config := Link(repo, p.config.value.digest);
        if !(config in links && config.digest in blobs) { return false; }
      }
      for i := 0 to |p.layers|
        invariant forall l :: l in p.layers[..i] && !l.foreign ==> LinkedBlob(Db(), Link(repo, l.digest))
      {
        assert p.layers[..i + 1] == p.layers[..i] + [p.layers[i]];
        if p.layers[i].foreign { continue; }
        var l := Link(repo, p.layers[i].digest);
        if !(l in links && l.digest in blobs) { return false; }
      }
      assert p.layers[..|p.layers|] == p.layers;
      for i := 0 to |p.children|
        invariant forall c :: c in p.children[..i] ==> Link(repo, c.digest) in manifests
      {
        assert p.children[..i + 1] == p.children[..i] + [p.children[i]];
        if Link(repo, p.children[i].digest) !in manifests { return false; }
      }
      assert p.children[..|p.children|] == p.children;
      ok := true;
    }

    /** A manifest push. `tagFree` is the first look at the tag rules, `stillFree`
        the guarded upsert's own. Unless quota or rules refuse it, it is refused
        exactly when the payload cannot be read or something it points at is
        missing; accepted, the manifest is stored, its tag names it, and
        everything it is made of can be pulled. A tag refused late leaves the
        manifest stored. */
    method HandleManifestPut(repo: Repo, contentType: MediaType, payload: Bytes, reference: Option<Digest>,
                             tag: Option<Tag>, quotaOk: bool, tagFree: bool, stillFree: bool, stopAt: nat)
      returns (answer: Answer)
      requires Valid() && pc.Idle?
      modifies this
      ensures Valid() && pc.Idle? && now == old(now)
      ensures blobs == old(blobs) && links == old(links) && content == old(content)
      ensures answer in {Created, DigestInvalid, ManifestInvalid, Denied, BlobUnknown, Stopped}
      ensures answer == DigestInvalid <==> reference.Some? && reference.value != env.sha(payload)
      ensures answer == ManifestInvalid ==> Reading(env, contentType, payload).None?
      ensures answer == Denied ==> !quotaOk || (tag.Some? && !(tagFree && stillFree))
      ensures answer == Denied && quotaOk && (tag.Some? ==> tagFree) ==>
                IsStored(old(Db()), repo, contentType, payload)
      ensures answer == Created ==> quotaOk && (tag.Some? ==> tagFree && stillFree)
      ensures answer == Stopped ==> stopAt <= 1
      ensures answer == BlobUnknown ==>
                var p := Reading(env, contentType, payload); p.Some? && !Complete(old(Db()), repo, p.value)
      ensures answer in {Created, Stopped} ==> CanPutManifest(env, old(Db()), repo, contentType, payload)
      ensures answer != Created ==> tags == old(tags)
      ensures answer in {DigestInvalid, ManifestInvalid, BlobUnknown} || !quotaOk || (tag.Some? && !tagFree) ==>
                Db() == old(Db())
      ensures answer == Created ==> IsStored(old(Db()), repo, contentType, payload) && NamesAreThere(repo, payload)
      ensures answer == Created ==>
                tags == if tag.Some? then old(tags)[(repo, tag.value) := env.sha(payload)] else old(tags)
    {
      IsInv();
      var digest := env.sha(payload);
      if reference.Some? && reference.value != digest { return DigestInvalid; }
      var raw := env.decode(payload);
      if raw.None? { return ManifestInvalid; }
      var parsed := Parse(contentType, raw.value);
      if parsed.None? { return ManifestInvalid; }
      assert Reading(env, contentType, payload) == parsed;
      hide Step, Inv, CollisionFree, Run, Reading, Complete, RefsOf, PointsAt, Needs, Referenced, HasLink, RefsTo,
           Parse, Valid, IsStored;
      if !quotaOk { return Denied; }
      if tag.Some? && !tagFree { return Denied; }
      var ok := ReferencesAreThere(repo, parsed.value);
      if !ok { return BlobUnknown; }
      if stopAt == 0 { return Stopped; }
      hide NamesAreThere;
      answer := StoreManifest(repo, contentType, payload, parsed.value, tag, stillFree, stopAt);
      if answer == Created {
        IsInv();
        PushedNamesAreThere(old(Db()), repo, contentType, payload);
      }
    }

    /** In the payload's own terms: an image has its config and its non-foreign
        layers linked, stored and referenced, an index its members stored. */
    ghost predicate NamesAreThere(repo: Repo, payload: Bytes) reads this {
      var m := Link(repo, env.sha(payload));
      && m in manifests && env.decode(payload).Some?
      && var raw := env.decode(payload).value;
      var t := manifests[m].mediaType;
      && (t == OciManifest || t == DockerManifest || t == OciIndex || t == DockerList)
      && (t == OciManifest || t == DockerManifest ==>
            && raw.config.Some?
            && forall d :: NamedByImage(raw, d) ==>
                 Ref(m, d) in refs && Link(repo, d) in links && d in blobs && d in content)
      && (t == OciIndex || t == DockerList ==>
            forall c :: c in raw.manifests ==> Link(repo, c.digest) in manifests && Ref(m, c.digest) in refs)
    }

    lemma PushedNamesAreThere(before: State, repo: Repo, contentType: MediaType, payload: Bytes)
      requires CollisionFree(env) && Inv(env, Db()) && CanPutManifest(env, before, repo, contentType, payload)
      requires IsStored(before, repo, contentType, payload)
      ensures NamesAreThere(repo, payload)
    {
      var m := Link(repo, env.sha(payload));
      StoredPayloadIsWhole(env, Db(), m);
      SameHashSameBytes(env, manifests[m].payload, payload);
      AcceptedExactlyWhenNamedIsThere(env, before, repo, contentType, payload);
      hide Inv, Reading, CollisionFree, NamedByImage, Needs;
    }

    /** The manifest is new or was there, reads as pushed, and is whole. */
    ghost predicate IsStored(before: State, repo: Repo, contentType: MediaType, payload: Bytes) reads this {
      var m := Link(repo, env.sha(payload));
      && manifests.Keys == before.manifests.Keys + {m}
      && ManifestOk(env, Db(), m) && Some(Stored(env, Db(), m)) == Reading(env, contentType, payload)
      && forall d :: Needs(Stored(env, Db(), m), d) ==> d in content && env.sha(content[d]) == d
    }

    /** The accepted push: the row with its references, then the tag. */
    method StoreManifest(repo: Repo, contentType: MediaType, payload: Bytes, p: Parsed,
                         tag: Option<Tag>, stillFree: bool, stopAt: nat)
      returns (answer: Answer)
      requires Valid() && Inv(env, Db()) && pc.Idle?
      requires Reading(env, contentType, payload) == Some(p) && Complete(Db(), repo, p)
      modifies this
      ensures Valid() && pc.Idle? && now == old(now) && answer in {Created, Denied, Stopped}
      ensures blobs == old(blobs) && links == old(links) && content == old(content)
      ensures answer == Denied ==> tag.Some? && !stillFree
      ensures answer == Created ==> (tag.Some? ==> stillFree)
      ensures answer == Stopped ==> stopAt <= 1
      ensures answer != Created ==> tags == old(tags)
      ensures answer in {Created, Denied} ==> IsStored(old(Db()), repo, contentType, payload)
      ensures answer == Created ==>
                tags == if tag.Some? then old(tags)[(repo, tag.value) := env.sha(payload)] else old(tags)
    {
      hide Step, Inv, CollisionFree, Run, Reading, Complete, RefsOf, PointsAt, Needs, Referenced, HasLink, RefsTo,
           ManifestOk, IsStored;
      UpsertManifest(repo, contentType, p, payload, tag);
      PutManifestStep(env, old(Db()), repo, contentType, payload, tag);
      ghost var mid := Db();
      IsInv();
      PushedIsReadBack(old(Db()), mid, repo, contentType, payload, tag);
      if stopAt == 1 && tag.Some? {
        Finish();
        return Stopped;
      }
      if tag.Some? && !stillFree {
        Finish();
        answer := Denied;
      } else {
        if tag.Some? {
          tags := tags[(repo, tag.value) := env.sha(payload)];
          BindTagStep(env, mid);
          Took(BindTag, mid);
        }
        answer := Created;
      }
      IsInv();
      SameManifestsSameReading(env, mid, Db(), Link(repo, env.sha(payload)));
      PushedIsWhole(old(Db()), repo, contentType, payload);
    }

    lemma PushedIsReadBack(s: State, t: State, repo: Repo, contentType: MediaType, payload: Bytes, tag: Option<Tag>)
      requires CollisionFree(env) && Inv(env, s) && s.pc.Idle?
      requires t == Step(env, s, PutManifest(repo, contentType, payload, tag)) && Inv(env, t)
      requires CanPutManifest(env, s, repo, contentType, payload)
      ensures var m := Link(repo, env.sha(payload));
              && t.manifests.Keys == s.manifests.Keys + {m} && ManifestOk(env, t, m)
              && Stored(env, t, m) == Reading(env, contentType, payload).value
    {
      hide RefsExact, Closed, CollisionFree, Complete, RefsOf;
      var m := Link(repo, env.sha(payload));
      ReadingIsStable(contentType, env.decode(payload).value);
      SameHashSameBytes(env, t.manifests[m].payload, payload);
    }

    lemma PushedIsWhole(before: State, repo: Repo, contentType: MediaType, payload: Bytes)
      requires Inv(env, Db()) && Link(repo, env.sha(payload)) in manifests
      requires manifests.Keys == before.manifests.Keys + {Link(repo, env.sha(payload))}
      requires Some(Stored(env, Db(), Link(repo, env.sha(payload)))) == Reading(env, contentType, payload)
      ensures IsStored(before, repo, contentType, payload)
    {
      hide Needs, Reading, RefsExact;
    }

    /** `allowed` is the check against the rules for protected tags. */
    method HandleTagDelete(repo: Repo, tag: Tag, allowed: bool) returns (answer: Answer)
      requires Valid() && pc.Idle?
      modifies this
      ensures Valid() && pc.Idle? && now == old(now)
      ensures Db() == if allowed then Step(env, old(Db()), DeleteTag(repo, tag)) else old(Db())
      ensures answer == if !allowed then Denied else if (repo, tag) in old(tags) then Accepted else NotFound
      ensures tags == if allowed then old(tags) - {(repo, tag)} else old(tags)
    {
      hide Inv, CollisionFree, Run;
      if !allowed { return Denied; }
      answer := if (repo, tag) in tags then Accepted else NotFound;
      tags := tags - {(repo, tag)};
      Took(DeleteTag(repo, tag), old(Db()));
    }

    /** The manifest goes, and with it exactly its references and its tags, unless
        one of them is protected. */
    method HandleManifestDelete(repo: Repo, digest: Digest, allowed: bool) returns (answer: Answer)
      requires Valid() && pc.Idle?
      modifies this
      ensures Valid() && pc.Idle? && now == old(now)
      ensures Db() == if allowed then Step(env, old(Db()), DeleteManifest(repo, digest)) else old(Db())
      ensures answer ==
                if !allowed then Denied else if Link(repo, digest) in old(manifests) then Accepted else NotFound
      ensures allowed ==> manifests == old(manifests) - {Link(repo, digest)}
      ensures allowed ==> forall t :: t in tags <==> t in old(tags) && !(t.0 == repo && old(tags)[t] == digest)
      ensures answer == NotFound ==> tags == old(tags) && manifests == old(manifests) && refs == old(refs)
    {
      hide Step, Inv, CollisionFree, Run, Reading, Complete, RefsOf, PointsAt, Needs, Referenced, HasLink, RefsTo,
           KeptLinks, KeptRows, Orphans, OtherRefs;
      if !allowed { return Denied; }
      IsInv();
      var m := Link(repo, digest);
      DeleteManifestStep(env, Db(), m);
      if m in manifests {
        manifests := manifests - {m};
        refs := OtherRefs(refs, m);
        tags := OtherTags(tags, m);
        answer := Accepted;
      } else {
        answer := NotFound;
      }
      Took(DeleteManifest(repo, digest), old(Db()));
    }

    /** A blob delete. It is refused exactly while a manifest of the repository
        points at the blob. The content goes with the last link, after the row. */
    method HandleBlobDelete(repo: Repo, digest: Digest, stopAt: nat, driverOk: bool) returns (answer: Answer)
      requires Valid() && pc.Idle?
      modifies this
      ensures Valid() && pc.Idle? && now == old(now)
      ensures manifests == old(manifests) && tags == old(tags) && refs == old(refs)
      ensures answer == StillReferenced <==>
                exists m :: m in old(manifests) && m.repo == repo && ManifestOk(env, old(Db()), m)
                            && PointsAt(Stored(env, old(Db()), m), digest)
      ensures answer in {StillReferenced, NotFound, Accepted, Internal, Stopped}
      ensures answer == NotFound ==> Link(repo, digest) !in old(links)
      ensures answer == Stopped ==> stopAt <= 1
      ensures answer == Internal ==> !driverOk
      ensures answer in {StillReferenced, NotFound} ==> Db() == old(Db())
      ensures answer !in {StillReferenced, NotFound} ==>
                && links == old(links) - {Link(repo, digest)} && Link(repo, digest) in old(links)
                && blobs == (if HasLink(links, digest) then old(blobs) else old(blobs) - {digest})
      ensures answer == Accepted ==>
                content == if HasLink(links, digest) then old(content) else old(content) - {digest}
      ensures answer in {Internal, Stopped} ==> content == old(content) && !HasLink(links, digest)
    {
      hide Step, Inv, CollisionFree, Run, Reading, Complete, RefsOf, PointsAt, Needs, Referenced, HasLink, RefsTo,
           Stored, ManifestOk;
      IsInv();
      RefusalIsRight(env, Db(), repo, digest);
      if Referenced(refs, Link(repo, digest)) { return StillReferenced; }
      DeleteBlobStep(env, Db(), repo, digest);
      var found, remaining := UnlinkBlob(repo, digest);
      if !found { return NotFound; }
      if remaining == 0 {
        if stopAt > 1 && driverOk { DeleteContent(digest); }
        Finish();
        if stopAt <= 1 { return Stopped; }
        if !driverOk { return Internal; }
      }
      answer := Accepted;
    }

    /** A collection. Content is removed of exactly those orphans whose driver
        call succeeds, and the answer counts what went. Where the pass stops, the
        tables are where its last statement left them, and content is lost of
        dropped rows only. */
    method HandleGC(grace: nat, fails: Digest -> bool, stopAt: nat) returns (answer: GcAnswer)
      requires Valid() && pc.Idle?
      modifies this
      ensures Valid() && pc.Idle? && now == old(now)
      ensures manifests == old(manifests) && tags == old(tags) && refs == old(refs)
      ensures stopAt > |old(blobs)| + 2 ==> answer.GcDone?
      ensures answer.GcDone? ==>
                && content.Keys == old(content).Keys - Unfailing(old(blobs).Keys - blobs.Keys, fails)
                && answer.unlinkedBlobs == |old(links).Keys - links.Keys|
                && answer.deletedBlobs == |old(blobs).Keys - blobs.Keys|
                && answer.deletedObjects == |old(content).Keys - content.Keys|
      ensures Db() == Collected(env, old(Db()), grace, stopAt).(content := content, pc := Idle)
      ensures forall d :: d in content ==> d in old(content) && content[d] == old(content)[d]
      ensures forall d :: d in old(content) && d !in content ==> d in old(blobs) && d !in blobs && !fails(d)
    {
      hide Step, Run, Valid, Unfailing;
      if stopAt == 0 { return GcStopped; }
      var cutoff := now - grace;
      var unlinked := DropLinks(grace);
      if stopAt == 1 {
        Finish();
        return GcStopped;
      }
      var deleted := CollectRows(cutoff, fails, stopAt);
      answer := if deleted.None? then GcStopped else GcDone(unlinked, deleted.value.0, deleted.value.1);
    }

    /** The second half of a collection, from the rows on. */
    method CollectRows(cutoff: int, fails: Digest -> bool, stopAt: nat) returns (deleted: Option<(nat, nat)>)
      requires Valid() && pc == Collecting(cutoff)
      modifies this
      ensures Valid() && pc.Idle? && links == old(links) && now == old(now)
      ensures manifests == old(manifests) && tags == old(tags) && refs == old(refs)
      ensures Db() == Step(env, old(Db()), GcRows).(content := content, pc := Idle)
      ensures stopAt > |old(blobs)| + 2 ==> deleted.Some?
      ensures deleted.Some? ==>
                && content.Keys == old(content).Keys - Unfailing(old(blobs).Keys - blobs.Keys, fails)
                && deleted.value == (|old(blobs).Keys - blobs.Keys|, |old(content).Keys - content.Keys|)
      ensures forall d :: d in content ==> d in old(content) && content[d] == old(content)[d]
      ensures forall d :: d in old(content) && d !in content ==> d in old(blobs) && d !in blobs && !fails(d)
    {
      hide Step, Inv, CollisionFree, Run, Reading, Complete, RefsOf, PointsAt, Needs, Referenced, HasLink,
           KeptLinks, KeptRows, Orphans, Valid, Without, Removed, Unfailing;
      IsInv();
      OrphansHadContent(env, Db());
      var orphaned := DropRows(cutoff);
      AtMostAllRows(old(blobs), orphaned);
      var removed := PurgeAll(orphaned, fails, stopAt);
      Finish();
      if removed.None? { return None; }
      GcTotals(old(content), old(blobs).Keys - blobs.Keys, orphaned, fails);
      deleted := Some((|orphaned|, removed.value));
    }

    /** Deletes the orphans' content one by one, going on after a failure. */
    method PurgeAll(orphaned: seq<Digest>, fails: Digest -> bool, stopAt: nat) returns (deleted: Option<nat>)
      requires Valid() && pc == Purging(set d | d in orphaned)
      requires forall i, j :: 0 <= i < j < |orphaned| ==> orphaned[i] != orphaned[j]
      modifies this
      ensures Valid() && Db() == old(Db()).(content := content, pc := pc)
      ensures deleted.Some? ==> content == Without(old(content), orphaned, fails)
                                && deleted.value == |Removed(orphaned, fails)|
      ensures stopAt > |orphaned| + 2 ==> deleted.Some?
      ensures forall d :: d in old(content) && d !in content ==> d in orphaned && !fails(d)
      ensures forall d :: d in content ==> d in old(content) && content[d] == old(content)[d]
    {
      hide Step, Inv, CollisionFree, Run, Valid, Removed;
      RemovedNone(content, fails);
      assert orphaned[..0] == [];
      var n := 0;
      for i := 0 to |orphaned|
        invariant Valid() && Db() == old(Db()).(content := content, pc := pc)
        invariant pc.Purging? && (forall j :: i <= j < |orphaned| ==> orphaned[j] in pc.orphans)
        invariant content == Without(old(content), orphaned[..i], fails)
        invariant n == |Removed(orphaned[..i], fails)|
      {
        if stopAt <= i + 2 { return None; }
        RemovedSnoc(old(content), orphaned, i, fails);
        if fails(orphaned[i]) { continue; }
        DeleteContent(orphaned[i]);
        n := n + 1;
      }
      assert orphaned[..|orphaned|] == orphaned;
      deleted := Some(n);
    }

    method DeleteContent(digest: Digest)
      requires Valid() && pc.Purging? && digest in pc.orphans
      modifies this
      ensures Valid() && content == old(content) - {digest} && pc == Purging(old(pc).orphans - {digest})
      ensures Db() == old(Db()).(content := content, pc := pc)
    {
      hide Step, Inv, CollisionFree, Run;
      PurgeStep(env, Db(), digest);
      content := content - {digest};
      Took(Purge(digest), old(Db()));
    }

    // ---- Serial runs of handlers ----

    /** What a client counts on: everything a stored manifest is made of is linked
        to its repository and can be pulled. */
    ghost predicate AllWhole() reads this {
      && (forall m :: m in manifests ==> ManifestOk(env, Db(), m))
      && (forall m, d :: m in manifests && Needs(Stored(env, Db(), m), d) ==>
            Link(m.repo, d) in links && d in blobs && d in content && env.sha(content[d]) == d)
    }

    lemma IdleIsWhole()
      requires Valid()
      ensures AllWhole()
    {
      IsInv();
      hide Run, Needs, Reading, RefsExact;
    }

    method Handle(r: Request, stopAt: nat)
      requires Valid() && pc.Idle?
      modifies this
      ensures Valid() && pc.Idle? && now == old(now)
    {
      hide Valid, Step, ManifestOk, Run, CanPutManifest, Reading, Complete, KeptLinks, KeptRows, Orphans, HasLink;
      match r {
        case CommitBlob(repo, digest, staged, quotaOk, driverOk, databaseOk) =>
          var answer := HandleCommit(repo, digest, staged, quotaOk, driverOk, databaseOk, stopAt);
        case MountBlob(source, repo, digest, quotaOk) =>
          var answer := HandleMount(source, repo, digest, quotaOk);
        case PushManifest(repo, contentType, payload, reference, name, quotaOk, tagFree, stillFree) =>
          var answer :=
            HandleManifestPut(repo, contentType, payload, reference, name, quotaOk, tagFree, stillFree, stopAt);
        case RemoveTag(repo, tag, allowed) => var answer := HandleTagDelete(repo, tag, allowed);
        case RemoveManifest(repo, digest, allowed) => var answer := HandleManifestDelete(repo, digest, allowed);
        case RemoveBlob(repo, digest, driverOk) => var answer := HandleBlobDelete(repo, digest, stopAt, driverOk);
        case Collect(grace, fails) => var answer := HandleGC(grace, fails, stopAt);
      }
    }

    /** Any requests, one after the other, each dying where it may; time passes in
        between. Afterwards every stored manifest is whole. */
    method Serve(requests: seq<Request>, stops: nat -> nat, pauses: nat -> nat)
      requires Valid() && pc.Idle?
      modifies this
      ensures Valid() && pc.Idle? && AllWhole()
    {
      hide Valid;
      for i := 0 to |requests|
        invariant Valid() && pc.Idle?
      {
        Handle(requests[i], stops(i));
        Tick(pauses(i));
      }
      IdleIsWhole();
    }

    /** A blob nobody refers to comes and, once its grace is over, goes: row, link
        and content. */
    method UploadThenCollect(repo: Repo, digest: Digest, staged: Bytes, grace: nat, elapsed: nat)
      requires Valid() && pc.Idle? && env.sha(staged) == digest && elapsed > grace
      requires digest !in blobs && !HasLink(links, digest) && !Referenced(refs, Link(repo, digest))
      modifies this
      ensures Valid() && pc.Idle?
      ensures digest !in blobs && digest !in content && !HasLink(links, digest)
    {
      hide Valid, Step, Run, KeptLinks, KeptRows, Orphans, Referenced, CanPutManifest, Complete, Reading;
      var answer := HandleCommit(repo, digest, staged, true, true, true, 2);
      assert answer == Created;
      OneLink(old(links), links, Link(repo, digest));
      Tick(elapsed);
      ghost var s := Db();
      UnwantedGoes(s, Link(repo, digest), grace);
      hide HasLink;
      var collected := HandleGC(grace, _ => false, |blobs| + 3);
      CollectedRows(env, s, grace, |s.blobs| + 3);
    }
  }

  lemma OneLink(before: map<Link, int>, after: map<Link, int>, l: Link)
    requires !HasLink(before, l.digest) && after.Keys == before.Keys + {l}
    ensures forall k :: k in after && k.digest == l.digest ==> k == l
    ensures l !in before
  {
    assert l in before ==> HasLink(before, l.digest);
  }

  /** A digest with one old link that nothing refers to. */
  lemma UnwantedGoes(s: State, l: Link, grace: nat)
    requires l in s.links && s.links[l] < s.now - grace && !Referenced(s.refs, l)
    requires forall k :: k in s.links && k.digest == l.digest ==> k == l
    requires l.digest in s.blobs && s.blobs[l.digest].created < s.now - grace
    ensures var kept := KeptLinks(s.links, s.refs, s.now - grace);
            !HasLink(kept, l.digest) && l.digest !in KeptRows(s.blobs, kept, s.now - grace)
  {
    hide Referenced;
    assert l !in KeptLinks(s.links, s.refs, s.now - grace);
  }

  /** The rows of a query, in any order. */
  method Listed(rows: set<Digest>) returns (list: seq<Digest>)
    ensures (set d | d in list) == rows
    ensures forall i, j :: 0 <= i < j < |list| ==> list[i] != list[j]
  {
    list := [];
    var left := rows;
    while left != {}
      invariant left <= rows && rows == left + set d | d in list
      invariant forall i, j :: 0 <= i < j < |list| ==> list[i] != list[j]
      invariant forall d :: d in list ==> d !in left
      decreases |left|
    {
      var d :| d in left;
      list := list + [d];
      left := left - {d};
    }
  }

  /** The tables when a collection dies after that many steps, content apart. */
  function Collected(env: Env, s: State, grace: nat, stopAt: nat): State {
    if stopAt == 0 then s
    else if stopAt == 1 then Step(env, s, GcLinks(grace))
    else Step(env, Step(env, s, GcLinks(grace)), GcRows)
  }

  // ---- What single steps do ----

  lemma CollectedRows(env: Env, s: State, grace: nat, stopAt: nat)
    requires s.pc.Idle? && stopAt > 1
    ensures var t := Collected(env, s, grace, stopAt);
            && t == Run(env, s, [GcLinks(grace), GcRows])
            && t.links == KeptLinks(s.links, s.refs, s.now - grace)
            && t.blobs == KeptRows(s.blobs, t.links, s.now - grace)
  {
    RunTwo(env, s, GcLinks(grace), GcRows);
  }

  lemma StoreContentStep(env: Env, s: State, repo: Repo, d: Digest, staged: Bytes)
    requires s.pc.Idle? && env.sha(staged) == d
    ensures Step(env, s, StoreContent(repo, d, staged)) ==
              s.(content := if d in s.content then s.content else s.content[d := staged],
                 pc := Recording(repo, d, |staged|))
  {
  }

  lemma RecordBlobStep(env: Env, s: State)
    requires s.pc.Recording?
    ensures var t := Step(env, s, RecordBlob);
            && t == s.(blobs := t.blobs, links := t.links, pc := Idle)
            && t.blobs.Keys == s.blobs.Keys + {s.pc.digest}
            && t.links.Keys == s.links.Keys + {Link(s.pc.repo, s.pc.digest)}
            && (Link(s.pc.repo, s.pc.digest) !in s.links ==> t.links[Link(s.pc.repo, s.pc.digest)] == s.now)
            && (s.pc.digest !in s.blobs ==> t.blobs[s.pc.digest].created == s.now)
            && (forall l :: l in s.links ==> t.links[l] == s.links[l])
            && (forall d :: d in s.blobs ==> t.blobs[d] == s.blobs[d])
  {
  }

  lemma BindTagStep(env: Env, s: State)
    requires s.pc.Tagging?
    ensures Step(env, s, BindTag) ==
              s.(tags := s.tags[(s.pc.manifest.repo, s.pc.tag) := s.pc.manifest.digest], pc := Idle)
  {
  }

  lemma WhatInvSays(env: Env, s: State)
    requires Inv(env, s)
    ensures forall d :: d in s.content ==> env.sha(s.content[d]) == d
    ensures forall d :: d in s.blobs ==> d in s.content && s.blobs[d].size == |s.content[d]|
    ensures forall l :: l in s.links ==> l.digest in s.blobs
  {
  }

  lemma SameManifestsSameReading(env: Env, s: State, t: State, m: Link)
    requires s.manifests == t.manifests && m in s.manifests && ManifestOk(env, s, m)
    ensures ManifestOk(env, t, m) && Stored(env, t, m) == Stored(env, s, m)
  {
  }

  lemma RefusalIsRight(env: Env, s: State, repo: Repo, d: Digest)
    requires Inv(env, s)
    ensures Referenced(s.refs, Link(repo, d)) <==>
              exists m :: m in s.manifests && m.repo == repo && ManifestOk(env, s, m) && PointsAt(Stored(env, s, m), d)
  {
    hide PointsAt, Referenced, Closed, RefsExact;
    ReferencedMeansPointedAt(env, s, Link(repo, d)) by { assert ManifestsOk(env, s) && RefsExact(env, s); }
  }

  lemma DeleteBlobStep(env: Env, s: State, repo: Repo, d: Digest)
    requires s.pc.Idle? && !Referenced(s.refs, Link(repo, d))
    ensures Link(repo, d) !in s.links ==> Step(env, s, DeleteBlob(repo, d)) == s
    ensures Link(repo, d) in s.links ==>
              var links := s.links - {Link(repo, d)};
              Step(env, s, DeleteBlob(repo, d)) ==
                if HasLink(links, d) then s.(links := links)
                else s.(links := links, blobs := s.blobs - {d}, pc := Purging({d}))
  {
    hide Referenced, HasLink;
  }

  lemma NoLinksLeft(links: map<Link, int>, d: Digest)
    ensures |set l | l in links && l.digest == d| == 0 <==> !HasLink(links, d)
  {
    var left := set l | l in links && l.digest == d;
    if HasLink(links, d) {
      var l :| l in links && l.digest == d;
      assert l in left;
    } else {
      assert left == {};
    }
  }

  function RefsTo(m: Link, digests: seq<Digest>): set<Ref> {
    set d | d in digests :: Ref(m, d)
  }

  lemma RefsToSnoc(m: Link, digests: seq<Digest>, i: nat)
    requires i < |digests|
    ensures RefsTo(m, digests[..i + 1]) == RefsTo(m, digests[..i]) + {Ref(m, digests[i])}
    ensures RefsTo(m, []) == {}
  {
    assert digests[..i + 1] == digests[..i] + [digests[i]];
  }

  lemma RefsToAll(m: Link, p: Parsed, digests: seq<Digest>)
    requires forall d :: d in digests <==> PointsAt(p, d)
    ensures RefsTo(m, digests) == RefsOf(m, p)
    ensures RefsTo(m, []) == {}
  {
    hide PointsAt;
    forall r ensures r in RefsTo(m, digests) <==> r in RefsOf(m, p) {
      RefsMeanPointsAt(m, p, r.digest);
    }
  }

  lemma PutManifestStep(env: Env, s: State, repo: Repo, contentType: MediaType, payload: Bytes, tag: Option<Tag>)
    requires s.pc.Idle? && CanPutManifest(env, s, repo, contentType, payload)
    ensures var p, m := Reading(env, contentType, payload).value, Link(repo, env.sha(payload));
            Step(env, s, PutManifest(repo, contentType, payload, tag)) ==
              s.(manifests := s.manifests[m := if m in s.manifests then s.manifests[m].(mediaType := p.mediaType)
                                               else ManifestRow(p.mediaType, payload, ConfigDigest(p))],
                 refs := OtherRefs(s.refs, m) + RefsOf(m, p),
                 pc := if tag.Some? then Tagging(m, tag.value) else Idle)
  {
    hide RefsOf, Reading, Complete;
  }

  lemma GcLinksStep(env: Env, s: State, grace: nat)
    requires s.pc.Idle?
    ensures Step(env, s, GcLinks(grace)) ==
              s.(links := KeptLinks(s.links, s.refs, s.now - grace), pc := Collecting(s.now - grace))
  {
  }

  lemma GcRowsStep(env: Env, s: State)
    requires s.pc.Collecting?
    ensures var rows := Orphans(s.blobs, s.links, s.pc.cutoff);
            && Step(env, s, GcRows) == s.(blobs := s.blobs - rows, pc := Purging(rows))
            && rows == s.blobs.Keys - (s.blobs - rows).Keys
  {
  }

  lemma PurgeStep(env: Env, s: State, d: Digest)
    requires s.pc.Purging? && d in s.pc.orphans
    ensures Step(env, s, Purge(d)) == s.(content := s.content - {d}, pc := Purging(s.pc.orphans - {d}))
  {
  }

  lemma DeleteManifestStep(env: Env, s: State, m: Link)
    requires Inv(env, s) && s.pc.Idle?
    ensures var t := Step(env, s, DeleteManifest(m.repo, m.digest));
            && t == s.(manifests := s.manifests - {m}, refs := OtherRefs(s.refs, m),
                       tags := OtherTags(s.tags, m))
            && (m !in s.manifests ==> t == s)
  {
    hide Needs, Reading, RefsOf, Closed;
  }

  lemma RunTwo(env: Env, s: State, a: Action, b: Action)
    ensures Run(env, s, [a, b]) == Step(env, Step(env, s, a), b)
  {
    hide Step;
    assert [a, b] == [a] + [b];
    RunAppend(env, s, [a], [b]);
    RunOne(env, s, a);
    RunOne(env, Step(env, s, a), b);
  }

  lemma OrphansHadContent(env: Env, s: State)
    requires Inv(env, s)
    ensures s.blobs.Keys <= s.content.Keys
  {
  }

  function Unfailing(rows: set<Digest>, fails: Digest -> bool): (gone: set<Digest>)
    ensures forall d :: d in gone <==> d in rows && !fails(d)
  {
    set d | d in rows && !fails(d)
  }

  function Removed(orphaned: seq<Digest>, fails: Digest -> bool): set<Digest> {
    set d | d in orphaned && !fails(d)
  }

  function Without(content: map<Digest, Bytes>, orphaned: seq<Digest>, fails: Digest -> bool)
    : (left: map<Digest, Bytes>)
    ensures forall d :: d in content && d !in left ==> d in orphaned && !fails(d)
  {
    content - Removed(orphaned, fails)
  }

  lemma RemovedNone(content: map<Digest, Bytes>, fails: Digest -> bool)
    ensures Removed([], fails) == {} && Without(content, [], fails) == content
  {
  }

  lemma RemovedSnoc(content: map<Digest, Bytes>, orphaned: seq<Digest>, i: nat, fails: Digest -> bool)
    requires i < |orphaned| && orphaned[i] !in orphaned[..i]
    ensures var d, before, after := orphaned[i], Removed(orphaned[..i], fails), Removed(orphaned[..i + 1], fails);
            if fails(d) then
              after == before
              && Without(content, orphaned[..i + 1], fails) == Without(content, orphaned[..i], fails)
            else |after| == |before| + 1
                 && Without(content, orphaned[..i + 1], fails) == Without(content, orphaned[..i], fails) - {d}
  {
    assert orphaned[..i + 1] == orphaned[..i] + [orphaned[i]];
    assert Removed(orphaned[..i + 1], fails)
        == Removed(orphaned[..i], fails) + (if fails(orphaned[i]) then {} else {orphaned[i]});
  }

  lemma AtMostAllRows(blobs: map<Digest, BlobRow>, orphaned: seq<Digest>)
    requires (set d | d in orphaned) <= blobs.Keys
    requires forall i, j :: 0 <= i < j < |orphaned| ==> orphaned[i] != orphaned[j]
    ensures |orphaned| <= |blobs|
  {
    DistinctCount(orphaned);
    var rows := set d | d in orphaned;
    assert blobs.Keys == rows + (blobs.Keys - rows);
    assert |blobs.Keys| == |blobs|;
  }

  lemma GcTotals(content: map<Digest, Bytes>, rows: set<Digest>, orphaned: seq<Digest>, fails: Digest -> bool)
    requires rows == (set d | d in orphaned) && rows <= content.Keys
    requires forall i, j :: 0 <= i < j < |orphaned| ==> orphaned[i] != orphaned[j]
    ensures var left := Without(content, orphaned, fails);
            && |orphaned| == |rows|
            && left.Keys == content.Keys - Unfailing(rows, fails)
            && |content.Keys - left.Keys| == |Removed(orphaned, fails)|
  {
    DistinctCount(orphaned);
    assert content.Keys - Without(content, orphaned, fails).Keys == Removed(orphaned, fails);
  }

  lemma {:induction false} DistinctCount(ds: seq<Digest>)
    requires forall i, j :: 0 <= i < j < |ds| ==> ds[i] != ds[j]
    ensures |set d | d in ds| == |ds|
    decreases |ds|
  {
    if ds != [] {
      var front := ds[..|ds| - 1];
      DistinctCount(front);
      assert ds == front + [ds[|ds| - 1]];
      assert (set d | d in ds) == (set d | d in front) + {ds[|ds| - 1]};
    } else {
      assert (set d | d in ds) == {};
    }
  }
}
