/** Blob rows, repository links, manifests, their references, tags and stored
    content, under the serial handlers of api/ and the statements of store/.

    One action is one SQL transaction, one call to the storage driver, or the end
    of a handler. `Stop` is enabled anywhere: it is the handler's return and the
    replica's crash alike. While `pc` is not `Idle` a handler is between two of
    its steps, and no other one starts: handlers are serial. */
module BlobGraph {
  import opened Wrappers

  type Bytes = seq<bv8>
  type Digest = string
  type Repo = nat
  type Tag = string

  // ---- Manifests (manifest/parse.go) ----

  datatype MediaType =
    | Empty | Json | OctetStream
    | OciIndex | DockerList | OciManifest | DockerManifest
    | Unsupported(name: string)

  /** `foreign`: the media type names the layer as external to the registry;
      `valid`: the digest has a colon and the media type is not empty. */
  datatype Descriptor = Descriptor(digest: Digest, foreign: bool, valid: bool)

  /** The JSON object of a payload. */
  datatype RawManifest = RawManifest(
    mediaType: MediaType, config: Option<Descriptor>, layers: seq<Descriptor>,
    manifests: seq<Descriptor>, subject: Option<Descriptor>)

  datatype Parsed = Parsed(
    mediaType: MediaType, config: Option<Descriptor>, layers: seq<Descriptor>, children: seq<Descriptor>)

  predicate Valid(ds: seq<Descriptor>) {
    forall i :: 0 <= i < |ds| ==> ds[i].valid
  }

  predicate ValidIfSome(d: Option<Descriptor>) {
    d.Some? ==> d.value.valid
  }

  /** `contentType` is the request's, without parameters. */
  function Parse(contentType: MediaType, raw: RawManifest): (p: Option<Parsed>) {
    var mediaType := if contentType in {Empty, Json, OctetStream} then raw.mediaType else contentType;
    if (raw.mediaType != Empty && mediaType != raw.mediaType) || !ValidIfSome(raw.subject) then None
    else if mediaType in {OciIndex, DockerList} then
      if Valid(raw.manifests) then Some(Parsed(mediaType, None, [], raw.manifests)) else None
    else if mediaType in {OciManifest, DockerManifest} && raw.config.Some? && ValidIfSome(raw.config) then
      if Valid(raw.layers) then Some(Parsed(mediaType, raw.config, raw.layers, [])) else None
    else None
  }

  /** Reading a stored manifest again under the media type recorded with it gives
      what the push saw; a payload that names its own type has one reading only. */
  lemma ReadingIsStable(contentType: MediaType, raw: RawManifest)
    requires Parse(contentType, raw).Some?
    ensures var p := Parse(contentType, raw).value;
            && Parse(p.mediaType, raw) == Some(p)
            && (raw.mediaType != Empty ==> p.mediaType == raw.mediaType)
  {
  }

  /** Which part of a payload is read, and exactly when none is: an image manifest
      has a config and layers, an index has manifests, and anything else, a type
      that contradicts the payload's own, or an invalid descriptor, is refused. */
  lemma ReadingOfRaw(contentType: MediaType, raw: RawManifest)
    ensures var generic := contentType == Empty || contentType == Json || contentType == OctetStream;
            var t := if generic then raw.mediaType else contentType;
            var image, index := t == OciManifest || t == DockerManifest, t == OciIndex || t == DockerList;
            && (Parse(contentType, raw).None? <==>
                  || (raw.mediaType != Empty && raw.mediaType != t)
                  || (!image && !index)
                  || (raw.subject.Some? && !raw.subject.value.valid)
                  || (image && (raw.config.None? || !raw.config.value.valid))
                  || (image && exists l :: l in raw.layers && !l.valid)
                  || (index && exists c :: c in raw.manifests && !c.valid))
            && (Parse(contentType, raw).Some? && image ==>
                  && Parse(contentType, raw).value == Parsed(t, raw.config, raw.layers, [])
                  && ConfigDigest(Parse(contentType, raw).value) == Some(raw.config.value.digest))
            && (Parse(contentType, raw).Some? && index ==>
                  && Parse(contentType, raw).value == Parsed(t, None, [], raw.manifests)
                  && ConfigDigest(Parse(contentType, raw).value) == None)
  {
  }

  /** A blob the manifest is made of: its config or a layer that is not foreign. */
  predicate Needs(p: Parsed, d: Digest) {
    (p.config.Some? && p.config.value.digest == d) || exists l :: l in p.layers && !l.foreign && l.digest == d
  }

  predicate PointsAt(p: Parsed, d: Digest) {
    Needs(p, d) || exists c :: c in p.children && c.digest == d
  }

  function ConfigDigest(p: Parsed): Option<Digest> {
    if p.config.Some? then Some(p.config.value.digest) else None
  }

  // ---- The world ----

  /** The hash, and the JSON decoder. */
  datatype Env = Env(sha: Bytes -> Digest, decode: Bytes -> Option<RawManifest>)

  ghost predicate CollisionFree(env: Env) {
    forall a: Bytes, b: Bytes :: env.sha(a) == env.sha(b) ==> a == b
  }

  function Reading(env: Env, contentType: MediaType, payload: Bytes): Option<Parsed> {
    match env.decode(payload)
    case None => None
    case Some(raw) => Parse(contentType, raw)
  }

  datatype BlobRow = BlobRow(size: nat, created: int)
  datatype Link = Link(repo: Repo, digest: Digest)
  datatype ManifestRow = ManifestRow(mediaType: MediaType, payload: Bytes, config: Option<Digest>)
  datatype Ref = Ref(manifest: Link, digest: Digest)

  datatype Pc =
    | Idle
    | Recording(repo: Repo, digest: Digest, size: nat)
    | Tagging(manifest: Link, tag: Tag)
    | Collecting(cutoff: int)
    | Purging(orphans: set<Digest>)

  datatype State = State(
    blobs: map<Digest, BlobRow>, links: map<Link, int>,
    manifests: map<Link, ManifestRow>, refs: set<Ref>, tags: map<(Repo, Tag), Digest>,
    content: map<Digest, Bytes>, now: int, pc: Pc)

  datatype Action =
    | StoreContent(repo: Repo, digest: Digest, staged: Bytes)
    | RecordBlob
    | Mount(source: Repo, repo: Repo, digest: Digest)
    | PutManifest(repo: Repo, contentType: MediaType, payload: Bytes, name: Option<Tag>)
    | BindTag
    | DeleteTag(repo: Repo, tag: Tag)
    | DeleteManifest(repo: Repo, digest: Digest)
    | DeleteBlob(repo: Repo, digest: Digest)
    | GcLinks(grace: nat)
    | GcRows
    | Purge(digest: Digest)
    | Stop
    | Tick(elapsed: nat)

  // ---- The statements ----

  /** Inserting a row or a link that exists changes nothing: neither the size nor
      the time of creation is refreshed. */
  function RecordedRow(s: State, d: Digest, size: nat): map<Digest, BlobRow> {
    if d in s.blobs then s.blobs else s.blobs[d := BlobRow(size, s.now)]
  }

  function Linked(s: State, l: Link): map<Link, int> {
    if l in s.links then s.links else s.links[l := s.now]
  }

  predicate LinkedBlob(s: State, l: Link) {
    l in s.links && l.digest in s.blobs
  }

  predicate Referenced(refs: set<Ref>, l: Link) {
    exists r :: r in refs && r.manifest.repo == l.repo && r.digest == l.digest
  }

  predicate HasLink(links: map<Link, int>, d: Digest) {
    exists l :: l in links && l.digest == d
  }

  /** Everything the manifest is made of is linked, and its children are there. */
  predicate Complete(s: State, repo: Repo, p: Parsed) {
    && (p.config.Some? ==> LinkedBlob(s, Link(repo, p.config.value.digest)))
    && (forall l :: l in p.layers && !l.foreign ==> LinkedBlob(s, Link(repo, l.digest)))
    && (forall c :: c in p.children ==> Link(repo, c.digest) in s.manifests)
  }

  function RefsOf(m: Link, p: Parsed): set<Ref> {
    (if p.config.Some? then {Ref(m, p.config.value.digest)} else {})
    + (set l | l in p.layers && !l.foreign :: Ref(m, l.digest))
    + (set c | c in p.children :: Ref(m, c.digest))
  }

  function OtherRefs(refs: set<Ref>, m: Link): set<Ref> {
    set r | r in refs && r.manifest != m
  }

  function OtherTags(tags: map<(Repo, Tag), Digest>, m: Link): map<(Repo, Tag), Digest> {
    map t | t in tags && !(t.0 == m.repo && tags[t] == m.digest) :: tags[t]
  }

  /** On a conflict only the media type is replaced, not the config column. */
  function UpsertManifest(s: State, m: Link, p: Parsed, payload: Bytes): State {
    var row := if m in s.manifests then s.manifests[m].(mediaType := p.mediaType)
               else ManifestRow(p.mediaType, payload, ConfigDigest(p));
    s.(manifests := s.manifests[m := row], refs := OtherRefs(s.refs, m) + RefsOf(m, p))
  }

  function RemoveManifest(s: State, m: Link): State {
    s.(manifests := s.manifests - {m}, refs := OtherRefs(s.refs, m),
       tags := OtherTags(s.tags, m))
  }

  /** Unlinking the last link takes the row with it. */
  function Unlink(s: State, l: Link): State {
    var links := s.links - {l};
    s.(links := links, blobs := if HasLink(links, l.digest) then s.blobs else s.blobs - {l.digest})
  }

  function KeptLinks(links: map<Link, int>, refs: set<Ref>, cutoff: int): map<Link, int> {
    map l | l in links && (links[l] >= cutoff || Referenced(refs, l)) :: links[l]
  }

  function Orphans(blobs: map<Digest, BlobRow>, links: map<Link, int>, cutoff: int): set<Digest> {
    set d | d in blobs && blobs[d].created < cutoff && !HasLink(links, d)
  }

  function KeptRows(blobs: map<Digest, BlobRow>, links: map<Link, int>, cutoff: int): map<Digest, BlobRow> {
    blobs - Orphans(blobs, links, cutoff)
  }

  predicate CanPutManifest(env: Env, s: State, repo: Repo, contentType: MediaType, payload: Bytes) {
    var p := Reading(env, contentType, payload);
    p.Some? && Complete(s, repo, p.value)
  }

  function Step(env: Env, s: State, a: Action): State {
    match a
    case StoreContent(repo, d, staged) =>
      if s.pc.Idle? && env.sha(staged) == d then
        s.(content := if d in s.content then s.content else s.content[d := staged],
           pc := Recording(repo, d, |staged|))
      else s
    case RecordBlob =>
      if s.pc.Recording? then
        s.(blobs := RecordedRow(s, s.pc.digest, s.pc.size), links := Linked(s, Link(s.pc.repo, s.pc.digest)),
           pc := Idle)
      else s
    case Mount(source, repo, d) =>
      if s.pc.Idle? && LinkedBlob(s, Link(source, d)) then s.(links := Linked(s, Link(repo, d))) else s
    case PutManifest(repo, contentType, payload, tag) =>
      if s.pc.Idle? && CanPutManifest(env, s, repo, contentType, payload) then
        var m := Link(repo, env.sha(payload));
        UpsertManifest(s, m, Reading(env, contentType, payload).value, payload)
          .(pc := if tag.Some? then Tagging(m, tag.value) else Idle)
      else s
    case BindTag =>
      if s.pc.Tagging? then
        s.(tags := s.tags[(s.pc.manifest.repo, s.pc.tag) := s.pc.manifest.digest], pc := Idle)
      else s
    case DeleteTag(repo, tag) =>
      if s.pc.Idle? then s.(tags := s.tags - {(repo, tag)}) else s
    case DeleteManifest(repo, d) =>
      if s.pc.Idle? then RemoveManifest(s, Link(repo, d)) else s
    case DeleteBlob(repo, d) =>
      var l := Link(repo, d);
      if s.pc.Idle? && !Referenced(s.refs, l) && l in s.links then
        var t := Unlink(s, l);
        t.(pc := if HasLink(t.links, d) then Idle else Purging({d}))
      else s
    case GcLinks(grace) =>
      if s.pc.Idle? then s.(links := KeptLinks(s.links, s.refs, s.now - grace), pc := Collecting(s.now - grace)) else s
    case GcRows =>
      if s.pc.Collecting? then
        var orphans := Orphans(s.blobs, s.links, s.pc.cutoff);
        s.(blobs := KeptRows(s.blobs, s.links, s.pc.cutoff), pc := Purging(orphans))
      else s
    case Purge(d) =>
      if s.pc.Purging? && d in s.pc.orphans then
        s.(content := s.content - {d}, pc := Purging(s.pc.orphans - {d}))
      else s
    case Stop => s.(pc := Idle)
    case Tick(elapsed) => s.(now := s.now + elapsed)
  }

  function Run(env: Env, s: State, trace: seq<Action>): State
    decreases |trace|
  {
    if trace == [] then s else Run(env, Step(env, s, trace[0]), trace[1..])
  }

  lemma {:induction false} RunAppend(env: Env, s: State, a: seq<Action>, b: seq<Action>)
    ensures Run(env, s, a + b) == Run(env, Run(env, s, a), b)
    decreases |a|
  {
    hide Step;
    if a == [] {
      assert a + b == b;
    } else {
      assert (a + b)[1..] == a[1..] + b;
      RunAppend(env, Step(env, s, a[0]), a[1..], b);
    }
  }

  lemma RunOne(env: Env, s: State, a: Action)
    ensures Run(env, s, [a]) == Step(env, s, a)
  {
    hide Step;
    assert [a][1..] == [];
    assert Run(env, Step(env, s, a), []) == Step(env, s, a);
  }

  // ---- The invariant ----

  predicate ContentOk(env: Env, s: State) {
    forall d :: d in s.content ==> env.sha(s.content[d]) == d
  }

  /** Content is published before its row and removed after it. */
  predicate RowsStored(s: State) {
    forall d :: d in s.blobs ==> d in s.content && s.blobs[d].size == |s.content[d]|
  }

  predicate LinksRecorded(s: State) {
    forall l :: l in s.links ==> l.digest in s.blobs
  }

  predicate ManifestOk(env: Env, s: State, m: Link)
    requires m in s.manifests
  {
    var row := s.manifests[m];
    && env.sha(row.payload) == m.digest
    && Reading(env, row.mediaType, row.payload).Some?
    && Reading(env, row.mediaType, row.payload).value.mediaType == row.mediaType
  }

  predicate ManifestsOk(env: Env, s: State) {
    forall m :: m in s.manifests ==> ManifestOk(env, s, m)
  }

  function Stored(env: Env, s: State, m: Link): Parsed
    requires m in s.manifests && ManifestOk(env, s, m)
  {
    Reading(env, s.manifests[m].mediaType, s.manifests[m].payload).value
  }

  /** The reference table is exactly what the stored manifests point at. */
  predicate RefsExact(env: Env, s: State)
    requires ManifestsOk(env, s)
  {
    && (forall r :: r in s.refs ==> r.manifest in s.manifests && r in RefsOf(r.manifest, Stored(env, s, r.manifest)))
    && (forall m :: m in s.manifests ==> RefsOf(m, Stored(env, s, m)) <= s.refs)
  }

  ghost predicate Closed(env: Env, s: State)
    requires ManifestsOk(env, s)
  {
    forall m, d :: m in s.manifests && Needs(Stored(env, s, m), d) ==> Link(m.repo, d) in s.links
  }

  predicate TagsOk(s: State) {
    forall t :: t in s.tags ==> Link(t.0, s.tags[t]) in s.manifests
  }

  predicate PcOk(s: State) {
    match s.pc
    case Recording(_, d, size) => d in s.content && size == |s.content[d]|
    case Tagging(m, _) => m in s.manifests
    case Purging(orphans) => orphans !! s.blobs.Keys
    case _ => true
  }

  ghost predicate Inv(env: Env, s: State) {
    && ContentOk(env, s) && RowsStored(s) && LinksRecorded(s)
    && ManifestsOk(env, s) && RefsExact(env, s) && Closed(env, s)
    && TagsOk(s) && PcOk(s)
  }

  lemma RefsMeanPointsAt(m: Link, p: Parsed, d: Digest)
    ensures Ref(m, d) in RefsOf(m, p) <==> PointsAt(p, d)
  {
  }

  /** What a stored manifest points at is referenced in its repository. */
  lemma PointedAtIsReferenced(env: Env, s: State, m: Link, d: Digest)
    requires ManifestsOk(env, s) && RefsExact(env, s) && m in s.manifests && PointsAt(Stored(env, s, m), d)
    ensures Referenced(s.refs, Link(m.repo, d))
  {
    RefsMeanPointsAt(m, Stored(env, s, m), d);
    assert Ref(m, d) in s.refs;
  }

  /** Removing links that no reference needs leaves every manifest whole. */
  lemma UnreferencedLinksMayGo(env: Env, s: State, t: State)
    requires ManifestsOk(env, s) && RefsExact(env, s) && Closed(env, s)
    requires t.manifests == s.manifests && t.refs == s.refs
    requires forall l :: l in s.links && Referenced(s.refs, l) ==> l in t.links
    ensures ManifestsOk(env, t) && RefsExact(env, t) && Closed(env, t)
  {
    hide Needs, RefsOf, Reading, Referenced;
    forall m, d | m in t.manifests && Needs(Stored(env, t, m), d) ensures Link(m.repo, d) in t.links {
      assert PointsAt(Stored(env, s, m), d);
      PointedAtIsReferenced(env, s, m, d);
    }
  }

  lemma SameHashSameBytes(env: Env, a: Bytes, b: Bytes)
    requires CollisionFree(env) && env.sha(a) == env.sha(b)
    ensures a == b
  {
  }

  lemma StoreKeepsInv(env: Env, s: State, repo: Repo, d: Digest, staged: Bytes)
    requires Inv(env, s) && CollisionFree(env)
    ensures Inv(env, Step(env, s, StoreContent(repo, d, staged)))
  {
    hide ManifestsOk, RefsExact, Closed, CollisionFree, Needs, RefsOf, Reading, PointsAt, Referenced;
    if s.pc.Idle? && env.sha(staged) == d {
      if d in s.content { SameHashSameBytes(env, s.content[d], staged); }
      UnreferencedLinksMayGo(env, s, Step(env, s, StoreContent(repo, d, staged)));
    }
  }

  lemma LinkStepsKeepInv(env: Env, s: State, a: Action)
    requires Inv(env, s) && (a.RecordBlob? || a.Mount?)
    ensures Inv(env, Step(env, s, a))
  {
    hide ManifestsOk, RefsExact, Closed, Needs, RefsOf, Reading, PointsAt, Referenced;
    var t := Step(env, s, a);
    UnreferencedLinksMayGo(env, s, t);
  }

  lemma PutManifestKeepsInv(env: Env, s: State, repo: Repo, contentType: MediaType, payload: Bytes, tag: Option<Tag>)
    requires Inv(env, s) && CollisionFree(env)
    ensures Inv(env, Step(env, s, PutManifest(repo, contentType, payload, tag)))
  {
    hide RefsOf, Needs, PointsAt, Referenced, Reading, Complete, Closed, RefsExact, Upserts, CollisionFree;
    if s.pc.Idle? && CanPutManifest(env, s, repo, contentType, payload) {
      var m := Link(repo, env.sha(payload));
      var p := Reading(env, contentType, payload).value;
      PushUpserts(env, s, m, contentType, p, payload);
      hide ManifestsOk;
      UpsertedIsRead(env, s, m, p, payload);
      UpsertKeepsRefs(env, s, m, p, payload);
      UpsertKeepsClosed(env, s, m, p, payload);
      var u := UpsertManifest(s, m, p, payload);
      UnreferencedLinksMayGo(env, u, Step(env, s, PutManifest(repo, contentType, payload, tag)));
    }
  }

  lemma PushUpserts(env: Env, s: State, m: Link, contentType: MediaType, p: Parsed, payload: Bytes)
    requires ManifestsOk(env, s) && CollisionFree(env)
    requires env.sha(payload) == m.digest && Reading(env, contentType, payload) == Some(p)
    ensures Upserts(env, s, m, p, payload)
  {
    hide Parse, CollisionFree;
    ReadingIsStable(contentType, env.decode(payload).value);
    if m in s.manifests {
      assert ManifestOk(env, s, m);
      SameHashSameBytes(env, s.manifests[m].payload, payload);
    }
  }

  predicate Upserts(env: Env, s: State, m: Link, p: Parsed, payload: Bytes) {
    && ManifestsOk(env, s)
    && env.sha(payload) == m.digest && Reading(env, p.mediaType, payload) == Some(p)
    && (m in s.manifests ==> s.manifests[m].payload == payload)
  }

  lemma UpsertedIsRead(env: Env, s: State, m: Link, p: Parsed, payload: Bytes)
    requires Upserts(env, s, m, p, payload)
    ensures ManifestsOk(env, UpsertManifest(s, m, p, payload))
    ensures Stored(env, UpsertManifest(s, m, p, payload), m) == p
  {
    hide Reading, RefsOf;
  }

  lemma UpsertKeepsRefs(env: Env, s: State, m: Link, p: Parsed, payload: Bytes)
    requires Upserts(env, s, m, p, payload) && RefsExact(env, s)
    requires ManifestsOk(env, UpsertManifest(s, m, p, payload))
    requires Stored(env, UpsertManifest(s, m, p, payload), m) == p
    ensures RefsExact(env, UpsertManifest(s, m, p, payload))
  {
    hide RefsOf, Reading, Needs, PointsAt;
    var t := UpsertManifest(s, m, p, payload);
    RefsBelongTo(m, p);
    forall n | n in t.manifests ensures RefsOf(n, Stored(env, t, n)) <= t.refs {
      RefsBelongTo(n, Stored(env, t, n));
      if n != m { assert Stored(env, t, n) == Stored(env, s, n); }
    }
    forall r | r in t.refs ensures r.manifest in t.manifests && r in RefsOf(r.manifest, Stored(env, t, r.manifest)) {
      if r.manifest != m { assert Stored(env, t, r.manifest) == Stored(env, s, r.manifest); }
    }
  }

  lemma UpsertKeepsClosed(env: Env, s: State, m: Link, p: Parsed, payload: Bytes)
    requires Upserts(env, s, m, p, payload) && Closed(env, s) && Complete(s, m.repo, p)
    requires ManifestsOk(env, UpsertManifest(s, m, p, payload))
    requires Stored(env, UpsertManifest(s, m, p, payload), m) == p
    ensures Closed(env, UpsertManifest(s, m, p, payload))
  {
    hide Reading, RefsOf;
  }

  lemma RemovalKeepsManifests(env: Env, s: State, m: Link)
    requires ManifestsOk(env, s) && RefsExact(env, s) && Closed(env, s)
    ensures var t := RemoveManifest(s, m); ManifestsOk(env, t) && RefsExact(env, t) && Closed(env, t)
  {
    hide Needs, Reading, RefsOf;
    var t := RemoveManifest(s, m);
    forall n | n in t.manifests ensures RefsOf(n, Stored(env, t, n)) <= t.refs {
      RefsBelongTo(n, Stored(env, t, n));
    }
  }

  lemma DeleteManifestKeepsInv(env: Env, s: State, repo: Repo, d: Digest)
    requires Inv(env, s)
    ensures Inv(env, Step(env, s, DeleteManifest(repo, d)))
  {
    hide ManifestsOk, RefsExact, Closed;
    RemovalKeepsManifests(env, s, Link(repo, d));
  }

  lemma RefsBelongTo(m: Link, p: Parsed)
    ensures forall r :: r in RefsOf(m, p) ==> r.manifest == m
  {
  }

  lemma DeleteBlobKeepsInv(env: Env, s: State, repo: Repo, d: Digest)
    requires Inv(env, s)
    ensures Inv(env, Step(env, s, DeleteBlob(repo, d)))
  {
    hide ManifestsOk, RefsExact, Closed, Needs, RefsOf, Reading, PointsAt;
    UnreferencedLinksMayGo(env, s, Step(env, s, DeleteBlob(repo, d)));
  }

  lemma GcLinksKeepsInv(env: Env, s: State, grace: nat)
    requires Inv(env, s)
    ensures Inv(env, Step(env, s, GcLinks(grace)))
  {
    hide ManifestsOk, RefsExact, Closed, Needs, RefsOf, Reading, PointsAt;
    UnreferencedLinksMayGo(env, s, Step(env, s, GcLinks(grace)));
  }

  lemma GcRowsKeepsInv(env: Env, s: State)
    requires Inv(env, s)
    ensures Inv(env, Step(env, s, GcRows))
  {
    hide ManifestsOk, RefsExact, Closed, Needs, RefsOf, Reading, PointsAt, Referenced;
    UnreferencedLinksMayGo(env, s, Step(env, s, GcRows));
  }

  lemma PurgeKeepsInv(env: Env, s: State, d: Digest)
    requires Inv(env, s)
    ensures Inv(env, Step(env, s, Purge(d)))
  {
    hide ManifestsOk, RefsExact, Closed, Needs, RefsOf, Reading, PointsAt, Referenced;
    UnreferencedLinksMayGo(env, s, Step(env, s, Purge(d)));
  }

  lemma OtherStepsKeepInv(env: Env, s: State, a: Action)
    requires Inv(env, s) && (a.BindTag? || a.DeleteTag? || a.Stop? || a.Tick?)
    ensures Inv(env, Step(env, s, a))
  {
    hide ManifestsOk, RefsExact, Closed, Needs, RefsOf, Reading, PointsAt, Referenced;
    UnreferencedLinksMayGo(env, s, Step(env, s, a));
  }

  lemma StepKeepsInv(env: Env, s: State, a: Action)
    requires Inv(env, s) && CollisionFree(env)
    ensures Inv(env, Step(env, s, a))
  {
    hide *;
    match a {
      case StoreContent(repo, d, staged) => StoreKeepsInv(env, s, repo, d, staged);
      case RecordBlob => LinkStepsKeepInv(env, s, a);
      case Mount(_, _, _) => LinkStepsKeepInv(env, s, a);
      case PutManifest(repo, contentType, payload, tag) => PutManifestKeepsInv(env, s, repo, contentType, payload, tag);
      case DeleteManifest(repo, d) => DeleteManifestKeepsInv(env, s, repo, d);
      case DeleteBlob(repo, d) => DeleteBlobKeepsInv(env, s, repo, d);
      case GcLinks(grace) => GcLinksKeepsInv(env, s, grace);
      case GcRows => GcRowsKeepsInv(env, s);
      case Purge(d) => PurgeKeepsInv(env, s, d);
      case _ => OtherStepsKeepInv(env, s, a);
    }
  }

  lemma {:induction false} RunKeepsInv(env: Env, s: State, trace: seq<Action>)
    requires Inv(env, s) && CollisionFree(env)
    ensures Inv(env, Run(env, s, trace))
    decreases |trace|
  {
    if trace != [] {
      StepKeepsInv(env, s, trace[0]);
      hide Step, Inv;
      RunKeepsInv(env, Step(env, s, trace[0]), trace[1..]);
    }
  }

  // ---- Over every run ----

  /** After any run, stopped anywhere, every stored manifest is whole: its config
      and its layers are linked to its repository, recorded with their length,
      and stored under the digest they hash to. */
  lemma StoredManifestsStayWhole(env: Env, s: State, trace: seq<Action>, m: Link, d: Digest)
    requires Inv(env, s) && CollisionFree(env)
    requires var t := Run(env, s, trace);
             m in t.manifests && ManifestOk(env, t, m) && Needs(Stored(env, t, m), d)
    ensures var t := Run(env, s, trace);
            && Link(m.repo, d) in t.links && d in t.blobs && d in t.content
            && env.sha(t.content[d]) == d && t.blobs[d].size == |t.content[d]|
  {
    RunKeepsInv(env, s, trace);
    hide Run, Needs, Reading, RefsExact;
  }

  /** Everything a stored image's payload names, in the payload's own terms. */
  predicate NamedByImage(raw: RawManifest, d: Digest) {
    (raw.config.Some? && raw.config.value.digest == d) || exists l :: l in raw.layers && !l.foreign && l.digest == d
  }

  /** The same, read off the stored payloads: after any run an image manifest has
      a config, and its config and its non-foreign layers are referenced, linked,
      recorded and stored; the members of an index are referenced. */
  lemma StoredPayloadsStayWhole(env: Env, s: State, trace: seq<Action>, m: Link)
    requires Inv(env, s) && CollisionFree(env) && m in Run(env, s, trace).manifests
    ensures var t := Run(env, s, trace);
            var row := t.manifests[m];
            && env.sha(row.payload) == m.digest && env.decode(row.payload).Some?
            && var raw := env.decode(row.payload).value;
            && row.mediaType in {OciManifest, DockerManifest, OciIndex, DockerList}
            && (row.mediaType == OciManifest || row.mediaType == DockerManifest ==>
                  && raw.config.Some?
                  && forall d :: NamedByImage(raw, d) ==>
                       && Ref(m, d) in t.refs && Link(m.repo, d) in t.links && d in t.blobs && d in t.content
                       && env.sha(t.content[d]) == d && t.blobs[d].size == |t.content[d]|)
            && (row.mediaType == OciIndex || row.mediaType == DockerList ==>
                  forall c :: c in raw.manifests ==> Ref(m, c.digest) in t.refs)
  {
    RunKeepsInv(env, s, trace);
    StoredPayloadIsWhole(env, Run(env, s, trace), m);
  }

  lemma StoredPayloadIsWhole(env: Env, t: State, m: Link)
    requires Inv(env, t) && m in t.manifests
    ensures var row := t.manifests[m];
            && env.sha(row.payload) == m.digest && env.decode(row.payload).Some?
            && var raw := env.decode(row.payload).value;
            && row.mediaType in {OciManifest, DockerManifest, OciIndex, DockerList}
            && (row.mediaType == OciManifest || row.mediaType == DockerManifest ==>
                  && raw.config.Some?
                  && forall d :: NamedByImage(raw, d) ==>
                       && Ref(m, d) in t.refs && Link(m.repo, d) in t.links && d in t.blobs && d in t.content
                       && env.sha(t.content[d]) == d && t.blobs[d].size == |t.content[d]|)
            && (row.mediaType == OciIndex || row.mediaType == DockerList ==>
                  forall c :: c in raw.manifests ==> Ref(m, c.digest) in t.refs)
  {
    var row := t.manifests[m];
    assert ManifestOk(env, t, m);
    var raw := env.decode(row.payload).value;
    ReadingOfRaw(row.mediaType, raw);
    var p := Stored(env, t, m);
    hide Parse, Reading;
    forall d | PointsAt(p, d) ensures Ref(m, d) in t.refs { RefsMeanPointsAt(m, p, d); }
    assert forall c :: c in p.children ==> PointsAt(p, c.digest);
    hide RefsOf, RefsExact;
    if row.mediaType == OciManifest || row.mediaType == DockerManifest {
      forall d | NamedByImage(raw, d)
        ensures Ref(m, d) in t.refs && Link(m.repo, d) in t.links && d in t.blobs && d in t.content
                && env.sha(t.content[d]) == d && t.blobs[d].size == |t.content[d]|
      {
        assert Needs(p, d) && PointsAt(p, d);
      }
    }
  }

  /** When a push is accepted, in the payload's own terms: it can be read, and an
      image's config and non-foreign layers are linked, an index's members are
      stored manifests of the repository. */
  lemma AcceptedExactlyWhenNamedIsThere(env: Env, s: State, repo: Repo, contentType: MediaType, payload: Bytes)
    ensures CanPutManifest(env, s, repo, contentType, payload) <==>
              && Reading(env, contentType, payload).Some? && env.decode(payload).Some?
              && var raw := env.decode(payload).value;
              var t := Reading(env, contentType, payload).value.mediaType;
              && (t == OciManifest || t == DockerManifest ==>
                    forall d :: NamedByImage(raw, d) ==> Link(repo, d) in s.links && d in s.blobs)
              && (t == OciIndex || t == DockerList ==>
                    forall c :: c in raw.manifests ==> Link(repo, c.digest) in s.manifests)
  {
    if env.decode(payload).Some? && Reading(env, contentType, payload).Some? {
      ReadingOfRaw(contentType, env.decode(payload).value);
      var p := Reading(env, contentType, payload).value;
      hide Parse;
      NeedsAreLinked(s, repo, p);
    }
  }

  lemma NeedsAreLinked(s: State, repo: Repo, p: Parsed)
    ensures Complete(s, repo, p) <==>
              && (forall d :: Needs(p, d) ==> LinkedBlob(s, Link(repo, d)))
              && (forall c :: c in p.children ==> Link(repo, c.digest) in s.manifests)
  {
    if Complete(s, repo, p) {
      forall d | Needs(p, d) ensures LinkedBlob(s, Link(repo, d)) {}
    }
    if forall d :: Needs(p, d) ==> LinkedBlob(s, Link(repo, d)) {
      assert p.config.Some? ==> Needs(p, p.config.value.digest);
      forall l | l in p.layers && !l.foreign ensures LinkedBlob(s, Link(repo, l.digest)) {
        assert Needs(p, l.digest);
      }
    }
  }

  /** After any run, stopped anywhere, a blob row has content of its size that
      hashes to its digest, a link has a row and a tag has a manifest. */
  lemma RowsAlwaysHaveContent(env: Env, s: State, trace: seq<Action>)
    requires Inv(env, s) && CollisionFree(env)
    ensures var t := Run(env, s, trace);
            && (forall d :: d in t.blobs ==>
                  d in t.content && env.sha(t.content[d]) == d && t.blobs[d].size == |t.content[d]|)
            && (forall l :: l in t.links ==> l.digest in t.blobs)
            && (forall x :: x in t.tags ==> Link(x.0, t.tags[x]) in t.manifests)
  {
    RunKeepsInv(env, s, trace);
    hide Run;
  }

  /** A digest never changes what it names, not even across its removal. */
  lemma DigestNamesOneContent(env: Env, s: State, trace: seq<Action>, d: Digest)
    requires Inv(env, s) && CollisionFree(env)
    requires d in s.content && d in Run(env, s, trace).content
    ensures Run(env, s, trace).content[d] == s.content[d]
  {
    RunKeepsInv(env, s, trace);
    hide Run;
    SameHashSameBytes(env, Run(env, s, trace).content[d], s.content[d]);
  }

  /** The reference table answers for the manifests: a digest is referenced in a
      repository exactly when a manifest stored there points at it. So a blob
      delete is refused exactly while one does. */
  lemma ReferencedMeansPointedAt(env: Env, s: State, l: Link)
    requires ManifestsOk(env, s) && RefsExact(env, s)
    ensures Referenced(s.refs, l) <==>
              exists m :: m in s.manifests && m.repo == l.repo && PointsAt(Stored(env, s, m), l.digest)
  {
    if Referenced(s.refs, l) {
      var r :| r in s.refs && r.manifest.repo == l.repo && r.digest == l.digest;
      RefsMeanPointsAt(r.manifest, Stored(env, s, r.manifest), l.digest);
    }
    if m :| m in s.manifests && m.repo == l.repo && PointsAt(Stored(env, s, m), l.digest) {
      PointedAtIsReferenced(env, s, m, l.digest);
    }
  }

  /** What a whole collection keeps: the links some manifest of their repository
      points at or that are younger than the cutoff, and the rows that are linked
      or younger. Manifests, tags and content are as before. */
  lemma CollectionIsExact(env: Env, s: State, grace: nat)
    requires Inv(env, s) && s.pc.Idle?
    ensures var t := Run(env, s, [GcLinks(grace), GcRows]);
            && t.manifests == s.manifests && t.tags == s.tags && t.content == s.content
            && (forall l :: l in t.links <==>
                  && l in s.links
                  && (s.links[l] >= s.now - grace
                      || exists m :: m in s.manifests && m.repo == l.repo && PointsAt(Stored(env, s, m), l.digest)))
            && (forall d :: d in t.blobs <==>
                  d in s.blobs && (s.blobs[d].created >= s.now - grace || HasLink(t.links, d)))
            && t.pc == Purging(s.blobs.Keys - t.blobs.Keys)
  {
    hide PointsAt, Reading, RefsOf, Needs, Referenced, HasLink;
    var u := Step(env, s, GcLinks(grace));
    var t := Step(env, u, GcRows);
    assert [GcLinks(grace), GcRows] == [GcLinks(grace)] + [GcRows];
    RunAppend(env, s, [GcLinks(grace)], [GcRows]);
    RunOne(env, s, GcLinks(grace));
    RunOne(env, u, GcRows);
    forall l ensures l in t.links <==>
        && l in s.links
        && (s.links[l] >= s.now - grace
            || exists m :: m in s.manifests && m.repo == l.repo && PointsAt(Stored(env, s, m), l.digest))
    {
      ReferencedMeansPointedAt(env, s, l);
    }
    assert s.blobs.Keys - t.blobs.Keys == Orphans(u.blobs, u.links, s.now - grace);
  }

  function CommitThenCollect(env: Env, s: State, repo: Repo, staged: Bytes, elapsed: nat, grace: nat): State {
    var committed := Step(env, Step(env, s, StoreContent(repo, env.sha(staged), staged)), RecordBlob);
    Step(env, Step(env, committed, Tick(elapsed)), GcLinks(grace))
  }

  /** The grace window counts from the first upload. A blob just committed keeps
      its link through a collection within the window exactly when the link is
      new, or was young anyway, or is referenced. */
  lemma GraceProtectsExactly(env: Env, s: State, repo: Repo, staged: Bytes, elapsed: nat, grace: nat)
    requires Inv(env, s) && s.pc.Idle? && elapsed <= grace
    ensures var l := Link(repo, env.sha(staged));
            l in CommitThenCollect(env, s, repo, staged, elapsed, grace).links
            <==> l !in s.links || s.links[l] >= s.now + elapsed - grace || Referenced(s.refs, l)
  {
  }

  /** The same for a mount: it ages the new link from now on, not from when the
      source was linked. */
  lemma GraceProtectsMounts(env: Env, s: State, source: Repo, repo: Repo, d: Digest, elapsed: nat, grace: nat)
    requires Inv(env, s) && s.pc.Idle? && elapsed <= grace && Link(source, d) in s.links
    ensures var mounted := Step(env, s, Mount(source, repo, d));
            var l := Link(repo, d);
            && l in mounted.links && mounted.links[l] == (if l in s.links then s.links[l] else s.now)
            && (l in Step(env, Step(env, mounted, Tick(elapsed)), GcLinks(grace)).links
                <==> l !in s.links || s.links[l] >= s.now + elapsed - grace || Referenced(s.refs, l))
  {
  }

  /** One blob, uploaded and linked at time 0, at time 100. */
  function OldUpload(env: Env, staged: Bytes): State {
    var d := env.sha(staged);
    State(map[d := BlobRow(|staged|, 0)], map[Link(0, d) := 0], map[], {}, map[], map[d := staged], 100, Idle)
  }

  lemma OldUploadIsInv(env: Env, staged: Bytes)
    ensures Inv(env, OldUpload(env, staged))
  {
    hide Needs, Reading, RefsOf;
  }

  /** Uploaded anew at time 100, it loses its link to a collection with grace 10,
      before its manifest can arrive. */
  lemma RepushIsNotProtected(env: Env, staged: Bytes, p: Parsed)
    requires Needs(p, env.sha(staged))
    ensures var s := OldUpload(env, staged);
            Inv(env, s) && !Complete(CommitThenCollect(env, s, 0, staged, 0, 10), 0, p)
  {
    var s, l := OldUpload(env, staged), Link(0, env.sha(staged));
    OldUploadIsInv(env, staged);
    hide Inv, CommitThenCollect;
    GraceProtectsExactly(env, s, 0, staged, 0, 10);
    assert !Referenced(s.refs, l);
    MissingLinkIsIncomplete(CommitThenCollect(env, s, 0, staged, 0, 10), 0, p, l.digest);
  }

  lemma MissingLinkIsIncomplete(s: State, repo: Repo, p: Parsed, d: Digest)
    requires Needs(p, d) && Link(repo, d) !in s.links
    ensures !Complete(s, repo, p)
  {
  }

  // ---- The config column ----

  /** The payload does not name its type and is well formed as either kind. */
  predicate Ambiguous(raw: RawManifest) {
    Parse(OciIndex, raw).Some? && Parse(OciManifest, raw).Some?
  }

  predicate ColumnRight(env: Env, s: State, m: Link)
    requires m in s.manifests && ManifestOk(env, s, m)
  {
    s.manifests[m].config == ConfigDigest(Stored(env, s, m))
  }

  predicate ColumnOk(env: Env, s: State, m: Link)
    requires m in s.manifests && ManifestOk(env, s, m)
  {
    !Ambiguous(env.decode(s.manifests[m].payload).value) ==> ColumnRight(env, s, m)
  }

  lemma OneReadingOneConfig(raw: RawManifest, a: MediaType, b: MediaType)
    requires !Ambiguous(raw) && Parse(a, raw).Some? && Parse(b, raw).Some?
    ensures ConfigDigest(Parse(a, raw).value) == ConfigDigest(Parse(b, raw).value)
  {
  }

  /** After every run the recorded config digest of a manifest is that of its
      current reading, unless its payload can be read both ways. */
  lemma {:induction false} ConfigColumnStaysRight(env: Env, s: State, trace: seq<Action>)
    requires Inv(env, s) && CollisionFree(env)
    requires forall m :: m in s.manifests ==> ColumnOk(env, s, m)
    ensures Inv(env, Run(env, s, trace))
    ensures forall m :: m in Run(env, s, trace).manifests ==> ColumnOk(env, Run(env, s, trace), m)
    decreases |trace|
  {
    if trace != [] {
      StepKeepsInv(env, s, trace[0]);
      forall m | m in Step(env, s, trace[0]).manifests ensures ColumnOk(env, Step(env, s, trace[0]), m) {
        StepKeepsColumn(env, s, trace[0], m);
      }
      hide Step, Inv, ColumnOk;
      ConfigColumnStaysRight(env, Step(env, s, trace[0]), trace[1..]);
    }
  }

  /** Only a push writes a manifest row. */
  lemma OnlyPushWritesManifests(env: Env, s: State, a: Action, m: Link)
    requires m in Step(env, s, a).manifests
    requires m !in s.manifests || Step(env, s, a).manifests[m] != s.manifests[m]
    ensures a.PutManifest? && m == Link(a.repo, env.sha(a.payload))
    ensures Reading(env, a.contentType, a.payload).Some?
    ensures Step(env, s, a).manifests
         == UpsertManifest(s, m, Reading(env, a.contentType, a.payload).value, a.payload).manifests
  {
    hide Reading, RefsOf, Complete, OtherRefs, Referenced, HasLink;
  }

  lemma StepKeepsColumn(env: Env, s: State, a: Action, m: Link)
    requires Inv(env, s) && CollisionFree(env) && Inv(env, Step(env, s, a))
    requires m in Step(env, s, a).manifests && (m in s.manifests ==> ColumnOk(env, s, m))
    ensures ColumnOk(env, Step(env, s, a), m)
  {
    var t := Step(env, s, a);
    if m !in s.manifests || t.manifests[m] != s.manifests[m] {
      OnlyPushWritesManifests(env, s, a, m);
      hide Step, RefsExact, Closed, CollisionFree, Complete, RefsOf, Ambiguous, Parse;
      var raw := env.decode(a.payload).value;
      ReadingIsStable(a.contentType, raw);
      if m in s.manifests {
        SameHashSameBytes(env, s.manifests[m].payload, a.payload);
        if !Ambiguous(raw) { OneReadingOneConfig(raw, s.manifests[m].mediaType, a.contentType); }
      }
    }
  }

  /** Every payload that can be read both ways goes wrong: pushed as an index and
      then as an image, it keeps the index's empty config column. */
  lemma AmbiguousPayloadGoesStale(env: Env, s: State, repo: Repo, payload: Bytes)
    requires Inv(env, s) && s.pc.Idle? && Link(repo, env.sha(payload)) !in s.manifests
    requires env.decode(payload).Some? && Ambiguous(env.decode(payload).value)
    requires CanPutManifest(env, s, repo, OciIndex, payload) && CanPutManifest(env, s, repo, OciManifest, payload)
    ensures var m := Link(repo, env.sha(payload));
            var t := Step(env, Step(env, s, PutManifest(repo, OciIndex, payload, None)),
                          PutManifest(repo, OciManifest, payload, None));
            && m in t.manifests && ManifestOk(env, t, m) && !ColumnRight(env, t, m)
  {
    hide Inv, RefsOf, Needs, PointsAt;
    var m := Link(repo, env.sha(payload));
    var raw := env.decode(payload).value;
    var u := Step(env, s, PutManifest(repo, OciIndex, payload, None));
    TwoReadings(raw);
    hide Parse;
    assert u.manifests[m] == ManifestRow(OciIndex, payload, None);
    StillComplete(s, u, repo, Reading(env, OciManifest, payload).value);
    hide Complete;
    var pushed := Step(env, u, PutManifest(repo, OciManifest, payload, None));
    assert pushed.manifests[m] == ManifestRow(OciManifest, payload, None);
  }

  lemma TwoReadings(raw: RawManifest)
    requires Ambiguous(raw)
    ensures var index, image := Parse(OciIndex, raw).value, Parse(OciManifest, raw).value;
            && index.mediaType == OciIndex && ConfigDigest(index) == None
            && image.mediaType == OciManifest && ConfigDigest(image).Some?
  {
  }

  lemma StillComplete(s: State, u: State, repo: Repo, p: Parsed)
    requires Complete(s, repo, p) && u.links == s.links && u.blobs == s.blobs && s.manifests.Keys <= u.manifests.Keys
    ensures Complete(u, repo, p)
  {
  }
}
