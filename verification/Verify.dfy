/** Checking a backend against the blobs table, and removing objects no row asks
    for (storagetools/verify.go, listBlobs in storagetools/tools.go). The backend
    holds still during a run; its failing calls enter as predicates, and the clock
    as a function of the object whose age is looked at. */
module Verify {
  import opened Wrappers
  import opened Paths

  type Bytes = seq<bv8>
  type Digest = string

  /** `modified` is None where the backend does not report ages. */
  datatype Listed = Listed(key: string, size: nat, modified: Option<int>)

  datatype Row = Row(digest: Digest, size: nat)

  datatype Options = Options(
    hash: bool, deleteOrphans: bool, grace: int, clock: string -> int, sha: Bytes -> Digest, supported: Digest -> bool,
    statFails: Digest -> bool, readFails: Digest -> bool, deleteFails: string -> bool)

  datatype Verdict = Good | Missing | WrongSize | Corrupt | Failed

  const MAX_PROBLEMS := 100

  // ---- The inventory ----

  predicate DistinctKeys(listing: seq<Listed>) {
    forall i, j :: 0 <= i < j < |listing| ==> listing[i].key != listing[j].key
  }

  /** Every object is in the inventory under the digest its key reads as, or in
      the list of those that are no blobs; and nothing else is. */
  ghost predicate Inventories(listing: seq<Listed>, byDigest: map<Digest, Listed>, unrecognised: seq<string>) {
    && (forall d :: d in byDigest ==> byDigest[d] in listing && DigestFromPath(byDigest[d].key) == Some(d))
    && (forall o :: o in listing ==>
          match DigestFromPath(o.key)
          case Some(d) => d in byDigest && byDigest[d] == o
          case None => o.key in unrecognised)
    && (forall k :: k in unrecognised ==> DigestFromPath(k).None? && exists o :: o in listing && o.key == k)
    && |byDigest| + |unrecognised| == |listing|
  }

  method ListBlobs(listing: seq<Listed>) returns (byDigest: map<Digest, Listed>, unrecognised: seq<string>)
    requires DistinctKeys(listing)
    ensures Inventories(listing, byDigest, unrecognised)
  {
    hide DigestFromPath, Inventories;
    byDigest, unrecognised := map[], [];
    NothingListed();
    assert listing[..0] == [];
    for i := 0 to |listing|
      invariant Inventories(listing[..i], byDigest, unrecognised)
    {
      var o := listing[i];
      NewKey(listing, i);
      var digest := DigestFromPath(o.key);
      if digest.None? {
        OneMoreUnrecognised(listing[..i], byDigest, unrecognised, o);
        unrecognised := unrecognised + [o.key];
      } else {
        OneMoreBlob(listing[..i], byDigest, unrecognised, o, digest.value);
        byDigest := byDigest[digest.value := o];
      }
    }
    assert listing[..|listing|] == listing;
  }

  lemma NothingListed()
    ensures Inventories([], map[], [])
  {
  }

  lemma NewKey(listing: seq<Listed>, i: nat)
    requires DistinctKeys(listing) && i < |listing|
    ensures listing[..i + 1] == listing[..i] + [listing[i]]
    ensures forall p :: p in listing[..i] ==> p.key != listing[i].key
  {
  }

  lemma OneMoreUnrecognised(listing: seq<Listed>, byDigest: map<Digest, Listed>, unrecognised: seq<string>, o: Listed)
    requires Inventories(listing, byDigest, unrecognised) && DigestFromPath(o.key).None?
    ensures Inventories(listing + [o], byDigest, unrecognised + [o.key])
  {
    hide DigestFromPath;
  }

  lemma OneMoreBlob(listing: seq<Listed>, byDigest: map<Digest, Listed>, unrecognised: seq<string>, o: Listed,
                    d: Digest)
    requires Inventories(listing, byDigest, unrecognised) && DigestFromPath(o.key) == Some(d)
    requires forall p :: p in listing ==> p.key != o.key
    ensures Inventories(listing + [o], byDigest[d := o], unrecognised)
  {
    if d in byDigest { DigestsDiffer(byDigest[d].key, o.key); }
    hide DigestFromPath;
    assert d !in byDigest;
    assert |byDigest[d := o]| == |byDigest| + 1;
    BlobIsFound(listing, byDigest, unrecognised, o, d);
  }

  lemma BlobIsFound(listing: seq<Listed>, byDigest: map<Digest, Listed>, unrecognised: seq<string>, o: Listed,
                    d: Digest)
    requires Inventories(listing, byDigest, unrecognised) && DigestFromPath(o.key) == Some(d) && d !in byDigest
    ensures forall p :: p in listing + [o] ==>
              match DigestFromPath(p.key)
              case Some(e) => e in byDigest[d := o] && byDigest[d := o][e] == p
              case None => p.key in unrecognised
  {
    hide DigestFromPath;
  }

  /** A digest the registry accepts is listed under its own path. */
  lemma AcceptedIsListedAtItsPath(listing: seq<Listed>, byDigest: map<Digest, Listed>, unrecognised: seq<string>,
                                  d: Digest)
    requires Inventories(listing, byDigest, unrecognised) && Accepted(d)
    ensures d in byDigest ==> byDigest[d].key == BlobPath(d)
    ensures d in byDigest <==> exists o :: o in listing && o.key == BlobPath(d)
  {
    PathReadsBack(d);
    hide DigestFromPath, BlobPath, Accepted;
    if d in byDigest { DigestsDiffer(byDigest[d].key, BlobPath(d)); }
  }

  /** The inventory tells the true size of what is at a digest's path. */
  predicate TruthfulAt(objects: map<string, Bytes>, byDigest: map<Digest, Listed>, d: Digest) {
    d in byDigest ==> BlobPath(d) in objects && byDigest[d].size == |objects[BlobPath(d)]|
  }

  /** The backend serves the row. */
  predicate Serves(opts: Options, objects: map<string, Bytes>, row: Row) {
    var path := BlobPath(row.digest);
    path in objects && |objects[path]| == row.size && (opts.hash ==> opts.sha(objects[path]) == row.digest)
  }

  /** The backend does not answer, or the digest cannot be checked. */
  predicate CannotTell(opts: Options, byDigest: map<Digest, Listed>, row: Row) {
    || (row.digest !in byDigest && opts.statFails(row.digest))
    || (opts.hash && (!opts.supported(row.digest) || opts.readFails(row.digest)))
  }

  predicate Passes(opts: Options, objects: map<string, Bytes>, byDigest: map<Digest, Listed>, row: Row) {
    Serves(opts, objects, row) && !CannotTell(opts, byDigest, row)
  }

  /** An orphan that goes: deletion is on, its age is known and past the grace
      period, and the backend lets it go. */
  predicate Goes(opts: Options, o: Listed) {
    && opts.deleteOrphans && o.modified.Some? && opts.clock(o.key) - o.modified.value >= opts.grace
    && !opts.deleteFails(o.key)
  }

  function Unseen(byDigest: map<Digest, Listed>, seen: set<Digest>): set<Digest> {
    set d | d in byDigest && d !in seen
  }

  function Gone(opts: Options, byDigest: map<Digest, Listed>, orphans: set<Digest>): set<string> {
    set d | d in orphans && d in byDigest && Goes(opts, byDigest[d]) :: byDigest[d].key
  }

  /** The orphans that go. */
  function Going(opts: Options, byDigest: map<Digest, Listed>, orphans: set<Digest>): (going: set<Digest>)
    ensures going <= byDigest.Keys
  {
    set d | d in orphans && d in byDigest && Goes(opts, byDigest[d])
  }

  ghost function Bytesum(byDigest: map<Digest, Listed>, digests: set<Digest>): nat
    requires digests <= byDigest.Keys
  {
    if digests == {} then 0
    else var d :| d in digests; byDigest[d].size + Bytesum(byDigest, digests - {d})
  }

  lemma {:induction false} BytesumSplits(byDigest: map<Digest, Listed>, digests: set<Digest>, d: Digest)
    requires digests <= byDigest.Keys && d in digests
    ensures Bytesum(byDigest, digests) == byDigest[d].size + Bytesum(byDigest, digests - {d})
    decreases digests
  {
    var e :| e in digests && Bytesum(byDigest, digests) == byDigest[e].size + Bytesum(byDigest, digests - {e});
    if e != d {
      BytesumSplits(byDigest, digests - {e}, d);
      BytesumSplits(byDigest, digests - {d}, e);
      assert digests - {e} - {d} == digests - {d} - {e};
    }
  }

  lemma BytesWith(opts: Options, byDigest: map<Digest, Listed>, done: set<Digest>, d: Digest)
    requires d in byDigest && d !in done && done <= byDigest.Keys
    ensures Bytesum(byDigest, done + {d}) == Bytesum(byDigest, done) + byDigest[d].size
    ensures Bytesum(byDigest, Going(opts, byDigest, done + {d}))
         == Bytesum(byDigest, Going(opts, byDigest, done)) + if Goes(opts, byDigest[d]) then byDigest[d].size else 0
  {
    hide Goes, Bytesum;
    BytesumSplits(byDigest, done + {d}, d);
    assert done + {d} - {d} == done;
    var before, after := Going(opts, byDigest, done), Going(opts, byDigest, done + {d});
    if Goes(opts, byDigest[d]) {
      BytesumSplits(byDigest, after, d);
      assert after - {d} == before;
    } else {
      assert after == before;
    }
  }

  /** A row passes when its object is at its path with its size and, where content
      is hashed, hashes to its digest; and when the backend could be asked. */
  lemma PassesMeans(opts: Options, objects: map<string, Bytes>, byDigest: map<Digest, Listed>, row: Row)
    ensures Passes(opts, objects, byDigest, row) <==>
              && BlobPath(row.digest) in objects && |objects[BlobPath(row.digest)]| == row.size
              && (row.digest in byDigest || !opts.statFails(row.digest))
              && (opts.hash ==>
                    && opts.sha(objects[BlobPath(row.digest)]) == row.digest
                    && opts.supported(row.digest) && !opts.readFails(row.digest))
  {
    hide BlobPath;
  }

  function DigestsOf(rows: seq<Row>): set<Digest> {
    set row | row in rows :: row.digest
  }

  lemma DigestsSoFar(rows: seq<Row>, i: nat)
    requires i <= |rows|
    ensures DigestsOf(rows[..0]) == {}
    ensures i < |rows| ==> DigestsOf(rows[..i + 1]) == DigestsOf(rows[..i]) + {rows[i].digest}
  {
    if i < |rows| { assert rows[..i + 1] == rows[..i] + [rows[i]]; }
  }

  class Verifier {
    const opts: Options
    const byDigest: map<Digest, Listed>
    var objects: map<string, Bytes>
    var seen: set<Digest>
    var blobs: nat
    var bytes: nat
    var ok: nat
    var missing: nat
    var sizeMismatch: nat
    var corrupt: nat
    var failed: nat
    var problems: nat
    var orphans: nat
    var orphanBytes: nat
    var deletedOrphans: nat
    var deletedOrphanBytes: nat
    var orphanKeys: seq<string>

    constructor (opts: Options, byDigest: map<Digest, Listed>, objects: map<string, Bytes>)
      ensures this.opts == opts && this.byDigest == byDigest && this.objects == objects && seen == {}
      ensures blobs == 0 && Accounted() && Bad() == 0 && NoOrphansYet()
    {
      this.opts, this.byDigest, this.objects, seen := opts, byDigest, objects, {};
      blobs, bytes, ok, missing, sizeMismatch, corrupt, failed, problems := 0, 0, 0, 0, 0, 0, 0, 0;
      orphans, orphanBytes, deletedOrphans, deletedOrphanBytes, orphanKeys := 0, 0, 0, 0, [];
    }

    function Bad(): nat reads this { missing + sizeMismatch + corrupt + failed }

    predicate Clean() reads this { missing == 0 && sizeMismatch == 0 && corrupt == 0 && failed == 0 }

    predicate NoOrphansYet() reads this {
      orphans == 0 && orphanBytes == 0 && deletedOrphans == 0 && deletedOrphanBytes == 0 && orphanKeys == []
    }

    /** Each row counts once; problems are kept up to the cap. */
    predicate Accounted() reads this {
      blobs == ok + Bad() && problems == if Bad() < 100 then Bad() else 100
    }

    method Note(verdict: Verdict)
      modifies this`ok, this`missing, this`sizeMismatch, this`corrupt, this`failed, this`problems
      ensures ok == old(ok) + if verdict.Good? then 1 else 0
      ensures missing == old(missing) + if verdict.Missing? then 1 else 0
      ensures sizeMismatch == old(sizeMismatch) + if verdict.WrongSize? then 1 else 0
      ensures corrupt == old(corrupt) + if verdict.Corrupt? then 1 else 0
      ensures failed == old(failed) + if verdict.Failed? then 1 else 0
      ensures problems == old(problems) + if verdict.Good? || old(problems) >= MAX_PROBLEMS then 0 else 1
    {
      match verdict {
        case Good => ok := ok + 1;
        case Missing => missing := missing + 1;
        case WrongSize => sizeMismatch := sizeMismatch + 1;
        case Corrupt => corrupt := corrupt + 1;
        case Failed => failed := failed + 1;
      }
      if !verdict.Good? && problems < MAX_PROBLEMS { problems := problems + 1; }
    }

    /** What is found out about one row, from the inventory where it has the
        digest and from the backend otherwise. */
    method Judge(row: Row) returns (verdict: Verdict)
      requires TruthfulAt(objects, byDigest, row.digest)
      ensures verdict.Good? <==> Passes(opts, objects, byDigest, row)
      ensures verdict.Good? ==>
                var path := BlobPath(row.digest);
                && path in objects && |objects[path]| == row.size
                && (opts.hash ==> opts.sha(objects[path]) == row.digest)
      ensures verdict.Missing? ==> BlobPath(row.digest) !in objects
      ensures verdict.WrongSize? ==>
                BlobPath(row.digest) in objects && |objects[BlobPath(row.digest)]| != row.size
      ensures verdict.Corrupt? ==>
                opts.hash && BlobPath(row.digest) in objects && opts.sha(objects[BlobPath(row.digest)]) != row.digest
      ensures verdict.Failed? ==>
                || (row.digest !in byDigest && opts.statFails(row.digest))
                || (opts.hash && (!opts.supported(row.digest) || opts.readFails(row.digest)))
    {
      hide BlobPath;
      var d := row.digest;
      var path := BlobPath(d);
      var size: nat;
      if d in byDigest {
        size := byDigest[d].size;
      } else {
        if opts.statFails(d) { return Failed; }
        if path !in objects { return Missing; }
        size := |objects[path]|;
      }
      if size != row.size { return WrongSize; }
      if opts.hash {
        if !opts.supported(d) { return Failed; }
        if opts.readFails(d) { return Failed; }
        if opts.sha(objects[path]) != d { return Corrupt; }
      }
      return Good;
    }

    /** The whole table. The report is clean exactly when every row passes. */
    method Walk(rows: seq<Row>)
      requires Accounted() && blobs == 0
      requires forall i :: 0 <= i < |rows| ==> TruthfulAt(objects, byDigest, rows[i].digest)
      modifies this`blobs, this`bytes, this`seen, this`ok, this`missing, this`sizeMismatch, this`corrupt, this`failed,
               this`problems
      ensures Accounted() && blobs == |rows|
      ensures seen == old(seen) + DigestsOf(rows)
      ensures Clean() <==> forall i :: 0 <= i < |rows| ==> Passes(opts, objects, byDigest, rows[i])
    {
      hide Passes, TruthfulAt, DigestsOf, BlobPath;
      DigestsSoFar(rows, 0);
      for i := 0 to |rows|
        invariant Accounted() && blobs == i
        invariant seen == old(seen) + DigestsOf(rows[..i])
        invariant Bad() == 0 <==> forall j :: 0 <= j < i ==> Passes(opts, objects, byDigest, rows[j])
      {
        DigestsSoFar(rows, i);
        Process(rows[i]);
      }
      assert rows[..|rows|] == rows;
    }

    method Process(row: Row)
      requires Accounted() && TruthfulAt(objects, byDigest, row.digest)
      modifies this`blobs, this`bytes, this`seen, this`ok, this`missing, this`sizeMismatch, this`corrupt, this`failed,
               this`problems
      ensures Accounted() && blobs == old(blobs) + 1 && bytes == old(bytes) + row.size
      ensures seen == old(seen) + {row.digest}
      ensures Bad() == old(Bad()) + if Passes(opts, objects, byDigest, row) then 0 else 1
    {
      hide Passes, TruthfulAt, BlobPath;
      blobs, bytes, seen := blobs + 1, bytes + row.size, seen + {row.digest};
      var verdict := Judge(row);
      Note(verdict);
    }

    /** The objects no walked row asks for. What goes are exactly the old enough
        orphans; every other object stays. */
    method RemoveOrphans()
      requires NoOrphansYet()
      requires forall d, e :: d in byDigest && e in byDigest && d != e ==> byDigest[d].key != byDigest[e].key
      modifies this`objects, this`orphans, this`orphanBytes, this`deletedOrphans, this`deletedOrphanBytes,
               this`orphanKeys
      ensures objects == Cleared(opts, byDigest, old(objects), Unseen(byDigest, seen))
      ensures forall key :: key in old(objects) && key !in objects <==>
                && key in old(objects)
                && exists d :: d in byDigest && d !in seen && byDigest[d].key == key && opts.deleteOrphans
                               && byDigest[d].modified.Some?
                               && opts.clock(key) - byDigest[d].modified.value >= opts.grace && !opts.deleteFails(key)
      ensures forall key :: key in objects ==> key in old(objects) && objects[key] == old(objects)[key]
      ensures orphans == |Unseen(byDigest, seen)|
      ensures orphanBytes == Bytesum(byDigest, Unseen(byDigest, seen))
      ensures deletedOrphans == |Gone(opts, byDigest, Unseen(byDigest, seen))|
      ensures deletedOrphanBytes == Bytesum(byDigest, Going(opts, byDigest, Unseen(byDigest, seen)))
      ensures |orphanKeys| == if orphans < 100 then orphans else 100
    {
      GoneMeans(opts, byDigest, objects, seen);
      hide Goes, Gone, Cleared, Unseen, Bytesum, Going;
      NothingGone(opts, byDigest, objects);
      ghost var done: set<Digest> := {};
      var left := byDigest.Keys;
      while left != {}
        invariant left <= byDigest.Keys && done <= byDigest.Keys
        invariant forall d :: d in byDigest ==> (d in done <==> d !in left && d !in seen)
        invariant objects == Cleared(opts, byDigest, old(objects), done)
        invariant orphans == |done| && deletedOrphans == |Gone(opts, byDigest, done)|
        invariant orphanBytes == Bytesum(byDigest, done)
        invariant deletedOrphanBytes == Bytesum(byDigest, Going(opts, byDigest, done))
        invariant |orphanKeys| == if orphans < MAX_PROBLEMS then orphans else MAX_PROBLEMS
      {
        var d :| d in left;
        left := left - {d};
        if d in seen { continue; }
        GoneWith(opts, byDigest, old(objects), done, d);
        BytesWith(opts, byDigest, done, d);
        done := done + {d};
        NoteOrphan(byDigest[d]);
      }
      UnseenIs(byDigest, seen, done);
    }

    method NoteOrphan(o: Listed)
      modifies this`objects, this`orphans, this`orphanBytes, this`deletedOrphans, this`deletedOrphanBytes,
               this`orphanKeys
      ensures orphans == old(orphans) + 1 && orphanBytes == old(orphanBytes) + o.size
      ensures |orphanKeys| == if |old(orphanKeys)| < MAX_PROBLEMS then |old(orphanKeys)| + 1 else |old(orphanKeys)|
      ensures objects == if Goes(opts, o) then old(objects) - {o.key} else old(objects)
      ensures deletedOrphans == old(deletedOrphans) + if Goes(opts, o) then 1 else 0
      ensures deletedOrphanBytes == old(deletedOrphanBytes) + if Goes(opts, o) then o.size else 0
    {
      orphans, orphanBytes := orphans + 1, orphanBytes + o.size;
      if |orphanKeys| < MAX_PROBLEMS { orphanKeys := orphanKeys + [o.key]; }
      var goes := MayGo(o);
      if goes {
        objects := objects - {o.key};
        deletedOrphans, deletedOrphanBytes := deletedOrphans + 1, deletedOrphanBytes + o.size;
      }
    }

    method MayGo(o: Listed) returns (goes: bool)
      ensures goes <==> Goes(opts, o)
    {
      if !opts.deleteOrphans || o.modified.None? { return false; }
      if opts.clock(o.key) - o.modified.value < opts.grace { return false; }
      return !opts.deleteFails(o.key);
    }
  }

  function Cleared(opts: Options, byDigest: map<Digest, Listed>, objects: map<string, Bytes>,
                   orphans: set<Digest>): map<string, Bytes> {
    objects - Gone(opts, byDigest, orphans)
  }

  /** What goes, in the options' own terms. */
  lemma GoneMeans(opts: Options, byDigest: map<Digest, Listed>, objects: map<string, Bytes>, seen: set<Digest>)
    ensures var left := Cleared(opts, byDigest, objects, Unseen(byDigest, seen));
            && (forall key :: key in objects && key !in left <==>
                  && key in objects
                  && exists d :: d in byDigest && d !in seen && byDigest[d].key == key && opts.deleteOrphans
                                 && byDigest[d].modified.Some?
                                 && opts.clock(key) - byDigest[d].modified.value >= opts.grace
                                 && !opts.deleteFails(key))
            && (forall key :: key in left ==> key in objects && left[key] == objects[key])
  {
    var gone := Gone(opts, byDigest, Unseen(byDigest, seen));
    forall key ensures key in gone <==>
        exists d :: d in byDigest && d !in seen && byDigest[d].key == key && opts.deleteOrphans
                    && byDigest[d].modified.Some?
                    && opts.clock(key) - byDigest[d].modified.value >= opts.grace && !opts.deleteFails(key)
    {
      if d :| d in byDigest && d !in seen && byDigest[d].key == key && Goes(opts, byDigest[d]) {
        assert d in Unseen(byDigest, seen);
      }
    }
  }

  lemma NothingGone(opts: Options, byDigest: map<Digest, Listed>, objects: map<string, Bytes>)
    ensures Gone(opts, byDigest, {}) == {} && Cleared(opts, byDigest, objects, {}) == objects
    ensures Going(opts, byDigest, {}) == {} && Bytesum(byDigest, {}) == 0
  {
  }

  lemma UnseenIs(byDigest: map<Digest, Listed>, seen: set<Digest>, done: set<Digest>)
    requires done <= byDigest.Keys && forall d :: d in byDigest ==> (d in done <==> d !in seen)
    ensures done == Unseen(byDigest, seen)
  {
  }

  lemma GoneMore(opts: Options, byDigest: map<Digest, Listed>, done: set<Digest>, d: Digest)
    requires d in byDigest
    ensures Goes(opts, byDigest[d]) ==>
              Gone(opts, byDigest, done + {d}) == Gone(opts, byDigest, done) + {byDigest[d].key}
    ensures !Goes(opts, byDigest[d]) ==> Gone(opts, byDigest, done + {d}) == Gone(opts, byDigest, done)
  {
    hide Goes;
  }

  lemma NotGoneYet(opts: Options, byDigest: map<Digest, Listed>, done: set<Digest>, d: Digest)
    requires d in byDigest && d !in done && done <= byDigest.Keys
    requires forall e :: e in done ==> byDigest[e].key != byDigest[d].key
    ensures byDigest[d].key !in Gone(opts, byDigest, done)
  {
    hide Goes;
  }

  lemma ClearedMore(objects: map<string, Bytes>, gone: set<string>, key: string)
    ensures objects - (gone + {key}) == objects - gone - {key}
  {
  }

  lemma GoneWith(opts: Options, byDigest: map<Digest, Listed>, objects: map<string, Bytes>, done: set<Digest>,
                 d: Digest)
    requires d in byDigest && d !in done && done <= byDigest.Keys
    requires forall e :: e in done ==> byDigest[e].key != byDigest[d].key
    ensures |Gone(opts, byDigest, done + {d})|
         == |Gone(opts, byDigest, done)| + if Goes(opts, byDigest[d]) then 1 else 0
    ensures var before, after := Cleared(opts, byDigest, objects, done), Cleared(opts, byDigest, objects, done + {d});
            after == if Goes(opts, byDigest[d]) then before - {byDigest[d].key} else before
  {
    hide Gone, Goes;
    GoneMore(opts, byDigest, done, d);
    NotGoneYet(opts, byDigest, done, d);
    ClearedMore(objects, Gone(opts, byDigest, done), byDigest[d].key);
  }

  // ---- No row loses its object ----

  /** The object of a row that was walked is never deleted as an orphan, exactly
      unless the row's digest masquerades; no digest the registry accepts does. */
  lemma WalkedRowsKeepTheirObjects(opts: Options, listing: seq<Listed>, byDigest: map<Digest, Listed>,
                                   unrecognised: seq<string>, seen: set<Digest>, d: Digest)
    requires Inventories(listing, byDigest, unrecognised) && d in seen && !Masquerades(d)
    ensures BlobPath(d) !in Gone(opts, byDigest, Unseen(byDigest, seen))
  {
    OwnPathReadsAsOwnDigest(d);
    hide BlobPath, DigestFromPath, Masquerades, Goes;
  }

  lemma MasqueradersLoseTheirObjects(opts: Options, listing: seq<Listed>, byDigest: map<Digest, Listed>,
                                     unrecognised: seq<string>, o: Listed, d: Digest)
    requires Inventories(listing, byDigest, unrecognised) && Masquerades(d)
    requires o in listing && o.key == BlobPath(d) && Goes(opts, o)
    ensures BlobPath(d) in Gone(opts, byDigest, Unseen(byDigest, {d}))
  {
    OwnPathReadsAsOwnDigest(d);
    hide BlobPath, DigestFromPath, Masquerades, Goes;
    var read := DigestFromPath(BlobPath(d)).value;
    assert read in byDigest && byDigest[read] == o;
  }

  lemma AcceptedDoNotMasquerade(d: Digest)
    requires Accepted(d)
    ensures !Masquerades(d)
  {
    PathReadsBack(d);
    OwnPathReadsAsOwnDigest(d);
  }
}
