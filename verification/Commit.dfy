/** Committing an upload (api/uploads.go): the staged content is hashed while it
    streams into the driver, which publishes it only after a clean end of file of
    the announced size (the Put contract of storage/driver.go).

    The session's size is read first and its content opened later; another append
    may land in between. Quota, driver and database enter as flags. */
module Commit {
  import opened Wrappers
  import opened Staging
  import opened ChunkReader

  datatype Answer = Created | UploadUnknown | DigestInvalid | Denied | Internal

  class Backend {
    const sha: Bytes -> string
    var content: map<string, Bytes>
    var rows: map<string, nat>
    var links: set<(string, string)>

    /** Published content hashes to the digest it is stored under, and every row
        has content. */
    ghost predicate Valid() reads this {
      && (forall d :: d in content ==> sha(content[d]) == d)
      && rows.Keys <= content.Keys
    }

    constructor (sha: Bytes -> string)
      ensures Valid() && this.sha == sha && content == map[] && rows == map[] && links == {}
    {
      this.sha, content, rows, links := sha, map[], map[], {};
    }

    /** The driver's write-then-publish: what was read goes to a temporary place
        and becomes visible only when the reader ended cleanly and the size
        matches. `storeOk` is the driver's own part. */
    method Put(digest: string, v: VerifyingReader, size: nat, buffer: nat, storeOk: bool) returns (status: Status)
      requires Valid() && v.Valid() && v.sha == sha && v.expected == digest && !v.done && v.seen == [] && buffer > 0
      requires v.r.Trusting()
      modifies this, v, v.r
      ensures Valid() && v.r.Valid() && rows == old(rows) && links == old(links)
      ensures status in {Eof, Mismatch, Error}
      ensures status == Eof ==>
                var staged := old(v.r.Remaining());
                sha(staged) == digest && |staged| == size && content == old(content)[digest := staged]
      ensures status != Eof ==> content == old(content)
      ensures status == Mismatch ==> sha(old(v.r.Remaining())) != digest
      ensures status == Error ==> v.r.Trouble() || !storeOk || |old(v.r.Remaining())| != size
    {
      ghost var staged := v.r.Remaining();
      assert staged == v.seen + v.r.Remaining();
      var temporary: Bytes := [];
      status := More;
      while status == More
        invariant Valid() && content == old(content) && rows == old(rows) && links == old(links)
        invariant v.Valid() && v.r.Trusting() && temporary == v.seen && staged == v.seen + v.r.Remaining()
        invariant status in {More, Eof, Mismatch, Error} && (status == Error ==> v.r.Trouble())
        invariant status == Eof ==> v.r.Remaining() == [] && sha(v.seen) == digest
        invariant status == Mismatch ==> v.r.Remaining() == [] && sha(v.seen) != digest
        decreases status == More, |v.r.Remaining()|, v.r.idle
      {
        var data: Bytes;
        data, status := v.Read(buffer);
        temporary := temporary + data;
      }
      if v.r.Remaining() == [] { assert staged == v.seen; }
      if status == Eof {
        if |temporary| != size || !storeOk { return Error; }
        content := content[digest := temporary];
      }
    }

    /** Hashes a session's staged content to its end (storage.StagedDigest). */
    method StagedDigest(r: Reader, buffer: nat) returns (ok: bool, digest: string, n: nat)
      requires r.Valid() && buffer > 0 && r.Trusting()
      modifies r
      ensures r.Valid() && (!ok ==> r.Trouble())
      ensures ok ==> digest == sha(old(r.Remaining())) && n == |old(r.Remaining())|
    {
      ghost var staged := r.Remaining();
      var text: Bytes := [];
      assert staged == text + r.Remaining();
      var status := More;
      while status == More
        invariant r.Valid() && r.Trusting() && staged == text + r.Remaining()
        invariant status in {More, Eof, Error} && (status == Error ==> r.Trouble())
        invariant status == Eof ==> r.Remaining() == []
        decreases status == More, |r.Remaining()|, r.idle
      {
        ghost var left := r.Remaining();
        var data: Bytes;
        data, status := r.Read(buffer);
        assert text + left == (text + data) + r.Remaining();
        text := text + data;
      }
      if status == Eof { assert staged == text; }
      return status == Eof, sha(text), |text|;
    }

    /** Commit. A digest is published, recorded or linked only for staged content
        that hashes to it and has the size the session was read with, and then it
        is, unless quota, driver, database or a read refuse; on any other outcome
        neither rows nor links change, and no content appears unless the database
        refused the row of content already verified. */
    method CommitUpload(repo: string, expected: string, wellFormed: bool, size: nat, r: Reader, buffer: nat,
                        quotaOk: bool, faults: Faults)
      returns (answer: Answer)
      requires Valid() && r.Valid() && buffer > 0 && r.Trusting()
      modifies this, r
      ensures Valid() && r.Valid()
      ensures answer in {Created, DigestInvalid, Denied, Internal}
      ensures wellFormed && quotaOk && !faults.Any() && !r.Trouble() ==>
                sha(old(r.Remaining())) == expected && |old(r.Remaining())| == size ==> answer == Created
      ensures answer == Created ==>
                var staged := old(r.Remaining());
                && wellFormed && quotaOk && sha(staged) == expected && |staged| == size
                && links == old(links) + {(repo, expected)}
                && rows == (if expected in old(rows) then old(rows) else old(rows)[expected := size])
                && expected in content && (expected in old(content) ==> content == old(content))
                && (expected !in old(content) ==> content == old(content)[expected := staged])
      ensures answer != Created ==> rows == old(rows) && links == old(links)
      ensures answer != Created && content != old(content) ==>
                faults.upsert && sha(old(r.Remaining())) == expected && |old(r.Remaining())| == size
      ensures answer == Denied ==> !quotaOk
      ensures answer == DigestInvalid ==>
                !wellFormed || sha(old(r.Remaining())) != expected || |old(r.Remaining())| != size
      ensures answer == Internal ==> r.Trouble() || faults.Any() || |old(r.Remaining())| != size
    {
      if !wellFormed { return DigestInvalid; }
      if faults.stat { return Internal; }
      var exists_ := expected in content;
      if exists_ {
        var ok, actual, n := StagedDigest(r, buffer);
        if !ok { return Internal; }
        if actual != expected || n != size { return DigestInvalid; }
      }
      if !quotaOk { return Denied; }
      if !exists_ {
        var v := new VerifyingReader(r, sha, expected);
        var status := Put(expected, v, size, buffer, !faults.store);
        if status == Mismatch { return DigestInvalid; }
        if status != Eof { return Internal; }
      }
      if faults.upsert { return Internal; }
      if expected !in rows { rows := rows[expected := size]; }
      links := links + {(repo, expected)};
      return Created;
    }

    /** A commit amid the protocol. The session is read after `before` and opened
        after `mid` as well; the n-th chunk object is opened after `later(n)` on
        top of that, whatever the other replicas have done by then. Created means
        that exactly the content staged when the session was read has been
        verified, published and linked. Content that was all staged by then and
        hashes to the digest is refused only because the session has been removed
        or has grown in between, a read failed, a chunk was gone when it was
        opened, or quota, driver or database refuse. */
    method CommitSession(w0: World, before: seq<Action>, mid: seq<Action>, later: nat -> seq<Action>, id: Id,
                         repo: string, expected: string, wellFormed: bool, reportsSize: bool, idle: nat,
                         choices: nat -> Choice, buffer: nat, quotaOk: bool, faults: Faults)
      returns (answer: Answer, ghost reader: Option<Reader>)
      requires Valid() && Start(w0) && buffer > 0
      modifies this
      ensures Valid()
      ensures answer == UploadUnknown <==> wellFormed && id !in Run(w0, before).sessions
      ensures reader.Some? <==> wellFormed && id in Run(w0, before).sessions && id in Run(w0, before + mid).sessions
      ensures reader.Some? ==>
                && fresh(reader.value) && reader.value.Valid() && reader.value.choices == choices
                && reader.value.chunks == Run(w0, before + mid).sessions[id].chunks
                && forall t :: reader.value.os(t) == Objects(Run(w0, before + mid + later(t)).objects, reportsSize)
      ensures reader.Some? && !reader.value.Trouble() && quotaOk && !faults.Any() ==>
                (&& sha(Content(Log(Observed(w0, before, map[]), id))) == expected
                 && Run(w0, before + mid).sessions[id].offset == Run(w0, before).sessions[id].offset)
                ==> answer == Created
      ensures answer == Created ==>
                && id in Run(w0, before).sessions && wellFormed && quotaOk
                && var staged := Content(Log(Observed(w0, before, map[]), id));
                && sha(staged) == expected && |staged| == Run(w0, before).sessions[id].offset
                && links == old(links) + {(repo, expected)}
                && rows == (if expected in old(rows) then old(rows) else old(rows)[expected := |staged|])
                && (expected in old(content) ==> content == old(content))
                && (expected !in old(content) ==> content == old(content)[expected := staged])
      ensures answer != Created ==> rows == old(rows) && links == old(links)
      ensures answer != Created && content != old(content) ==> faults.upsert
    {
      hide Step, Content, Log, Run, Observed, Concat, HonestFrom;
      reader := None;
      if !wellFormed { answer := DigestInvalid; return; }
      var first := Run(w0, before);
      if id !in first.sessions { answer := UploadUnknown; return; }
      var size := first.sessions[id].offset;
      var second := Run(w0, before + mid);
      if id !in second.sessions {
        answer := if !faults.stat && expected !in content && !quotaOk then Denied else Internal;
        return;
      }
      var stores := (t: nat) => Objects(Run(w0, before + mid + later(t)).objects, reportsSize);
      ghost var log := Log(Observed(w0, before + mid, map[]), id);
      SessionIsHonest(w0, before + mid, later, id, reportsSize, stores);
      RowIsAsLong(w0, before, id);
      RowIsAsLong(w0, before + mid, id);
      if |Content(log)| == size { WhatWasReadIsCommitted(w0, before, mid, id, size); }
      var r := new Reader(second.sessions[id].chunks, BodiesOf(log), idle, stores, choices);
      reader := Some(r);
      answer := CommitUpload(repo, expected, wellFormed, size, r, buffer, quotaOk, faults);
    }
  }

  /** What may fail apart from the reads: the driver's look at the digest, its
      write, and the database. */
  datatype Faults = Faults(stat: bool, store: bool, upsert: bool) {
    predicate Any() { stat || store || upsert }
  }

  lemma RowIsAsLong(w0: World, trace: seq<Action>, id: Id)
    requires Start(w0) && id in Run(w0, trace).sessions
    ensures Run(w0, trace).sessions[id].offset == |Content(Log(Observed(w0, trace, map[]), id))|
  {
    StagedContentIsExact(w0, trace, id);
  }

  lemma SessionIsHonest(w0: World, before: seq<Action>, later: nat -> seq<Action>, id: Id, reportsSize: bool,
                        os: Stores)
    requires Start(w0) && id in Run(w0, before).sessions
    requires forall t :: os(t) == Objects(Run(w0, before + later(t)).objects, reportsSize)
    ensures var chunks := Run(w0, before).sessions[id].chunks;
            var log := Log(Observed(w0, before, map[]), id);
            && |chunks| == |log| && Concat(BodiesOf(log)) == Content(log)
            && (forall i :: 0 <= i < |chunks| ==> |BodiesOf(log)[i]| == chunks[i].size)
            && HonestFrom(os, chunks, BodiesOf(log), 0)
  {
    hide Step, Run, Content, Log, Observed;
    var chunks, log := Run(w0, before).sessions[id].chunks, Log(Observed(w0, before, map[]), id);
    OpenedSessionStaysHonest(w0, before, [], id, reportsSize);
    forall i, t: nat | 0 <= i < |chunks| ensures Honest(os(t), chunks[i], BodiesOf(log)[i]) {
      OpenedSessionStaysHonest(w0, before, later(t), id, reportsSize);
    }
  }

  lemma {:induction false} ObservedAppend(w: World, h: History, a: seq<Action>, b: seq<Action>)
    ensures Observed(w, a + b, h) == Observed(Run(w, a), b, Observed(w, a, h))
    decreases |a|
  {
    hide Step, Observe;
    if a == [] {
      assert a + b == b;
    } else {
      assert (a + b)[1..] == a[1..] + b;
      ObservedAppend(Step(w, a[0]), Observe(w, a[0], h), a[1..], b);
    }
  }

  /** Content of the recorded size is what was staged when the session was read. */
  lemma WhatWasReadIsCommitted(w0: World, before: seq<Action>, mid: seq<Action>, id: Id, size: nat)
    requires Start(w0) && id in Run(w0, before).sessions && size == Run(w0, before).sessions[id].offset
    requires |Content(Log(Observed(w0, before + mid, map[]), id))| == size
    ensures Content(Log(Observed(w0, before + mid, map[]), id)) == Content(Log(Observed(w0, before, map[]), id))
  {
    RunKeepsInv(w0, map[], before);
    ObservedAppend(w0, map[], before, mid);
    LateAppendCannotSlipIn(Run(w0, before), Observed(w0, before, map[]), mid, id, size);
  }

  // ---- The protocol underneath ----

  function BodiesOf(log: seq<Entry>): (bodies: seq<Bytes>)
    ensures |bodies| == |log|
  {
    seq(|log|, i requires 0 <= i < |log| => log[i].body)
  }

  lemma {:induction false} ConcatSnoc(bodies: seq<Bytes>, b: Bytes)
    ensures Concat(bodies + [b]) == Concat(bodies) + b
    decreases |bodies|
  {
    if bodies == [] {
      assert [b][1..] == [] && Concat([]) == [];
    } else {
      assert (bodies + [b])[1..] == bodies[1..] + [b];
      ConcatSnoc(bodies[1..], b);
    }
  }

  lemma {:induction false} ConcatIsContent(log: seq<Entry>)
    ensures Concat(BodiesOf(log)) == Content(log)
    decreases |log|
  {
    if log != [] {
      var front := log[..|log| - 1];
      ConcatIsContent(front);
      assert BodiesOf(log) == BodiesOf(front) + [log[|log| - 1].body];
      ConcatSnoc(BodiesOf(front), log[|log| - 1].body);
    }
  }

  /** What a commit needs of the protocol: a session opened at one time may be
      read at any later time. Whatever the other replicas have done since, even
      sweeping it away, each chunk object holds the accepted body or is gone. */
  lemma OpenedSessionStaysHonest(w0: World, before: seq<Action>, after: seq<Action>, id: Id, reportsSize: bool)
    requires Start(w0) && id in Run(w0, before).sessions
    ensures var chunks := Run(w0, before).sessions[id].chunks;
            var log := Log(Observed(w0, before, map[]), id);
            && |chunks| == |log| && Concat(BodiesOf(log)) == Content(log)
            && forall i :: 0 <= i < |chunks| ==>
                 chunks[i].size == |log[i].body|
                 && Honest(Objects(Run(w0, before + after).objects, reportsSize), chunks[i], log[i].body)
  {
    var w, h := Run(w0, before), Observed(w0, before, map[]);
    RunKeepsInv(w0, map[], before);
    RunKeepsInv(w, h, after);
    RunAppend(w0, before, after);
    LogOnlyGrows(w, h, after, id);
    var log, later := Log(h, id), Log(Observed(w, after, h), id);
    assert RowOk(w, h, id);
    ConcatIsContent(log);
    if log != [] {
      assert LogOk(Run(w, after), Observed(w, after, h), id);
      forall i | 0 <= i < |log|
        ensures log[i].key in Run(w, after).objects ==> Run(w, after).objects[log[i].key] == log[i].body
      {
        assert later[i] == log[i] && later[i] in later;
      }
    }
  }

  /** The chunks a commit opens are there as recorded, for as long as the session
      lives: without failing reads there is no trouble unless it is removed. */
  lemma LiveSessionStaysRecorded(w0: World, before: seq<Action>, after: seq<Action>, id: Id, reportsSize: bool, i: nat)
    requires Start(w0) && id in Run(w0, before).sessions && id in Run(w0, before + after).sessions
    requires i < |Run(w0, before).sessions[id].chunks|
    ensures Recorded(Objects(Run(w0, before + after).objects, reportsSize), Run(w0, before).sessions[id].chunks[i])
  {
    var w, h := Run(w0, before), Observed(w0, before, map[]);
    OpenedSessionStaysHonest(w0, before, after, id, reportsSize);
    RunKeepsInv(w0, map[], before + after);
    ObservedAppend(w0, map[], before, after);
    LogOnlyGrows(w, h, after, id);
    var later := Log(Observed(w0, before + after, map[]), id);
    assert RowOk(w, h, id) by { RunKeepsInv(w0, map[], before); }
    assert RowOk(Run(w0, before + after), Observed(w0, before + after, map[]), id);
    hide Run, Observed, Content;
    var e := Log(h, id)[i];
    assert later[i] == e && e in later;
    assert LogOk(Run(w0, before + after), Observed(w0, before + after, map[]), id);
  }

  lemma {:induction false} LogOnlyGrows(w: World, h: History, trace: seq<Action>, id: Id)
    ensures Log(h, id) <= Log(Observed(w, trace, h), id)
    decreases |trace|
  {
    if trace != [] {
      hide Step;
      LogOnlyGrows(Step(w, trace[0]), Observe(w, trace[0], h), trace[1..], id);
    }
  }

  /** An append that lands between reading the session and opening it can only
      make the commit fail: content of the recorded size is the content that was
      staged when the session was read. */
  lemma LateAppendCannotSlipIn(w: World, h: History, trace: seq<Action>, id: Id, size: nat)
    requires Inv(w, h) && id in w.sessions && size == w.sessions[id].offset
    requires |Content(Log(Observed(w, trace, h), id))| == size
    ensures Content(Log(Observed(w, trace, h), id)) == Content(Log(h, id))
  {
    assert RowOk(w, h, id);
    LogOnlyGrows(w, h, trace, id);
    var log, later := Log(h, id), Log(Observed(w, trace, h), id);
    assert later[..|log|] == log;
    ContentIsPrefix(later, |log|);
  }

  lemma {:induction false} ContentIsPrefix(log: seq<Entry>, n: nat)
    requires n <= |log|
    ensures Content(log[..n]) <= Content(log)
    decreases |log|
  {
    if n == |log| {
      assert log[..n] == log;
    } else {
      var front := log[..|log| - 1];
      assert front[..n] == log[..n];
      ContentIsPrefix(front, n);
    }
  }
}
