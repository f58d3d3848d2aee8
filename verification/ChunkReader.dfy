/** The reader that strings staged chunks together (storage/shared.go) and the
    reader that hashes what passes through it (storage/verify.go).

    Opened objects obey Go's io.Reader contract and nothing more: a read may
    return any part of what is asked for, an end of file with or after the last
    bytes, an error at any time, and finitely often nothing at all. Each read's
    behaviour is a `Choice`; a contract here holds for all of them and for every
    sequence of buffer sizes. */
module ChunkReader {
  import opened Wrappers
  import opened Staging

  datatype Status = More | Eof | Error | Mismatch

  /** An opened object: what is left of it, and how often a read may still come
      back empty-handed. */
  datatype Body = Body(rest: Bytes, idle: nat)

  /** How one read behaves: how much it takes at most, whether the end of file
      comes with the last bytes, and whether it fails. */
  datatype Choice = Choice(take: nat, eof: bool, fails: bool)

  method ReadBody(b: Body, cap: nat, c: Choice) returns (data: Bytes, status: Status, b': Body)
    ensures |data| <= cap && data + b'.rest == b.rest
    ensures status in {More, Eof, Error} && (status == Error <==> c.fails)
    ensures status == Eof ==> b'.rest == []
    ensures b'.idle <= b.idle
    ensures status == More && data == [] && cap > 0 ==> b'.idle < b.idle
  {
    var most := Min(|b.rest|, cap);
    var n := Min(c.take, most);
    if n == 0 && b.idle == 0 && most > 0 { n := 1; }
    data, b' := b.rest[..n], Body(b.rest[n..], b.idle);
    if c.fails {
      status := Error;
    } else if b'.rest == [] && (c.eof || (n == 0 && b.idle == 0)) {
      status := Eof;
    } else {
      status := More;
      if n == 0 && b.idle > 0 { b' := b'.(idle := b.idle - 1); }
    }
  }

  function Concat(bodies: seq<Bytes>): Bytes {
    if bodies == [] then [] else bodies[0] + Concat(bodies[1..])
  }

  /** The object store as the reader meets it; `reportsSize` is false for a
      driver that answers -1 for the size of an object. */
  datatype Objects = Objects(stored: map<Key, Bytes>, reportsSize: bool)

  /** The store at the time of each opening: other replicas act in between. */
  type Stores = nat -> Objects

  /** Whenever it is opened, the chunk's object is honest. */
  ghost predicate AlwaysHonest(os: Stores, chunk: Chunk, body: Bytes) {
    forall t :: Honest(os(t), chunk, body)
  }

  /** The chunks from the n-th on. */
  ghost predicate HonestFrom(os: Stores, chunks: seq<Chunk>, bodies: seq<Bytes>, n: nat)
    requires |bodies| == |chunks|
  {
    forall i :: n <= i < |chunks| ==> AlwaysHonest(os, chunks[i], bodies[i])
  }

  /** A chunk's object is as recorded, gone, or recognisably not the recorded
      one. */
  predicate Honest(o: Objects, chunk: Chunk, body: Bytes) {
    chunk.key in o.stored ==>
      o.stored[chunk.key] == body || (o.reportsSize && |o.stored[chunk.key]| != chunk.size)
  }

  /** The object is there, of the recorded size as far as the driver says. */
  predicate Recorded(o: Objects, chunk: Chunk) {
    chunk.key in o.stored && (o.reportsSize ==> |o.stored[chunk.key]| == chunk.size)
  }

  class Reader {
    const chunks: seq<Chunk>
    ghost const bodies: seq<Bytes>
    const os: Stores
    const choices: nat -> Choice
    var next: nat
    var cur: Option<Body>
    var idle: nat
    /** How many openings and reads have been made. */
    var time: nat
    var calls: nat
    /** Which chunk each opening was for. */
    ghost var tries: seq<nat>

    ghost predicate Valid() reads this {
      && |bodies| == |chunks| && next <= |chunks|
      && (forall i :: 0 <= i < |chunks| ==> |bodies[i]| == chunks[i].size)
      && (cur.Some? ==> cur.value.idle <= idle)
      && |tries| == time && forall t :: 0 <= t < |tries| ==> tries[t] < |chunks|
    }

    /** From here on the store is honest. */
    ghost predicate Trusting() reads this
      requires Valid()
    {
      HonestFrom(os, chunks, bodies, next)
    }

    /** A read has failed, or a chunk was not there as recorded when it was
        opened. */
    ghost predicate Trouble() reads this
      requires Valid()
    {
      || (exists k: nat :: k < calls && choices(k).fails)
      || exists t: nat :: t < time && !Recorded(os(t), chunks[tries[t]])
    }

    /** The accepted bodies not yet returned. */
    ghost function Remaining(): Bytes
      requires Valid()
      reads this
    {
      (if cur.Some? then cur.value.rest else []) + Concat(bodies[next..])
    }

    constructor (chunks: seq<Chunk>, ghost bodies: seq<Bytes>, idle: nat, os: Stores, choices: nat -> Choice)
      requires |bodies| == |chunks| && forall i :: 0 <= i < |chunks| ==> |bodies[i]| == chunks[i].size
      ensures Valid() && Remaining() == Concat(bodies) && !Trouble() && next == time == calls == 0
      ensures this.bodies == bodies && this.chunks == chunks && this.os == os && this.choices == choices
    {
      this.chunks, this.bodies, this.idle, this.os, this.choices := chunks, bodies, idle, os, choices;
      next, cur, time, calls, tries := 0, None, 0, 0, [];
      new;
      assert bodies[0..] == bodies;
    }

    /** What every call keeps of the account of calls. */
    twostate predicate GoesOn() reads this {
      time >= old(time) && calls >= old(calls) && old(tries) <= tries
    }

    /** Opens the next chunk's object, exactly if it is there as recorded. */
    method Open() returns (ok: bool)
      requires Valid() && cur.None? && next < |chunks| && AlwaysHonest(os, chunks[next], bodies[next])
      modifies this
      ensures Valid() && GoesOn() && idle == old(idle) && Remaining() == old(Remaining())
      ensures ok <==> Recorded(os(old(time)), chunks[old(next)])
      ensures if ok then next == old(next) + 1 && cur.Some? else next == old(next) && cur.None? && Trouble()
    {
      var chunk, o := chunks[next], os(time);
      assert Honest(o, chunk, bodies[next]);
      ghost var t := time;
      time, tries := time + 1, tries + [next];
      assert tries[t] == next;
      if chunk.key !in o.stored { return false; }
      var size := if o.reportsSize then |o.stored[chunk.key]| else -1;
      if size >= 0 && size != chunk.size { return false; }
      assert bodies[next..][0] == bodies[next] && bodies[next..][1..] == bodies[next + 1..];
      cur := Some(Body(o.stored[chunk.key], idle));
      next := next + 1;
      return true;
    }

    /** One read of the opened object; at its end it is closed. */
    method ReadCurrent(cap: nat) returns (data: Bytes, status: Status)
      requires Valid() && cur.Some?
      modifies this
      ensures Valid() && GoesOn() && |data| <= cap && next == old(next) && idle <= old(idle)
      ensures old(Remaining()) == data + Remaining()
      ensures status in {More, Eof, Error} && (status == Eof <==> cur.None?)
      ensures status == Error ==> Trouble()
      ensures status == More && data == [] && cap > 0 ==> idle < old(idle)
    {
      var b: Body;
      data, status, b := ReadBody(cur.value, cap, choices(calls));
      assert data + b.rest + Concat(bodies[next..]) == data + (b.rest + Concat(bodies[next..]));
      calls := calls + 1;
      assert status == Error ==> calls - 1 < calls && choices(calls - 1).fails;
      idle := b.idle;
      cur := if status == Eof then None else Some(b);
    }

    /** Read, with the loop that skips finished and empty chunks. Whatever it
        returns is next in the concatenated bodies; the end of file comes with
        nothing and only when everything has been returned; an error comes only
        of a failed read or of a chunk that is not as recorded. */
    method Read(cap: nat) returns (data: Bytes, status: Status)
      requires Valid() && Trusting()
      modifies this
      ensures Valid() && Trusting() && GoesOn() && |data| <= cap && idle <= old(idle) && next >= old(next)
      ensures old(Remaining()) == data + Remaining()
      ensures status in {More, Eof, Error}
      ensures status == Eof ==> data == [] && Remaining() == []
      ensures status == Error ==> Trouble()
      ensures status == More && data == [] && cap > 0 ==> idle < old(idle)
      ensures forall i :: old(next) <= i < next ==> RecordedAtSome(os, chunks[i])
    {
      hide Concat;
      while true
        invariant Valid() && GoesOn() && idle <= old(idle) && next >= old(next)
        invariant Remaining() == old(Remaining())
        invariant forall i :: old(next) <= i < next ==> RecordedAtSome(os, chunks[i])
        decreases |chunks| - next, cur.Some?
      {
        if cur.None? {
          if next >= |chunks| {
            assert bodies[next..] == [];
            NothingLeft();
            return [], Eof;
          }
          var ok := Open();
          if !ok { return [], Error; }
        }
        var bytes, s := ReadCurrent(cap);
        if s != Eof { return bytes, s; }
        if bytes != [] { return bytes, More; }
      }
    }
  }

  lemma NothingLeft()
    ensures Concat([]) == []
  {
  }

  ghost predicate RecordedAtSome(os: Stores, chunk: Chunk) {
    exists t :: Recorded(os(t), chunk)
  }

  /** Hashes everything read through it; at the end of file the digest decides
      whether the end is clean. The hash state is the text hashed so far. */
  class VerifyingReader {
    const r: Reader
    const sha: Bytes -> string
    const expected: string
    var seen: Bytes
    var done: bool
    var err: Status

    ghost predicate Valid() reads this, r {
      && r.Valid()
      && (done ==> r.Remaining() == [] && err == if sha(seen) == expected then Eof else Mismatch)
    }

    constructor (r: Reader, sha: Bytes -> string, expected: string)
      requires r.Valid()
      ensures Valid() && this.r == r && this.sha == sha && this.expected == expected && seen == [] && !done
    {
      this.r, this.sha, this.expected := r, sha, expected;
      seen, done, err := [], false, More;
    }

    /** The end of file is passed on only when the whole text hashes to the
        expected digest; any other text ends in a mismatch. */
    method Read(cap: nat) returns (data: Bytes, status: Status)
      requires Valid() && r.Trusting()
      modifies this, r
      ensures Valid() && r.Trusting() && r.GoesOn()
      ensures seen == old(seen) + data && seen + r.Remaining() == old(seen + r.Remaining())
      ensures r.idle <= old(r.idle) && r.next >= old(r.next)
      ensures status == Eof ==> r.Remaining() == [] && sha(seen) == expected
      ensures status == Mismatch ==> r.Remaining() == [] && sha(seen) != expected
      ensures status == Error ==> r.Trouble()
      ensures status in {Eof, Mismatch} <==> done
      ensures status == More && data == [] && cap > 0 ==> r.idle < old(r.idle)
    {
      if done { return [], err; }
      data, status := r.Read(cap);
      ghost var left := r.Remaining();
      assert old(seen) + (data + left) == (old(seen) + data) + left;
      seen := seen + data;
      if status == Eof {
        done := true;
        err := if sha(seen) == expected then Eof else Mismatch;
        status := err;
      }
    }
  }
}
