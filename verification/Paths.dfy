/** Where blobs and staged chunks live in the object store (storage/driver.go,
    storage/shared.go), and reading a digest or a session back from a key. */
module Paths {
  import opened Wrappers
  import opened Strings

  function Blobs(): (w: string)
    ensures w != "" && Free(w, '/')
  {
    "blobs"
  }

  function Invalid(): (w: string)
    ensures w != "" && Free(w, '/') && Free(w, ':')
  {
    "invalid"
  }

  function Uploads(): (w: string)
    ensures w != "" && Free(w, '/')
  {
    "_uploads"
  }

  predicate IsHex(c: char) {
    '0' <= c <= '9' || 'a' <= c <= 'f'
  }

  lemma HexDigits(c: char)
    ensures IsHex(c) <==> c in ['0', '1', '2', '3', '4', '5', '6', '7', '8', '9', 'a', 'b', 'c', 'd', 'e', 'f']
  {
  }

  predicate AllHex(s: string) {
    forall i :: 0 <= i < |s| ==> IsHex(s[i])
  }

  /** Not empty on either side of the first colon. */
  predicate HasBothParts(digest: string) {
    var cut := Cut(digest, ':');
    cut.2 && cut.0 != "" && cut.1 != ""
  }

  function FirstTwo(s: string): string {
    if |s| > 2 then s[..2] else s
  }

  /** The key a digest's content is kept under. */
  function BlobPath(digest: string): string {
    var cut := Cut(digest, ':');
    if HasBothParts(digest) then Join([Blobs(), cut.0, FirstTwo(cut.1), cut.1], '/')
    else Join([Blobs(), Invalid(), digest], '/')
  }

  /** A path of four parts as DigestFromPath wants it. */
  predicate WellFormed(parts: seq<string>) {
    && |parts| == 4 && parts[0] == Blobs()
    && parts[1] != "" && |parts[3]| >= 3 && |parts[2]| == 2 && parts[2] <= parts[3]
    && AllHex(parts[3])
  }

  function DigestFromPath(key: string): Option<string> {
    var parts := Split(key, '/');
    if WellFormed(parts) then Some(parts[1] + [':'] + parts[3]) else None
  }

  /** What the registry's digest pattern allows, and more: an algorithm without
      a slash, and enough lower-case hexadecimal digits. */
  predicate Accepted(digest: string) {
    var cut := Cut(digest, ':');
    cut.2 && cut.0 != "" && Free(cut.0, '/') && |cut.1| >= 3 && AllHex(cut.1)
  }

  lemma HexIsFree(s: string)
    requires AllHex(s)
    ensures Free(s, '/') && Free(s, ':')
  {
  }

  lemma PathParts(a: string, b: string, c: string, d: string)
    ensures Split(Join([a, b, c, d], '/'), '/') == Split(a, '/') + Split(b, '/') + Split(c, '/') + Split(d, '/')
    ensures Split(Join([a, b, d], '/'), '/') == Split(a, '/') + Split(b, '/') + Split(d, '/')
  {
    hide Split;
    JoinMore(c, [d]);
    JoinMore(b, [c, d]);
    JoinMore(a, [b, c, d]);
    JoinMore(b, [d]);
    JoinMore(a, [b, d]);
    assert Join([d], '/') == d;
    SplitAtSeparator(c, d, '/');
    SplitAtSeparator(b, Join([c, d], '/'), '/');
    SplitAtSeparator(a, Join([b, c, d], '/'), '/');
    SplitAtSeparator(b, d, '/');
    SplitAtSeparator(a, Join([b, d], '/'), '/');
    hide Join;
  }

  lemma JoinMore(a: string, rest: seq<string>)
    requires rest != []
    ensures Join([a] + rest, '/') == a + ['/'] + Join(rest, '/')
  {
    assert ([a] + rest)[1..] == rest;
  }

  /** Four parts come from four texts without a slash. */
  lemma FourParts(a: string, b: string, c: string, d: string)
    ensures var parts := Split(a, '/') + Split(b, '/') + Split(c, '/') + Split(d, '/');
            |parts| == 4 ==> parts == [a, b, c, d]
  {
    OnePart(a);
    OnePart(b);
    OnePart(c);
    OnePart(d);
  }

  lemma OnePart(s: string)
    ensures |Split(s, '/')| == 1 ==> Split(s, '/') == [s]
  {
    JoinSplit(s, '/');
  }

  /** A digest the registry accepts is read back from its path. */
  lemma PathReadsBack(digest: string)
    requires Accepted(digest)
    ensures DigestFromPath(BlobPath(digest)) == Some(digest)
  {
    hide Blobs, Invalid, Split;
    var cut := Cut(digest, ':');
    var a, h := cut.0, cut.1;
    HexIsFree(h);
    PathParts(Blobs(), a, FirstTwo(h), h);
    SplitFree(Blobs(), '/');
    SplitFree(a, '/');
    SplitFree(h, '/');
    SplitFree(FirstTwo(h), '/');
    assert [Blobs()] + [a] + [FirstTwo(h)] + [h] == [Blobs(), a, FirstTwo(h), h];
  }

  /** The layout: blobs/<algorithm>/<first two digits>/<digits>. */
  lemma PathLayout(a: string, h: string)
    requires Free(a, ':') && a != "" && h != ""
    ensures BlobPath(a + ":" + h) == "blobs" + "/" + a + "/" + (if |h| > 2 then h[..2] else h) + "/" + h
  {
    hide Join;
    CutIsFirst(a, h, ':');
    assert a + [':'] + h == a + ":" + h;
    JoinFour("blobs", a, FirstTwo(h), h);
  }

  /** And blobs/invalid/<text> for a text without two parts. */
  lemma InvalidLayout(digest: string)
    requires !HasBothParts(digest)
    ensures BlobPath(digest) == "blobs" + "/" + "invalid" + "/" + digest
  {
    JoinMore("invalid", [digest]);
    JoinMore("blobs", ["invalid", digest]);
    assert Join([digest], '/') == digest;
    hide Join;
    assert ["blobs"] + ["invalid", digest] == ["blobs", "invalid", digest];
    assert "blobs" + ['/'] + ("invalid" + ['/'] + digest) == "blobs" + "/" + "invalid" + "/" + digest;
  }

  /** So no two of them share a path. */
  lemma PathsDiffer(d: string, e: string)
    requires Accepted(d) && Accepted(e) && BlobPath(d) == BlobPath(e)
    ensures d == e
  {
    PathReadsBack(d);
    PathReadsBack(e);
  }

  /** What a key that reads as a digest looks like. */
  lemma KeyShape(key: string)
    requires DigestFromPath(key).Some?
    ensures var parts := Split(key, '/');
            && key == Join([Blobs(), parts[1], parts[3][..2], parts[3]], '/')
            && AllHex(parts[3]) && Free(parts[1], '/') && |parts[3]| >= 3 && parts[1] != ""
  {
    hide Blobs;
    JoinSplit(key, '/');
    var parts := Split(key, '/');
    assert parts[2] == parts[3][..|parts[2]|];
    assert parts == [Blobs(), parts[1], parts[3][..2], parts[3]];
  }

  /** The other way round holds exactly for keys without a colon in their second
      part; a foreign object `blobs/a:b/...` reads as a digest whose own path is
      elsewhere. */
  lemma KeyReadsBack(key: string)
    requires DigestFromPath(key).Some?
    ensures BlobPath(DigestFromPath(key).value) == key <==> Free(Split(key, '/')[1], ':')
  {
    hide Blobs, Invalid, Split;
    KeyShape(key);
    var parts := Split(key, '/');
    var a, h := parts[1], parts[3];
    HexIsFree(h);
    var digest := a + [':'] + h;
    if Free(a, ':') {
      CutIsFirst(a, h, ':');
    } else {
      var cut := Cut(digest, ':');
      if BlobPath(digest) == key {
        SameKeySameAlgorithm(digest, a, h);
        assert false;
      }
    }
  }

  /** A foreign object that reads as a digest kept elsewhere. */
  lemma ColonKeyIsMisread()
    ensures var key := "blobs" + "/" + "a:b" + "/" + "ab" + "/" + "abc";
            DigestFromPath(key) == Some("a:b:abc") && BlobPath("a:b:abc") != key
  {
    hide Split, BlobPath, Join;
    var parts := ["blobs", "a:b", "ab", "abc"];
    var key := "blobs" + "/" + "a:b" + "/" + "ab" + "/" + "abc";
    PartsOfColonKey();
    assert Join(parts, '/') == key by { JoinFour("blobs", "a:b", "ab", "abc"); }
    SplitJoin(parts, '/');
    assert "a:b" + [':'] + "abc" == "a:b:abc";
    assert "a:b"[1] == ':';
    KeyReadsBack(key);
  }

  lemma PartsOfColonKey()
    ensures var parts := ["blobs", "a:b", "ab", "abc"]; AllFree(parts, '/') && WellFormed(parts)
  {
  }

  lemma JoinFour(a: string, b: string, c: string, d: string)
    ensures Join([a, b, c, d], '/') == a + "/" + b + "/" + c + "/" + d
  {
    JoinMore(c, [d]);
    JoinMore(b, [c, d]);
    JoinMore(a, [b, c, d]);
    assert Join([d], '/') == d;
    hide Join;
    assert [a] + [b, c, d] == [a, b, c, d] && [b] + [c, d] == [b, c, d] && [c] + [d] == [c, d];
    var cd := c + ['/'] + d;
    var bcd := b + ['/'] + cd;
    assert a + ['/'] + bcd == a + "/" + b + "/" + c + "/" + d;
  }

  lemma SameKeySameAlgorithm(digest: string, a: string, h: string)
    requires |h| >= 3 && AllHex(h) && Free(a, '/') && a != "" && ':' in a
    requires digest == a + [':'] + h
    ensures BlobPath(digest) != Join([Blobs(), a, h[..2], h], '/')
  {
    hide Blobs, Invalid, Split;
    HexIsFree(h);
    var key := Join([Blobs(), a, h[..2], h], '/');
    PathParts(Blobs(), a, h[..2], h);
    SplitFree(Blobs(), '/');
    SplitFree(a, '/');
    SplitFree(h[..2], '/');
    SplitFree(h, '/');
    var cut := Cut(digest, ':');
    if HasBothParts(digest) {
      PathParts(Blobs(), cut.0, FirstTwo(cut.1), cut.1);
      FourParts(Blobs(), cut.0, FirstTwo(cut.1), cut.1);
      assert Split(key, '/') == [Blobs(), a, h[..2], h];
      assert BlobPath(digest) == key ==> cut.0 == a;
    } else {
      PathParts(Blobs(), Invalid(), Invalid(), digest);
      SplitFree(Invalid(), '/');
      SplitFree(digest, '/');
      assert |Split(key, '/')| == 4;
      assert |Split(BlobPath(digest), '/')| == 3;
    }
  }

  lemma ColonInside(a: string, h: string, b: string, i: string)
    requires a + [':'] + h == b + [':'] + i && |a| < |b|
    ensures ':' in h
  {
    assert (a + [':'] + h)[|b|] == ':';
    assert h[|b| - |a| - 1] == (a + [':'] + h)[|b|];
  }

  /** The last colon separates: what follows it is hexadecimal. */
  lemma LastColon(a: string, h: string, b: string, i: string)
    requires a + [':'] + h == b + [':'] + i && Free(h, ':') && Free(i, ':')
    ensures a == b && h == i
  {
    var s := a + [':'] + h;
    if |a| < |b| { ColonInside(a, h, b, i); }
    if |b| < |a| { ColonInside(b, i, a, h); }
    assert s[..|a|] == a && s[..|b|] == b;
    assert s[|a| + 1..] == h && s[|b| + 1..] == i;
  }

  /** No two keys read as the same digest: an inventory keyed by digest loses no
      object. */
  lemma DigestsDiffer(k: string, l: string)
    requires DigestFromPath(k).Some? && DigestFromPath(k) == DigestFromPath(l)
    ensures k == l
  {
    KeyShape(k);
    KeyShape(l);
    var p, q := Split(k, '/'), Split(l, '/');
    hide Split;
    HexIsFree(p[3]);
    HexIsFree(q[3]);
    LastColon(p[1], p[3], q[1], q[3]);
  }

  /** A text whose path, though it has no two parts, looks like a blob's. */
  predicate Masquerades(digest: string) {
    var parts := Split(digest, '/');
    && !HasBothParts(digest) && |parts| == 2
    && |parts[1]| >= 3 && |parts[0]| == 2 && parts[0] <= parts[1] && AllHex(parts[1])
  }

  /** There are such texts. */
  lemma SomeTextMasquerades()
    ensures Masquerades("ab/abc")
  {
    hide Split;
    SplitAtSeparator("ab", "abc", '/');
    assert "ab" + ['/'] + "abc" == "ab/abc";
    SplitFree("ab", '/');
    SplitFree("abc", '/');
    NoColon();
    assert Split("ab/abc", '/') == ["ab", "abc"];
  }

  lemma NoColon()
    ensures !HasBothParts("ab/abc")
  {
    assert Free("ab/abc", ':');
  }

  /** Whatever a row's digest is: its object is taken for no other digest's,
      exactly unless the digest masquerades. */
  lemma OwnPathReadsAsOwnDigest(digest: string)
    ensures DigestFromPath(BlobPath(digest)) in {None, Some(digest)} <==> !Masquerades(digest)
  {
    hide Blobs, Invalid, Split;
    var cut := Cut(digest, ':');
    SplitFree(Blobs(), '/');
    SplitFree(Invalid(), '/');
    if HasBothParts(digest) {
      PathParts(Blobs(), cut.0, FirstTwo(cut.1), cut.1);
      FourParts(Blobs(), cut.0, FirstTwo(cut.1), cut.1);
    } else {
      InvalidPath(digest);
    }
  }

  lemma InvalidPath(digest: string)
    requires !HasBothParts(digest)
    ensures DigestFromPath(BlobPath(digest)).Some? <==> Masquerades(digest)
    ensures Masquerades(digest) ==> DigestFromPath(BlobPath(digest)) != Some(digest)
  {
    hide Blobs, Invalid, Split;
    PathParts(Blobs(), Invalid(), Invalid(), digest);
    SplitFree(Blobs(), '/');
    SplitFree(Invalid(), '/');
    var parts := Split(digest, '/');
    assert Split(BlobPath(digest), '/') == [Blobs(), Invalid()] + parts;
    if Masquerades(digest) {
      var read := Invalid() + [':'] + parts[1];
      assert DigestFromPath(BlobPath(digest)) == Some(read);
      CutIsFirst(Invalid(), parts[1], ':');
    }
  }

  // ---- Staged chunks ----

  /** `sequence` is the number and the random suffix. */
  function ChunkKey(session: string, sequence: string): string {
    Uploads() + ['/'] + session + ['/'] + sequence
  }

  function SessionOfKey(key: string): string {
    var prefix := Uploads() + ['/'];
    if prefix <= key then Cut(key[|prefix|..], '/').0 else ""
  }

  lemma ChunkKeyLayout(session: string, sequence: string)
    ensures ChunkKey(session, sequence) == "_uploads" + "/" + session + "/" + sequence
  {
  }

  /** The sweep reads each chunk's session back from its key. */
  lemma SessionReadsBack(session: string, sequence: string)
    requires Free(session, '/')
    ensures SessionOfKey(ChunkKey(session, sequence)) == session
  {
    hide Uploads;
    var prefix := Uploads() + ['/'];
    var rest := session + ['/'] + sequence;
    assert ChunkKey(session, sequence) == prefix + rest;
    CutIsFirst(session, sequence, '/');
  }
}
