/** Migrating blobs to another backend (storagetools/migrate.go). Rows come from
    the blobs table, one for each digest; the workers take them in any order, and
    no two touch the same digest, so one row after the other stands for all
    schedules. What the backends answer besides content enters as `Faults`. */
module Migrate {
  import opened Wrappers

  type Bytes = seq<bv8>
  type Digest = nat

  datatype Row = Row(digest: Digest, size: nat)

  /** Which calls fail for a digest, other than for want of the blob. */
  datatype Faults = Faults(targetStat: bool, targetRead: bool, sourceRead: bool, copy: bool)

  /** `supported`: sha256 digests. `listed`: the target's listing, if it has one. */
  datatype Options = Options(
    dryRun: bool, verify: bool, sha: Bytes -> Digest, supported: Digest -> bool,
    source: map<Digest, Bytes>, listed: Option<map<Digest, nat>>, faults: Digest -> Faults)

  datatype Kind = Missing | Corrupt | Failed

  datatype Outcome = Copied(size: nat, replaced: bool) | Skipped | Problem(kind: Kind)

  datatype Report = Report(
    blobs: nat, bytes: nat, copied: nat, copiedBytes: nat, replaced: nat, skipped: nat, skippedBytes: nat,
    missing: nat, corrupt: nat, failed: nat, problems: seq<(Digest, Kind)>)
  {
    predicate Complete() { missing == 0 && corrupt == 0 && failed == 0 }
  }

  const MAX_PROBLEMS := 100
  const EMPTY := Report(0, 0, 0, 0, 0, 0, 0, 0, 0, 0, [])

  // ---- One row ----

  /** The listing tells the row's true size. */
  predicate Truthful(opts: Options, target: map<Digest, Bytes>, d: Digest) {
    opts.listed.Some? && d in opts.listed.value ==> d in target && opts.listed.value[d] == |target[d]|
  }

  predicate StatFails(opts: Options, d: Digest) {
    opts.faults(d).targetStat && (opts.listed.None? || d !in opts.listed.value)
  }

  predicate Fits(target: map<Digest, Bytes>, row: Row) {
    row.digest in target && |target[row.digest]| == row.size
  }

  predicate Sound(opts: Options, target: map<Digest, Bytes>, d: Digest) {
    d in target && opts.sha(target[d]) == d
  }

  function Expected(opts: Options, target: map<Digest, Bytes>, row: Row): Outcome {
    var d, fits := row.digest, Fits(target, row);
    var cannotTell := !opts.supported(d) || StatFails(opts, d) || (fits && opts.verify && opts.faults(d).targetRead);
    if cannotTell then Problem(Failed)
    else if fits && (!opts.verify || Sound(opts, target, d)) then Skipped
    else if opts.dryRun then Copied(row.size, d in target)
    else if d !in opts.source then Problem(Missing)
    else if opts.faults(d).sourceRead || opts.faults(d).copy then Problem(Failed)
    else if opts.sha(opts.source[d]) != d then Problem(Corrupt)
    else Copied(|opts.source[d]|, d in target)
  }

  function Published(opts: Options, target: map<Digest, Bytes>, row: Row, o: Outcome): map<Digest, Bytes> {
    if o.Copied? && !opts.dryRun && row.digest in opts.source then target[row.digest := opts.source[row.digest]]
    else target
  }

  function Counted(r: Report, row: Row, o: Outcome): Report {
    match o
    case Copied(size, replaced) =>
      r.(copied := r.copied + 1, copiedBytes := r.copiedBytes + size,
         replaced := r.replaced + if replaced then 1 else 0)
    case Skipped => r.(skipped := r.skipped + 1, skippedBytes := r.skippedBytes + row.size)
    case Problem(kind) =>
      r.(missing := r.missing + if kind.Missing? then 1 else 0,
         corrupt := r.corrupt + if kind.Corrupt? then 1 else 0,
         failed := r.failed + if kind.Failed? then 1 else 0,
         problems := if |r.problems| < MAX_PROBLEMS then r.problems + [(row.digest, kind)] else r.problems)
  }

  function Seen(r: Report, row: Row): Report {
    r.(blobs := r.blobs + 1, bytes := r.bytes + row.size)
  }

  // ---- All rows ----

  datatype World = World(target: map<Digest, Bytes>, report: Report)

  function One(opts: Options, w: World, row: Row): World {
    var o := Expected(opts, w.target, row);
    World(Published(opts, w.target, row, o), Counted(Seen(w.report, row), row, o))
  }

  function All(opts: Options, w: World, rows: seq<Row>): World
    decreases |rows|
  {
    if rows == [] then w else One(opts, All(opts, w, rows[..|rows| - 1]), rows[|rows| - 1])
  }

  /** The digest is the table's primary key. */
  predicate Unique(rows: seq<Row>) {
    forall i, j :: 0 <= i < j < |rows| ==> rows[i].digest != rows[j].digest
  }

  class Migrator {
    const opts: Options
    var target: map<Digest, Bytes>
    var report: Report

    constructor (opts: Options, target: map<Digest, Bytes>)
      ensures this.opts == opts && this.target == target && report == EMPTY
    {
      this.opts, this.target, report := opts, target, EMPTY;
    }

    method NoteProblem(row: Row, kind: Kind)
      modifies this`report
      ensures report == Counted(old(report), row, Problem(kind))
    {
      match kind {
        case Missing => report := report.(missing := report.missing + 1);
        case Corrupt => report := report.(corrupt := report.corrupt + 1);
        case Failed => report := report.(failed := report.failed + 1);
      }
      if |report.problems| < MAX_PROBLEMS {
        report := report.(problems := report.problems + [(row.digest, kind)]);
      }
    }

    method NoteSkipped(row: Row)
      modifies this`report
      ensures report == Counted(old(report), row, Skipped)
    {
      report := report.(skipped := report.skipped + 1, skippedBytes := report.skippedBytes + row.size);
    }

    method NoteCopied(row: Row, size: nat, replaced: bool)
      modifies this`report
      ensures report == Counted(old(report), row, Copied(size, replaced))
    {
      report := report.(copied := report.copied + 1, copiedBytes := report.copiedBytes + size);
      if replaced { report := report.(replaced := report.replaced + 1); }
    }

    /** Existence and size: from the listing, with the backend behind a miss. */
    method Stat(d: Digest) returns (ok: bool, size: Option<nat>)
      requires Truthful(opts, target, d)
      ensures ok <==> !StatFails(opts, d)
      ensures ok ==> size == if d in target then Some(|target[d]|) else None
    {
      if opts.listed.Some? && d in opts.listed.value { return true, Some(opts.listed.value[d]); }
      if opts.faults(d).targetStat { return false, None; }
      return true, if d in target then Some(|target[d]|) else None;
    }

    method Process(row: Row)
      requires Truthful(opts, target, row.digest)
      modifies this
      ensures World(target, report) == One(opts, old(World(target, report)), row)
    {
      var d := row.digest;
      report := report.(blobs := report.blobs + 1, bytes := report.bytes + row.size);
      if !opts.supported(d) { NoteProblem(row, Failed); return; }
      var ok, size := Stat(d);
      if !ok { NoteProblem(row, Failed); return; }
      var replace := false;
      if size.Some? {
        if size.value == row.size {
          if !opts.verify { NoteSkipped(row); return; }
          if opts.faults(d).targetRead { NoteProblem(row, Failed); return; }
          if opts.sha(target[d]) == d { NoteSkipped(row); return; }
        }
        replace := true;
      }
      if opts.dryRun { NoteCopied(row, row.size, replace); return; }
      if d !in opts.source { NoteProblem(row, Missing); return; }
      if opts.faults(d).sourceRead { NoteProblem(row, Failed); return; }
      var content := opts.source[d];
      if opts.faults(d).copy { NoteProblem(row, Failed); return; }
      if opts.sha(content) != d { NoteProblem(row, Corrupt); return; }
      target := target[d := content];
      NoteCopied(row, |content|, replace);
    }

    /** The rows, as far as they come: the context may end the run after any of
        them. */
    method Walk(rows: seq<Row>, limit: nat)
      requires Unique(rows) && forall d :: Truthful(opts, target, d)
      modifies this
      ensures World(target, report) == All(opts, old(World(target, report)), rows[..Min(limit, |rows|)])
    {
      hide One, Truthful;
      var n := Min(limit, |rows|);
      for i := 0 to n
        invariant World(target, report) == All(opts, old(World(target, report)), rows[..i])
        invariant forall j :: i <= j < |rows| ==> Truthful(opts, target, rows[j].digest)
      {
        assert rows[..i + 1][..i] == rows[..i];
        ghost var before := World(target, report);
        Process(rows[i]);
        forall j | i + 1 <= j < |rows| ensures Truthful(opts, target, rows[j].digest) {
          OthersStayTruthful(opts, before, rows[i], rows[j].digest);
        }
      }
    }
  }

  // ---- What a finished run means ----

  /** What the outcome of a row says about the backends. */
  lemma OutcomesMeanWhatTheySay(opts: Options, target: map<Digest, Bytes>, row: Row)
    ensures var d := row.digest;
            var fits := d in target && |target[d]| == row.size;
            var sound := d in target && opts.sha(target[d]) == d;
            match Expected(opts, target, row)
            case Copied(size, replaced) =>
              && (replaced <==> d in target) && (fits ==> opts.verify && !sound)
              && (if opts.dryRun then size == row.size
                  else d in opts.source && size == |opts.source[d]| && opts.sha(opts.source[d]) == d)
            case Skipped => fits && (opts.verify ==> sound)
            case Problem(Missing) => d !in opts.source
            case Problem(Corrupt) => d in opts.source && opts.sha(opts.source[d]) != d
            case Problem(Failed) =>
              || !opts.supported(d)
              || (opts.faults(d).targetStat && (opts.listed.None? || d !in opts.listed.value))
              || (opts.faults(d).targetRead && opts.verify && fits)
              || (opts.faults(d).sourceRead && !opts.dryRun) || (opts.faults(d).copy && !opts.dryRun)
  {
  }

  /** A row touches its own digest only, and leaves it as it was or sound; a dry
      run leaves everything as it was. */
  lemma OneTouchesItsDigest(opts: Options, w: World, row: Row)
    ensures var t := One(opts, w, row).target;
            && (forall d :: d != row.digest ==> (d in t <==> d in w.target) && (d in t ==> t[d] == w.target[d]))
            && (t == w.target || (!opts.dryRun && Sound(opts, t, row.digest)))
  {
  }

  lemma OthersStayTruthful(opts: Options, w: World, row: Row, d: Digest)
    requires d != row.digest && Truthful(opts, w.target, d)
    ensures Truthful(opts, One(opts, w, row).target, d)
  {
    OneTouchesItsDigest(opts, w, row);
  }

  lemma {:induction false} AllTouchTheirDigests(opts: Options, w: World, rows: seq<Row>, d: Digest)
    ensures var t := All(opts, w, rows).target;
            || ((d in t <==> d in w.target) && (d in t ==> t[d] == w.target[d]))
            || (!opts.dryRun && d in t && opts.sha(t[d]) == d && exists i :: 0 <= i < |rows| && rows[i].digest == d)
    decreases |rows|
  {
    if rows != [] {
      var front := rows[..|rows| - 1];
      AllTouchTheirDigests(opts, w, front, d);
      OneTouchesItsDigest(opts, All(opts, w, front), rows[|rows| - 1]);
      hide One;
      if i :| 0 <= i < |front| && front[i].digest == d { assert rows[i].digest == d; }
    }
  }

  /** A run never loses content that is right, whatever fails. */
  lemma SoundStaysSound(opts: Options, w: World, rows: seq<Row>, d: Digest)
    requires d in w.target && opts.sha(w.target[d]) == d
    ensures var t := All(opts, w, rows).target; d in t && opts.sha(t[d]) == d
  {
    AllTouchTheirDigests(opts, w, rows, d);
  }

  function Bytesum(rows: seq<Row>): nat
    decreases |rows|
  {
    if rows == [] then 0 else Bytesum(rows[..|rows| - 1]) + rows[|rows| - 1].size
  }

  /** Each row is counted exactly once, and the problems are kept up to the cap. */
  lemma {:induction false} EachRowCountsOnce(opts: Options, target: map<Digest, Bytes>, rows: seq<Row>)
    ensures var r := All(opts, World(target, EMPTY), rows).report;
            && r.blobs == |rows| == r.copied + r.skipped + r.missing + r.corrupt + r.failed
            && r.bytes == Bytesum(rows) && r.skippedBytes <= r.bytes && r.replaced <= r.copied
            && |r.problems| == Min(100, r.missing + r.corrupt + r.failed)
    decreases |rows|
  {
    if rows != [] {
      EachRowCountsOnce(opts, target, rows[..|rows| - 1]);
      hide Expected;
    }
  }

  /** The sum of a figure over the rows' outcomes, all judged against the target as
      the run found it. */
  function Tally(opts: Options, target: map<Digest, Bytes>, rows: seq<Row>, figure: (Row, Outcome) -> int): int
    decreases |rows|
  {
    if rows == [] then 0
    else
      var front, row := rows[..|rows| - 1], rows[|rows| - 1];
      Tally(opts, target, front, figure) + figure(row, Expected(opts, target, row))
  }

  /** The problems in the order of the rows. */
  function ProblemsOf(opts: Options, target: map<Digest, Bytes>, rows: seq<Row>): seq<(Digest, Kind)>
    decreases |rows|
  {
    if rows == [] then []
    else
      var front, row := rows[..|rows| - 1], rows[|rows| - 1];
      match Expected(opts, target, row)
      case Problem(kind) => ProblemsOf(opts, target, front) + [(row.digest, kind)]
      case _ => ProblemsOf(opts, target, front)
  }

  /** A row is judged by its own digest only, which no row before it touches. */
  lemma JudgedByTheStart(opts: Options, target: map<Digest, Bytes>, rows: seq<Row>)
    requires Unique(rows) && rows != []
    ensures var front, row := rows[..|rows| - 1], rows[|rows| - 1];
            Expected(opts, All(opts, World(target, EMPTY), front).target, row) == Expected(opts, target, row)
  {
    var front, row := rows[..|rows| - 1], rows[|rows| - 1];
    AllTouchTheirDigests(opts, World(target, EMPTY), front, row.digest);
    forall i | 0 <= i < |front| ensures front[i].digest != row.digest { assert rows[i] == front[i]; }
    hide All, Unique;
  }

  /** Each figure of the report is the number of rows, or the bytes, it stands for,
      and the problems kept are the first ones. */
  lemma {:induction false} FiguresAreExact(opts: Options, target: map<Digest, Bytes>, rows: seq<Row>)
    requires Unique(rows)
    ensures var r := All(opts, World(target, EMPTY), rows).report;
            && r.missing == Tally(opts, target, rows, (row: Row, o: Outcome) => if o == Problem(Missing) then 1 else 0)
            && r.corrupt == Tally(opts, target, rows, (row: Row, o: Outcome) => if o == Problem(Corrupt) then 1 else 0)
            && r.failed == Tally(opts, target, rows, (row: Row, o: Outcome) => if o == Problem(Failed) then 1 else 0)
            && r.copied == Tally(opts, target, rows, (row: Row, o: Outcome) => if o.Copied? then 1 else 0)
            && r.copiedBytes == Tally(opts, target, rows, (row: Row, o: Outcome) => if o.Copied? then o.size else 0)
            && r.replaced ==
                 Tally(opts, target, rows, (row: Row, o: Outcome) => if o.Copied? && o.replaced then 1 else 0)
            && r.skipped == Tally(opts, target, rows, (row: Row, o: Outcome) => if o.Skipped? then 1 else 0)
            && r.skippedBytes == Tally(opts, target, rows, (row: Row, o: Outcome) => if o.Skipped? then row.size else 0)
            && var ps := ProblemsOf(opts, target, rows);
               r.problems == ps[..Min(100, |ps|)]
    decreases |rows|
  {
    if rows != [] {
      var front := rows[..|rows| - 1];
      UniqueFrontOf(rows);
      FiguresAreExact(opts, target, front);
      JudgedByTheStart(opts, target, rows);
      hide Expected, Published, Unique;
    }
  }

  lemma UniqueFrontOf(rows: seq<Row>)
    requires rows != [] && Unique(rows)
    ensures Unique(rows[..|rows| - 1])
  {
  }

  lemma OneComplete(opts: Options, w: World, row: Row)
    ensures var u := One(opts, w, row);
            u.report.Complete() <==> w.report.Complete() && !Expected(opts, w.target, row).Problem?
  {
  }

  /** What a row may be left with: content that hashes to it or, where the run
      does not verify, an object of its size. */
  predicate Served(opts: Options, target: map<Digest, Bytes>, row: Row) {
    Sound(opts, target, row.digest) || (!opts.verify && Fits(target, row))
  }

  lemma NoProblemMeansServed(opts: Options, w: World, row: Row)
    requires !opts.dryRun && !Expected(opts, w.target, row).Problem?
    ensures Served(opts, One(opts, w, row).target, row)
  {
    OutcomesMeanWhatTheySay(opts, w.target, row);
    hide Expected;
  }

  /** After a complete run that was not dry the target serves every row; where
      the run verified, with content that hashes to the row's digest. */
  lemma {:induction false} CompleteMeansServed(opts: Options, w: World, rows: seq<Row>, i: nat)
    requires Unique(rows) && !opts.dryRun && All(opts, w, rows).report.Complete() && i < |rows|
    ensures Served(opts, All(opts, w, rows).target, rows[i])
    ensures var t, d := All(opts, w, rows).target, rows[i].digest;
            && d in t && (opts.sha(t[d]) == d || (!opts.verify && |t[d]| == rows[i].size))
    decreases |rows|
  {
    var front, last := rows[..|rows| - 1], rows[|rows| - 1];
    var before := All(opts, w, front);
    OneComplete(opts, before, last);
    OneTouchesItsDigest(opts, before, last);
    hide One, Expected;
    if i == |front| {
      NoProblemMeansServed(opts, before, last);
    } else {
      CompleteMeansServed(opts, w, front, i);
      assert front[i] == rows[i];
    }
  }

  /** Nothing stands in the way of asking the target about any row. */
  predicate Answers(opts: Options, rows: seq<Row>) {
    forall i :: 0 <= i < |rows| ==> opts.supported(rows[i].digest) && !StatFails(opts, rows[i].digest)
  }

  /** Without verification a run skips every row, and so copies nothing, exactly
      when the target holds an object of each row's size. */
  lemma {:induction false} SkipsAllExactlyWhenAllFit(opts: Options, target: map<Digest, Bytes>, rows: seq<Row>)
    requires Unique(rows) && !opts.verify && Answers(opts, rows)
    ensures var w := All(opts, World(target, EMPTY), rows);
            && (w.report.skipped == |rows| <==> forall i :: 0 <= i < |rows| ==>
                  rows[i].digest in target && |target[rows[i].digest]| == rows[i].size)
            && (w.report.skipped == |rows| ==> w.target == target && w.report.copied == 0 && w.report.Complete())
    decreases |rows|
  {
    EachRowCountsOnce(opts, target, rows);
    if rows != [] {
      var front, last := rows[..|rows| - 1], rows[|rows| - 1];
      var before := All(opts, World(target, EMPTY), front);
      assert Answers(opts, front) by {
        forall i | 0 <= i < |front| ensures opts.supported(front[i].digest) && !StatFails(opts, front[i].digest) {
          assert rows[i] == front[i];
        }
      }
      SkipsAllExactlyWhenAllFit(opts, target, front);
      EachRowCountsOnce(opts, target, front);
      if forall i :: 0 <= i < |rows| ==> Fits(target, rows[i]) {
        forall i | 0 <= i < |front| ensures Fits(target, front[i]) { assert rows[i] == front[i]; }
      }
      if forall i :: 0 <= i < |front| ==> Fits(target, front[i]) {
        forall i | 0 <= i < |front| ensures Fits(target, rows[i]) { assert rows[i] == front[i]; }
      }
    }
  }

  /** The rows tell the length of the content they name. */
  ghost predicate SizesRight(opts: Options, rows: seq<Row>) {
    forall i, content :: 0 <= i < |rows| && opts.sha(content) == rows[i].digest ==> |content| == rows[i].size
  }

  /** Running again after a complete run copies nothing when the row sizes are
      right. */
  lemma RerunCopiesNothing(first: Options, again: Options, w: World, rows: seq<Row>)
    requires Unique(rows) && !first.dryRun && All(first, w, rows).report.Complete() && SizesRight(first, rows)
    requires !again.verify && Answers(again, rows)
    ensures var u := All(again, World(All(first, w, rows).target, EMPTY), rows);
            u.report.skipped == |rows| && u.report.copied == 0 && u.target == All(first, w, rows).target
  {
    var target := All(first, w, rows).target;
    forall i | 0 <= i < |rows| ensures Fits(target, rows[i]) {
      CompleteMeansServed(first, w, rows, i);
    }
    SkipsAllExactlyWhenAllFit(again, target, rows);
    EachRowCountsOnce(again, target, rows);
  }

  /** Two rows may go in either order. */
  lemma RowsCommute(opts: Options, w: World, a: Row, b: Row)
    requires a.digest != b.digest
    ensures var x, y := One(opts, One(opts, w, a), b), One(opts, One(opts, w, b), a);
            Alike(x, y)
  {
    var x, y := One(opts, w, a), One(opts, w, b);
    OneTouchesItsDigest(opts, w, a);
    OneTouchesItsDigest(opts, w, b);
    assert Expected(opts, x.target, b) == Expected(opts, w.target, b);
    assert Expected(opts, y.target, a) == Expected(opts, w.target, a);
    hide Expected, Counted, Published, Seen;
    CountsCommute(w.report, a, Expected(opts, w.target, a), b, Expected(opts, w.target, b));
    PublishingCommutes(opts, w.target, a, Expected(opts, w.target, a), b, Expected(opts, w.target, b));
  }

  lemma CountsCommute(r: Report, a: Row, oa: Outcome, b: Row, ob: Outcome)
    ensures Counted(Seen(Counted(Seen(r, a), a, oa), b), b, ob).(problems := [])
         == Counted(Seen(Counted(Seen(r, b), b, ob), a), a, oa).(problems := [])
  {
  }

  lemma PublishingCommutes(opts: Options, target: map<Digest, Bytes>, a: Row, oa: Outcome, b: Row, ob: Outcome)
    requires a.digest != b.digest
    ensures Published(opts, Published(opts, target, a, oa), b, ob)
         == Published(opts, Published(opts, target, b, ob), a, oa)
  {
  }

  /** The same target and the same counts; the problems kept may differ. */
  predicate Alike(w: World, v: World) {
    w.target == v.target && w.report.(problems := []) == v.report.(problems := [])
  }

  lemma OneKeepsAlike(opts: Options, w: World, v: World, row: Row)
    requires Alike(w, v)
    ensures Alike(One(opts, w, row), One(opts, v, row))
  {
    hide Expected, Published;
  }

  /** A row may wait for the rows behind it. */
  lemma {:induction false} RowMovesToTheEnd(opts: Options, w: World, a: seq<Row>, x: Row, b: seq<Row>)
    requires Unique(a + [x] + b)
    ensures Alike(All(opts, w, a + [x] + b), All(opts, w, a + b + [x]))
    decreases |b|
  {
    hide One, Alike, All;
    if b == [] {
      assert a + b == a && a + [x] + b == a + [x];
      AlikeItself(All(opts, w, a + [x]));
    } else {
      var front, y := b[..|b| - 1], b[|b| - 1];
      assert b == front + [y];
      assert a + [x] + b == (a + [x] + front) + [y] && a + b == (a + front) + [y];
      UniqueFront(a + [x] + front, y);
      RowMovesToTheEnd(opts, w, a, x, front);
      AllSnoc(opts, w, a + [x] + front, y);
      AllSnoc(opts, w, a + front, x);
      AllSnoc(opts, w, a + front, y);
      AllSnoc(opts, w, a + b, x);
      OneKeepsAlike(opts, All(opts, w, a + [x] + front), All(opts, w, a + front + [x]), y);
      assert (a + [x] + b)[|a|] == x && (a + [x] + b)[|a| + |b|] == y;
      RowsCommute(opts, All(opts, w, a + front), x, y);
      AlikeIsTransitive(All(opts, w, a + [x] + b), One(opts, One(opts, All(opts, w, a + front), x), y),
                        All(opts, w, a + b + [x]));
    }
  }

  lemma AllSnoc(opts: Options, w: World, rows: seq<Row>, x: Row)
    ensures All(opts, w, rows + [x]) == One(opts, All(opts, w, rows), x)
  {
    hide One;
    assert (rows + [x])[..|rows|] == rows;
  }

  lemma UniqueFront(rows: seq<Row>, x: Row)
    requires Unique(rows + [x])
    ensures Unique(rows)
  {
    forall i, j | 0 <= i < j < |rows| ensures rows[i].digest != rows[j].digest {
      assert (rows + [x])[i] == rows[i] && (rows + [x])[j] == rows[j];
    }
  }

  lemma AlikeItself(w: World)
    ensures Alike(w, w)
  {
  }

  lemma AlikeIsTransitive(u: World, v: World, w: World)
    requires Alike(u, v) && Alike(v, w)
    ensures Alike(u, w)
  {
  }

  /** However the workers share the rows out, the target and every count come out
      the same. */
  lemma {:induction false} AnyOrderWillDo(opts: Options, w: World, rows: seq<Row>, order: seq<Row>)
    requires Unique(rows) && multiset(rows) == multiset(order)
    ensures Alike(All(opts, w, rows), All(opts, w, order))
    decreases |rows|
  {
    hide One, Alike;
    assert |rows| == |multiset(rows)| == |multiset(order)| == |order|;
    if rows == [] {
      AlikeItself(w);
    } else {
      var front, x := order[..|order| - 1], order[|order| - 1];
      assert order == front + [x];
      assert x in multiset(rows);
      var i :| 0 <= i < |rows| && rows[i] == x;
      var a, b := rows[..i], rows[i + 1..];
      assert rows == a + [x] + b;
      RowMovesToTheEnd(opts, w, a, x, b);
      Without(rows, i);
      AnyOrderWillDo(opts, w, a + b, front);
      AllSnoc(opts, w, a + b, x);
      AllSnoc(opts, w, front, x);
      OneKeepsAlike(opts, All(opts, w, a + b), All(opts, w, front), x);
      AlikeIsTransitive(All(opts, w, rows), All(opts, w, a + b + [x]), All(opts, w, order));
    }
  }

  lemma Without(rows: seq<Row>, i: nat)
    requires i < |rows| && Unique(rows)
    ensures Unique(rows[..i] + rows[i + 1..])
    ensures multiset(rows[..i] + rows[i + 1..]) == multiset(rows) - multiset{rows[i]}
  {
    var left := rows[..i] + rows[i + 1..];
    forall j, k | 0 <= j < k < |left| ensures left[j].digest != left[k].digest {
      assert left[j] == rows[if j < i then j else j + 1] && left[k] == rows[if k < i then k else k + 1];
    }
    hide Unique;
    assert rows == rows[..i] + [rows[i]] + rows[i + 1..];
  }
}
