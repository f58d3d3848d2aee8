/** The shared rate counter: one row per key, hit by every replica
    (store/ratelimit.go, `shared.take` in ratelimit/ratelimit.go), and the sweep
    that drops old rows (api/ratelimit.go). Replicas read their own clocks; one
    statement is one step. */
module SharedCounter {
  import opened Wrappers
  import opened RateLimit

  /** The window the row stands for, and the requests counted in it. */
  datatype Row = Row(start: Time, count: int)

  type Rows = map<Client, Row>

  /** The limit of each key, and the longer window of the two classes. */
  datatype Config = Config(limitOf: Client -> Limit, longest: int) {
    ghost predicate Ok() {
      forall k :: limitOf(k).Ok() && limitOf(k).window <= longest
    }
  }

  datatype Action = Take(key: Client, now: Time) | Sweep(now: Time)

  /** Windows are aligned to the clock. */
  function WindowStart(limit: Limit, now: Time): Time
    requires limit.Ok()
  {
    now - now % limit.window
  }

  function Upserted(rows: Rows, key: Client, start: Time): Row {
    if key !in rows || rows[key].start < start then Row(start, 1)
    else Row(rows[key].start, rows[key].count + 1)
  }

  function Kept(rows: Rows, cutoff: Time): Rows {
    map k | k in rows && rows[k].start >= cutoff :: rows[k]
  }

  function Answer(limit: Limit, count: int, start: Time): Decision {
    Decision(count <= limit.count, Max(0, limit.count - count), start + limit.window)
  }

  ghost function TakeAnswer(c: Config, rows: Rows, key: Client, now: Time): Decision
    requires c.Ok()
  {
    var limit := c.limitOf(key);
    var start := WindowStart(limit, now);
    Answer(limit, Upserted(rows, key, start).count, start)
  }

  ghost function Step(c: Config, rows: Rows, a: Action, sweeping: bool): Rows
    requires c.Ok()
  {
    match a
    case Take(key, now) => rows[key := Upserted(rows, key, WindowStart(c.limitOf(key), now))]
    case Sweep(now) => if sweeping then Kept(rows, now - 2 * c.longest) else rows
  }

  // ---- One replica's calls ----

  class Database {
    var rows: Rows

    constructor () ensures rows == map[] { rows := map[]; }

    /** The upsert; it returns the new count. */
    method TakeRateLimit(key: Client, start: Time) returns (count: int)
      modifies this
      ensures rows == old(rows)[key := Upserted(old(rows), key, start)] && count == rows[key].count
    {
      var row := Row(start, 1);
      if key in rows {
        var advances := rows[key].start < start;
        row := Row(if advances then start else rows[key].start, if advances then 1 else rows[key].count + 1);
      }
      rows := rows[key := row];
      count := row.count;
    }

    method SweepRateLimits(cutoff: Time) returns (dropped: nat)
      modifies this
      ensures rows == Kept(old(rows), cutoff) && dropped == |old(rows).Keys - rows.Keys|
    {
      var before := rows.Keys;
      rows := map k | k in rows && rows[k].start >= cutoff :: rows[k];
      dropped := |before - rows.Keys|;
    }

    method SharedTake(ghost c: Config, limit: Limit, key: Client, now: Time) returns (d: Decision)
      requires c.Ok() && limit == c.limitOf(key)
      modifies this
      ensures rows == Step(c, old(rows), Take(key, now), true)
      ensures d == TakeAnswer(c, old(rows), key, now)
    {
      var start := now - now % limit.window;
      var count := TakeRateLimit(key, start);
      d := Decision(count <= limit.count, Max(0, limit.count - count), start + limit.window);
    }
  }

  // ---- Sweeping is unseen while the clocks agree well enough ----

  /** No clock is more than `skew` behind one read earlier. */
  predicate WithinSkew(trace: seq<Action>, skew: nat) {
    forall i, j :: 0 <= i < j < |trace| ==> trace[i].now - skew <= trace[j].now
  }

  ghost function Answers(c: Config, rows: Rows, trace: seq<Action>, sweeping: bool): seq<Decision>
    requires c.Ok()
    decreases |trace|
  {
    if trace == [] then []
    else
      var rest := Answers(c, Step(c, rows, trace[0], sweeping), trace[1..], sweeping);
      if trace[0].Take? then [TakeAnswer(c, rows, trace[0].key, trace[0].now)] + rest else rest
  }

  /** How many requests of the key were answered `allowed` while its row stood for
      the window that starts at `start`. */
  ghost function AllowedFor(c: Config, rows: Rows, trace: seq<Action>, sweeping: bool, key: Client, start: Time): nat
    requires c.Ok()
    decreases |trace|
  {
    if trace == [] then 0
    else
      var next := Step(c, rows, trace[0], sweeping);
      (if trace[0].Take? && trace[0].key == key && next[key].start == start
          && TakeAnswer(c, rows, key, trace[0].now).allowed then 1 else 0)
      + AllowedFor(c, next, trace[1..], sweeping, key, start)
  }

  ghost predicate ClocksAgree(c: Config, skew: nat) {
    forall k :: skew + c.limitOf(k).window <= 2 * c.longest + 1
  }

  /** Sweeping has dropped only rows too old for any clock still to come. */
  predicate Agree(c: Config, rows: Rows, unswept: Rows, latest: Time) {
    && (forall k :: k in rows ==> k in unswept && rows[k] == unswept[k])
    && (forall k :: k in unswept && k !in rows ==> unswept[k].start < latest - 2 * c.longest)
  }

  lemma StepAgrees(c: Config, rows: Rows, unswept: Rows, a: Action, skew: nat, latest: Time)
    requires c.Ok() && ClocksAgree(c, skew) && Agree(c, rows, unswept, latest) && latest - skew <= a.now
    ensures Agree(c, Step(c, rows, a, true), Step(c, unswept, a, false), Max(latest, a.now))
    ensures a.Take? ==> TakeAnswer(c, rows, a.key, a.now) == TakeAnswer(c, unswept, a.key, a.now)
    ensures a.Take? ==> Step(c, rows, a, true)[a.key] == Step(c, unswept, a, false)[a.key]
  {
    if a.Take? {
      var w := c.limitOf(a.key).window;
      assert 0 <= a.now % w < w;
    }
  }

  lemma {:induction false} SweptAgrees(c: Config, rows: Rows, unswept: Rows, trace: seq<Action>, skew: nat,
                                       latest: Time,
                                       key: Client, start: Time)
    requires c.Ok() && ClocksAgree(c, skew) && Agree(c, rows, unswept, latest) && WithinSkew(trace, skew)
    requires forall i :: 0 <= i < |trace| ==> latest - skew <= trace[i].now
    ensures Answers(c, rows, trace, true) == Answers(c, unswept, trace, false)
    ensures AllowedFor(c, rows, trace, true, key, start) == AllowedFor(c, unswept, trace, false, key, start)
    decreases |trace|
  {
    if trace != [] {
      StepAgrees(c, rows, unswept, trace[0], skew, latest);
      var rest := trace[1..];
      forall i | 0 <= i < |rest| ensures Max(latest, trace[0].now) - skew <= rest[i].now {
        assert rest[i] == trace[i + 1];
      }
      assert WithinSkew(rest, skew) by {
        forall i, j | 0 <= i < j < |rest| ensures rest[i].now - skew <= rest[j].now {
          assert rest[i] == trace[i + 1] && rest[j] == trace[j + 1];
        }
      }
      SweptAgrees(c, Step(c, rows, trace[0], true), Step(c, unswept, trace[0], false), rest, skew,
                  Max(latest, trace[0].now), key, start);
    }
  }

  /** While the clocks agree, nobody can tell that rows are swept. */
  lemma SweepingIsUnseen(c: Config, trace: seq<Action>, skew: nat)
    requires c.Ok() && ClocksAgree(c, skew) && WithinSkew(trace, skew)
    ensures Answers(c, map[], trace, true) == Answers(c, map[], trace, false)
  {
    if trace != [] {
      SweptAgrees(c, map[], map[], trace, skew, trace[0].now, "", 0);
    }
  }

  /** A request, a sweep by a replica far ahead, and the request again: the row is
      gone and the count starts over. */
  lemma FarClocksShow(c: Config, key: Client, skew: nat)
    requires c.Ok() && skew + c.limitOf(key).window > 2 * c.longest + 1
    ensures var w := c.limitOf(key).window;
            var trace := [Take(key, w - 1), Sweep(2 * c.longest + 1), Take(key, w - 1)];
            WithinSkew(trace, skew) && Answers(c, map[], trace, true) != Answers(c, map[], trace, false)
  {
    var limit := c.limitOf(key);
    var w := limit.window;
    var take, sweep := Take(key, w - 1), Sweep(2 * c.longest + 1);
    var trace := [take, sweep, take];
    StartOfFirst(limit);
    assert trace[1..] == [sweep, take] && [sweep, take][1..] == [take] && [take][1..] == [];
    var rows := Step(c, map[], take, true);
    assert rows == map[key := Row(0, 1)];
    assert Step(c, rows, sweep, true) == map[];
    assert Answers(c, map[], [take], true) == [Answer(limit, 1, 0)];
    assert Answers(c, rows, [take], false) == [Answer(limit, 2, 0)];
    assert Answers(c, rows, [sweep, take], true) == [Answer(limit, 1, 0)];
    assert Answers(c, rows, [sweep, take], false) == [Answer(limit, 2, 0)];
    assert Answers(c, map[], trace, true)[1] == Answer(limit, 1, 0);
    assert Answers(c, map[], trace, false)[1] == Answer(limit, 2, 0);
  }

  lemma StartOfFirst(limit: Limit)
    requires limit.Ok()
    ensures WindowStart(limit, limit.window - 1) == 0
  {
  }

  /** Sweeping is unseen in every run exactly when the skew and a window fit into
      twice the longest window; clocks within one window of each other do. */
  lemma UnseenExactlyWhileClocksAgree(c: Config, skew: nat)
    requires c.Ok()
    ensures ClocksAgree(c, skew) <==>
              forall trace :: WithinSkew(trace, skew) ==>
                Answers(c, map[], trace, true) == Answers(c, map[], trace, false)
    ensures skew <= c.longest + 1 ==> ClocksAgree(c, skew)
  {
    if ClocksAgree(c, skew) {
      forall trace | WithinSkew(trace, skew) ensures Answers(c, map[], trace, true) == Answers(c, map[], trace, false) {
        SweepingIsUnseen(c, trace, skew);
      }
    } else {
      var key :| skew + c.limitOf(key).window > 2 * c.longest + 1;
      FarClocksShow(c, key, skew);
    }
  }

  // ---- The budget ----

  function Left(limit: Limit, rows: Rows, key: Client, start: Time): int {
    if key !in rows || rows[key].start < start then limit.count
    else if rows[key].start > start then 0
    else limit.count - Min(limit.count, rows[key].count)
  }

  /** Without sweeps a window spends what it has left, and never comes back. */
  lemma {:induction false} WindowSpendsWhatIsLeft(c: Config, rows: Rows, trace: seq<Action>, key: Client, start: Time)
    requires c.Ok() && (forall k :: k in rows ==> rows[k].count >= 1)
    ensures AllowedFor(c, rows, trace, false, key, start) <= Left(c.limitOf(key), rows, key, start)
    decreases |trace|
  {
    if trace != [] {
      WindowSpendsWhatIsLeft(c, Step(c, rows, trace[0], false), trace[1..], key, start);
    }
  }

  /** Sweeping or not, every stored window lets through at most the limit, while
      the clocks agree. */
  lemma OneBudgetForAllReplicas(c: Config, trace: seq<Action>, skew: nat, key: Client, start: Time)
    requires c.Ok() && ClocksAgree(c, skew) && WithinSkew(trace, skew)
    ensures AllowedFor(c, map[], trace, true, key, start) <= c.limitOf(key).count
  {
    if trace != [] {
      SweptAgrees(c, map[], map[], trace, skew, trace[0].now, key, start);
    }
    WindowSpendsWhatIsLeft(c, map[], trace, key, start);
  }

  /** The row stands for one window throughout. */
  ghost predicate StaysAt(c: Config, rows: Rows, trace: seq<Action>, key: Client, start: Time)
    requires c.Ok()
    decreases |trace|
  {
    && key in rows && rows[key].start == start
    && (trace == [] || StaysAt(c, Step(c, rows, trace[0], true), trace[1..], key, start))
  }

  function Takes(trace: seq<Action>, key: Client): nat
    decreases |trace|
  {
    if trace == [] then 0
    else Takes(trace[1..], key) + if trace[0].Take? && trace[0].key == key then 1 else 0
  }

  /** Whatever the clocks, between two changes of the stored start exactly the
      first requests up to the limit get through. */
  lemma {:induction false} BetweenAdvancesIsExact(c: Config, rows: Rows, trace: seq<Action>, key: Client, start: Time)
    requires c.Ok() && StaysAt(c, rows, trace, key, start)
    ensures var limit, n := c.limitOf(key).count, rows[key].count;
            AllowedFor(c, rows, trace, true, key, start) == Min(limit, n + Takes(trace, key)) - Min(limit, n)
    decreases |trace|
  {
    if trace != [] {
      BetweenAdvancesIsExact(c, Step(c, rows, trace[0], true), trace[1..], key, start);
    }
  }

  ghost function After(c: Config, rows: Rows, trace: seq<Action>): Rows
    requires c.Ok()
    decreases |trace|
  {
    if trace == [] then rows else After(c, Step(c, rows, trace[0], true), trace[1..])
  }

  lemma {:induction false} RowCountsTakes(c: Config, rows: Rows, trace: seq<Action>, key: Client, start: Time)
    requires c.Ok() && StaysAt(c, rows, trace, key, start)
    ensures var end := After(c, rows, trace);
            key in end && end[key] == Row(start, rows[key].count + Takes(trace, key))
    decreases |trace|
  {
    if trace != [] { RowCountsTakes(c, Step(c, rows, trace[0], true), trace[1..], key, start); }
  }

  /** The reply, against the requests the stored window has seen: `n` when the row
      was first looked at, and those of the trace. It is allowed while they are
      fewer than the limit, tells what is left of it, and names the end of the
      request's own aligned window. */
  lemma ReplyIsExact(c: Config, rows: Rows, trace: seq<Action>, key: Client, start: Time, now: Time)
    requires c.Ok() && StaysAt(c, rows, trace, key, start) && WindowStart(c.limitOf(key), now) <= start
    ensures var limit, n := c.limitOf(key), rows[key].count + Takes(trace, key);
            var reply := TakeAnswer(c, After(c, rows, trace), key, now);
            && (reply.allowed <==> n < limit.count)
            && reply.remaining == (if n < limit.count then limit.count - n - 1 else 0)
            && now < reply.reset <= now + limit.window && reply.reset % limit.window == 0
  {
    RowCountsTakes(c, rows, trace, key, start);
    AlignedWindow(c.limitOf(key), now);
  }

  /** The first request of a new window is the first of its budget. */
  lemma FirstReplyIsExact(c: Config, rows: Rows, key: Client, now: Time)
    requires c.Ok()
    requires key in rows ==> rows[key].start < WindowStart(c.limitOf(key), now)
    ensures var limit, start := c.limitOf(key), WindowStart(c.limitOf(key), now);
            var reply := TakeAnswer(c, rows, key, now);
            && Step(c, rows, Take(key, now), true)[key] == Row(start, 1)
            && reply.allowed && reply.remaining == limit.count - 1
            && now < reply.reset <= now + limit.window && reply.reset % limit.window == 0
            && start <= now < start + limit.window
  {
    AlignedWindow(c.limitOf(key), now);
  }

  lemma AlignedWindow(limit: Limit, now: Time)
    requires limit.Ok()
    ensures var start := WindowStart(limit, now);
            && start <= now < start + limit.window && start % limit.window == 0
            && (start + limit.window) % limit.window == 0
  {
    var w, q := limit.window, now / limit.window;
    assert now == q * w + now % w;
    MultiplesDivide(q, w);
    MultiplesDivide(q + 1, w);
    assert WindowStart(limit, now) == q * w;
    assert q * w + w == (q + 1) * w;
  }

  lemma MultiplesDivide(q: int, w: int)
    requires w > 0
    ensures (q * w) % w == 0
  {
    var r := (q * w) % w;
    assert q * w == ((q * w) / w) * w + r && 0 <= r < w;
    var d := q - (q * w) / w;
    assert d * w == r;
    ProductsAreFar(d, w);
  }

  lemma ProductsAreFar(d: int, w: int)
    requires w > 0
    ensures (d >= 1 ==> d * w >= w) && (d <= -1 ==> d * w <= -w)
  {
  }
}
