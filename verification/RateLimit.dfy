/** The in-memory limiter (ratelimit/ratelimit.go): a fixed window per key that
    starts with the key's first request. Times are counted in nanoseconds. */
module RateLimit {
  import opened Wrappers

  type Client = string
  type Time = int

  /** ParseLimit accepts positive numbers only. */
  datatype Limit = Limit(count: int, window: int) {
    predicate Ok() { count > 0 && window > 0 }
  }

  datatype Entry = Entry(start: Time, count: int)

  datatype Decision = Decision(allowed: bool, remaining: int, reset: Time)

  // ---- A limiter that never sweeps ----

  predicate Expired(limit: Limit, e: Entry, now: Time) {
    now - e.start >= limit.window
  }

  /** The window a request falls in. */
  function Current(limit: Limit, entries: map<Client, Entry>, key: Client, now: Time): Entry {
    if key in entries && !Expired(limit, entries[key], now) then entries[key] else Entry(now, 0)
  }

  predicate Allows(limit: Limit, entries: map<Client, Entry>, key: Client, now: Time) {
    Current(limit, entries, key, now).count < limit.count
  }

  function Charged(limit: Limit, entries: map<Client, Entry>, key: Client, now: Time): Entry {
    var e := Current(limit, entries, key, now);
    if e.count < limit.count then Entry(e.start, e.count + 1) else e
  }

  function Taken(limit: Limit, entries: map<Client, Entry>, key: Client, now: Time): map<Client, Entry> {
    entries[key := Charged(limit, entries, key, now)]
  }

  function Decide(limit: Limit, entries: map<Client, Entry>, key: Client, now: Time): Decision {
    var e := Charged(limit, entries, key, now);
    Decision(Allows(limit, entries, key, now), Max(0, limit.count - e.count), e.start + limit.window)
  }

  // ---- The limiter itself ----

  /** What a limiter without sweeps holds besides has run out. */
  predicate Shadows(limit: Limit, entries: map<Client, Entry>, unswept: map<Client, Entry>, clock: Time) {
    && (forall k :: k in entries ==> k in unswept && entries[k] == unswept[k])
    && (forall k :: k in unswept && k !in entries ==> Expired(limit, unswept[k], clock))
  }

  lemma TimePasses(limit: Limit, entries: map<Client, Entry>, unswept: map<Client, Entry>, clock: Time, now: Time)
    requires Shadows(limit, entries, unswept, clock) && clock <= now
    ensures Shadows(limit, entries, unswept, now)
  {
  }

  /** So it decides alike, and goes on shadowing. */
  lemma ShadowsOn(limit: Limit, entries: map<Client, Entry>, unswept: map<Client, Entry>, now: Time, key: Client,
                  e: Entry)
    requires Shadows(limit, entries, unswept, now)
    ensures Current(limit, unswept, key, now) == Current(limit, entries, key, now)
    ensures Shadows(limit, entries[key := e], unswept[key := e], now)
  {
  }

  /** Nothing is kept that had run out at the last sweep. */
  predicate Swept(limit: Limit, entries: map<Client, Entry>, lastSweep: Option<Time>, clock: Time) {
    match lastSweep
    case None => entries == map[]
    case Some(t) => t <= clock && forall k :: k in entries ==> entries[k].start > t - limit.window
  }

  lemma StaysSwept(limit: Limit, entries: map<Client, Entry>, lastSweep: Time, now: Time, key: Client)
    requires limit.Ok() && Swept(limit, entries, Some(lastSweep), now) && now - lastSweep < limit.window
    ensures var taken := Taken(limit, entries, key, now);
            && Swept(limit, taken, Some(lastSweep), now)
            && forall k :: k in taken ==> taken[k].start > now - 2 * limit.window
  {
  }

  class Limiter {
    const limit: Limit
    var entries: map<Client, Entry>
    /** None before the first request: the zero time is further back than any window. */
    var lastSweep: Option<Time>
    /** What a limiter without sweeps would hold by now. */
    ghost var unswept: map<Client, Entry>
    ghost var clock: Time

    ghost predicate Valid() reads this {
      && limit.Ok()
      && Shadows(limit, entries, unswept, clock)
      && Swept(limit, entries, lastSweep, clock)
    }

    constructor (limit: Limit, ghost clock: Time)
      requires limit.Ok()
      ensures Valid() && this.limit == limit && unswept == map[] && this.clock == clock
    {
      this.limit, entries, lastSweep := limit, map[], None;
      unswept, this.clock := map[], clock;
    }

    /** One request. While the clock does not run back, the answer is that of a
        limiter that never sweeps, and yet nothing is kept that began two windows
        ago or earlier. */
    method Take(key: Client, now: Time) returns (d: Decision)
      requires Valid() && clock <= now
      modifies this
      ensures Valid() && clock == now
      ensures d == Decide(limit, old(unswept), key, now)
      ensures unswept == Taken(limit, old(unswept), key, now)
      ensures forall k :: k in entries ==> entries[k].start > now - 2 * limit.window
    {
      TimePasses(limit, entries, unswept, clock, now);
      clock := now;
      if lastSweep.None? || now - lastSweep.value >= limit.window { Sweep(now); }
      var e: Entry;
      if key !in entries || now - entries[key].start >= limit.window {
        e := Entry(now, 0);
      } else {
        e := entries[key];
      }
      var allowed := e.count < limit.count;
      if allowed { e := Entry(e.start, e.count + 1); }
      ShadowsOn(limit, entries, unswept, now, key, e);
      StaysSwept(limit, entries, lastSweep.value, now, key);
      hide Shadows, Swept;
      unswept := Taken(limit, unswept, key, now);
      entries := entries[key := e];
      d := Decision(allowed, Max(0, limit.count - e.count), e.start + limit.window);
    }

    /** Drops what has run out, and only that. */
    method Sweep(now: Time)
      requires Valid() && clock <= now
      modifies this`entries, this`lastSweep, this`clock
      ensures Valid() && clock == now && lastSweep == Some(now)
      ensures forall k :: k in entries <==> k in old(entries) && !Expired(limit, old(entries)[k], now)
      ensures forall k :: k in entries ==> entries[k] == old(entries)[k]
    {
      clock := now;
      var left := entries.Keys;
      var before := entries;
      while left != {}
        invariant left <= before.Keys && clock == now && unswept == old(unswept)
        invariant entries.Keys <= before.Keys && forall k :: k in entries ==> entries[k] == before[k]
        invariant forall k :: k in left ==> k in entries
        invariant forall k :: k in before && k !in left ==> (k in entries <==> !Expired(limit, before[k], now))
      {
        var k :| k in left;
        if now - entries[k].start >= limit.window { entries := entries - {k}; }
        left := left - {k};
      }
      lastSweep := Some(now);
    }
  }

  /** What a missing entry changes: the answer differs exactly when the entry had
      not run out yet, which is why the clock must not run back. */
  lemma MissingEntryShows(limit: Limit, entries: map<Client, Entry>, unswept: map<Client, Entry>, key: Client,
                          now: Time)
    requires limit.Ok() && (forall k :: k in unswept ==> unswept[k].count > 0)
    requires forall k :: k in entries ==> k in unswept && entries[k] == unswept[k]
    ensures Decide(limit, entries, key, now) == Decide(limit, unswept, key, now)
            <==> key in entries || key !in unswept || Expired(limit, unswept[key], now)
  {
  }

  // ---- How many requests get through ----

  datatype Request = Request(key: Client, now: Time)

  predicate Monotone(rs: seq<Request>) {
    forall i, j :: 0 <= i < j < |rs| ==> rs[i].now <= rs[j].now
  }

  /** The limiter after the requests. */
  function After(limit: Limit, rs: seq<Request>): map<Client, Entry>
    decreases |rs|
  {
    if rs == [] then map[]
    else
      var r := rs[|rs| - 1];
      Taken(limit, After(limit, rs[..|rs| - 1]), r.key, r.now)
  }

  /** How many requests of the key in [from, to) were allowed. */
  function AllowedIn(limit: Limit, rs: seq<Request>, key: Client, from: Time, to: Time): nat
    decreases |rs|
  {
    if rs == [] then 0
    else
      var front, r := rs[..|rs| - 1], rs[|rs| - 1];
      AllowedIn(limit, front, key, from, to)
      + if r.key == key && from <= r.now < to && Allows(limit, After(limit, front), key, r.now) then 1 else 0
  }

  lemma {:induction false} NarrowerIsFewer(limit: Limit, rs: seq<Request>, key: Client, a: Time, b: Time, from: Time,
                                           to: Time)
    requires from <= a && b <= to
    ensures AllowedIn(limit, rs, key, a, b) <= AllowedIn(limit, rs, key, from, to)
    decreases |rs|
  {
    if rs != [] { NarrowerIsFewer(limit, rs[..|rs| - 1], key, a, b, from, to); }
  }

  lemma {:induction false} SplitAt(limit: Limit, rs: seq<Request>, key: Client, a: Time, m: Time, b: Time)
    requires a <= m <= b
    ensures AllowedIn(limit, rs, key, a, b) == AllowedIn(limit, rs, key, a, m) + AllowedIn(limit, rs, key, m, b)
    decreases |rs|
  {
    if rs != [] { SplitAt(limit, rs[..|rs| - 1], key, a, m, b); }
  }

  lemma {:induction false} EmptyInterval(limit: Limit, rs: seq<Request>, key: Client, a: Time, b: Time)
    requires b <= a
    ensures AllowedIn(limit, rs, key, a, b) == 0
    decreases |rs|
  {
    if rs != [] { EmptyInterval(limit, rs[..|rs| - 1], key, a, b); }
  }

  lemma {:induction false} NothingLater(limit: Limit, rs: seq<Request>, key: Client, a: Time, b: Time)
    requires Monotone(rs) && (rs == [] || rs[|rs| - 1].now < a)
    ensures AllowedIn(limit, rs, key, a, b) == 0
    decreases |rs|
  {
    if rs != [] { NothingLater(limit, rs[..|rs| - 1], key, a, b); }
  }

  lemma {:induction false} NoEntryNoRequest(limit: Limit, rs: seq<Request>, key: Client, a: Time, b: Time)
    requires key !in After(limit, rs)
    ensures AllowedIn(limit, rs, key, a, b) == 0
    decreases |rs|
  {
    if rs != [] { NoEntryNoRequest(limit, rs[..|rs| - 1], key, a, b); }
  }

  /** How the last request counts. */
  lemma LastCounts(limit: Limit, rs: seq<Request>, key: Client)
    requires rs != []
    ensures var front, r := rs[..|rs| - 1], rs[|rs| - 1];
            && After(limit, rs) == Taken(limit, After(limit, front), r.key, r.now)
            && forall a, b :: AllowedIn(limit, rs, key, a, b) ==
                 AllowedIn(limit, front, key, a, b)
                 + if r.key == key && a <= r.now < b && Allows(limit, After(limit, front), key, r.now) then 1 else 0
  {
    hide Allows;
  }

  /** The entry's count is what its window has let through; the first request of
      a window is one of them, nothing is later than the window, and the stretch
      of a window's length before it has let through less than the limit. */
  ghost predicate EntryOk(limit: Limit, rs: seq<Request>, key: Client) {
    key in After(limit, rs) ==>
      var e := After(limit, rs)[key];
      && 1 <= e.count <= limit.count
      && (forall a, b :: a == e.start && b >= e.start + limit.window ==> AllowedIn(limit, rs, key, a, b) == e.count)
      && (forall a, b :: a > e.start ==> AllowedIn(limit, rs, key, a, b) <= e.count - 1)
      && (forall a, b :: a >= e.start + limit.window ==> AllowedIn(limit, rs, key, a, b) == 0)
      && (forall a, b :: a > e.start - limit.window && b == e.start ==>
            AllowedIn(limit, rs, key, a, b) <= limit.count - 1)
  }

  lemma {:induction false} EntryStaysOk(limit: Limit, rs: seq<Request>, key: Client)
    requires limit.Ok() && Monotone(rs)
    ensures EntryOk(limit, rs, key)
    decreases |rs|
  {
    if rs != [] {
      var front, r := rs[..|rs| - 1], rs[|rs| - 1];
      EntryStaysOk(limit, front, key);
      LastCounts(limit, rs, key);
      hide After, AllowedIn;
      if r.key != key {
        assert key in After(limit, rs) ==> After(limit, rs)[key] == After(limit, front)[key];
      } else if key in After(limit, front) && !Expired(limit, After(limit, front)[key], r.now) {
        SameWindow(limit, rs, key);
      } else {
        NewWindow(limit, rs, key);
      }
    }
  }

  lemma EntryNotAfter(limit: Limit, rs: seq<Request>, key: Client)
    requires Monotone(rs) && rs != [] && key in After(limit, rs[..|rs| - 1])
    ensures After(limit, rs[..|rs| - 1])[key].start <= rs[|rs| - 1].now
  {
    EntryWasRequested(limit, rs[..|rs| - 1], key);
  }

  lemma {:induction false} EntryWasRequested(limit: Limit, rs: seq<Request>, key: Client)
    requires key in After(limit, rs)
    ensures exists i :: 0 <= i < |rs| && rs[i].now == After(limit, rs)[key].start
    decreases |rs|
  {
    var front, r := rs[..|rs| - 1], rs[|rs| - 1];
    if key in After(limit, front) {
      EntryWasRequested(limit, front, key);
      var i :| 0 <= i < |front| && front[i].now == After(limit, front)[key].start;
      assert rs[i] == front[i];
    }
    assert rs[|rs| - 1].now == r.now;
  }

  lemma SameWindow(limit: Limit, rs: seq<Request>, key: Client)
    requires limit.Ok() && Monotone(rs) && rs != [] && rs[|rs| - 1].key == key
    requires EntryOk(limit, rs[..|rs| - 1], key)
    requires key in After(limit, rs[..|rs| - 1])
    requires !Expired(limit, After(limit, rs[..|rs| - 1])[key], rs[|rs| - 1].now)
    ensures EntryOk(limit, rs, key)
  {
    LastCounts(limit, rs, key);
    EntryNotAfter(limit, rs, key);
    hide After, AllowedIn;
  }

  lemma NewWindow(limit: Limit, rs: seq<Request>, key: Client)
    requires limit.Ok() && Monotone(rs) && rs != [] && rs[|rs| - 1].key == key
    requires EntryOk(limit, rs[..|rs| - 1], key)
    requires key in After(limit, rs[..|rs| - 1]) ==> Expired(limit, After(limit, rs[..|rs| - 1])[key], rs[|rs| - 1].now)
    ensures EntryOk(limit, rs, key)
  {
    LastCounts(limit, rs, key);
    var front := rs[..|rs| - 1];
    if key !in After(limit, front) {
      forall a, b ensures AllowedIn(limit, front, key, a, b) == 0 {
        NoEntryNoRequest(limit, front, key, a, b);
      }
    }
    hide After, AllowedIn;
  }

  /** Each window lets through at most the limit, and a request is refused only
      when its window has let through exactly the limit. The answer tells what is
      left of it afterwards, and when it ends. */
  lemma WindowIsExact(limit: Limit, rs: seq<Request>, key: Client, now: Time)
    requires limit.Ok() && Monotone(rs + [Request(key, now)])
    ensures var e := Current(limit, After(limit, rs), key, now);
            var n := AllowedIn(limit, rs, key, e.start, e.start + limit.window);
            && e.start <= now < e.start + limit.window
            && n <= limit.count
            && Decide(limit, After(limit, rs), key, now) ==
                 Decision(n < limit.count, limit.count - n - (if n < limit.count then 1 else 0), e.start + limit.window)
  {
    var all := rs + [Request(key, now)];
    assert all[..|all| - 1] == rs;
    EntryStaysOk(limit, rs, key);
    if key !in After(limit, rs) {
      NoEntryNoRequest(limit, rs, key, now, now + limit.window);
    } else {
      EntryNotAfter(limit, all, key);
    }
    hide After, AllowedIn;
  }

  /** In any stretch of a window's length, wherever it starts, fewer than twice
      the limit get through. */
  lemma {:induction false} BelowTwiceTheLimit(limit: Limit, rs: seq<Request>, key: Client, from: Time)
    requires limit.Ok() && Monotone(rs)
    ensures AllowedIn(limit, rs, key, from, from + limit.window) <= 2 * limit.count - 1
    decreases |rs|
  {
    var to := from + limit.window;
    if rs != [] {
      var front, r := rs[..|rs| - 1], rs[|rs| - 1];
      BelowTwiceTheLimit(limit, front, key, from);
      EntryStaysOk(limit, rs, key);
      LastCounts(limit, rs, key);
      if r.key == key && from <= r.now < to {
        var start := After(limit, rs)[key].start;
        LastWindow(limit, rs, key);
        if from <= start {
          SplitAt(limit, rs, key, from, start, to);
          NarrowerIsFewer(limit, rs, key, start, to, start, start + limit.window + limit.window);
        }
      }
    }
  }

  lemma LastWindow(limit: Limit, rs: seq<Request>, key: Client)
    requires limit.Ok() && Monotone(rs) && rs != [] && rs[|rs| - 1].key == key
    ensures key in After(limit, rs)
    ensures var start := After(limit, rs)[key].start; start <= rs[|rs| - 1].now < start + limit.window
  {
    if key in After(limit, rs[..|rs| - 1]) { EntryNotAfter(limit, rs, key); }
  }

  // ---- The bound is reached ----

  function Burst(key: Client, now: Time, n: nat): seq<Request> {
    seq(n, _ => Request(key, now))
  }

  lemma {:induction false} BurstGetsThrough(limit: Limit, rs: seq<Request>, key: Client, now: Time, n: nat, a: Time,
                                            b: Time)
    requires limit.Ok() && n > 0 && Current(limit, After(limit, rs), key, now).count + n <= limit.count
    ensures var e, all := Current(limit, After(limit, rs), key, now), rs + Burst(key, now, n);
            && key in After(limit, all) && After(limit, all)[key] == Entry(e.start, e.count + n)
            && AllowedIn(limit, all, key, a, b) == AllowedIn(limit, rs, key, a, b) + if a <= now < b then n else 0
    decreases n
  {
    var all := rs + Burst(key, now, n);
    assert all[..|all| - 1] == rs + Burst(key, now, n - 1) && all[|all| - 1] == Request(key, now);
    LastCounts(limit, all, key);
    hide After, AllowedIn, Taken, Allows, Current, Burst;
    var before := rs + Burst(key, now, n - 1);
    if n == 1 {
      NoBurst(rs, key, now);
    } else {
      BurstGetsThrough(limit, rs, key, now, n - 1, a, b);
      CurrentIsKept(limit, After(limit, rs), After(limit, before), key, now);
    }
    OneMoreGetsThrough(limit, After(limit, before), key, now);
  }

  lemma NoBurst(rs: seq<Request>, key: Client, now: Time)
    ensures rs + Burst(key, now, 0) == rs
  {
  }

  lemma OneMoreGetsThrough(limit: Limit, entries: map<Client, Entry>, key: Client, now: Time)
    requires Current(limit, entries, key, now).count < limit.count
    ensures var e := Current(limit, entries, key, now);
            && Allows(limit, entries, key, now)
            && key in Taken(limit, entries, key, now)
            && Taken(limit, entries, key, now)[key] == Entry(e.start, e.count + 1)
  {
  }

  lemma CurrentIsKept(limit: Limit, before: map<Client, Entry>, after: map<Client, Entry>, key: Client, now: Time)
    requires limit.Ok() && key in after && after[key].start == Current(limit, before, key, now).start
    ensures Current(limit, after, key, now) == after[key]
  {
  }

  /** One request less than twice the limit does get through: one opens a window,
      the rest of it comes at its end, and the next window's all at once. */
  lemma BoundIsReached(limit: Limit, key: Client) returns (rs: seq<Request>)
    requires limit.Ok() && limit.window > 1
    ensures Monotone(rs) && AllowedIn(limit, rs, key, 1, 1 + limit.window) == 2 * limit.count - 1
  {
    assert AllowedIn(limit, [], key, 1, 1 + limit.window) == 0 && After(limit, []) == map[];
    hide After, AllowedIn, Monotone, Burst;
    var w, c := limit.window, limit.count;
    rs := [];
    BurstIsMonotone(rs, key, 0, 1);
    BurstGetsThrough(limit, rs, key, 0, 1, 1, 1 + w);
    rs := rs + Burst(key, 0, 1);
    if c > 1 {
      BurstIsMonotone(rs, key, w - 1, c - 1);
      BurstGetsThrough(limit, rs, key, w - 1, c - 1, 1, 1 + w);
      rs := rs + Burst(key, w - 1, c - 1);
    }
    BurstIsMonotone(rs, key, w, c);
    BurstGetsThrough(limit, rs, key, w, c, 1, 1 + w);
    rs := rs + Burst(key, w, c);
  }

  lemma BurstIsMonotone(rs: seq<Request>, key: Client, now: Time, n: nat)
    requires n > 0 && (rs != [] ==> Monotone(rs) && rs[|rs| - 1].now <= now)
    ensures var all := rs + Burst(key, now, n); all != [] && Monotone(all) && all[|all| - 1].now == now
  {
  }

  // ---- The limiter at work ----

  /** How many of the answers let a request of the key in [from, to) through. */
  function Granted(rs: seq<Request>, answers: seq<bool>, key: Client, from: Time, to: Time): nat
    requires |answers| == |rs|
    decreases |rs|
  {
    if rs == [] then 0
    else
      var n, r := |rs| - 1, rs[|rs| - 1];
      Granted(rs[..n], answers[..n], key, from, to)
      + if r.key == key && from <= r.now < to && answers[n] then 1 else 0
  }

  predicate AnsweredAs(limit: Limit, rs: seq<Request>, answers: seq<bool>) {
    && |answers| == |rs|
    && forall i :: 0 <= i < |rs| ==> answers[i] == Allows(limit, After(limit, rs[..i]), rs[i].key, rs[i].now)
  }

  lemma {:induction false} GrantedIsAllowed(limit: Limit, rs: seq<Request>, answers: seq<bool>, key: Client,
                                            from: Time, to: Time)
    requires AnsweredAs(limit, rs, answers)
    ensures Granted(rs, answers, key, from, to) == AllowedIn(limit, rs, key, from, to)
    decreases |rs|
  {
    if rs != [] {
      var n := |rs| - 1;
      FrontAnswered(limit, rs, answers);
      hide AnsweredAs, After, Allows;
      GrantedIsAllowed(limit, rs[..n], answers[..n], key, from, to);
    }
  }

  lemma FrontAnswered(limit: Limit, rs: seq<Request>, answers: seq<bool>)
    requires rs != [] && AnsweredAs(limit, rs, answers)
    ensures var n, r := |rs| - 1, rs[|rs| - 1];
            && AnsweredAs(limit, rs[..n], answers[..n])
            && answers[n] == Allows(limit, After(limit, rs[..n]), r.key, r.now)
  {
    hide After, Allows;
    var n := |rs| - 1;
    forall i | 0 <= i < n
      ensures answers[..n][i] == Allows(limit, After(limit, rs[..n][..i]), rs[..n][i].key, rs[..n][i].now)
    {
      assert rs[..n][..i] == rs[..i];
    }
  }

  /** A new limiter, run over any requests on a clock that does not run back. What
      it lets through is what the counts above speak of; so a stretch of a
      window's length never sees twice the limit. */
  method Answer(limit: Limit, rs: seq<Request>) returns (answers: seq<bool>)
    requires limit.Ok() && Monotone(rs)
    ensures |answers| == |rs|
    ensures forall key, from, to :: Granted(rs, answers, key, from, to) == AllowedIn(limit, rs, key, from, to)
    ensures forall key, from, to :: to == from + limit.window ==>
              Granted(rs, answers, key, from, to) <= 2 * limit.count - 1
  {
    hide Allows, Taken, Decide, Granted, AllowedIn;
    answers := [];
    var limiter := new Limiter(limit, if rs == [] then 0 else rs[0].now);
    for i := 0 to |rs|
      invariant fresh(limiter) && limiter.Valid() && limiter.limit == limit
      invariant limiter.unswept == After(limit, rs[..i]) && (i < |rs| ==> limiter.clock <= rs[i].now)
      invariant AnsweredAs(limit, rs[..i], answers)
    {
      AnswersSnoc(limit, rs, i, answers);
      var d := limiter.Take(rs[i].key, rs[i].now);
      answers := answers + [d.allowed];
    }
    assert rs[..|rs|] == rs;
    forall key, from, to
      ensures Granted(rs, answers, key, from, to) == AllowedIn(limit, rs, key, from, to)
      ensures to == from + limit.window ==> AllowedIn(limit, rs, key, from, to) <= 2 * limit.count - 1
    {
      GrantedIsAllowed(limit, rs, answers, key, from, to);
      BelowTwiceTheLimit(limit, rs, key, from);
    }
  }

  lemma AnswersSnoc(limit: Limit, rs: seq<Request>, i: nat, answers: seq<bool>)
    requires i < |rs| && AnsweredAs(limit, rs[..i], answers)
    ensures var before, r := After(limit, rs[..i]), rs[i];
            && After(limit, rs[..i + 1]) == Taken(limit, before, r.key, r.now)
            && Decide(limit, before, r.key, r.now).allowed == Allows(limit, before, r.key, r.now)
            && AnsweredAs(limit, rs[..i + 1], answers + [Allows(limit, before, r.key, r.now)])
  {
    AfterSnoc(limit, rs, i);
    AnsweredSnoc(limit, rs, i, answers);
    hide After, Taken, AnsweredAs;
  }

  lemma AfterSnoc(limit: Limit, rs: seq<Request>, i: nat)
    requires i < |rs|
    ensures After(limit, rs[..i + 1]) == Taken(limit, After(limit, rs[..i]), rs[i].key, rs[i].now)
  {
    hide Taken;
    assert rs[..i + 1][..i] == rs[..i];
  }

  lemma AnsweredSnoc(limit: Limit, rs: seq<Request>, i: nat, answers: seq<bool>)
    requires i < |rs| && AnsweredAs(limit, rs[..i], answers)
    ensures AnsweredAs(limit, rs[..i + 1], answers + [Allows(limit, After(limit, rs[..i]), rs[i].key, rs[i].now)])
  {
    hide After, Allows;
    var next, all := rs[..i + 1], answers + [Allows(limit, After(limit, rs[..i]), rs[i].key, rs[i].now)];
    forall j | 0 <= j < |next| ensures all[j] == Allows(limit, After(limit, next[..j]), next[j].key, next[j].now) {
      if j < i {
        assert next[..j] == rs[..i][..j] && next[j] == rs[..i][j] && all[j] == answers[j];
      } else {
        assert next[..j] == rs[..i];
      }
    }
  }
}
