/** The traffic counter (traffic/traffic.go): requests add to the pending buckets;
    a flush swaps them out, hands them to the sink, and merges them back when the
    sink fails. The counter's lock makes `Add`, `Swap`, `Persist` and `MergeBack`
    one step each; any number of flushes may be between their `Swap` and their
    end, while requests go on adding. The sink takes a batch whole or not at all. */
module Traffic {

  type Repo = nat
  type Day = nat

  /** The empty repository id. */
  const NO_REPO: Repo := 0

  datatype Key = Key(repo: Repo, day: Day)

  datatype Amount = Amount(pullBytes: int, pushBytes: int, redirectBytes: int, blobPulls: int, manifestPulls: int)

  const ZERO := Amount(0, 0, 0, 0, 0)

  function Plus(a: Amount, b: Amount): Amount {
    Amount(a.pullBytes + b.pullBytes, a.pushBytes + b.pushBytes, a.redirectBytes + b.redirectBytes,
           a.blobPulls + b.blobPulls, a.manifestPulls + b.manifestPulls)
  }

  lemma PlusSwaps(a: Amount, b: Amount, c: Amount)
    ensures Plus(a, Plus(b, c)) == Plus(b, Plus(a, c)) && Plus(Plus(a, b), c) == Plus(a, Plus(b, c))
    ensures Plus(a, b) == Plus(b, a) && Plus(ZERO, a) == a
  {
  }

  lemma PlusMoves(a: Amount, b: Amount, c: Amount)
    ensures Plus(Plus(a, b), c) == Plus(Plus(a, c), b)
  {
  }

  function At<K>(b: map<K, Amount>, k: K): Amount {
    if k in b then b[k] else ZERO
  }

  /** A bucket in the hands of a running flush. */
  datatype Slot = Slot(flight: nat, key: Key)

  /** What all batches in flight hold for the key. */
  ghost function InFlight(flights: set<nat>, held: map<Slot, Amount>, k: Key): Amount {
    if flights == {} then ZERO
    else var f :| f in flights; Plus(At(held, Slot(f, k)), InFlight(flights - {f}, held, k))
  }

  lemma {:induction false} InFlightSplits(flights: set<nat>, held: map<Slot, Amount>, f: nat, k: Key)
    requires f in flights
    ensures InFlight(flights, held, k) == Plus(At(held, Slot(f, k)), InFlight(flights - {f}, held, k))
    decreases flights
  {
    hide Plus, At;
    var g :| g in flights
      && InFlight(flights, held, k) == Plus(At(held, Slot(g, k)), InFlight(flights - {g}, held, k));
    if g != f {
      InFlightSplits(flights - {g}, held, f, k);
      InFlightSplits(flights - {f}, held, g, k);
      assert flights - {g} - {f} == flights - {f} - {g};
      PlusSwaps(At(held, Slot(f, k)), At(held, Slot(g, k)), InFlight(flights - {g} - {f}, held, k));
    }
  }

  lemma {:induction false} InFlightReadsItsKey(flights: set<nat>, a: map<Slot, Amount>, b: map<Slot, Amount>, k: Key)
    requires forall f :: f in flights ==> At(a, Slot(f, k)) == At(b, Slot(f, k))
    ensures InFlight(flights, a, k) == InFlight(flights, b, k)
    decreases flights
  {
    if flights != {} {
      hide Plus, At;
      var f :| f in flights;
      InFlightSplits(flights, a, f, k);
      InFlightSplits(flights, b, f, k);
      InFlightReadsItsKey(flights - {f}, a, b, k);
    }
  }

  // ---- The protocol, on amounts ----

  /** `flights` are the running flushes, `held` is what they hold. */
  datatype Books = Books(
    stored: map<Key, Amount>, pending: map<Key, Amount>, flights: set<nat>, held: map<Slot, Amount>)

  const NOTHING := Books(map[], map[], {}, map[])

  datatype Action =
    | Add(key: Key, amount: Amount)
    | Swap(flight: nat)
    | Persist(flight: nat)
    | MergeBack(flight: nat)

  /** The two maps, bucket by bucket. */
  function Sums(a: map<Key, Amount>, b: map<Key, Amount>): map<Key, Amount> {
    map k | k in a.Keys + b.Keys :: Plus(At(a, k), At(b, k))
  }

  function BatchOf(held: map<Slot, Amount>, f: nat): map<Key, Amount> {
    var keys := set s | s in held && s.flight == f :: s.key;
    map k | k in keys :: held[Slot(f, k)]
  }

  function Landed(held: map<Slot, Amount>, f: nat): map<Slot, Amount> {
    map s | s in held && s.flight != f :: held[s]
  }

  function TakenUp(held: map<Slot, Amount>, f: nat, pending: map<Key, Amount>): map<Slot, Amount> {
    var slots := set k | k in pending :: Slot(f, k);
    held + map s | s in slots :: pending[s.key]
  }

  function Step(b: Books, a: Action): Books {
    match a
    case Add(k, d) =>
      if k.repo == NO_REPO || d == ZERO then b
      else b.(pending := Sums(b.pending, map[k := d]))
    case Swap(f) =>
      if f in b.flights then b
      else b.(pending := map[], flights := b.flights + {f}, held := TakenUp(b.held, f, b.pending))
    case Persist(f) =>
      if f !in b.flights then b
      else b.(stored := Sums(b.stored, BatchOf(b.held, f)), flights := b.flights - {f}, held := Landed(b.held, f))
    case MergeBack(f) =>
      if f !in b.flights then b
      else b.(pending := Sums(b.pending, BatchOf(b.held, f)), flights := b.flights - {f}, held := Landed(b.held, f))
  }

  function Run(b: Books, trace: seq<Action>): Books
    decreases |trace|
  {
    if trace == [] then b else Run(Step(b, trace[0]), trace[1..])
  }

  /** What is there of a bucket, wherever it is. */
  ghost function Total(b: Books, k: Key): Amount {
    Plus(At(b.pending, k), Plus(InFlight(b.flights, b.held, k), At(b.stored, k)))
  }

  /** What is held, a running flush holds. */
  predicate WellHeld(b: Books) {
    forall s :: s in b.held ==> s.flight in b.flights
  }

  // ---- What has been added, read off the requests alone ----

  datatype Field = PullBytes | PushBytes | RedirectBytes | BlobPulls | ManifestPulls

  function Get(a: Amount, f: Field): int {
    match f
    case PullBytes => a.pullBytes
    case PushBytes => a.pushBytes
    case RedirectBytes => a.redirectBytes
    case BlobPulls => a.blobPulls
    case ManifestPulls => a.manifestPulls
  }

  function AddedBy(a: Action, k: Key, f: Field): int {
    if a.Add? && a.key == k && k.repo != NO_REPO then Get(a.amount, f) else 0
  }

  function Added(trace: seq<Action>, k: Key, f: Field): int
    decreases |trace|
  {
    if trace == [] then 0 else AddedBy(trace[0], k, f) + Added(trace[1..], k, f)
  }

  lemma PlusAddsEach(a: Amount, b: Amount, f: Field)
    ensures Get(Plus(a, b), f) == Get(a, f) + Get(b, f)
    ensures Get(ZERO, f) == 0
  {
  }

  lemma AtSums(a: map<Key, Amount>, b: map<Key, Amount>, k: Key)
    ensures At(Sums(a, b), k) == Plus(At(a, k), At(b, k))
  {
    hide Plus;
    ZeroIsNothing(At(a, k));
    ZeroIsNothing(At(b, k));
  }

  lemma AtBatch(held: map<Slot, Amount>, f: nat, k: Key)
    ensures At(BatchOf(held, f), k) == At(held, Slot(f, k))
  {
    if Slot(f, k) in held { assert Slot(f, k).key == k; }
  }

  lemma AtLanded(held: map<Slot, Amount>, f: nat, g: nat, k: Key)
    ensures At(Landed(held, f), Slot(g, k)) == if g == f then ZERO else At(held, Slot(g, k))
  {
  }

  lemma AtTakenUp(held: map<Slot, Amount>, f: nat, pending: map<Key, Amount>, g: nat, k: Key)
    requires forall s :: s in held ==> s.flight != f
    ensures At(TakenUp(held, f, pending), Slot(g, k)) == if g == f then At(pending, k) else At(held, Slot(g, k))
  {
  }

  lemma AddTotals(b: Books, k: Key, d: Amount, j: Key)
    ensures Total(b.(pending := Sums(b.pending, map[k := d])), j)
         == Plus(Total(b, j), if j == k then d else ZERO)
  {
    hide Sums, InFlight, Plus;
    AtSums(b.pending, map[k := d], j);
    assert At(map[k := d], j) == if j == k then d else ZERO;
    hide At;
    PlusMoves(At(b.pending, j), Plus(InFlight(b.flights, b.held, j), At(b.stored, j)), At(map[k := d], j));
  }

  lemma SwapTotals(b: Books, f: nat, j: Key)
    requires f !in b.flights && WellHeld(b)
    ensures Total(b.(pending := map[], flights := b.flights + {f}, held := TakenUp(b.held, f, b.pending)), j)
         == Total(b, j)
  {
    var held := TakenUp(b.held, f, b.pending);
    assert b.flights + {f} - {f} == b.flights;
    assert At(map[], j) == ZERO;
    hide TakenUp, At, InFlight, Plus;
    InFlightSplits(b.flights + {f}, held, f, j);
    forall g | g in b.flights + {f}
      ensures At(held, Slot(g, j)) == if g == f then At(b.pending, j) else At(b.held, Slot(g, j))
    {
      AtTakenUp(b.held, f, b.pending, g, j);
    }
    InFlightReadsItsKey(b.flights, b.held, held, j);
    PlusSwaps(At(b.pending, j), InFlight(b.flights, b.held, j), At(b.stored, j));
    ZeroIsNothing(Plus(InFlight(b.flights + {f}, held, j), At(b.stored, j)));
  }

  lemma ZeroIsNothing(a: Amount)
    ensures Plus(ZERO, a) == a && Plus(a, ZERO) == a
  {
  }

  lemma LandingFrees(b: Books, f: nat, j: Key)
    requires f in b.flights
    ensures InFlight(b.flights, b.held, j)
         == Plus(At(BatchOf(b.held, f), j), InFlight(b.flights - {f}, Landed(b.held, f), j))
  {
    hide Landed, At, InFlight, Plus, BatchOf;
    InFlightSplits(b.flights, b.held, f, j);
    AtBatch(b.held, f, j);
    forall g | g in b.flights - {f} ensures At(b.held, Slot(g, j)) == At(Landed(b.held, f), Slot(g, j)) {
      AtLanded(b.held, f, g, j);
    }
    InFlightReadsItsKey(b.flights - {f}, b.held, Landed(b.held, f), j);
  }

  lemma LandingTotals(b: Books, f: nat, j: Key)
    requires f in b.flights
    ensures Total(b.(stored := Sums(b.stored, BatchOf(b.held, f)), flights := b.flights - {f},
                     held := Landed(b.held, f)), j) == Total(b, j)
    ensures Total(b.(pending := Sums(b.pending, BatchOf(b.held, f)), flights := b.flights - {f},
                     held := Landed(b.held, f)), j) == Total(b, j)
  {
    hide Landed, At, InFlight, BatchOf, Sums, Plus;
    LandingFrees(b, f, j);
    AtSums(b.stored, BatchOf(b.held, f), j);
    AtSums(b.pending, BatchOf(b.held, f), j);
    PlusRegroups(At(b.pending, j), At(BatchOf(b.held, f), j), InFlight(b.flights - {f}, Landed(b.held, f), j),
                 At(b.stored, j));
  }

  lemma PlusRegroups(p: Amount, x: Amount, r: Amount, s: Amount)
    ensures Plus(p, Plus(Plus(x, r), s)) == Plus(Plus(p, x), Plus(r, s))
    ensures Plus(p, Plus(Plus(x, r), s)) == Plus(p, Plus(r, Plus(s, x)))
  {
  }

  lemma StepKeepsHeld(b: Books, a: Action)
    requires WellHeld(b)
    ensures WellHeld(Step(b, a))
  {
    hide Sums, BatchOf, Plus;
  }

  /** Every step leaves a bucket's total as it is, but for what it adds. */
  lemma StepBalances(b: Books, a: Action, k: Key, f: Field)
    requires WellHeld(b)
    ensures Get(Total(Step(b, a), k), f) == Get(Total(b, k), f) + AddedBy(a, k, f)
  {
    hide Total, Plus, Sums, BatchOf, TakenUp, Landed;
    match a {
      case Add(j, d) =>
        if j.repo != NO_REPO && d != ZERO { AddTotals(b, j, d, k); }
        PlusAddsEach(Total(b, k), if k == j then d else ZERO, f);
      case Swap(g) => if g !in b.flights { SwapTotals(b, g, k); }
      case _ => if a.flight in b.flights { LandingTotals(b, a.flight, k); }
    }
  }

  /** However requests and flushes interleave, what is there of a bucket has grown
      by exactly what the requests added, in each of the five counters. */
  lemma {:induction false} EveryRunBalances(b: Books, trace: seq<Action>, k: Key, f: Field)
    requires WellHeld(b)
    ensures WellHeld(Run(b, trace))
    ensures Get(Total(Run(b, trace), k), f) == Get(Total(b, k), f) + Added(trace, k, f)
    decreases |trace|
  {
    if trace != [] {
      StepBalances(b, trace[0], k, f);
      StepKeepsHeld(b, trace[0]);
      hide Step, WellHeld, Total, Get, AddedBy;
      EveryRunBalances(Step(b, trace[0]), trace[1..], k, f);
    }
  }

  /** Once all flushes have ended and the bucket is not pending, the table holds
      exactly what was added. */
  lemma QuietMeansStored(trace: seq<Action>, k: Key, f: Field)
    requires Run(NOTHING, trace).flights == {} && k !in Run(NOTHING, trace).pending
    ensures Get(At(Run(NOTHING, trace).stored, k), f) == Added(trace, k, f)
  {
    hide Run, Total, Get, Added;
    EveryRunBalances(NOTHING, trace, k, f);
    TotalWhenQuiet(NOTHING, k);
    TotalWhenQuiet(Run(NOTHING, trace), k);
    PlusAddsEach(ZERO, ZERO, f);
  }

  lemma TotalWhenQuiet(b: Books, k: Key)
    requires b.flights == {} && k !in b.pending
    ensures Total(b, k) == At(b.stored, k)
  {
    hide Plus;
    ZeroIsNothing(At(b.stored, k));
    ZeroIsNothing(Plus(ZERO, At(b.stored, k)));
  }

  lemma StepOfFlight(b: Books, f: nat)
    ensures var u := Books(b.stored, map[], b.flights + {f}, TakenUp(b.held, f, b.pending));
            f !in b.flights ==> Step(b, Swap(f)) == u
    ensures var u := b.(stored := Sums(b.stored, BatchOf(b.held, f)), flights := b.flights - {f},
                        held := Landed(b.held, f));
            f in b.flights ==> Step(b, Persist(f)) == u
    ensures var u := b.(pending := Sums(b.pending, BatchOf(b.held, f)), flights := b.flights - {f},
                        held := Landed(b.held, f));
            f in b.flights ==> Step(b, MergeBack(f)) == u
  {
    hide Sums, BatchOf, Landed, TakenUp;
  }

  // ---- The counter itself ----

  class Delta {
    var pullBytes: int
    var pushBytes: int
    var redirectBytes: int
    var blobPulls: int
    var manifestPulls: int

    function Value(): Amount reads this {
      Amount(pullBytes, pushBytes, redirectBytes, blobPulls, manifestPulls)
    }

    constructor ()
      ensures Value() == ZERO
    {
      pullBytes, pushBytes, redirectBytes, blobPulls, manifestPulls := 0, 0, 0, 0, 0;
    }

    method Add(o: Amount)
      modifies this
      ensures Value() == Plus(old(Value()), o)
    {
      pullBytes := pullBytes + o.pullBytes;
      pushBytes := pushBytes + o.pushBytes;
      redirectBytes := redirectBytes + o.redirectBytes;
      blobPulls := blobPulls + o.blobPulls;
      manifestPulls := manifestPulls + o.manifestPulls;
    }
  }

  ghost function Values<K>(batch: map<K, Delta>): map<K, Amount> reads batch.Values {
    map k | k in batch :: batch[k].Value()
  }

  class Counter {
    var pending: map<Key, Delta>
    /** The table behind the sink. */
    var stored: map<Key, Amount>
    ghost var flights: set<nat>
    ghost var held: map<Slot, Delta>

    /** No delta object is in two places. */
    ghost predicate Separate() reads this`pending, this`held {
      && (forall j, k :: j in pending && k in pending && j != k ==> pending[j] != pending[k])
      && (forall s, k :: s in held && k in pending ==> held[s] != pending[k])
      && (forall s, t :: s in held && t in held && s != t ==> held[s] != held[t])
    }

    ghost function Ledger(): Books reads this, pending.Values, held.Values {
      Books(stored, Values(pending), flights, Values(held))
    }

    ghost predicate Valid() reads this, pending.Values, held.Values {
      Separate() && WellHeld(Ledger())
    }

    constructor ()
      ensures Valid() && Ledger() == NOTHING
    {
      pending, stored, flights, held := map[], map[], {}, map[];
    }

    method Add(repo: Repo, day: Day, d: Amount)
      requires Valid()
      modifies this`pending, pending.Values
      ensures Valid()
      ensures Ledger() == Step(old(Ledger()), Action.Add(Key(repo, day), d))
      ensures repo != NO_REPO ==>
                forall f :: Get(At(Values(pending), Key(repo, day)), f)
                         == Get(At(old(Values(pending)), Key(repo, day)), f) + Get(d, f)
      ensures forall j :: j != Key(repo, day) || repo == NO_REPO ==>
                At(Values(pending), j) == At(old(Values(pending)), j)
      ensures stored == old(stored) && flights == old(flights) && held == old(held)
      ensures forall j :: j in pending ==> (j in old(pending) && pending[j] == old(pending)[j]) || fresh(pending[j])
    {
      hide Sums, Separate, At, Plus, Total, InFlight, Get;
      var k := Key(repo, day);
      AmountsAfter(Values(pending), k, d);
      if repo == NO_REPO || d == ZERO { return; }
      StepKeepsHeld(Ledger(), Action.Add(k, d));
      hide WellHeld;
      AddTo(k, d);
    }

    method NewBucket(k: Key)
      requires Separate() && k !in pending
      modifies this`pending
      ensures Separate() && Values(held) == old(Values(held))
      ensures pending.Keys == old(pending).Keys + {k} && fresh(pending[k]) && pending[k].Value() == ZERO
      ensures forall j :: j in old(pending) ==> pending[j] == old(pending)[j]
      ensures Values(pending) == old(Values(pending))[k := ZERO]
    {
      var bucket := new Delta();
      pending := pending[k := bucket];
    }

    /** Into the bucket's own object, made when it is missing. */
    method AddTo(k: Key, d: Amount)
      requires Separate()
      modifies this`pending, pending.Values
      ensures Separate() && Values(held) == old(Values(held))
      ensures Values(pending) == Sums(old(Values(pending)), map[k := d])
      ensures forall j :: j in pending ==> (j in old(pending) && pending[j] == old(pending)[j]) || fresh(pending[j])
    {
      hide Step, WellHeld, Total, Sums, BatchOf, Plus, AsMap, Distinct, Landed, TakenUp, At, InFlight;
      SumsOne(Values(pending), k, d);
      ZeroIsNothing(d);
      hide Separate;
      if k !in pending { NewBucket(k); }
      AddAt(k, d);
    }

    method AddAt(k: Key, d: Amount)
      requires Separate() && k in pending
      modifies pending[k]
      ensures Values(pending) == old(Values(pending)[k := Plus(pending[k].Value(), d)])
      ensures Values(held) == old(Values(held))
    {
      hide Plus;
      pending[k].Add(d);
    }

    /** The flush holds exactly this batch. */
    ghost predicate Carries(f: nat, batch: map<Key, Delta>) reads this {
      && f in flights
      && (forall k :: k in batch <==> Slot(f, k) in held)
      && (forall k :: k in batch ==> held[Slot(f, k)] == batch[k])
    }

    /** Under the lock: the pending buckets change hands. */
    method Swap(ghost f: nat) returns (batch: map<Key, Delta>)
      requires Valid() && f !in flights
      modifies this`pending, this`flights, this`held
      ensures Valid() && Carries(f, batch) && batch == old(pending) && pending == map[]
      ensures stored == old(stored) && flights == old(flights) + {f}
      ensures Ledger() == Step(old(Ledger()), Action.Swap(f))
    {
      hide Step, WellHeld, Total, Sums, BatchOf, Plus, AsMap, Distinct, Landed, TakenUp, At, InFlight, WithBatch;
      StepKeepsHeld(Ledger(), Action.Swap(f));
      NewFlightHasNoSlots(Ledger(), f);
      StepOfFlight(Ledger(), f);
      TakenUpValues(held, f, pending);
      WithBatchIsSeparate(f);
      batch := pending;
      pending, held, flights := map[], WithBatch(held, f, pending), flights + {f};
      assert Values(pending) == map[];
    }

    lemma WithBatchIsSeparate(f: nat)
      requires Separate() && (forall k :: Slot(f, k) !in held)
      ensures var all := WithBatch(held, f, pending);
              && (forall s, t :: s in all && t in all && s != t ==> all[s] != all[t])
              && (forall k :: Slot(f, k) in all <==> k in pending)
              && (forall k :: k in pending ==> all[Slot(f, k)] == pending[k])
    {
      WithBatchAt(held, f, pending);
      hide WithBatch;
    }

    /** The batch as rows for the sink, outside the lock: while it is in flight
        nobody else writes its objects. */
    method Rows(batch: map<Key, Delta>) returns (rows: seq<Row>)
      ensures Distinct(rows) && AsMap(rows) == Values(batch)
    {
      hide Plus, AsMap, Distinct, Except;
      rows := [];
      var left := batch.Keys;
      NoRows();
      ExceptAll(Values(batch));
      assert Values(batch).Keys == left;
      while left != {}
        invariant left <= batch.Keys && Distinct(rows) && AsMap(rows) == Except(Values(batch), left)
      {
        var k :| k in left;
        OneMoreRow(rows, Values(batch), left, k);
        rows := rows + [Row(k, batch[k].Value())];
        left := left - {k};
      }
      assert left == {};
    }

    /** The sink's transaction, when it succeeds: one upsert a row. */
    method Upsert(rows: seq<Row>)
      requires Distinct(rows)
      modifies this`stored
      ensures stored == Sums(old(stored), AsMap(rows))
    {
      hide Sums, AsMap, Distinct, Plus;
      SumsNothing(stored);
      AsMapNothing();
      assert rows[..0] == [];
      for i := 0 to |rows|
        invariant stored == Sums(old(stored), AsMap(rows[..i]))
      {
        SumsOneMore(old(stored), rows, i);
        stored := stored[rows[i].key := Plus(At(stored, rows[i].key), rows[i].amount)];
      }
      assert rows[..|rows|] == rows;
    }

    method Persist(ghost f: nat, rows: seq<Row>)
      requires Valid() && f in flights && Distinct(rows) && AsMap(rows) == BatchOf(Values(held), f)
      modifies this`stored, this`flights, this`held
      ensures Valid() && Ledger() == Step(old(Ledger()), Action.Persist(f)) && flights == old(flights) - {f}
    {
      hide Step, WellHeld, Total, Sums, BatchOf, Plus, AsMap, Distinct, Landed, TakenUp, At, InFlight, Separate;
      StepKeepsHeld(Ledger(), Action.Persist(f));
      StepOfFlight(Ledger(), f);
      Upsert(rows);
      Land(f);
    }

    ghost method Land(f: nat)
      requires Separate()
      modifies this`flights, this`held
      ensures Separate() && flights == old(flights) - {f}
      ensures Values(held) == Landed(old(Values(held)), f)
    {
      hide Landed, WithoutBatch;
      LandedValues(held, f);
      flights, held := flights - {f}, WithoutBatch(held, f);
    }

    /** One bucket of a failed batch: it comes back as it is when its key is free,
        and is added in otherwise. */
    method Return(ghost f: nat, k: Key, d: Delta)
      requires Separate() && Slot(f, k) in held && held[Slot(f, k)] == d
      modifies this`pending, this`held, (if k in pending then {pending[k]} else {})
      ensures Separate() && held == old(held) - {Slot(f, k)}
      ensures forall s :: s in held ==> held[s].Value() == old(held[s].Value())
      ensures Values(pending) == Sums(old(Values(pending)), map[k := old(d.Value())])
      ensures forall j :: j in pending && j != k ==> j in old(pending) && pending[j] == old(pending)[j]
    {
      hide Step, WellHeld, Total, Sums, BatchOf, Plus, AsMap, Distinct, Landed, TakenUp, At, InFlight;
      SumsOne(Values(pending), k, d.Value());
      if k !in pending {
        Adopt(f, k, d);
      } else {
        AddAt(k, d.Value());
        held := held - {Slot(f, k)};
      }
    }

    method Adopt(ghost f: nat, k: Key, d: Delta)
      requires Separate() && Slot(f, k) in held && held[Slot(f, k)] == d && k !in pending
      modifies this`pending, this`held
      ensures Separate() && held == old(held) - {Slot(f, k)} && pending == old(pending)[k := d]
      ensures Values(pending) == old(Values(pending)[k := d.Value()])
    {
      pending := pending[k := d];
      held := held - {Slot(f, k)};
    }

    /** Under the lock, when the sink has failed. */
    method MergeBack(ghost f: nat, batch: map<Key, Delta>)
      requires Valid() && Carries(f, batch)
      modifies this`pending, this`flights, this`held, pending.Values
      ensures Valid() && Ledger() == Step(old(Ledger()), Action.MergeBack(f))
      ensures flights == old(flights) - {f} && stored == old(stored)
    {
      hide Step, WellHeld, Total, Sums, BatchOf, Plus, AsMap, Distinct, Landed, TakenUp, At, InFlight,
           WithoutBatch, Except, Separate;
      StepKeepsHeld(Ledger(), Action.MergeBack(f));
      StepOfFlight(Ledger(), f);
      CarriedValues(f, batch);
      LandedValues(held, f);
      ReturnAll(f, batch);
      flights := flights - {f};
    }

    method ReturnAll(ghost f: nat, batch: map<Key, Delta>)
      requires Separate() && Carries(f, batch)
      modifies this`pending, this`held, pending.Values
      ensures Separate() && held == WithoutBatch(old(held), f)
      ensures Values(held) == old(Values(WithoutBatch(held, f)))
      ensures Values(pending) == Sums(old(Values(pending)), old(Values(batch)))
    {
      hide Step, WellHeld, Total, Sums, BatchOf, Plus, AsMap, Distinct, Landed, TakenUp, At, InFlight, Except,
           Remaining, WithoutBatch;
      ghost var was, carried := Values(pending), Values(batch);
      ghost var objects := pending.Values;
      var left := batch.Keys;
      SumsNothing(was);
      ExceptAll(carried);
      assert carried.Keys == batch.Keys;
      RemainingAll(held, f, batch);
      while left != {}
        invariant left <= batch.Keys && Separate()
        invariant held == Remaining(old(held), f, left)
        invariant forall s :: s in held ==> s in old(held) && held[s].Value() == old(held[s].Value())
        invariant Values(pending) == Sums(was, Except(carried, left))
        invariant forall k :: k in pending && k in left ==> pending[k] in objects
      {
        var k :| k in left;
        RemainingLess(old(held), f, left, k);
        SumsLater(was, carried, left, k);
        Return(f, k, batch[k]);
        left := left - {k};
      }
      assert left == {};
    }

    lemma CarriedValues(f: nat, batch: map<Key, Delta>)
      requires Carries(f, batch)
      ensures BatchOf(Values(held), f) == Values(batch)
    {
      var keys := set s | s in Values(held) && s.flight == f :: s.key;
      forall k | k in batch ensures k in keys { assert Slot(f, k) in held && Slot(f, k).key == k; }
      assert keys == batch.Keys;
    }

    /** Whatever is added while a sink is at work. */
    method AddAll(adds: seq<Action>)
      requires Valid() && forall i :: 0 <= i < |adds| ==> adds[i].Add?
      modifies this`pending, pending.Values
      ensures Valid() && Ledger() == Run(old(Ledger()), adds)
      ensures stored == old(stored) && flights == old(flights) && held == old(held)
      ensures forall k :: k in pending ==> pending[k] in old(pending.Values) || fresh(pending[k])
    {
      hide Step, WellHeld, Sums, Plus, Separate, Run;
      RunNothing(Ledger());
      assert adds[..0] == [];
      for i := 0 to |adds|
        invariant Valid() && Ledger() == Run(old(Ledger()), adds[..i])
        invariant stored == old(stored) && flights == old(flights) && held == old(held)
        invariant forall k :: k in pending ==> pending[k] in old(pending.Values) || fresh(pending[k])
      {
        RunOneMore(old(Ledger()), adds, i);
        Add(adds[i].key.repo, adds[i].key.day, adds[i].amount);
      }
      assert adds[..|adds|] == adds;
    }

    /** A flush: the buckets change hands, others go on adding, and the batch is
        stored or comes back. */
    method Flush(ghost f: nat, adds: seq<Action>, sinkFails: bool)
      requires Valid() && f !in flights && forall i :: 0 <= i < |adds| ==> adds[i].Add?
      modifies this, pending.Values
      ensures Valid() && flights == old(flights) && f !in flights
      ensures Ledger() == if |old(pending)| == 0 then old(Ledger())
                          else Flushed(old(Ledger()), f, adds, sinkFails)
    {
      hide Valid, Ledger, Flushed;
      if |pending| > 0 { FlushBatch(f, adds, sinkFails); }
    }

    method FlushBatch(ghost f: nat, adds: seq<Action>, sinkFails: bool)
      requires Valid() && f !in flights && forall i :: 0 <= i < |adds| ==> adds[i].Add?
      modifies this, pending.Values
      ensures Valid() && flights == old(flights)
      ensures Ledger() == Flushed(old(Ledger()), f, adds, sinkFails)
    {
      hide Step, Run, Valid, Carries, Ledger;
      var batch := StartFlush(f, adds);
      FinishFlush(f, batch, sinkFails);
    }

    method StartFlush(ghost f: nat, adds: seq<Action>) returns (batch: map<Key, Delta>)
      requires Valid() && f !in flights && forall i :: 0 <= i < |adds| ==> adds[i].Add?
      modifies this, pending.Values
      ensures Valid() && Carries(f, batch) && flights == old(flights) + {f}
      ensures fresh(pending.Values)
      ensures Ledger() == Run(Step(old(Ledger()), Action.Swap(f)), adds)
    {
      hide Step, WellHeld, Total, Sums, BatchOf, Plus, AsMap, Distinct, Landed, TakenUp, At, InFlight, Separate,
           Run;
      batch := Swap(f);
      AddAll(adds);
      assert flights == old(flights) + {f};
    }

    method FinishFlush(ghost f: nat, batch: map<Key, Delta>, sinkFails: bool)
      requires Valid() && Carries(f, batch)
      modifies this`pending, this`stored, this`flights, this`held, pending.Values
      ensures Valid() && flights == old(flights) - {f}
      ensures Ledger() == Step(old(Ledger()), if sinkFails then Action.MergeBack(f) else Action.Persist(f))
    {
      hide Step, WellHeld, Total, Sums, BatchOf, Plus, AsMap, Distinct, Landed, TakenUp, At, InFlight, Separate;
      var rows := Rows(batch);
      if sinkFails {
        MergeBack(f, batch);
      } else {
        CarriedValues(f, batch);
        Persist(f, rows);
      }
    }
  }

  function Flushed(b: Books, f: nat, adds: seq<Action>, sinkFails: bool): Books {
    Step(Run(Step(b, Swap(f)), adds), if sinkFails then MergeBack(f) else Persist(f))
  }

  lemma RunNothing(b: Books)
    ensures Run(b, []) == b
  {
  }

  lemma {:induction false} RunOneMore(b: Books, trace: seq<Action>, i: nat)
    requires i < |trace|
    ensures Run(b, trace[..i + 1]) == Step(Run(b, trace[..i]), trace[i])
    decreases i
  {
    hide Step;
    if i == 0 {
      assert trace[..1][1..] == [] && trace[..0] == [];
      RunNothing(Step(b, trace[0]));
    } else {
      assert trace[..i + 1][1..] == trace[1..][..i] && trace[..i][1..] == trace[1..][..i - 1];
      RunOneMore(Step(b, trace[0]), trace[1..], i - 1);
    }
  }

  // ---- Objects and their values ----

  /** What an addition does to the buckets, counter by counter. */
  lemma AmountsAfter(pending: map<Key, Amount>, k: Key, d: Amount)
    ensures var after := Sums(pending, map[k := d]);
            && (forall f :: Get(At(after, k), f) == Get(At(pending, k), f) + Get(d, f))
            && (forall j :: j != k ==> At(after, j) == At(pending, j))
    ensures d == ZERO ==> forall f :: Get(d, f) == 0
  {
    hide Sums, Plus, Get;
    AtSums(pending, map[k := d], k);
    forall f ensures Get(At(Sums(pending, map[k := d]), k), f) == Get(At(pending, k), f) + Get(d, f) {
      PlusAddsEach(At(pending, k), d, f);
    }
    forall j | j != k ensures At(Sums(pending, map[k := d]), j) == At(pending, j) {
      AtSums(pending, map[k := d], j);
      ZeroIsNothing(At(pending, j));
    }
    forall f | d == ZERO ensures Get(d, f) == 0 { PlusAddsEach(ZERO, ZERO, f); }
  }

  ghost function WithBatch(held: map<Slot, Delta>, f: nat, batch: map<Key, Delta>): map<Slot, Delta> {
    var slots := set k | k in batch :: Slot(f, k);
    held + map s | s in slots :: batch[s.key]
  }

  ghost function WithoutBatch(held: map<Slot, Delta>, f: nat): map<Slot, Delta> {
    map s | s in held && s.flight != f :: held[s]
  }

  lemma WithBatchAt(held: map<Slot, Delta>, f: nat, batch: map<Key, Delta>)
    requires forall k :: Slot(f, k) !in held
    ensures var all := WithBatch(held, f, batch);
            forall s :: (s in all <==> if s.flight == f then s.key in batch else s in held)
                        && (s in all ==> all[s] == if s.flight == f then batch[s.key] else held[s])
  {
  }

  lemma NewFlightHasNoSlots(b: Books, f: nat)
    requires WellHeld(b) && f !in b.flights
    ensures forall k :: Slot(f, k) !in b.held
  {
  }

  lemma TakenUpValues(held: map<Slot, Delta>, f: nat, batch: map<Key, Delta>)
    ensures Values(WithBatch(held, f, batch)) == TakenUp(Values(held), f, Values(batch))
  {
    var all, taken := Values(WithBatch(held, f, batch)), TakenUp(Values(held), f, Values(batch));
    assert (set k | k in batch :: Slot(f, k)) == set k | k in Values(batch) :: Slot(f, k);
    assert all.Keys == taken.Keys;
    forall s | s in all ensures all[s] == taken[s] {}
  }

  lemma LandedValues(held: map<Slot, Delta>, f: nat)
    ensures Values(WithoutBatch(held, f)) == Landed(Values(held), f)
    ensures forall s :: s in WithoutBatch(held, f) <==> s in held && s.flight != f
    ensures forall s :: s in WithoutBatch(held, f) ==> WithoutBatch(held, f)[s] == held[s]
  {
  }

  /** What the flight still holds while it returns its buckets. */
  ghost function Remaining(held: map<Slot, Delta>, f: nat, left: set<Key>): (r: map<Slot, Delta>)
    ensures forall s :: s in r ==> s in held && r[s] == held[s]
  {
    map s | s in held && (s.flight == f ==> s.key in left) :: held[s]
  }

  lemma RemainingAll(held: map<Slot, Delta>, f: nat, batch: map<Key, Delta>)
    requires forall k :: Slot(f, k) in held ==> k in batch
    ensures Remaining(held, f, batch.Keys) == held && Remaining(held, f, {}) == WithoutBatch(held, f)
  {
  }

  lemma RemainingLess(held: map<Slot, Delta>, f: nat, left: set<Key>, k: Key)
    requires k in left && Slot(f, k) in held
    ensures Slot(f, k) in Remaining(held, f, left) && Remaining(held, f, left)[Slot(f, k)] == held[Slot(f, k)]
    ensures Remaining(held, f, left - {k}) == Remaining(held, f, left) - {Slot(f, k)}
  {
  }

  lemma ExceptAll(b: map<Key, Amount>)
    ensures Except(b, b.Keys) == map[] && Except(b, {}) == b
  {
  }

  ghost function Except(b: map<Key, Amount>, left: set<Key>): map<Key, Amount> {
    map k | k in b && k !in left :: b[k]
  }

  lemma SumsLater(was: map<Key, Amount>, carried: map<Key, Amount>, left: set<Key>, k: Key)
    requires k in carried && k in left
    ensures Sums(Sums(was, Except(carried, left)), map[k := carried[k]]) == Sums(was, Except(carried, left - {k}))
  {
    hide Plus;
    var s := Sums(was, Except(carried, left));
    SumsOne(s, k, carried[k]);
    ZeroIsNothing(At(was, k));
    ZeroIsNothing(carried[k]);
  }

  // ---- Rows ----

  datatype Row = Row(key: Key, amount: Amount)

  predicate Distinct(rows: seq<Row>) {
    forall i, j :: 0 <= i < j < |rows| ==> rows[i].key != rows[j].key
  }

  function AsMap(rows: seq<Row>): map<Key, Amount>
    decreases |rows|
  {
    if rows == [] then map[] else AsMap(rows[..|rows| - 1])[rows[|rows| - 1].key := rows[|rows| - 1].amount]
  }

  lemma NoRows()
    ensures Distinct([]) && AsMap([]) == map[]
  {
  }

  lemma OneMoreRow(rows: seq<Row>, b: map<Key, Amount>, left: set<Key>, k: Key)
    requires k in left && k in b && Distinct(rows) && AsMap(rows) == Except(b, left)
    ensures Distinct(rows + [Row(k, b[k])]) && AsMap(rows + [Row(k, b[k])]) == Except(b, left - {k})
  {
    ExceptLess(b, left, k);
    hide Except;
    AsMapSnoc(rows, Row(k, b[k]));
    hide AsMap;
    NewKeyIsDistinct(rows, Row(k, b[k]));
  }

  lemma ExceptLess(b: map<Key, Amount>, left: set<Key>, k: Key)
    requires k in left && k in b
    ensures k !in Except(b, left) && Except(b, left - {k}) == Except(b, left)[k := b[k]]
  {
  }

  lemma AsMapSnoc(rows: seq<Row>, r: Row)
    ensures AsMap(rows + [r]) == AsMap(rows)[r.key := r.amount]
  {
    assert (rows + [r])[..|rows|] == rows;
  }

  lemma NewKeyIsDistinct(rows: seq<Row>, r: Row)
    requires Distinct(rows) && r.key !in AsMap(rows)
    ensures Distinct(rows + [r])
  {
    AsMapKeys(rows, r.key);
    hide AsMap;
  }

  lemma AsMapNothing()
    ensures AsMap([]) == map[]
  {
  }

  lemma {:induction false} AsMapKeys(rows: seq<Row>, k: Key)
    ensures k in AsMap(rows) <==> exists i :: 0 <= i < |rows| && rows[i].key == k
    decreases |rows|
  {
    if rows != [] {
      var front := rows[..|rows| - 1];
      AsMapKeys(front, k);
      assert rows[|rows| - 1].key == k || (k in AsMap(rows) <==> k in AsMap(front));
      if i :| 0 <= i < |rows| && rows[i].key == k && i < |front| { assert front[i].key == k; }
      if i :| 0 <= i < |front| && front[i].key == k { assert rows[i].key == k; }
    }
  }

  lemma SumsOne(a: map<Key, Amount>, k: Key, d: Amount)
    ensures Sums(a, map[k := d]) == a[k := Plus(At(a, k), d)]
    ensures Sums(a, map[k := d]) == a[k := if k in a then Plus(a[k], d) else d]
  {
    hide Plus;
    ZeroIsNothing(d);
    forall j | j in a ensures Plus(a[j], ZERO) == a[j] { ZeroIsNothing(a[j]); }
  }

  lemma SumsNothing(a: map<Key, Amount>)
    ensures Sums(a, map[]) == a
  {
    hide Plus;
    forall k | k in a ensures Plus(a[k], ZERO) == a[k] { ZeroIsNothing(a[k]); }
  }

  lemma SumsOneMore(a: map<Key, Amount>, rows: seq<Row>, i: nat)
    requires Distinct(rows) && i < |rows|
    ensures var s, r := Sums(a, AsMap(rows[..i])), rows[i];
            Sums(a, AsMap(rows[..i + 1])) == s[r.key := Plus(At(s, r.key), r.amount)]
  {
    hide Plus;
    var front := rows[..i];
    assert rows[..i + 1][..i] == front;
    AsMapKeys(front, rows[i].key);
    ZeroIsNothing(At(a, rows[i].key));
    ZeroIsNothing(rows[i].amount);
  }
}
