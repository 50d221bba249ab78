/** Every interleaving of store calls, clock ticks and the background sweep.
    Set loads the clock before it takes the lock, Get looks at the clock after it released the lock,
    and the sweep loads its timestamp, scans and deletes in three separate steps. */
module MemoryRuns {
  import opened Wrappers
  import opened Memory

  datatype Gc = Resting | Loaded(ts: Uint32) | Scanned(ts: Uint32, keys: set<string>)

  datatype State<V> = State(
    data: map<string, Item<V>>,
    now: Uint32,
    sets: map<nat, (string, Item<V>)>,  // Set calls that know their expiry but have not stored yet
    gets: map<nat, Option<Item<V>>>,     // Get calls that have read the map but not the clock
    gc: Gc)

  datatype Op<V> =
    | Tick(t: Uint32)
    | SetLoad(call: nat, key: string, val: V, ttlNanos: int)
    | SetStore(call: nat)
    | Delete(key: string)
    | Reset
    | GetRead(call: nat, key: string)
    | GetAnswer(call: nat)
    | GcLoad
    | GcScan
    | GcSweep

  ghost function Step<V>(s: State<V>, op: Op<V>): State<V> {
    match op
    case Tick(t) => s.(now := t)
    case SetLoad(c, key, val, ttl) => s.(sets := s.sets[c := (key, Item(ExpiryOf(ttl, s.now), val))])
    case SetStore(c) =>
      if c in s.sets then s.(data := s.data[s.sets[c].0 := s.sets[c].1], sets := s.sets - {c}) else s
    case Delete(key) => s.(data := s.data - {key})
    case Reset => s.(data := map[])
    case GetRead(c, key) => s.(gets := s.gets[c := Lookup(s.data, key)])
    case GetAnswer(c) => s.(gets := s.gets - {c})
    case GcLoad => s.(gc := Loaded(s.now))
    case GcScan => if s.gc.Loaded? then s.(gc := Scanned(s.gc.ts, ExpiredKeys(s.data, s.gc.ts))) else s
    case GcSweep => if s.gc.Scanned? then s.(data := Swept(s.data, s.gc.keys, s.gc.ts), gc := Resting) else s
  }

  ghost predicate IsGc<V>(op: Op<V>) {
    op.GcLoad? || op.GcScan? || op.GcSweep?
  }

  ghost function After<V>(s: State<V>, ops: seq<Op<V>>): State<V>
    decreases |ops|
  {
    if ops == [] then s else After(Step(s, ops[0]), ops[1..])
  }

  /** What one step hands back to a caller of Get, if anything. */
  ghost function Output<V>(s: State<V>, op: Op<V>): seq<Option<V>> {
    if op.GetAnswer? && op.call in s.gets then [Answer(s.gets[op.call], s.now)] else []
  }

  /** Everything the callers of Get observe during a run. */
  ghost function Answers<V>(s: State<V>, ops: seq<Op<V>>): seq<Option<V>>
    decreases |ops|
  {
    if ops == [] then [] else Output(s, ops[0]) + Answers(Step(s, ops[0]), ops[1..])
  }

  /** The same run on a store that has no background sweep. */
  ghost function WithoutGc<V>(ops: seq<Op<V>>): seq<Op<V>>
    decreases |ops|
  {
    if ops == [] then [] else (if IsGc(ops[0]) then [] else [ops[0]]) + WithoutGc(ops[1..])
  }

  ghost predicate ClockForward<V>(now: Uint32, ops: seq<Op<V>>)
    decreases |ops|
  {
    ops == [] ||
    if ops[0].Tick? then now <= ops[0].t && ClockForward(ops[0].t, ops[1..]) else ClockForward(now, ops[1..])
  }

  ghost predicate StampNotAhead<V>(s: State<V>) {
    s.gc.Resting? || s.gc.ts <= s.now
  }

  /** `x` may stand for `y`: the same entry, or a swept one whose time is over. */
  ghost predicate Hides<V>(x: Option<Item<V>>, y: Option<Item<V>>, now: Uint32) {
    x == y || (x.None? && y.Some? && Expired(y.value, now))
  }

  ghost predicate Similar<V>(a: State<V>, b: State<V>) {
    && a.now == b.now && a.sets == b.sets && a.gets.Keys == b.gets.Keys
    && StampNotAhead(a)
    && (forall k :: Hides(Lookup(a.data, k), Lookup(b.data, k), a.now))
    && (forall c :: c in a.gets ==> Hides(a.gets[c], b.gets[c], a.now))
  }

  lemma SimilarStep<V>(a: State<V>, b: State<V>, op: Op<V>)
    requires Similar(a, b)
    requires op.Tick? ==> a.now <= op.t
    ensures Similar(Step(a, op), if IsGc(op) then b else Step(b, op))
    ensures Output(a, op) == if IsGc(op) then [] else Output(b, op)
  {
    var a', b' := Step(a, op), if IsGc(op) then b else Step(b, op);
    forall k ensures Hides(Lookup(a'.data, k), Lookup(b'.data, k), a'.now) {
      assert Hides(Lookup(a.data, k), Lookup(b.data, k), a.now);
    }
    if op.GetRead? {
      assert Hides(Lookup(a.data, op.key), Lookup(b.data, op.key), a.now);
    }
  }

  lemma {:induction false} SimilarAnswers<V>(a: State<V>, b: State<V>, ops: seq<Op<V>>)
    requires Similar(a, b) && ClockForward(a.now, ops)
    ensures Answers(a, ops) == Answers(b, WithoutGc(ops))
    decreases |ops|
  {
    if ops != [] {
      var op, rest := ops[0], ops[1..];
      SimilarStep(a, b, op);
      if IsGc(op) {
        SimilarAnswers(Step(a, op), b, rest);
        assert WithoutGc(ops) == WithoutGc(rest);
      } else {
        SimilarAnswers(Step(a, op), Step(b, op), rest);
        assert WithoutGc(ops) == [op] + WithoutGc(rest);
        assert ([op] + WithoutGc(rest))[1..] == WithoutGc(rest);
      }
    }
  }

  /** The sweep is invisible: whatever the interleaving, every Get answers as if there were no sweep. */
  lemma SweepIsInvisible<V>(s: State<V>, ops: seq<Op<V>>)
    requires StampNotAhead(s) && ClockForward(s.now, ops)
    ensures Answers(s, ops) == Answers(s, WithoutGc(ops))
  {
    SimilarAnswers(s, s, ops);
  }

  /** A clock that steps back over an expiry second exposes the sweep: the swept item would have come back to life. */
  lemma ClockStepBackExposesSweep<V>(s: State<V>, key: string, early: Uint32, call: nat)
    requires key in s.data && early < s.data[key].exp <= s.now
    ensures var ops := [GcLoad, GcScan, GcSweep, Tick(early), GetRead(call, key), GetAnswer(call)];
      && !ClockForward(s.now, ops)
      && Answers(s, ops) == [None] && Answers(s, WithoutGc(ops)) == [Some(s.data[key].value)]
  {
    var look: seq<Op<V>> := [Tick(early), GetRead(call, key), GetAnswer(call)];
    var s1 := Step<V>(s, GcLoad);
    var s2 := Step<V>(s1, GcScan);
    var s3 := Step<V>(s2, GcSweep);
    assert key in s2.gc.keys && key !in s3.data;
    LookAnswers(s, look, early, key, call);
    LookAnswers(s3, look, early, key, call);
    Unfold(s2, GcSweep, look);
    Unfold(s1, GcScan, [GcSweep] + look);
    Unfold(s, GcLoad, [GcScan] + ([GcSweep] + look));
    assert [GcLoad, GcScan, GcSweep, Tick(early), GetRead(call, key), GetAnswer(call)]
        == [GcLoad] + ([GcScan] + ([GcSweep] + look));
    assert WithoutGc([GcLoad] + ([GcScan] + ([GcSweep] + look))) == look;
  }

  lemma Unfold<V>(s: State<V>, op: Op<V>, rest: seq<Op<V>>)
    ensures Answers(s, [op] + rest) == Output(s, op) + Answers(Step(s, op), rest)
    ensures WithoutGc([op] + rest) == (if IsGc(op) then [] else [op]) + WithoutGc(rest)
    ensures forall now: Uint32 :: ClockForward(now, [op] + rest) <==>
              if op.Tick? then now <= op.t && ClockForward(op.t, rest) else ClockForward(now, rest)
  {
    assert ([op] + rest)[1..] == rest;
  }

  lemma LookAnswers<V>(s: State<V>, look: seq<Op<V>>, t: Uint32, key: string, call: nat)
    requires look == [Tick(t), GetRead(call, key), GetAnswer(call)]
    ensures Answers(s, look) == [Answer(Lookup(s.data, key), t)]
    ensures WithoutGc(look) == look && (ClockForward(s.now, look) ==> s.now <= t)
  {
    var s1 := Step(s, look[0]);
    var s2 := Step(s1, look[1]);
    Unfold(s2, look[2], []);
    Unfold(s1, look[1], [look[2]]);
    Unfold(s, look[0], [look[1]] + [look[2]]);
    assert look == [look[0]] + ([look[1]] + [look[2]]);
    assert [look[2]] + [] == [look[2]];
  }

  /** Get answers from the last call that touched its key: the value set, or nothing after a delete or a reset. */
  lemma LastTouchDecides<V>(s: State<V>, key: string, val: V, ttlNanos: int, call: nat)
    ensures var stored := Step(Step(s, SetLoad(call, key, val, ttlNanos)), SetStore(call)).data;
      && Lookup(stored, key) == Some(Item(ExpiryOf(ttlNanos, s.now), val))
      && forall k :: k != key ==> Lookup(stored, k) == Lookup(s.data, k)
    ensures var rest := Step(s, Delete(key)).data;
      Lookup(rest, key) == None && forall k :: k != key ==> Lookup(rest, k) == Lookup(s.data, k)
    ensures forall k :: Lookup(Step(s, Reset).data, k) == None
  {
  }

  // Lifetime of one item

  /** `op` may overwrite or remove the entry under `key`. */
  ghost predicate Touches<V>(s: State<V>, op: Op<V>, key: string) {
    || op.Reset?
    || (op.Delete? && op.key == key)
    || (op.SetStore? && op.call in s.sets && s.sets[op.call].0 == key)
  }

  ghost predicate Untouched<V>(s: State<V>, ops: seq<Op<V>>, key: string)
    decreases |ops|
  {
    ops == [] || (!Touches(s, ops[0], key) && Untouched(Step(s, ops[0]), ops[1..], key))
  }

  /** An item answers exactly until its expiry second, over any run that leaves its key alone. */
  lemma {:induction false} AnswersUntilExpiry<V>(s: State<V>, ops: seq<Op<V>>, key: string, item: Item<V>)
    requires StampNotAhead(s) && ClockForward(s.now, ops) && Untouched(s, ops, key)
    requires Hides(Lookup(s.data, key), Some(item), s.now)
    ensures var end := After(s, ops);
      Answer(Lookup(end.data, key), end.now) ==
        if item.exp == 0 || end.now < item.exp then Some(item.value) else None
    decreases |ops|
  {
    if ops != [] {
      AnswersUntilExpiry(Step(s, ops[0]), ops[1..], key, item);
    }
  }

  /** What the caller of Set asked for. */
  ghost predicate WithinTtl(ttlNanos: int, setAt: Uint32, now: Uint32) {
    ttlNanos <= 0 || now < setAt + ttlNanos / NANOS_PER_SECOND
  }

  /** The expiry computed at `setAt` means what the caller asked for, at every later second of the 32-bit clock. */
  ghost predicate ExpiryIsRight(ttlNanos: int, setAt: Uint32) {
    var exp := ExpiryOf(ttlNanos, setAt);
    forall now: Uint32 :: setAt <= now ==> ((exp == 0 || now < exp) <==> WithinTtl(ttlNanos, setAt, now))
  }

  /** The exact condition: the sum stays inside 32 bits and is not zero, or it wraps to exactly zero. */
  lemma ExpiryIsRightIff(ttlNanos: int, setAt: Uint32)
    ensures ExpiryIsRight(ttlNanos, setAt) <==>
            var end := setAt + ttlNanos / NANOS_PER_SECOND;
            ttlNanos <= 0 || 0 < end < UINT32 || (end >= UINT32 && end % UINT32 == 0)
  {
    var end := setAt + ttlNanos / NANOS_PER_SECOND;
    var exp := ExpiryOf(ttlNanos, setAt);
    if ttlNanos > 0 && end >= UINT32 && end % UINT32 != 0 {
      var now: Uint32 := if setAt < exp then exp else setAt;
      assert !(now < exp) && WithinTtl(ttlNanos, setAt, now);
    }
    if ttlNanos > 0 && end == 0 {
      assert !WithinTtl(ttlNanos, setAt, setAt);
    }
  }

  /** Exact lifetime: after a Set that loaded the clock at `setAt`, Get answers exactly within the ttl. */
  lemma ExactLifetime<V>(s: State<V>, ops: seq<Op<V>>, key: string, val: V, ttlNanos: int, setAt: Uint32)
    requires StampNotAhead(s) && ClockForward(s.now, ops) && Untouched(s, ops, key)
    requires setAt <= s.now && Lookup(s.data, key) == Some(Item(ExpiryOf(ttlNanos, setAt), val))
    requires ttlNanos > 0 ==> 0 < setAt + ttlNanos / NANOS_PER_SECOND < UINT32
    ensures var end := After(s, ops);
      Answer(Lookup(end.data, key), end.now) == if WithinTtl(ttlNanos, setAt, end.now) then Some(val) else None
  {
    AnswersUntilExpiry(s, ops, key, Item(ExpiryOf(ttlNanos, setAt), val));
    ClockOnlyForward(s, ops);
    ExpiryIsRightIff(ttlNanos, setAt);
  }

  lemma {:induction false} ClockOnlyForward<V>(s: State<V>, ops: seq<Op<V>>)
    requires ClockForward(s.now, ops)
    ensures s.now <= After(s, ops).now
    decreases |ops|
  {
    if ops != [] {
      ClockOnlyForward(Step(s, ops[0]), ops[1..]);
    }
  }
}
