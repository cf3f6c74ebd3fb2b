/** The fixed-window limiter on connection attempts, on a store whose keys expire.  A call reads the
    clock first and increments its counter later; other calls and the clock may move in between. */
module RateLimit {
  import opened Decimals
  import opened Wrappers

  /** A Redis counter; without an expiry it lives for ever. */
  datatype Counter = Counter(count: nat, expiresAt: Option<real>)

  type Store = map<string, Counter>

  type Window = w: real | w > 0.0 witness 1.0

  datatype Limits = Limits(max: nat, w: Window)

  /** One attempt: when it read the clock, when its INCR took effect, whether the EXPIRE after a
      first INCR was lost (the call raises then), and whether it was let in. */
  datatype Attempt = Attempt(key: string, at: real, sent: real, lost: bool, allowed: bool)

  datatype State = State(now: real, store: Store, history: seq<Attempt>)

  datatype Action =
    | Advance(to: real)
    | Call(key: string, at: real, lost: bool)

  /** `math.floor(time / window)`; the clock counts from the epoch. */
  function Bucket(at: real, w: Window): int {
    (at / w).Floor
  }

  /** When a bucket starts. */
  function Start(bucket: int, w: Window): real {
    bucket as real * w
  }

  /** `math.ceil`. */
  function Ceil(w: real): int {
    -((-w).Floor)
  }

  function RedisKey(key: string, bucket: int): string
    requires bucket >= 0
  {
    "ws-connect-rl:" + key + ":" + Decimal(bucket)
  }

  /** INCR: an expired key counts from zero and has lost its expiry; a live one keeps it. */
  function Incr(store: Store, k: string, now: real): Counter {
    if k in store && (store[k].expiresAt.None? || now < store[k].expiresAt.value)
    then store[k].(count := store[k].count + 1) else Counter(1, None)
  }

  /** EXPIRE, after a first INCR only. */
  function Stamped(counter: Counter, now: real, w: Window, lost: bool): Counter {
    if counter.count == 1 && !lost then counter.(expiresAt := Some(now + Ceil(w) as real)) else counter
  }

  function Answer(count: nat, max: nat, lost: bool): Option<bool> {
    if count == 1 && lost then None else Some(count <= max)
  }

  /** INCR and EXPIRE as Redis does them: `n` is what INCR returns, and the key lives for `ttl` from its
      first INCR on, unless that EXPIRE is lost.  No other key is touched. */
  predicate Counted(before: Store, after: Store, k: string, now: real, ttl: real, lost: bool, n: nat) {
    var live := k in before && (before[k].expiresAt.None? || now < before[k].expiresAt.value);
    && n == (if live then before[k].count + 1 else 1)
    && after == before[k := Counter(n, if n == 1 && !lost then Some(now + ttl)
                                       else if live then before[k].expiresAt else None)]
  }

  function StepAllow(c: Limits, s: State, key: string, at: real, lost: bool): State {
    if at < 0.0 || at > s.now then s
    else
      BucketNat(at, c.w);
      var k := RedisKey(key, Bucket(at, c.w));
      var counter := Incr(s.store, k, s.now);
      s.(store := s.store[k := Stamped(counter, s.now, c.w, lost)],
         history := s.history + [Attempt(key, at, s.now, lost, Answer(counter.count, c.max, lost) == Some(true))])
  }

  function Step(c: Limits, s: State, a: Action): State {
    match a
    case Advance(to) => s.(now := if to > s.now then to else s.now)
    case Call(key, at, lost) => StepAllow(c, s, key, at, lost)
  }

  function Run(c: Limits, s: State, actions: seq<Action>): State
    decreases |actions|
  {
    if actions == [] then s
    else Step(c, Run(c, s, actions[..|actions| - 1]), actions[|actions| - 1])
  }

  const START: State := State(0.0, map[], [])

  lemma ScaleLess(a: real, b: real, w: Window)
    ensures a <= b ==> a * w <= b * w
    ensures a < b ==> a * w < b * w
  {
  }

  lemma QuotientTimes(at: real, w: Window)
    ensures (at / w) * w == at
  {
  }

  lemma StartsAround(b: int, q: real, w: Window)
    requires b as real <= q < (b + 1) as real
    ensures Start(b, w) <= q * w < Start(b + 1, w)
  {
    ScaleLess(b as real, q, w);
    ScaleLess(q, (b + 1) as real, w);
  }

  lemma BucketSpan(at: real, w: Window)
    ensures Start(Bucket(at, w), w) <= at < Start(Bucket(at, w) + 1, w)
  {
    hide Start;
    var q := at / w;
    StartsAround(q.Floor, q, w);
    QuotientTimes(at, w);
  }

  lemma StartsInOrder(a: int, b: int, w: Window)
    requires a <= b
    ensures Start(a, w) <= Start(b, w)
  {
    ScaleLess(a as real, b as real, w);
  }

  lemma NextStart(b: int, w: Window)
    ensures Start(b + 1, w) == Start(b, w) + w
  {
  }

  /** Rounded up to a whole number, and no further. */
  lemma CeilRoundsUp(w: real)
    ensures w <= Ceil(w) as real < w + 1.0
  {
  }

  lemma BucketNat(at: real, w: Window)
    requires at >= 0.0
    ensures Bucket(at, w) >= 0
  {
    hide Bucket, Start;
    BucketSpan(at, w);
    if Bucket(at, w) < 0 {
      StartsInOrder(Bucket(at, w) + 1, 0, w);
      StartOfFirst(w);
      assert false;
    }
  }

  lemma StartOfFirst(w: Window)
    ensures Start(0, w) == 0.0
  {
  }

  /** Addresses may hold colons; the bucket is what follows the last one. */
  lemma RedisKeyInjective(k: string, b: nat, k': string, b': nat)
    requires RedisKey(k, b) == RedisKey(k', b')
    ensures k == k' && b == b'
  {
    var prefix := "ws-connect-rl:";
    assert RedisKey(k, b) == (prefix + k) + ":" + Decimal(b);
    assert RedisKey(k', b') == (prefix + k') + ":" + Decimal(b');
    LastColon(prefix + k, Decimal(b), prefix + k', Decimal(b'));
    assert (prefix + k)[|prefix|..] == k && (prefix + k')[|prefix|..] == k';
    DecimalInjective(b, b');
  }

  // ------------------------------------------------------------ counting attempts

  predicate In(a: Attempt, key: string, bucket: int, w: Window) {
    a.key == key && Bucket(a.at, w) == bucket
  }

  /** How many attempts a key has made in a bucket. */
  function Attempts(history: seq<Attempt>, key: string, bucket: int, w: Window): nat {
    if history == [] then 0
    else
      Attempts(history[..|history| - 1], key, bucket, w)
      + if In(history[|history| - 1], key, bucket, w) then 1 else 0
  }

  function AllowedIn(history: seq<Attempt>, key: string, bucket: int, w: Window): nat {
    if history == [] then 0
    else
      var last := history[|history| - 1];
      AllowedIn(history[..|history| - 1], key, bucket, w) + if In(last, key, bucket, w) && last.allowed then 1 else 0
  }

  predicate Between(a: Attempt, key: string, lo: real, hi: real) {
    a.key == key && lo <= a.at < hi && a.allowed
  }

  /** How many attempts were let in that read the clock at a time t with lo <= t < hi. */
  function AllowedBetween(history: seq<Attempt>, key: string, lo: real, hi: real): nat {
    if history == [] then 0
    else
      AllowedBetween(history[..|history| - 1], key, lo, hi)
      + if Between(history[|history| - 1], key, lo, hi) then 1 else 0
  }

  lemma AttemptsAppend(history: seq<Attempt>, a: Attempt, key: string, bucket: int, w: Window)
    ensures Attempts(history + [a], key, bucket, w)
            == Attempts(history, key, bucket, w) + if In(a, key, bucket, w) then 1 else 0
    ensures AllowedIn(history + [a], key, bucket, w)
            == AllowedIn(history, key, bucket, w) + if In(a, key, bucket, w) && a.allowed then 1 else 0
  {
    assert (history + [a])[..|history|] == history;
  }

  lemma BetweenAppend(history: seq<Attempt>, a: Attempt, key: string, lo: real, hi: real)
    ensures AllowedBetween(history + [a], key, lo, hi)
            == AllowedBetween(history, key, lo, hi) + if Between(a, key, lo, hi) then 1 else 0
  {
    assert (history + [a])[..|history|] == history;
  }

  /** Each attempt is let in exactly when it is one of the first `max` of its bucket, except a first
      one whose EXPIRE was lost. */
  ghost predicate Exact(history: seq<Attempt>, max: nat, w: Window)
    decreases |history|
  {
    history == [] ||
    (var n := |history| - 1;
     && Exact(history[..n], max, w)
     && ExactLast(history[..n], history[n], max, w))
  }

  predicate ExactLast(history: seq<Attempt>, a: Attempt, max: nat, w: Window) {
    var earlier := Attempts(history, a.key, Bucket(a.at, w), w);
    a.allowed <==> earlier < max && !(earlier == 0 && a.lost)
  }

  lemma ExactAppend(history: seq<Attempt>, a: Attempt, max: nat, w: Window)
    requires Exact(history, max, w) && ExactLast(history, a, max, w)
    ensures Exact(history + [a], max, w)
  {
    assert (history + [a])[..|history|] == history;
  }

  lemma {:induction false} BucketLimit(history: seq<Attempt>, key: string, bucket: int, max: nat, w: Window)
    requires Exact(history, max, w)
    ensures AllowedIn(history, key, bucket, w) <= max
    ensures AllowedIn(history, key, bucket, w) <= Attempts(history, key, bucket, w)
  {
    if history != [] {
      BucketLimit(history[..|history| - 1], key, bucket, max, w);
    }
  }

  /** A time less than a window after `lo` is in the bucket of `lo` or in the next one. */
  lemma TwoBuckets(lo: real, at: real, w: Window)
    requires lo <= at < lo + w
    ensures Bucket(at, w) == Bucket(lo, w) || Bucket(at, w) == Bucket(lo, w) + 1
  {
    hide Bucket, Start;
    var a, b := Bucket(lo, w), Bucket(at, w);
    BucketSpan(lo, w);
    BucketSpan(at, w);
    NextStart(a + 1, w);
    if b < a {
      StartsInOrder(b + 1, a, w);
      assert false;
    }
    if b > a + 1 {
      StartsInOrder(a + 2, b, w);
      assert false;
    }
  }

  lemma {:induction false} WindowSplits(history: seq<Attempt>, key: string, lo: real, hi: real, w: Window)
    requires hi <= lo + w
    ensures AllowedBetween(history, key, lo, hi)
            <= AllowedIn(history, key, Bucket(lo, w), w) + AllowedIn(history, key, Bucket(lo, w) + 1, w)
  {
    if history != [] {
      var n := |history| - 1;
      WindowSplits(history[..n], key, lo, hi, w);
      if lo <= history[n].at < hi {
        TwoBuckets(lo, history[n].at, w);
      }
    }
  }

  // ------------------------------------------------------------ prompt calls

  /** No INCR came later than d after its call had read the clock. */
  predicate Delayed(history: seq<Attempt>, d: real) {
    forall i :: 0 <= i < |history| ==> history[i].sent - history[i].at <= d
  }

  /** How much longer than its window a counter lives. */
  function Slack(w: Window): real {
    Ceil(w) as real - w
  }

  /** The counter of a bucket has seen every attempt made in it, and outlives all that are prompt. */
  ghost predicate Counts(store: Store, history: seq<Attempt>, w: Window, key: string, bucket: nat) {
    var k, n := RedisKey(key, bucket), Attempts(history, key, bucket, w);
    if n == 0 then k !in store
    else k in store && store[k].count == n
         && (store[k].expiresAt.Some? ==> Start(bucket, w) + Ceil(w) as real <= store[k].expiresAt.value)
  }

  ghost predicate AllCount(store: Store, history: seq<Attempt>, w: Window) {
    forall key, bucket :: Counts(store, history, w, key, bucket)
  }

  ghost predicate Inv(c: Limits, s: State) {
    AllCount(s.store, s.history, c.w) && Exact(s.history, c.max, c.w)
  }

  lemma CountsOf(store: Store, history: seq<Attempt>, w: Window, key: string, bucket: nat)
    requires AllCount(store, history, w)
    ensures Counts(store, history, w, key, bucket)
  {
  }

  /** A prompt INCR never finds its counter expired. */
  lemma IncrCounts(store: Store, history: seq<Attempt>, now: real, w: Window, key: string, bucket: nat)
    requires Counts(store, history, w, key, bucket) && now < Start(bucket, w) + Ceil(w) as real
    ensures var counter := Incr(store, RedisKey(key, bucket), now);
            && counter.count == Attempts(history, key, bucket, w) + 1
            && (counter.expiresAt.Some? ==> Start(bucket, w) + Ceil(w) as real <= counter.expiresAt.value)
  {
    hide RedisKey, Attempts, Start, Ceil;
  }

  lemma CountsKeep(store: Store, history: seq<Attempt>, a: Attempt, w: Window, bucket: nat, counter: Counter,
                   other: string, b: nat)
    requires bucket == Bucket(a.at, w) && Counts(store, history, w, other, b)
    requires counter.count == Attempts(history, a.key, bucket, w) + 1
    requires counter.expiresAt.Some? ==> Start(bucket, w) + Ceil(w) as real <= counter.expiresAt.value
    ensures Counts(store[RedisKey(a.key, bucket) := counter], history + [a], w, other, b)
  {
    hide RedisKey, Attempts, AllowedIn, Bucket, Start, Ceil;
    AttemptsAppend(history, a, other, b, w);
    if RedisKey(other, b) == RedisKey(a.key, bucket) {
      RedisKeyInjective(other, b, a.key, bucket);
    }
  }

  lemma AllCountKeep(store: Store, history: seq<Attempt>, a: Attempt, w: Window, bucket: nat, counter: Counter)
    requires bucket == Bucket(a.at, w) && AllCount(store, history, w)
    requires counter.count == Attempts(history, a.key, bucket, w) + 1
    requires counter.expiresAt.Some? ==> Start(bucket, w) + Ceil(w) as real <= counter.expiresAt.value
    ensures AllCount(store[RedisKey(a.key, bucket) := counter], history + [a], w)
  {
    hide RedisKey, Attempts, Bucket, Start, Counts, Ceil;
    var after, later := store[RedisKey(a.key, bucket) := counter], history + [a];
    forall other, b: nat ensures Counts(after, later, w, other, b) {
      CountsKeep(store, history, a, w, bucket, counter, other, b);
    }
  }

  /** A prompt call is answered by its number in its bucket, lost expiries included. */
  lemma AllowKeeps(c: Limits, s: State, key: string, at: real, lost: bool)
    requires Inv(c, s) && 0.0 <= at <= s.now && s.now - at <= Slack(c.w)
    ensures Bucket(at, c.w) >= 0 && Inv(c, StepAllow(c, s, key, at, lost))
    ensures Incr(s.store, RedisKey(key, Bucket(at, c.w)), s.now).count
            == Attempts(s.history, key, Bucket(at, c.w), c.w) + 1
  {
    hide Exact, RedisKey, Ceil, Bucket, Start, Attempts, Incr, Counts, AllCount;
    BucketNat(at, c.w);
    var bucket: nat := Bucket(at, c.w);
    BucketSpan(at, c.w);
    NextStart(bucket, c.w);
    CountsOf(s.store, s.history, c.w, key, bucket);
    IncrCounts(s.store, s.history, s.now, c.w, key, bucket);
    var counter := Incr(s.store, RedisKey(key, bucket), s.now);
    var a := Attempt(key, at, s.now, lost, Answer(counter.count, c.max, lost) == Some(true));
    AllCountKeep(s.store, s.history, a, c.w, bucket, Stamped(counter, s.now, c.w, lost));
    ExactAppend(s.history, a, c.max, c.w);
  }

  lemma AdvanceKeeps(c: Limits, s: State, to: real)
    requires Inv(c, s)
    ensures var t := Step(c, s, Advance(to)); t == s.(now := if to > s.now then to else s.now) && Inv(c, t)
  {
  }

  lemma StepKeeps(c: Limits, s: State, a: Action)
    requires Inv(c, s) && Delayed(Step(c, s, a).history, Slack(c.w))
    ensures Inv(c, Step(c, s, a))
  {
    hide Inv, Slack, Bucket, RedisKey, Incr, Stamped;
    if a.Call? && 0.0 <= a.at <= s.now {
      assert Step(c, s, a).history[|s.history|].sent - Step(c, s, a).history[|s.history|].at <= Slack(c.w);
      AllowKeeps(c, s, a.key, a.at, a.lost);
    } else if a.Advance? {
      AdvanceKeeps(c, s, a.to);
    }
  }

  lemma HistoryGrows(c: Limits, s: State, a: Action)
    ensures s.history <= Step(c, s, a).history
  {
    hide Bucket, RedisKey, Incr, Stamped;
  }

  lemma {:induction false} RunKeeps(c: Limits, actions: seq<Action>)
    requires Delayed(Run(c, START, actions).history, Slack(c.w))
    ensures Inv(c, Run(c, START, actions))
  {
    hide Inv, Step, Slack;
    if actions == [] {
      StartInv(c);
    } else {
      var before := Run(c, START, actions[..|actions| - 1]);
      HistoryGrows(c, before, actions[|actions| - 1]);
      forall i | 0 <= i < |before.history|
        ensures before.history[i].sent - before.history[i].at <= Slack(c.w)
      {
        assert before.history[i] == Run(c, START, actions).history[i];
      }
      RunKeeps(c, actions[..|actions| - 1]);
      StepKeeps(c, before, actions[|actions| - 1]);
    }
  }

  lemma StartInv(c: Limits)
    ensures Inv(c, START)
  {
  }

  // ------------------------------------------------------------ what every run guarantees

  /** Any half-open interval of one window's length, wherever it starts, lets a key in at most twice
      `max` times, as long as calls are prompt. */
  lemma WindowLimit(c: Limits, actions: seq<Action>, key: string, lo: real, hi: real)
    requires Delayed(Run(c, START, actions).history, Slack(c.w)) && hi <= lo + c.w
    ensures AllowedBetween(Run(c, START, actions).history, key, lo, hi) <= 2 * c.max
  {
    hide Run, Slack;
    var history := Run(c, START, actions).history;
    RunKeeps(c, actions);
    WindowSplits(history, key, lo, hi, c.w);
    BucketLimit(history, key, Bucket(lo, c.w), c.max, c.w);
    BucketLimit(history, key, Bucket(lo, c.w) + 1, c.max, c.w);
  }

  function Repeat(a: Action, n: nat): seq<Action> {
    if n == 0 then [] else Repeat(a, n - 1) + [a]
  }

  lemma {:induction false} RunConcat(c: Limits, s: State, a: seq<Action>, b: seq<Action>)
    ensures Run(c, s, a + b) == Run(c, Run(c, s, a), b)
  {
    hide Step;
    if b == [] {
      assert a + b == a;
    } else {
      var n := |b| - 1;
      RunConcat(c, s, a, b[..n]);
      assert (a + b)[..|a + b| - 1] == a + b[..n];
    }
  }

  lemma RunOne(c: Limits, s: State, a: Action)
    ensures Run(c, s, [a]) == Step(c, s, a)
  {
    hide Step;
    assert [a][..0] == [];
  }

  /** What n calls without delay do, in a bucket where the key has not called yet. */
  ghost predicate Bursted(c: Limits, s: State, t: State, key: string, n: nat)
    requires s.now >= 0.0
  {
    BucketNat(s.now, c.w);
    var b := Bucket(s.now, c.w);
    && t.now == s.now && Inv(c, t) && Delayed(t.history, Slack(c.w))
    && Attempts(t.history, key, b, c.w) == n
    && AllowedIn(t.history, key, b, c.w) == AllowedIn(s.history, key, b, c.w) + n
    && (forall other :: other != b ==> Attempts(t.history, key, other, c.w) == Attempts(s.history, key, other, c.w))
    && (forall lo, hi :: AllowedBetween(t.history, key, lo, hi)
                         == AllowedBetween(s.history, key, lo, hi) + if lo <= s.now < hi then n else 0)
    && (n > 0 ==> RedisKey(key, b) in t.store
                  && t.store[RedisKey(key, b)].expiresAt == Some(s.now + Ceil(c.w) as real))
  }

  lemma BurstStep(c: Limits, s: State, t: State, key: string, n: nat)
    requires s.now >= 0.0 && n < c.max && Bursted(c, s, t, key, n)
    ensures Bursted(c, s, Step(c, t, Call(key, s.now, false)), key, n + 1)
  {
    BucketNat(s.now, c.w);
    SlackNat(c.w);
    var b := Bucket(s.now, c.w);
    AllowKeeps(c, t, key, s.now, false);
    var t' := Step(c, t, Call(key, s.now, false));
    hide Inv, Bucket, Attempts, AllowedIn, AllowedBetween, RedisKey, Slack, Ceil;
    var a := Attempt(key, s.now, s.now, false, true);
    assert t'.history == t.history + [a];
    AttemptsAppend(t.history, a, key, b, c.w);
    forall other | other != b ensures Attempts(t'.history, key, other, c.w) == Attempts(s.history, key, other, c.w) {
      AttemptsAppend(t.history, a, key, other, c.w);
    }
    forall lo, hi ensures AllowedBetween(t'.history, key, lo, hi)
                          == AllowedBetween(s.history, key, lo, hi) + if lo <= s.now < hi then n + 1 else 0 {
      BetweenAppend(t.history, a, key, lo, hi);
    }
  }

  lemma SlackNat(w: Window)
    ensures Slack(w) >= 0.0
  {
    CeilRoundsUp(w);
  }

  lemma {:induction false} Burst(c: Limits, s: State, key: string, n: nat)
    requires s.now >= 0.0 && n <= c.max && Inv(c, s) && Delayed(s.history, Slack(c.w))
    requires Attempts(s.history, key, Bucket(s.now, c.w), c.w) == 0
    ensures Bursted(c, s, Run(c, s, Repeat(Call(key, s.now, false), n)), key, n)
  {
    hide Inv, Step, Bucket, Attempts, AllowedIn, AllowedBetween, RedisKey, Slack, Ceil;
    if n > 0 {
      Burst(c, s, key, n - 1);
      hide Bursted;
      var before := Repeat(Call(key, s.now, false), n - 1);
      BurstStep(c, s, Run(c, s, before), key, n - 1);
      assert (before + [Call(key, s.now, false)])[..|before|] == before;
    }
  }

  /** `max` calls in the middle of the first bucket, then `max` as the second begins. */
  function BurstActions(c: Limits, key: string): seq<Action> {
    [Advance(c.w / 2.0)] + Repeat(Call(key, c.w / 2.0, false), c.max)
    + ([Advance(c.w)] + Repeat(Call(key, c.w, false), c.max))
  }

  lemma BurstBuckets(w: Window)
    ensures Bucket(w / 2.0, w) == 0 && Bucket(w, w) == 1
  {
    assert w / w == 1.0;
    assert (w / 2.0) / w == 0.5;
  }

  /** The first half: the bucket of w / 2 is full. */
  lemma HalfBurst(c: Limits, key: string)
    ensures var s := START.(now := c.w / 2.0);
            Bursted(c, s, Run(c, START, [Advance(c.w / 2.0)] + Repeat(Call(key, c.w / 2.0, false), c.max)), key, c.max)
  {
    hide Inv, Step, Bucket, RedisKey, Slack, Ceil, Bursted;
    var s := START.(now := c.w / 2.0);
    StartInv(c);
    AdvanceKeeps(c, START, c.w / 2.0);
    Burst(c, s, key, c.max);
    RunOne(c, START, Advance(c.w / 2.0));
    RunConcat(c, START, [Advance(c.w / 2.0)], Repeat(Call(key, c.w / 2.0, false), c.max));
  }

  /** Twice `max` is reached by calls without any delay, so the bound is exact. */
  lemma WindowLimitReached(c: Limits, key: string)
    ensures var history := Run(c, START, BurstActions(c, key)).history;
            && Delayed(history, Slack(c.w))
            && AllowedBetween(history, key, c.w / 2.0, c.w / 2.0 + c.w) == 2 * c.max
  {
    hide Inv, Step, Run, Bucket, RedisKey, Slack, Ceil, Attempts, AllowedIn;
    BurstBuckets(c.w);
    HalfBurst(c, key);
    var first, second := [Advance(c.w / 2.0)] + Repeat(Call(key, c.w / 2.0, false), c.max),
                         Repeat(Call(key, c.w, false), c.max);
    var full := Run(c, START, first);
    NoAttempts(key, 1, c.w);
    AdvanceKeeps(c, full, c.w);
    var later := full.(now := c.w);
    Burst(c, later, key, c.max);
    RunOne(c, full, Advance(c.w));
    RunConcat(c, full, [Advance(c.w)], second);
    RunConcat(c, START, first, [Advance(c.w)] + second);
    NothingBetween(key, c.w / 2.0, c.w / 2.0 + c.w);
  }

  lemma NoAttempts(key: string, bucket: int, w: Window)
    ensures Attempts([], key, bucket, w) == 0 && AllowedIn([], key, bucket, w) == 0
  {
  }

  lemma NothingBetween(key: string, lo: real, hi: real)
    ensures AllowedBetween([], key, lo, hi) == 0
  {
  }

  // ------------------------------------------------------------ exactly how prompt calls must be

  /** At most `max` attempts per key and bucket, whatever happens, if no INCR lags by more than d. */
  ghost predicate LimitsBuckets(c: Limits, d: real) {
    forall actions, key, bucket ::
      Delayed(Run(c, START, actions).history, d) ==>
        AllowedIn(Run(c, START, actions).history, key, bucket, c.w) <= c.max
  }

  /** `max` calls as the clock starts; one more that read the clock in the same bucket but whose INCR
      comes when the counter has just expired. */
  function LateActions(c: Limits, key: string, at: real): seq<Action> {
    Repeat(Call(key, 0.0, false), c.max) + ([Advance(Ceil(c.w) as real)] + [Call(key, at, false)])
  }

  lemma LateIncr(c: Limits, s: State, key: string, at: real)
    requires 0.0 <= at <= s.now == Ceil(c.w) as real && Bucket(at, c.w) == 0 && c.max >= 1
    requires RedisKey(key, 0) in s.store && s.store[RedisKey(key, 0)].expiresAt == Some(Ceil(c.w) as real)
    ensures Step(c, s, Call(key, at, false)).history == s.history + [Attempt(key, at, s.now, false, true)]
  {
    hide Bucket, RedisKey, Ceil;
  }

  lemma ZeroBucket(at: real, w: Window)
    requires 0.0 <= at < w
    ensures Bucket(at, w) == 0
  {
    hide Bucket, Start;
    BucketSpan(at, w);
    BucketNat(at, w);
    StartOfFirst(w);
    NextStart(0, w);
    if Bucket(at, w) >= 1 {
      StartsInOrder(1, Bucket(at, w), w);
      assert false;
    }
  }

  lemma LateRuns(c: Limits, key: string, at: real)
    ensures var full := Run(c, START, Repeat(Call(key, 0.0, false), c.max));
            Run(c, START, LateActions(c, key, at))
            == Step(c, Step(c, full, Advance(Ceil(c.w) as real)), Call(key, at, false))
  {
    hide Step, Run, Ceil;
    var first, wait, last := Repeat(Call(key, 0.0, false), c.max), Advance(Ceil(c.w) as real), Call(key, at, false);
    var full := Run(c, START, first);
    RunConcat(c, START, first, [wait] + [last]);
    RunConcat(c, full, [wait], [last]);
    RunOne(c, full, wait);
    RunOne(c, Step(c, full, wait), last);
  }

  /** The bucket at time zero once it is full. */
  lemma FullBucket(c: Limits, key: string)
    requires c.max >= 1
    ensures var full := Run(c, START, Repeat(Call(key, 0.0, false), c.max));
            && full.now == 0.0 && Inv(c, full) && Delayed(full.history, 0.0)
            && AllowedIn(full.history, key, 0, c.w) == c.max
            && RedisKey(key, 0) in full.store && full.store[RedisKey(key, 0)].expiresAt == Some(Ceil(c.w) as real)
  {
    hide Inv, Step, Run, Bucket, RedisKey, Ceil, Attempts, AllowedIn, AllowedBetween, Delayed;
    StartInv(c);
    NoAttempts(key, 0, c.w);
    ZeroBucket(0.0, c.w);
    NoDelays(Slack(c.w));
    Burst(c, START, key, c.max);
    BurstUndelayed(c, key, c.max);
  }

  lemma NoDelays(d: real)
    ensures Delayed([], d)
  {
  }

  lemma LateBreaks(c: Limits, key: string, at: real, d: real)
    requires c.max >= 1 && 0.0 <= at < c.w && d >= 0.0 && Ceil(c.w) as real - at <= d
    ensures var history := Run(c, START, LateActions(c, key, at)).history;
            Delayed(history, d) && AllowedIn(history, key, 0, c.w) == c.max + 1
  {
    hide Inv, Step, Run, Bucket, RedisKey, Ceil, Attempts, AllowedIn, LateActions, Repeat;
    ZeroBucket(at, c.w);
    CeilRoundsUp(c.w);
    FullBucket(c, key);
    LateRuns(c, key, at);
    var full := Run(c, START, Repeat(Call(key, 0.0, false), c.max));
    AdvanceKeeps(c, full, Ceil(c.w) as real);
    var later := full.(now := Ceil(c.w) as real);
    LateIncr(c, later, key, at);
    AttemptsAppend(full.history, Attempt(key, at, later.now, false, true), key, 0, c.w);
  }

  lemma {:induction false} BurstUndelayed(c: Limits, key: string, n: nat)
    ensures var t := Run(c, START, Repeat(Call(key, 0.0, false), n)); t.now == 0.0 && Delayed(t.history, 0.0)
  {
    hide Bucket, RedisKey, Incr, Stamped;
    if n > 0 {
      BurstUndelayed(c, key, n - 1);
      var before := Repeat(Call(key, 0.0, false), n - 1);
      assert (before + [Call(key, 0.0, false)])[..|before|] == before;
    }
  }

  /** The limit per bucket holds exactly when calls never lag by more than the rounding of the
      counter's lifetime: not at all when the window is a whole number of seconds. */
  lemma {:induction false} BucketLimitExactly(c: Limits, d: real)
    requires c.max >= 1
    ensures LimitsBuckets(c, d) <==> d <= Slack(c.w)
  {
    hide Run, AllowedIn, Ceil;
    if d <= Slack(c.w) {
      forall actions, key, bucket | Delayed(Run(c, START, actions).history, d)
        ensures AllowedIn(Run(c, START, actions).history, key, bucket, c.w) <= c.max
      {
        RunKeeps(c, actions);
        BucketLimit(Run(c, START, actions).history, key, bucket, c.max, c.w);
      }
    } else {
      SlackNat(c.w);
      CeilRoundsUp(c.w);
      var ceil := Ceil(c.w) as real;
      LateBreaks(c, "", if d >= ceil then 0.0 else ceil - d, d);
    }
  }

  // ------------------------------------------------------------ the limiter

  /** One limiter on one store, and one clock that does not run backwards. */
  class Limiter {
    const c: Limits
    var now: real
    var store: Store
    ghost var history: seq<Attempt>

    ghost function View(): State
      reads this
    {
      State(now, store, history)
    }

    constructor (max: nat, w: Window)
      ensures View() == START && c == Limits(max, w)
    {
      c := Limits(max, w);
      now, store, history := 0.0, map[], [];
    }

    method Wait(to: real)
      modifies `now
      ensures View() == Step(c, old(View()), Advance(to))
    {
      if to > now {
        now := to;
      }
    }

    /** `allow`, from its INCR on; `at` is what `time.time()` returned.  A prompt call that is the
        n-th of its key and bucket is let in exactly when n <= max.  When the EXPIRE is lost the call
        raises, and the counter stays without an expiry. */
    method Admit(key: string, at: real, expireLost: bool) returns (r: Option<bool>)
      requires 0.0 <= at <= now
      modifies `store, `history
      ensures View() == Step(c, old(View()), Call(key, at, expireLost))
      ensures history == old(history) + [Attempt(key, at, now, expireLost, r == Some(true))]
      ensures && Bucket(at, c.w) >= 0
              && var k := RedisKey(key, Bucket(at, c.w));
                 && k in store
                 && Counted(old(store), store, k, now, Ceil(c.w) as real, expireLost, store[k].count)
                 && r == if store[k].count == 1 && expireLost then None else Some(store[k].count <= c.max)
      ensures Inv(c, old(View())) && now - at <= Slack(c.w) ==>
                var n := Attempts(old(history), key, Bucket(at, c.w), c.w) + 1;
                Inv(c, View()) && r == if n == 1 && expireLost then None else Some(n <= c.max)
    {
      hide Inv, RedisKey, Ceil, Slack, Bucket, Attempts;
      BucketNat(at, c.w);
      var k := RedisKey(key, Bucket(at, c.w));
      var counter := Incr(store, k, now);
      var attempts := counter.count;
      ghost var before := View();
      if Inv(c, before) && now - at <= Slack(c.w) {
        AllowKeeps(c, before, key, at, expireLost);
      }
      store := store[k := counter];
      r := Some(attempts <= c.max);
      if attempts == 1 {
        if expireLost {
          r := None;
        } else {
          store := store[k := counter.(expiresAt := Some(now + Ceil(c.w) as real))];
        }
      }
      assert store == before.store[k := Stamped(counter, now, c.w, expireLost)];
      history := history + [Attempt(key, at, now, expireLost, r == Some(true))];
    }

    /** One move of the clock or of another call. */
    method Act(a: Action)
      modifies `now, `store, `history
      ensures View() == Step(c, old(View()), a)
    {
      hide Bucket, RedisKey, Incr, Stamped, Inv, Slack;
      match a
      case Advance(to) => Wait(to);
      case Call(key, at, lost) =>
        if 0.0 <= at <= now {
          var _ := Admit(key, at, lost);
        }
    }

    /** `allow`: reads the clock, and increments after whatever the clock and the other calls do. */
    method Allow(key: string, expireLost: bool, env: seq<Action>) returns (r: Option<bool>)
      requires now >= 0.0
      modifies `now, `store, `history
      ensures View() == Run(c, old(View()), env + [Call(key, old(now), expireLost)])
      ensures history != [] && history[|history| - 1].allowed == (r == Some(true))
    {
      hide Step, Run;
      ghost var start := View();
      var at := now;
      RunEmpty(c, start);
      assert env[..0] == [];
      for i := 0 to |env|
        invariant View() == Run(c, start, env[..i]) && now >= at
      {
        ClockAdvances(c, View(), env[i]);
        RunSnoc(c, start, env[..i], env[i]);
        assert env[..i + 1] == env[..i] + [env[i]];
        Act(env[i]);
      }
      assert env[..|env|] == env;
      RunSnoc(c, start, env, Call(key, at, expireLost));
      r := Admit(key, at, expireLost);
    }
  }

  lemma RunEmpty(c: Limits, s: State)
    ensures Run(c, s, []) == s
  {
  }

  lemma RunSnoc(c: Limits, s: State, actions: seq<Action>, a: Action)
    ensures Run(c, s, actions + [a]) == Step(c, Run(c, s, actions), a)
  {
    hide Step;
    assert (actions + [a])[..|actions|] == actions;
  }

  lemma ClockAdvances(c: Limits, s: State, a: Action)
    ensures Step(c, s, a).now >= s.now
  {
    hide Bucket, RedisKey, Incr, Stamped;
  }
}
