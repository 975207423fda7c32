/** Statistics of the sorted dialer (core/dialer.go:332-403, 406-425, 428-509): the counters its
    concurrent dials and tests keep, its order of dialers, and the summary of a test round. */
module SortedDialer {
  import opened OptionType

  // ---------- counters ----------

  /** Go maps read as zero where they hold nothing. */
  function At(m: map<string, int>, k: string): int { if k in m then m[k] else 0 }

  /** Integer division of Go, which truncates toward zero. */
  function GoDiv(a: int, b: int): int
    requires b > 0
  {
    if a >= 0 then a / b else -(-a / b)
  }

  datatype Counters = Counters(
    tries: map<string, int>, errs: map<string, int>,
    used: map<string, int>, avg: map<string, int>, rate: map<string, real>)

  const Zero := Counters(map[], map[], map[], map[], map[])

  /** The lock sections of `Dial`, and of `Test` for one dialer. */
  datatype Event =
    | Begin(key: string)              // tryCount[key]++
    | Succeed(key: string, ms: int)   // the dial came back without an error
    | Fail(key: string)               // ... or with one
    | TestOk(key: string, ms: int)
    | TestFail(key: string)

  function Bump(m: map<string, int>, k: string, n: int): map<string, int> { m[k := At(m, k) + n] }

  function Rate(c: Counters, k: string): real
    requires At(c.tries, k) > 0
  {
    At(c.errs, k) as real / At(c.tries, k) as real
  }

  /** The average is taken over the tries that have not failed, so there must be one. */
  predicate CanAverage(c: Counters, k: string) { 0 <= At(c.errs, k) < At(c.tries, k) }

  function Averaged(c: Counters, k: string, ms: int): Counters
    requires CanAverage(c, k)
  {
    var u := Bump(c.used, k, ms);
    c.(used := u, avg := c.avg[k := GoDiv(u[k], At(c.tries, k) - At(c.errs, k))], rate := c.rate[k := Rate(c, k)])
  }

  function Failed(c: Counters, k: string): Counters
    requires At(c.tries, k) > 0
  {
    var d := c.(errs := Bump(c.errs, k, 1));
    d.(rate := d.rate[k := Rate(d, k)])
  }

  /** `None` is a division by zero. */
  function Step(c: Counters, e: Event): Option<Counters> {
    match e
    case Begin(k) => Some(c.(tries := Bump(c.tries, k, 1)))
    case Succeed(k, ms) => if CanAverage(c, k) then Some(Averaged(c, k, ms)) else None
    case Fail(k) => if At(c.tries, k) > 0 then Some(Failed(c, k)) else None
    case TestOk(k, ms) =>
      var d := c.(tries := Bump(c.tries, k, 1));
      if CanAverage(d, k) then Some(Averaged(d, k, ms)) else None
    case TestFail(k) =>
      var d := c.(tries := Bump(c.tries, k, 1));
      if At(d.tries, k) > 0 then Some(Failed(d, k)) else None
  }

  function RunFrom(c: Counters, events: seq<Event>): Option<Counters> {
    if events == [] then Some(c)
    else
      var before := RunFrom(c, events[..|events| - 1]);
      if before.None? then None else Step(before.value, events[|events| - 1])
  }

  /** How many events of a run are of this kind, for this dialer. */
  function Count(events: seq<Event>, k: string, kind: Event -> bool): nat {
    if events == [] then 0
    else
      var last := events[|events| - 1];
      Count(events[..|events| - 1], k, kind) + if last.key == k && kind(last) then 1 else 0
  }

  function Begun(events: seq<Event>, k: string): nat { Count(events, k, (e: Event) => e.Begin?) }
  function Errors(events: seq<Event>, k: string): nat { Count(events, k, (e: Event) => e.Fail? || e.TestFail?) }
  function Successes(events: seq<Event>, k: string): nat { Count(events, k, (e: Event) => e.Succeed? || e.TestOk?) }
  function Ended(events: seq<Event>, k: string): nat { Count(events, k, (e: Event) => e.Succeed? || e.Fail?) }

  /** The milliseconds of its successes. */
  function Millis(events: seq<Event>, k: string): int {
    if events == [] then 0
    else
      var last := events[|events| - 1];
      Millis(events[..|events| - 1], k) + if last.key == k && (last.Succeed? || last.TestOk?) then last.ms else 0
  }

  /** The dials of this dialer that have begun and not ended. */
  function InFlight(events: seq<Event>, k: string): int { Begun(events, k) - Ended(events, k) }

  /** An interleaving of dials and tests: a dial ends only after it has begun, once. */
  ghost predicate Interleaving(events: seq<Event>) {
    forall n, k :: 0 <= n <= |events| ==> InFlight(events[..n], k) >= 0
  }

  lemma InterleavingPrefix(events: seq<Event>)
    requires Interleaving(events) && events != []
    ensures Interleaving(events[..|events| - 1])
    ensures forall k :: InFlight(events, k) >= 0
  {
    var front := events[..|events| - 1];
    forall n, k | 0 <= n <= |front|
      ensures InFlight(front[..n], k) >= 0
    {
      assert front[..n] == events[..n];
    }
    assert events[..|events|] == events;
  }

  /** What one more event does to the counts of its dialer, and of no other. */
  lemma CountsSnoc(front: seq<Event>, e: Event, k: string)
    ensures var events := front + [e];
            && Begun(events, k) == Begun(front, k) + (if e.key == k && e.Begin? then 1 else 0)
            && Errors(events, k) == Errors(front, k) + (if e.key == k && (e.Fail? || e.TestFail?) then 1 else 0)
            && Successes(events, k) == Successes(front, k) + (if e.key == k && (e.Succeed? || e.TestOk?) then 1 else 0)
            && Ended(events, k) == Ended(front, k) + (if e.key == k && (e.Succeed? || e.Fail?) then 1 else 0)
            && Millis(events, k) == Millis(front, k) + (if e.key == k && (e.Succeed? || e.TestOk?) then e.ms else 0)
  {
    assert (front + [e])[..|front|] == front;
  }

  /** The counters say what has happened: tries are errors, successes and dials in flight. */
  ghost predicate Accounts(c: Counters, events: seq<Event>, k: string) {
    && At(c.errs, k) == Errors(events, k)
    && At(c.tries, k) == Errors(events, k) + Successes(events, k) + InFlight(events, k)
    && At(c.used, k) == Millis(events, k)
    && (k in c.rate ==> 0.0 <= c.rate[k] <= 1.0)
  }

  lemma RateIsFraction(e: int, t: int)
    requires 0 <= e <= t && t > 0
    ensures 0.0 <= e as real / t as real <= 1.0
  {
  }

  lemma StepAccountsAt(c: Counters, front: seq<Event>, e: Event, k: string)
    requires Accounts(c, front, e.key) && Accounts(c, front, k)
    requires InFlight(front, e.key) >= 0 && InFlight(front + [e], e.key) >= 0
    ensures Step(c, e).Some? && Accounts(Step(c, e).value, front + [e], k)
  {
    CountsSnoc(front, e, e.key);
    CountsSnoc(front, e, k);
    hide Count, Begun, Errors, Successes, Ended, Millis;
    assert Step(c, e).Some?;
    var d := Step(c, e).value;
    if At(d.tries, e.key) > 0 {
      RateIsFraction(At(d.errs, e.key), At(d.tries, e.key));
    }
  }

  lemma StepAccounts(c: Counters, front: seq<Event>, e: Event)
    requires forall k :: Accounts(c, front, k)
    requires forall k :: InFlight(front, k) >= 0 && InFlight(front + [e], k) >= 0
    ensures Step(c, e).Some? && forall k :: Accounts(Step(c, e).value, front + [e], k)
  {
    hide Accounts, InFlight, Step;
    StepAccountsAt(c, front, e, e.key);
    forall k
      ensures Accounts(Step(c, e).value, front + [e], k)
    {
      StepAccountsAt(c, front, e, k);
    }
  }

  /** Dialer accounting, over every interleaving of dials and tests: no division is by zero, and
      counters, counts and error rates agree for every dialer. */
  lemma {:induction false} DialerAccounting(events: seq<Event>)
    requires Interleaving(events)
    ensures RunFrom(Zero, events).Some? && forall k :: Accounts(RunFrom(Zero, events).value, events, k)
    decreases |events|
  {
    if events != [] {
      var front, last := events[..|events| - 1], events[|events| - 1];
      InterleavingPrefix(events);
      DialerAccounting(front);
      assert events == front + [last];
      forall k
        ensures InFlight(front, k) >= 0
      {
        assert front[..|front|] == front;
      }
      StepAccounts(RunFrom(Zero, front).value, front, last);
    }
  }

  /** The quotient of Go: `q` is `a / b` without its fraction. */
  predicate IsTruncated(q: int, a: int, b: int) {
    if a >= 0 then q * b <= a < (q + 1) * b else (q - 1) * b < a <= q * b
  }

  lemma GoDivTruncates(a: int, b: int)
    requires b > 0
    ensures IsTruncated(GoDiv(a, b), a, b)
  {
    var m := if a >= 0 then a else -a;
    assert m == m / b * b + m % b;
    if a < 0 {
      assert -(m / b) * b == -(m / b * b);
      assert (-(m / b) - 1) * b == -(m / b * b) - b;
    } else {
      assert (m / b + 1) * b == m / b * b + b;
    }
  }

  predicate IsRate(r: real, errors: int, tries: int) { r * tries as real == errors as real }

  lemma RateTimesTries(e: int, t: int)
    requires t > 0
    ensures IsRate(e as real / t as real, e, t)
  {
  }

  /** What an event leaves of the figures of another dialer, or of one it does not measure. */
  predicate SameFigures(c: Counters, d: Counters, k: string) {
    SameAt(c.rate, d.rate, k) && SameAt(c.avg, d.avg, k)
  }

  predicate SameAt<T(==)>(m: map<string, T>, m': map<string, T>, k: string) {
    (k in m' <==> k in m) && (k in m ==> m'[k] == m[k])
  }

  lemma AveragedFigures(c: Counters, k: string, ms: int)
    requires CanAverage(c, k)
    ensures var d := Averaged(c, k, ms);
            && (forall x :: x != k ==> SameAt(c.rate, d.rate, x) && SameAt(c.avg, d.avg, x))
            && d.tries == c.tries && d.errs == c.errs
            && k in d.rate && IsRate(d.rate[k], At(d.errs, k), At(d.tries, k))
            && k in d.avg && IsTruncated(d.avg[k], At(d.used, k), At(d.tries, k) - At(d.errs, k))
  {
    hide IsTruncated, GoDiv;
    RateTimesTries(At(c.errs, k), At(c.tries, k));
    GoDivTruncates(At(c.used, k) + ms, At(c.tries, k) - At(c.errs, k));
  }

  lemma FailedFigures(c: Counters, k: string)
    requires At(c.tries, k) > 0
    ensures var d := Failed(c, k);
            && (forall x :: x != k ==> SameAt(c.rate, d.rate, x)) && d.tries == c.tries && d.avg == c.avg
            && k in d.rate && IsRate(d.rate[k], At(d.errs, k), At(d.tries, k))
  {
    RateTimesTries(At(c.errs, k) + 1, At(c.tries, k));
  }

  /** The figures a lock section sets, by the counters it leaves. */
  lemma StepFigures(c: Counters, e: Event)
    requires Step(c, e).Some?
    ensures var d, k := Step(c, e).value, e.key;
            && (forall x :: x != k || e.Begin? ==> SameFigures(c, d, x))
            && (!e.Begin? ==>
                  && k in d.rate && At(d.tries, k) > 0
                  && IsRate(d.rate[k], At(d.errs, k), At(d.tries, k)))
            && (e.Fail? || e.TestFail? ==> d.avg == c.avg)
            && (e.Succeed? || e.TestOk? ==>
                  k in d.avg && At(d.tries, k) > At(d.errs, k)
                  && IsTruncated(d.avg[k], At(d.used, k), At(d.tries, k) - At(d.errs, k)))
  {
    hide IsTruncated, Averaged, Failed;
    var k := e.key;
    var d := c.(tries := Bump(c.tries, k, 1));
    match e
    case Begin(_) =>
    case Succeed(_, ms) => AveragedFigures(c, k, ms);
    case Fail(_) => FailedFigures(c, k);
    case TestOk(_, ms) => AveragedFigures(d, k, ms);
    case TestFail(_) => FailedFigures(d, k);
  }

  lemma TriesAre(c: Counters, events: seq<Event>, k: string)
    requires Accounts(c, events, k)
    ensures At(c.errs, k) == Errors(events, k) && At(c.used, k) == Millis(events, k)
    ensures At(c.tries, k) == Errors(events, k) + (Successes(events, k) + InFlight(events, k))
  {
  }

  lemma FiguresFollow(events: seq<Event>, e: Event)
    requires Interleaving(events + [e])
    ensures RunFrom(Zero, events).Some? && RunFrom(Zero, events + [e]).Some?
    ensures var c, d := RunFrom(Zero, events).value, RunFrom(Zero, events + [e]).value;
            var all, k := events + [e], e.key;
            var good := Successes(all, k) + InFlight(all, k);
            && (forall x :: x != k || e.Begin? ==> SameFigures(c, d, x))
            && (!e.Begin? ==> k in d.rate && IsRate(d.rate[k], Errors(all, k), Errors(all, k) + good))
            && (e.Fail? || e.TestFail? ==> d.avg == c.avg)
            && (e.Succeed? || e.TestOk? ==> k in d.avg && good > 0 && IsTruncated(d.avg[k], Millis(all, k), good))
  {
    AccountsAfter(events, e);
    hide *;
    StepFigures(RunFrom(Zero, events).value, e);
    TriesAre(RunFrom(Zero, events + [e]).value, events + [e], e.key);
  }

  /** The figures after each event, over every interleaving. A dial that ends, and a test, sets the error
      rate of its dialer to its errors over its tries, errors, successes and dials in flight; a success also
      sets the average time, to all milliseconds over the tries that have not failed, without the fraction.
      A dial that begins, and any event of another dialer, leaves rate and average alone. */
  lemma FiguresAfter(events: seq<Event>, e: Event)
    requires Interleaving(events + [e])
    ensures RunFrom(Zero, events).Some? && RunFrom(Zero, events + [e]).Some?
    ensures var c, d := RunFrom(Zero, events).value, RunFrom(Zero, events + [e]).value;
            var all, k := events + [e], e.key;
            var good := Successes(all, k) + InFlight(all, k);
            && (forall x :: x != k || e.Begin? ==>
                  && (x in d.rate <==> x in c.rate) && (x in c.rate ==> d.rate[x] == c.rate[x])
                  && (x in d.avg <==> x in c.avg) && (x in c.avg ==> d.avg[x] == c.avg[x]))
            && (!e.Begin? ==>
                  k in d.rate && d.rate[k] * (Errors(all, k) + good) as real == Errors(all, k) as real)
            && (e.Fail? || e.TestFail? ==> d.avg == c.avg)
            && (e.Succeed? || e.TestOk? ==>
                  && k in d.avg && good > 0
                  && var q, m := d.avg[k], Millis(all, k);
                     if m >= 0 then q * good <= m < (q + 1) * good else (q - 1) * good < m <= q * good)
  {
    hide RunFrom, Interleaving, Errors, Successes, InFlight, Millis;
    FiguresFollow(events, e);
    var c, d := RunFrom(Zero, events).value, RunFrom(Zero, events + [e]).value;
    forall x | x != e.key || e.Begin?
      ensures (x in d.rate <==> x in c.rate) && (x in c.rate ==> d.rate[x] == c.rate[x])
      ensures (x in d.avg <==> x in c.avg) && (x in c.avg ==> d.avg[x] == c.avg[x])
    {
      assert SameFigures(c, d, x);
    }
  }

  lemma AccountsAfter(events: seq<Event>, e: Event)
    requires Interleaving(events + [e])
    ensures RunFrom(Zero, events).Some? && RunFrom(Zero, events + [e]).Some?
    ensures Step(RunFrom(Zero, events).value, e) == RunFrom(Zero, events + [e])
    ensures Accounts(RunFrom(Zero, events + [e]).value, events + [e], e.key)
  {
    var all := events + [e];
    assert all[..|events|] == events && all[|events|] == e;
    InterleavingPrefix(all);
    DialerAccounting(events);
    DialerAccounting(all);
  }

  // ---------- order ----------

  datatype Stat = Stat(rate: real, avg: int)

  predicate Less(tol: real, x: Stat, y: Stat) {
    if x.rate < y.rate then y.rate - x.rate > tol || x.avg < y.avg
    else x.rate - y.rate < tol && x.avg < y.avg
  }

  lemma LessIsStrict(tol: real, x: Stat, y: Stat)
    ensures !Less(tol, x, x) && !(Less(tol, x, y) && Less(tol, y, x))
  {
  }

  /** Three error rates, the outer two apart and the middle one near both. */
  predicate Bridge(tol: real, u: real, v: real, w: real) {
    && u <= v <= w
    && ((w - u > tol && w - v < tol && v - u <= tol)
        || (w - u > tol && v - u < tol && w - v <= tol)
        || (w - u == tol && w - v < tol && v - u < tol))
  }

  ghost predicate NoBridge(tol: real, rates: seq<real>) {
    forall i, j, k :: 0 <= i < |rates| && 0 <= j < |rates| && 0 <= k < |rates| ==>
      !Bridge(tol, rates[i], rates[j], rates[k])
  }

  ghost predicate Transitive(tol: real, rates: seq<real>, avgs: seq<int>)
    requires |avgs| == |rates|
  {
    forall i, j, k :: 0 <= i < |rates| && 0 <= j < |rates| && 0 <= k < |rates| ==>
      Less(tol, Stat(rates[i], avgs[i]), Stat(rates[j], avgs[j])) &&
      Less(tol, Stat(rates[j], avgs[j]), Stat(rates[k], avgs[k])) ==>
      Less(tol, Stat(rates[i], avgs[i]), Stat(rates[k], avgs[k]))
  }

  lemma NoBridgeIsTransitive(tol: real, x: Stat, y: Stat, z: Stat)
    requires tol >= 0.0 && Less(tol, x, y) && Less(tol, y, z) && !Less(tol, x, z)
    ensures || Bridge(tol, z.rate, y.rate, x.rate) || Bridge(tol, x.rate, z.rate, y.rate)
            || Bridge(tol, y.rate, x.rate, z.rate)
  {
  }

  /** Average times under which a bridge breaks transitivity. */
  lemma BridgeBreaks(tol: real, u: real, v: real, w: real) returns (a: int, b: int, c: int)
    requires tol >= 0.0 && Bridge(tol, u, v, w)
    ensures var x, y, z := Stat(u, a), Stat(v, b), Stat(w, c);
            || (Less(tol, x, z) && Less(tol, z, y) && !Less(tol, x, y))
            || (Less(tol, y, x) && Less(tol, x, z) && !Less(tol, y, z))
            || (Less(tol, z, y) && Less(tol, y, x) && !Less(tol, z, x))
  {
    if w - u > tol && w - v < tol && v - u <= tol {
      a, b, c := 1, 1, 0;
    } else if w - u > tol {
      a, b, c := 1, 0, 0;
    } else {
      a, b, c := 2, 1, 0;
    }
  }

  lemma TransitiveWithoutBridge(tol: real, rates: seq<real>, avgs: seq<int>)
    requires tol >= 0.0 && |avgs| == |rates| && NoBridge(tol, rates)
    ensures Transitive(tol, rates, avgs)
  {
    hide Less, Bridge;
    forall i, j, k | 0 <= i < |rates| && 0 <= j < |rates| && 0 <= k < |rates|
      ensures
        Less(tol, Stat(rates[i], avgs[i]), Stat(rates[j], avgs[j])) &&
        Less(tol, Stat(rates[j], avgs[j]), Stat(rates[k], avgs[k])) ==>
        Less(tol, Stat(rates[i], avgs[i]), Stat(rates[k], avgs[k]))
    {
      var x, y, z := Stat(rates[i], avgs[i]), Stat(rates[j], avgs[j]), Stat(rates[k], avgs[k]);
      if Less(tol, x, y) && Less(tol, y, z) && !Less(tol, x, z) {
        NoBridgeIsTransitive(tol, x, y, z);
      }
    }
  }

  lemma BridgeIsNotTransitive(tol: real, rates: seq<real>, i: nat, j: nat, k: nat) returns (avgs: seq<int>)
    requires tol >= 0.0 && i < |rates| && j < |rates| && k < |rates| && Bridge(tol, rates[i], rates[j], rates[k])
    ensures |avgs| == |rates| && !Transitive(tol, rates, avgs)
  {
    BridgeIsDistinct(tol, rates[i], rates[j], rates[k]);
    var a, b, c := BridgeBreaks(tol, rates[i], rates[j], rates[k]);
    hide Less, Bridge;
    avgs := seq(|rates|, n => if n == i then a else if n == j then b else c);
    assert avgs[i] == a && avgs[j] == b && avgs[k] == c;
  }

  /** The dialers' order is transitive, whatever their average times, exactly when no error rate
      bridges two others. */
  lemma TransitiveIffNoBridge(tol: real, rates: seq<real>)
    requires tol >= 0.0
    ensures NoBridge(tol, rates) <==> forall avgs: seq<int> :: |avgs| == |rates| ==> Transitive(tol, rates, avgs)
  {
    hide Transitive, Bridge;
    if NoBridge(tol, rates) {
      forall avgs: seq<int> | |avgs| == |rates|
        ensures Transitive(tol, rates, avgs)
      {
        TransitiveWithoutBridge(tol, rates, avgs);
      }
    } else {
      var i, j, k :|
        && 0 <= i < |rates| && 0 <= j < |rates| && 0 <= k < |rates|
        && Bridge(tol, rates[i], rates[j], rates[k]);
      var avgs := BridgeIsNotTransitive(tol, rates, i, j, k);
    }
  }

  lemma BridgeIsDistinct(tol: real, u: real, v: real, w: real)
    requires tol >= 0.0 && Bridge(tol, u, v, w)
    ensures u < v < w
  {
  }

  /** Rates in clusters narrower than the tolerance and further apart than it. */
  ghost predicate Clustered(tol: real, rates: seq<real>, cluster: seq<int>) {
    && |cluster| == |rates|
    && forall i, j :: 0 <= i < |rates| && 0 <= j < |rates| ==>
         if cluster[i] == cluster[j] then rates[i] - rates[j] < tol
         else if cluster[i] < cluster[j] then rates[j] - rates[i] > tol
         else rates[i] - rates[j] > tol
  }

  /** Then the order is the lexicographic one: cluster first, average time second. */
  lemma ClusteredIsLexicographic(tol: real, rates: seq<real>, cluster: seq<int>, avgs: seq<int>, i: nat, j: nat)
    requires tol >= 0.0 && Clustered(tol, rates, cluster) && |avgs| == |rates| && i < |rates| && j < |rates|
    ensures Less(tol, Stat(rates[i], avgs[i]), Stat(rates[j], avgs[j]))
            <==> cluster[i] < cluster[j] || (cluster[i] == cluster[j] && avgs[i] < avgs[j])
  {
  }

  predicate Near(tol: real, u: real, v: real) { -tol < u - v < tol }

  /** The rates that are better than `rates[i]` by more than the tolerance. */
  ghost function BetterThan(tol: real, rates: seq<real>, i: nat): set<nat>
    requires i < |rates|
  {
    set k: nat | k < |rates| && rates[i] - rates[k] > tol
  }

  lemma SameBetter(tol: real, rates: seq<real>, i: nat, j: nat)
    requires Clusterable(tol, rates) && i < |rates| && j < |rates| && Near(tol, rates[i], rates[j])
    ensures BetterThan(tol, rates, i) == BetterThan(tol, rates, j)
  {
    forall k: nat | k < |rates|
      ensures rates[i] - rates[k] > tol <==> rates[j] - rates[k] > tol
    {
      assert Near(tol, rates[i], rates[k]) <==> Near(tol, rates[j], rates[k]);
    }
  }

  lemma MoreBetter(tol: real, rates: seq<real>, i: nat, j: nat)
    requires tol > 0.0 && i < |rates| && j < |rates| && rates[j] - rates[i] > tol
    ensures |BetterThan(tol, rates, i)| < |BetterThan(tol, rates, j)|
  {
    var a, b := BetterThan(tol, rates, i), BetterThan(tol, rates, j);
    assert i in b && a <= b - {i};
    SubsetSize(a, b - {i});
  }

  lemma {:induction false} SubsetSize(a: set<nat>, b: set<nat>)
    requires a <= b
    ensures |a| <= |b|
  {
    if x :| x in a {
      SubsetSize(a - {x}, b - {x});
    }
  }

  /** No two rates are as far apart as the tolerance, and what is near a near one is near. */
  ghost predicate Clusterable(tol: real, rates: seq<real>) {
    && (forall i, j :: 0 <= i < |rates| && 0 <= j < |rates| ==> rates[i] - rates[j] != tol)
    && (forall i, j, k :: 0 <= i < |rates| && 0 <= j < |rates| && 0 <= k < |rates| ==>
          Near(tol, rates[i], rates[j]) && Near(tol, rates[j], rates[k]) ==> Near(tol, rates[i], rates[k]))
  }

  /** Which rates can be put in clusters. */
  lemma ClusterableIff(tol: real, rates: seq<real>)
    requires tol > 0.0
    ensures (exists cluster :: Clustered(tol, rates, cluster)) <==> Clusterable(tol, rates)
  {
    if cluster :| Clustered(tol, rates, cluster) {
      forall i, j | 0 <= i < |rates| && 0 <= j < |rates|
        ensures Near(tol, rates[i], rates[j]) <==> cluster[i] == cluster[j]
        ensures rates[i] - rates[j] != tol
      {
        assert (rates[i] - rates[j] < tol) || cluster[i] != cluster[j];
      }
    }
    if Clusterable(tol, rates) {
      var cluster := seq(|rates|, i requires 0 <= i < |rates| => |BetterThan(tol, rates, i)|);
      assert Clustered(tol, rates, cluster) by {
        forall i, j | 0 <= i < |rates| && 0 <= j < |rates|
          ensures if cluster[i] == cluster[j] then rates[i] - rates[j] < tol
                  else if cluster[i] < cluster[j] then rates[j] - rates[i] > tol
                  else rates[i] - rates[j] > tol
        {
          ClustersApart(tol, rates, i, j);
        }
      }
    }
  }

  lemma ClustersApart(tol: real, rates: seq<real>, i: nat, j: nat)
    requires tol > 0.0 && Clusterable(tol, rates) && i < |rates| && j < |rates|
    ensures var a, b := |BetterThan(tol, rates, i)|, |BetterThan(tol, rates, j)|;
            if a == b then rates[i] - rates[j] < tol
            else if a < b then rates[j] - rates[i] > tol
            else rates[i] - rates[j] > tol
  {
    hide BetterThan;
    assert rates[i] - rates[j] != tol && rates[j] - rates[i] != tol;
    if rates[j] - rates[i] > tol {
      MoreBetter(tol, rates, i, j);
    } else if rates[i] - rates[j] > tol {
      MoreBetter(tol, rates, j, i);
    } else {
      SameBetter(tol, rates, i, j);
    }
  }

  // ---------- sorting ----------

  function Swapped(keys: seq<string>, i: nat, j: nat): seq<string>
    requires i < |keys| && j < |keys|
  {
    keys[i := keys[j]][j := keys[i]]
  }

  /** The keys after a run of swaps; a swap outside the keys is none. */
  function AfterSwaps(keys: seq<string>, swaps: seq<(nat, nat)>): (r: seq<string>)
    ensures |r| == |keys|
  {
    if swaps == [] then keys
    else
      var r := AfterSwaps(keys, swaps[..|swaps| - 1]);
      var (i, j) := swaps[|swaps| - 1];
      if i < |r| && j < |r| then Swapped(r, i, j) else r
  }

  lemma SwapPermutes(keys: seq<string>, i: nat, j: nat)
    requires i < |keys| && j < |keys|
    ensures multiset(Swapped(keys, i, j)) == multiset(keys)
  {
  }

  lemma {:induction false} SwapsPermute(keys: seq<string>, swaps: seq<(nat, nat)>)
    ensures multiset(AfterSwaps(keys, swaps)) == multiset(keys)
  {
    if swaps != [] {
      SwapsPermute(keys, swaps[..|swaps| - 1]);
      var r := AfterSwaps(keys, swaps[..|swaps| - 1]);
      var (i, j) := swaps[|swaps| - 1];
      if i < |r| && j < |r| {
        SwapPermutes(r, i, j);
      }
    }
  }

  ghost predicate Known<T>(keys: seq<string>, m: map<string, T>) { forall k :: k in keys ==> k in m }

  /** No key is less than the one before it: what sorting ends with. */
  ghost predicate NoneBelowPrevious(tol: real, keys: seq<string>, stats: map<string, Stat>)
    requires Known(keys, stats)
  {
    forall i {:trigger keys[i]} :: 0 < i < |keys| ==> !Less(tol, stats[keys[i]], stats[keys[i - 1]])
  }

  /** Rates in clusters narrower than the tolerance and further apart than it, key by key. */
  ghost predicate ClusteredBy(tol: real, stats: map<string, Stat>, cluster: map<string, int>)
  {
    forall a, b :: a in stats && b in stats && a in cluster && b in cluster ==>
      if cluster[a] == cluster[b] then stats[a].rate - stats[b].rate < tol
      else if cluster[a] < cluster[b] then stats[b].rate - stats[a].rate > tol
      else stats[a].rate - stats[b].rate > tol
  }

  /** The better cluster first, and within a cluster the shorter time. */
  predicate Before(stats: map<string, Stat>, cluster: map<string, int>, a: string, b: string)
    requires a in stats && b in stats && a in cluster && b in cluster
  {
    cluster[a] < cluster[b] || (cluster[a] == cluster[b] && stats[a].avg <= stats[b].avg)
  }

  lemma NotLessIsBefore(tol: real, stats: map<string, Stat>, cluster: map<string, int>, a: string, b: string)
    requires tol >= 0.0 && ClusteredBy(tol, stats, cluster)
    requires a in stats && b in stats && a in cluster && b in cluster
    ensures !Less(tol, stats[b], stats[a]) <==> Before(stats, cluster, a, b)
  {
  }

  lemma {:induction false} OrderedThroughout(
    tol: real, keys: seq<string>, stats: map<string, Stat>, cluster: map<string, int>, i: nat, j: nat)
    requires tol >= 0.0 && ClusteredBy(tol, stats, cluster) && Known(keys, stats) && Known(keys, cluster)
    requires i < j < |keys|
    requires NoneBelowPrevious(tol, keys, stats)
    ensures Before(stats, cluster, keys[i], keys[j])
    decreases j - i
  {
    hide ClusteredBy, Less;
    NotLessIsBefore(tol, stats, cluster, keys[j - 1], keys[j]);
    if i < j - 1 {
      OrderedThroughout(tol, keys, stats, cluster, i, j - 1);
    }
  }

  /** Sorting, by whatever swaps: once no key is less than the one before it, the keys are those there
      were, ordered by cluster of error rates and within a cluster by average time. Looking at neighbours
      is enough only because on clustered rates the order is transitive. */
  lemma SortedByCluster(tol: real, keys: seq<string>, swaps: seq<(nat, nat)>, stats: map<string, Stat>,
                        cluster: map<string, int>)
    requires tol >= 0.0 && ClusteredBy(tol, stats, cluster)
    requires Known(AfterSwaps(keys, swaps), stats) && Known(AfterSwaps(keys, swaps), cluster)
    requires NoneBelowPrevious(tol, AfterSwaps(keys, swaps), stats)
    ensures var sorted := AfterSwaps(keys, swaps);
            && multiset(sorted) == multiset(keys)
            && forall i, j :: 0 <= i < j < |sorted| ==> Before(stats, cluster, sorted[i], sorted[j])
  {
    SwapsPermute(keys, swaps);
    var sorted := AfterSwaps(keys, swaps);
    hide AfterSwaps, ClusteredBy, NoneBelowPrevious, Before;
    forall i, j | 0 <= i < j < |sorted|
      ensures Before(stats, cluster, sorted[i], sorted[j])
    {
      OrderedThroughout(tol, sorted, stats, cluster, i, j);
    }
  }

  // ---------- a test round ----------

  const MINUTE := 60_000_000_000

  /** The outcome of testing one dialer: an error text that is not empty, or a duration. */
  datatype Tested = Broken | Took(ns: nat)

  datatype Summary = Summary(success: nat, fail: nat, min: int, max: int, avg: int)

  /** The sums a round has made so far: `n` durations, between `min` and `max`. */
  datatype Sums = Sums(n: nat, min: int, max: int, total: int)

  predicate InBounds(s: Sums) { s.n * s.min <= s.total <= s.n * s.max }

  function Widened(s: Sums, ns: int): Sums {
    Sums(s.n + 1, if s.min > ns then ns else s.min, if s.max < ns then ns else s.max, s.total + ns)
  }

  lemma Scale(n: nat, a: int, b: int)
    requires a <= b
    ensures n * a <= n * b
  {
  }

  lemma WideningKeepsBounds(s: Sums, ns: int)
    requires InBounds(s)
    ensures InBounds(Widened(s, ns)) && Widened(s, ns).n == s.n + 1
    ensures Widened(s, ns).min <= ns <= Widened(s, ns).max
    ensures Widened(s, ns).min <= s.min && s.max <= Widened(s, ns).max
  {
    var w := Widened(s, ns);
    Scale(s.n, w.min, s.min);
    Scale(s.n, s.max, w.max);
    assert (s.n + 1) * w.min == s.n * w.min + w.min && (s.n + 1) * w.max == s.n * w.max + w.max;
  }

  lemma QuotientInBounds(s: Sums)
    requires InBounds(s) && s.n > 0
    ensures s.min <= s.total / s.n <= s.max
  {
    var q := s.total / s.n;
    assert s.n * q <= s.total < s.n * (q + 1);
    Compare(s.n, q, s.max);
    Compare(s.n, s.min, q);
  }

  lemma QuotientIs(a: int, b: int)
    requires b > 0
    ensures a / b * b <= a < (a / b + 1) * b
  {
    assert a == a / b * b + a % b;
  }

  lemma Compare(n: nat, a: int, b: int)
    requires n > 0
    ensures n * a <= n * b ==> a <= b
    ensures n * a < n * (b + 1) ==> a <= b
  {
    if a > b {
      Scale(n, b + 1, a);
      Scale(n, 1, n);
    }
  }

  function Oks(results: map<string, Tested>, done: set<string>): set<string> {
    set k | k in done && k in results && results[k].Took?
  }

  lemma OksGrow(results: map<string, Tested>, done: set<string>, k: string)
    requires k in results && k !in done
    ensures Oks(results, done + {k}) == Oks(results, done) + if results[k].Took? then {k} else {}
    ensures |done + {k}| == |done| + 1
    ensures |Oks(results, done + {k})| == |Oks(results, done)| + if results[k].Took? then 1 else 0
  {
    assert Oks(results, done + {k}) == Oks(results, done) + if results[k].Took? then {k} else {};
  }

  /** What a round has made of the dialers done so far. */
  ghost predicate Tallied(results: map<string, Tested>, done: set<string>, sums: Sums, fail: nat) {
    && sums.n == |Oks(results, done)| && sums.n + fail == |done| && InBounds(sums)
    && forall k :: k in done && k in results && results[k].Took? ==> sums.min <= results[k].ns <= sums.max
  }

  lemma TallyStep(results: map<string, Tested>, done: set<string>, sums: Sums, fail: nat, k: string)
    requires k in results && k !in done && Tallied(results, done, sums, fail)
    ensures if results[k].Broken? then Tallied(results, done + {k}, sums, fail + 1)
            else Tallied(results, done + {k}, Widened(sums, results[k].ns), fail)
  {
    OksGrow(results, done, k);
    if results[k].Took? {
      WideningKeepsBounds(sums, results[k].ns);
    }
    hide Oks, Widened, InBounds;
  }

  /** `order` names the dialers among `done` that have a duration, each once. */
  ghost predicate Enumerates(results: map<string, Tested>, done: set<string>, order: seq<string>) {
    && (forall i, j :: 0 <= i < j < |order| ==> order[i] != order[j])
    && forall k :: k in order <==> k in done && k in results && results[k].Took?
  }

  function TotalNs(results: map<string, Tested>, order: seq<string>): int
    requires forall k :: k in order ==> k in results && results[k].Took?
  {
    if order == [] then 0
    else TotalNs(results, order[..|order| - 1]) + results[order[|order| - 1]].ns
  }

  /** The sums are those of the durations, and the bounds are durations, or the ones it began with. */
  ghost predicate Exact(results: map<string, Tested>, done: set<string>, sums: Sums, order: seq<string>) {
    && Enumerates(results, done, order) && sums.n == |order| && sums.total == TotalNs(results, order)
    && (sums.min == 60_000_000_000 || exists k :: k in order && results[k].ns == sums.min)
    && (sums.max == 0 || exists k :: k in order && results[k].ns == sums.max)
    && sums.min <= 60_000_000_000 && sums.max >= 0
  }

  lemma ExactStep(results: map<string, Tested>, done: set<string>, sums: Sums, order: seq<string>, k: string)
    requires k in results && k !in done && Exact(results, done, sums, order)
    ensures if results[k].Broken? then Exact(results, done + {k}, sums, order)
            else Exact(results, done + {k}, Widened(sums, results[k].ns), order + [k])
  {
    if results[k].Took? {
      var more := order + [k];
      assert more[..|order|] == order;
      assert forall x :: x in more <==> x in order || x == k;
    }
  }

  /** The loop over the tested dialers (core/dialer.go:476-502). */
  method Tally(results: map<string, Tested>) returns (sums: Sums, fail: nat, ghost order: seq<string>)
    ensures Tallied(results, results.Keys, sums, fail) && Exact(results, results.Keys, sums, order)
  {
    hide Tallied, Exact;
    var todo := results.Keys;
    sums, fail := Sums(0, MINUTE, 0, 0), 0;
    ghost var done: set<string> := {};
    order := [];
    EmptyRound(results);
    while todo != {}
      invariant done == results.Keys - todo && todo <= results.Keys
      invariant Tallied(results, done, sums, fail) && Exact(results, done, sums, order)
      decreases todo
    {
      var k :| k in todo;
      TallyStep(results, done, sums, fail, k);
      ExactStep(results, done, sums, order, k);
      if results[k].Broken? {
        fail := fail + 1;
      } else {
        sums, order := Widened(sums, results[k].ns), order + [k];
      }
      todo, done := todo - {k}, done + {k};
    }
    assert done == results.Keys;
  }

  class SortedDialer {
    var keys: seq<string>
    var dialers: set<string>
    var counters: Counters
    const tolerance: real
    const TestMax: int

    /** Dialers are kept by name, so a repeated name is one dialer under two keys. */
    constructor (names: seq<string>, tolerance: real, testMax: int)
      ensures keys == names && dialers == KeySet(names) && counters == Zero
      ensures this.tolerance == tolerance && TestMax == testMax
    {
      this.tolerance, TestMax, counters := tolerance, testMax, Zero;
      var ks: seq<string>, ds: set<string> := [], {};
      for i := 0 to |names|
        invariant ks == names[..i] && ds == KeySet(names[..i])
      {
        ks, ds := ks + [names[i]], ds + {names[i]};
        assert names[..i + 1] == names[..i] + [names[i]];
      }
      assert names[..|names|] == names;
      keys, dialers := ks, ds;
    }

    /** `Swap`, the only way sorting changes the keys: they stay a permutation of what they were. */
    method Swap(i: nat, j: nat)
      requires i < |keys| && j < |keys|
      modifies this`keys
      ensures keys == Swapped(old(keys), i, j)
      ensures multiset(keys) == old(multiset(keys))
    {
      keys := keys[i := keys[j]][j := keys[i]];
    }

    /** The keys a test round covers. */
    function Chosen(): (r: seq<string>)
      reads this
      ensures r <= keys && |r| == if 0 < TestMax < |keys| then TestMax else |keys|
    {
      if TestMax > 0 && |keys| > TestMax then keys[..TestMax] else keys
    }

    /** The summary `Test` makes of a round, dialer by dialer. */
    method Summarise(results: map<string, Tested>) returns (r: Summary)
      requires results.Keys == KeySet(Chosen())
      ensures r.success + r.fail == |results.Keys| <= |Chosen()|
      ensures r.success == |Oks(results, results.Keys)|
      ensures r.success > 0 ==> r.min <= r.avg <= r.max
      ensures forall k :: k in results && results[k].Took? ==> r.min <= results[k].ns <= r.max
      ensures r.success > 0 ==>
                exists order :: Enumerates(results, results.Keys, order) && |order| == r.success
                  && r.avg * |order| <= TotalNs(results, order) < (r.avg + 1) * |order|
      ensures r.success == 0 ==> r.avg == 0 && r.min == 60_000_000_000 && r.max == 0
      ensures r.min == 60_000_000_000 || exists k :: k in results && results[k].Took? && results[k].ns == r.min
      ensures r.max == 0 || exists k :: k in results && results[k].Took? && results[k].ns == r.max
    {
      DistinctKeys(Chosen());
      var sums, fail;
      ghost var order;
      sums, fail, order := Tally(results);
      var avg := 0;
      if sums.n > 0 {
        avg := sums.total / sums.n;
        QuotientInBounds(sums);
        QuotientIs(sums.total, sums.n);
      }
      return Summary(sums.n, fail, sums.min, sums.max, avg);
    }

    /** A lock section of a dial or a test round. */
    method Record(e: Event, ghost events: seq<Event>)
      requires Interleaving(events + [e]) && RunFrom(Zero, events) == Some(counters)
      modifies this`counters
      ensures RunFrom(Zero, events + [e]) == Some(counters)
    {
      assert (events + [e])[..|events|] == events;
      DialerAccounting(events + [e]);
      var next := Step(counters, e);
      counters := next.value;
    }
  }

  function KeySet(ks: seq<string>): set<string> { set k | k in ks }

  lemma EmptyRound(results: map<string, Tested>)
    ensures Tallied(results, {}, Sums(0, MINUTE, 0, 0), 0) && Exact(results, {}, Sums(0, MINUTE, 0, 0), [])
  {
  }

  lemma {:induction false} DistinctKeys(ks: seq<string>)
    ensures |KeySet(ks)| <= |ks|
  {
    if ks != [] {
      DistinctKeys(ks[1..]);
      assert KeySet(ks) == {ks[0]} + KeySet(ks[1..]);
    }
  }
}
