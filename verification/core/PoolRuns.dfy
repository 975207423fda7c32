/** Concurrent dials over one pool (core/cs.go:362-377, 399-447, 460-517, 532-542): every critical
    section of `connsLck`, and every step between two of them, is one step of the run. */
module PoolRuns {
  import opened OptionType
  import opened Pool

  /** Where a `DialPiper` call, and the session it starts, has got to. */
  datatype Phase =
    | Pulling               // about to enter pullConn
    | Missing               // found the pool empty, dialing a new raw connection
    | Trying(conn: Chan)    // writing the Dial frame, waiting for the answer
    | Holding(conn: Chan)   // the session has the channel
    | Ended

  /** A call, with the keys it has pulled from the pool, closed, and pushed back. */
  datatype Call = Call(phase: Phase, attempt: nat, pulled: seq<nat>, closed: seq<nat>, pushed: seq<nat>)

  datatype Config = Config(tryMax: int, maxIdle: int, keepIdle: int)

  /** The pool, the calls, and the keys closed on behalf of no call: by `timeoutConn`, which drops them, and
      by the evictions of `pushConn` and by `Close`, which do not. */
  datatype State = State(
    config: Config, pool: Table, calls: seq<Call>, expired: seq<nat>, evicted: seq<nat>, shut: seq<nat>)

  datatype Action =
    | Begin                        // a new DialPiper call
    | TakeIdle(d: nat, key: nat)   // pullConn finds an idle channel: any of them
    | FindNone(d: nat)             // pullConn finds none
    | RawFails(d: nat)             // the raw dial of pullConn fails
    | RawOk(d: nat, now: int)      // ... or gives a new channel, recorded in conns
    | TryFails(d: nat)             // writing Dial or reading the answer fails
    | Refused(d: nat, now: int, oldest: Option<Chan>)  // the answer is not "ok": pushConn
    | Accepted(d: nat)             // the answer is "ok"
    | Break(d: nat)                // piperConn.Close of a broken channel
    | Return(d: nat, now: int, oldest: Option<Chan>)   // piperConn.Close of a sound one: pushConn
    | Timeout(now: int, keys: seq<nat>)                // timeoutConn, meeting the channels in this order
    | CloseAll(keys: seq<nat>)                         // Close, having listed the recorded channels in this order

  function Start(config: Config): State {
    State(config, Table(map[], map[], [], 0), [], [], [], [])
  }

  function NewCall(tryMax: int): Call {
    Call(if 0 < tryMax then Pulling else Ended, 0, [], [], [])
  }

  /** The next round of the loop of `DialBack`, or its end. */
  function NextAttempt(tryMax: int, c: Call): Call {
    c.(phase := if c.attempt + 1 < tryMax then Pulling else Ended, attempt := c.attempt + 1)
  }

  function Pull(c: Call, conn: Chan): Call {
    c.(phase := Trying(conn), pulled := c.pulled + [conn.key])
  }

  function PushBack(c: Call, conn: Chan): Call {
    c.(phase := Ended, pushed := c.pushed + [conn.key])
  }

  function With(st: State, pool: Table, d: nat, c: Call): State
    requires d < |st.calls|
  {
    st.(pool := pool, calls := st.calls[d := c])
  }

  /** Call `d` gives its channel back. */
  function PushStep(st: State, d: nat, conn: Chan, oldest: Option<Chan>): State
    requires d < |st.calls|
  {
    With(st, st.pool.Push(conn, oldest), d, PushBack(st.calls[d], conn)).(evicted := st.evicted + KeyOf(oldest))
  }

  /** One step of call `d`; a step that is not enabled changes nothing. */
  ghost function CallStep(st: State, d: nat, a: Action): State
    requires d < |st.calls|
  {
    var c := st.calls[d];
    match a
    case TakeIdle(_, key) =>
      if c.phase.Pulling? && key in st.pool.idles then
        With(st, st.pool.TakeIdle(key), d, Pull(c, st.pool.idles[key]))
      else st
    case FindNone(_) =>
      if c.phase.Pulling? && st.pool.idles == map[] then With(st, st.pool, d, c.(phase := Missing)) else st
    case RawFails(_) =>
      if c.phase.Missing? then With(st, st.pool, d, NextAttempt(st.config.tryMax, c)) else st
    case RawOk(_, now) =>
      if c.phase.Missing? then With(st, st.pool.AddNew(now), d, Pull(c, Chan(st.pool.next, now))) else st
    case TryFails(_) =>
      if c.phase.Trying? then
        With(st, st.pool.CloseOne(c.phase.conn.key), d,
             NextAttempt(st.config.tryMax, c.(closed := c.closed + [c.phase.conn.key])))
      else st
    case Refused(_, now, oldest) =>
      if c.phase.Trying? && MayEvict(st.pool.idles, st.config.maxIdle, now, oldest) then
        PushStep(st, d, c.phase.conn, oldest)
      else st
    case Accepted(_) =>
      if c.phase.Trying? then With(st, st.pool, d, c.(phase := Holding(c.phase.conn))) else st
    case Break(_) =>
      if c.phase.Holding? then
        With(st, st.pool.CloseOne(c.phase.conn.key), d,
             c.(phase := Ended, closed := c.closed + [c.phase.conn.key]))
      else st
    case Return(_, now, oldest) =>
      if c.phase.Holding? && MayEvict(st.pool.idles, st.config.maxIdle, now, oldest) then
        PushStep(st, d, c.phase.conn, oldest)
      else st
    case _ => st
  }

  ghost function Apply(st: State, a: Action): State {
    match a
    case Begin => st.(calls := st.calls + [NewCall(st.config.tryMax)])
    case Timeout(now, keys) =>
      if TooOld(st.pool.idles, st.config.keepIdle, now, keys) then
        st.(pool := st.pool.Expire(keys), expired := st.expired + keys)
      else st
    case CloseAll(keys) =>
      if AllRecorded(st.pool.conns, keys) then st.(pool := st.pool.CloseEach(keys), shut := st.shut + keys) else st
    case _ => if a.d < |st.calls| then CallStep(st, a.d, a) else st
  }

  ghost predicate Steps(st: State, a: Action, st': State) { st' == Apply(st, a) }

  /** A run: the states a list of actions leads through. */
  ghost predicate IsRun(states: seq<State>, actions: seq<Action>) {
    && |states| == |actions| + 1
    && states[0] == Start(states[0].config)
    && forall i {:trigger actions[i]} :: 0 <= i < |actions| ==> Steps(states[i], actions[i], states[i + 1])
  }

  /** Where a list of actions leads. */
  ghost function After(st: State, actions: seq<Action>): State {
    if actions == [] then st else Apply(After(st, actions[..|actions| - 1]), actions[|actions| - 1])
  }

  lemma {:induction false} RunEnds(states: seq<State>, actions: seq<Action>)
    requires IsRun(states, actions)
    ensures states[|actions|] == After(states[0], actions)
  {
    hide Apply;
    if actions != [] {
      var n := |actions| - 1;
      forall i {:trigger actions[..n][i]} | 0 <= i < n
        ensures Steps(states[..n + 1][i], actions[..n][i], states[..n + 1][i + 1])
      {
        assert Steps(states[i], actions[i], states[i + 1]);
      }
      RunEnds(states[..n + 1], actions[..n]);
      assert Steps(states[n], actions[n], states[n + 1]);
    }
  }

  lemma OneMore(st: State, actions: seq<Action>, a: Action)
    ensures After(st, actions + [a]) == Apply(After(st, actions), a)
  {
    assert (actions + [a])[..|actions|] == actions;
  }

  /** A step of call `d`. */
  predicate Of(a: Action, d: nat) {
    match a
    case Begin => false
    case Timeout(_, _) => false
    case CloseAll(_) => false
    case _ => a.d == d
  }

  // ---------- who has which channel ----------

  function HeldBy(c: Call): multiset<nat> {
    match c.phase
    case Trying(conn) => multiset{conn.key}
    case Holding(conn) => multiset{conn.key}
    case _ => multiset{}
  }

  /** The channels a call has in hand, or has taken out of the pool for good. */
  function OwnedBy(c: Call): multiset<nat> {
    HeldBy(c) + multiset(c.closed)
  }

  /** How many calls own `key`, and how often a call has closed it. */
  function Owners(calls: seq<Call>, key: nat): nat {
    if calls == [] then 0 else Owners(calls[..|calls| - 1], key) + OwnedBy(calls[|calls| - 1])[key]
  }

  function Closings(calls: seq<Call>, key: nat): nat {
    if calls == [] then 0 else Closings(calls[..|calls| - 1], key) + multiset(calls[|calls| - 1].closed)[key]
  }

  lemma {:induction false} OneCallChanges(calls: seq<Call>, d: nat, c: Call, key: nat)
    requires d < |calls|
    ensures Owners(calls[d := c], key) + OwnedBy(calls[d])[key] == Owners(calls, key) + OwnedBy(c)[key]
    ensures Closings(calls[d := c], key) + multiset(calls[d].closed)[key]
            == Closings(calls, key) + multiset(c.closed)[key]
  {
    hide OwnedBy;
    var n, calls' := |calls| - 1, calls[d := c];
    if d < n {
      OneCallChanges(calls[..n], d, c, key);
      assert calls'[..n] == calls[..n][d := c];
    } else {
      assert calls'[..n] == calls[..n];
    }
  }

  lemma OneMoreCall(calls: seq<Call>, c: Call, key: nat)
    ensures Owners(calls + [c], key) == Owners(calls, key) + OwnedBy(c)[key]
    ensures Closings(calls + [c], key) == Closings(calls, key) + multiset(c.closed)[key]
  {
    assert (calls + [c])[..|calls|] == calls;
  }

  lemma {:induction false} OneOwner(calls: seq<Call>, d: nat, key: nat)
    requires d < |calls|
    ensures OwnedBy(calls[d])[key] <= Owners(calls, key)
  {
    hide OwnedBy;
    if d < |calls| - 1 {
      OneOwner(calls[..|calls| - 1], d, key);
    }
  }

  lemma {:induction false} TwoOwners(calls: seq<Call>, d: nat, e: nat, key: nat)
    requires d < e < |calls|
    ensures OwnedBy(calls[d])[key] + OwnedBy(calls[e])[key] <= Owners(calls, key)
  {
    hide OwnedBy;
    var n := |calls| - 1;
    if e < n {
      TwoOwners(calls[..n], d, e, key);
    } else {
      OneOwner(calls[..n], d, key);
    }
  }

  function Bit(b: bool): nat {
    if b then 1 else 0
  }

  /** In how many places a channel is. */
  function Places(st: State, key: nat): nat {
    Bit(key in st.pool.idles) + Owners(st.calls, key) + multiset(st.expired)[key]
  }

  // ---------- the invariant ----------

  /** Each channel ever made is in exactly one place: idle, in the hands of one call, closed by one
      call, or expired. */
  ghost predicate Conserved(st: State) {
    forall key: nat :: Places(st, key) == Bit(key < st.pool.next)
  }

  /** How often a channel has been closed, by whom: a call, `timeoutConn`, an eviction, or `Close`. */
  function Origins(st: State, key: nat): nat {
    Closings(st.calls, key) + multiset(st.expired)[key] + multiset(st.evicted)[key] + multiset(st.shut)[key]
  }

  /** Each closing of a channel has one of these origins. */
  ghost predicate Logged(st: State) {
    forall key: nat :: multiset(st.pool.closed)[key] == Origins(st, key)
  }

  /** A call's own record: each channel it pulled is in hand, closed or pushed back, and only one of
      these; no attempt pulls two channels. */
  ghost predicate CallOk(tryMax: int, c: Call) {
    && multiset(c.pulled) == OwnedBy(c) + multiset(c.pushed)
    && Distinct(c.pulled)
    && (c.phase != Ended ==> c.pushed == [])
    && match c.phase
       case Pulling => |c.pulled| <= c.attempt < tryMax
       case Missing => |c.pulled| <= c.attempt < tryMax
       case Ended => |c.pulled| <= tryMax || c.pulled == []
       case _ => |c.pulled| <= c.attempt + 1 <= tryMax
  }

  ghost predicate Inv(st: State) {
    && st.pool.Ok() && Conserved(st) && Logged(st)
    && (forall c :: c in st.calls ==> CallOk(st.config.tryMax, c))
  }

  // ---------- every step keeps the invariant ----------

  /** What call `d` takes out of the pool it owns, and what it gives back it no longer does; and it has
      a record of what it closes. */
  ghost predicate Balanced(st: State, d: nat, pool': Table, c': Call, evicted: seq<nat>, key: nat)
    requires d < |st.calls|
  {
    var c, pool := st.calls[d], st.pool;
    && Bit(key in pool'.idles) + OwnedBy(c')[key] + Bit(key < pool.next)
       == Bit(key in pool.idles) + OwnedBy(c)[key] + Bit(key < pool'.next)
    && multiset(pool'.closed)[key] + multiset(c.closed)[key]
       == multiset(pool.closed)[key] + multiset(c'.closed)[key] + multiset(evicted)[key]
  }

  lemma MoveKeepsInv(st: State, d: nat, pool': Table, c': Call, evicted: seq<nat>)
    requires Inv(st) && d < |st.calls| && pool'.Ok() && CallOk(st.config.tryMax, c')
    requires forall key: nat :: Balanced(st, d, pool', c', evicted, key)
    ensures Inv(With(st, pool', d, c').(evicted := st.evicted + evicted))
  {
    hide CallOk, OwnedBy, Owners, Closings;
    var st' := With(st, pool', d, c').(evicted := st.evicted + evicted);
    forall key: nat
      ensures Places(st', key) == Bit(key < pool'.next)
      ensures multiset(st'.pool.closed)[key] == Origins(st', key)
    {
      OneCallChanges(st.calls, d, c', key);
      assert Balanced(st, d, pool', c', evicted, key);
      assert Places(st, key) == Bit(key < st.pool.next);
    }
  }

  // ---------- what each section does to the calls ----------

  /** What a call has is below `next` and not idle, and no other call has it. */
  lemma OwnedIsElsewhere(st: State, d: nat, key: nat)
    requires Inv(st) && d < |st.calls|
    ensures OwnedBy(st.calls[d])[key] <= 1
    ensures key in OwnedBy(st.calls[d]) ==> key < st.pool.next && key !in st.pool.idles
    ensures forall e :: d < e < |st.calls| ==> OwnedBy(st.calls[d])[key] + OwnedBy(st.calls[e])[key] <= 1
  {
    hide OwnedBy, CallOk, Logged;
    OneOwner(st.calls, d, key);
    assert Places(st, key) <= 1;
    forall e | d < e < |st.calls|
      ensures OwnedBy(st.calls[d])[key] + OwnedBy(st.calls[e])[key] <= 1
    {
      TwoOwners(st.calls, d, e, key);
    }
  }

  lemma InvParts(st: State, d: nat)
    requires Inv(st) && d < |st.calls|
    ensures st.pool.Ok() && CallOk(st.config.tryMax, st.calls[d])
  {
    hide CallOk, Conserved, Logged;
  }

  lemma PullIsOk(tryMax: int, c: Call, conn: Chan)
    requires CallOk(tryMax, c) && (c.phase.Pulling? || c.phase.Missing?) && conn.key !in OwnedBy(c)
    ensures CallOk(tryMax, Pull(c, conn)) && OwnedBy(Pull(c, conn)) == OwnedBy(c) + multiset{conn.key}
  {
    assert conn.key !in multiset(c.pulled);
    assert conn.key !in c.pulled;
  }

  lemma PullMoves(st: State, d: nat, pool': Table, conn: Chan)
    requires Inv(st) && d < |st.calls| && pool'.Ok() && pool'.closed == st.pool.closed
    requires CallOk(st.config.tryMax, Pull(st.calls[d], conn))
    requires OwnedBy(Pull(st.calls[d], conn)) == OwnedBy(st.calls[d]) + multiset{conn.key}
    requires if conn.key in st.pool.idles then
               pool'.next == st.pool.next && pool'.idles.Keys == st.pool.idles.Keys - {conn.key}
             else conn.key == st.pool.next && pool'.next == st.pool.next + 1 && pool'.idles == st.pool.idles
    ensures Inv(With(st, pool', d, Pull(st.calls[d], conn)))
  {
    hide Inv, CallOk, OwnedBy, Table.Ok;
    MoveKeepsInv(st, d, pool', Pull(st.calls[d], conn), []);
    assert st.evicted + [] == st.evicted;
  }

  lemma TakeIdleKeepsInv(st: State, d: nat, key: nat)
    requires Inv(st) && d < |st.calls| && st.calls[d].phase.Pulling? && key in st.pool.idles
    ensures Inv(With(st, st.pool.TakeIdle(key), d, Pull(st.calls[d], st.pool.idles[key])))
  {
    var c, conn := st.calls[d], st.pool.idles[key];
    InvParts(st, d);
    OwnedIsElsewhere(st, d, key);
    hide Inv, OwnedBy, CallOk;
    PullIsOk(st.config.tryMax, c, conn);
    hide Pull, Table.TakeIdle, Table.AddNew;
    TakeIdleIs(st.pool, key);
    PullMoves(st, d, st.pool.TakeIdle(key), conn);
  }

  lemma AddNewKeepsInv(st: State, d: nat, now: int)
    requires Inv(st) && d < |st.calls| && st.calls[d].phase.Missing?
    ensures Inv(With(st, st.pool.AddNew(now), d, Pull(st.calls[d], Chan(st.pool.next, now))))
  {
    var c, conn := st.calls[d], Chan(st.pool.next, now);
    InvParts(st, d);
    OwnedIsElsewhere(st, d, st.pool.next);
    hide Inv, OwnedBy, CallOk;
    PullIsOk(st.config.tryMax, c, conn);
    hide Pull, Table.TakeIdle, Table.AddNew;
    AddNewIs(st.pool, now);
    PullMoves(st, d, st.pool.AddNew(now), conn);
  }

  /** `c'` is `c` after closing the channel it has in hand. */
  predicate ClosesHeld(tryMax: int, c: Call, c': Call) {
    && (c.phase.Trying? || c.phase.Holding?)
    && c' == c.(phase := c'.phase, attempt := c'.attempt, closed := c.closed + [c.phase.conn.key])
    && (c'.phase.Ended? || (c'.phase.Pulling? && c'.attempt == c.attempt + 1 < tryMax))
  }

  lemma ClosingIsOk(tryMax: int, c: Call, c': Call)
    requires CallOk(tryMax, c) && ClosesHeld(tryMax, c, c')
    ensures OwnedBy(c') == OwnedBy(c) && CallOk(tryMax, c')
  {
  }

  lemma CloseKeepsInv(st: State, d: nat, c': Call)
    requires Inv(st) && d < |st.calls| && ClosesHeld(st.config.tryMax, st.calls[d], c')
    ensures Inv(With(st, st.pool.CloseOne(st.calls[d].phase.conn.key), d, c'))
  {
    var c := st.calls[d];
    InvParts(st, d);
    hide Inv, CallOk, OwnedBy;
    ClosingIsOk(st.config.tryMax, c, c');
    MoveKeepsInv(st, d, st.pool.CloseOne(c.phase.conn.key), c', []);
    assert st.evicted + [] == st.evicted;
  }

  lemma PushBackIsOk(tryMax: int, c: Call)
    requires CallOk(tryMax, c) && (c.phase.Trying? || c.phase.Holding?)
    ensures CallOk(tryMax, PushBack(c, c.phase.conn))
    ensures OwnedBy(c) == OwnedBy(PushBack(c, c.phase.conn)) + multiset{c.phase.conn.key}
  {
  }

  lemma PushMoves(st: State, d: nat, pool': Table, conn: Chan, evicted: seq<nat>)
    requires Inv(st) && d < |st.calls| && pool'.Ok() && pool'.closed == st.pool.closed + evicted
    requires CallOk(st.config.tryMax, PushBack(st.calls[d], conn))
    requires OwnedBy(st.calls[d]) == OwnedBy(PushBack(st.calls[d], conn)) + multiset{conn.key}
    requires pool'.idles.Keys == st.pool.idles.Keys + {conn.key} && conn.key !in st.pool.idles
    requires pool'.next == st.pool.next
    ensures Inv(With(st, pool', d, PushBack(st.calls[d], conn)).(evicted := st.evicted + evicted))
  {
    hide Inv, CallOk, OwnedBy, Table.Ok;
    MoveKeepsInv(st, d, pool', PushBack(st.calls[d], conn), evicted);
  }

  lemma PushKeepsInv(st: State, d: nat, oldest: Option<Chan>)
    requires Inv(st) && d < |st.calls| && (st.calls[d].phase.Trying? || st.calls[d].phase.Holding?)
    ensures Inv(PushStep(st, d, st.calls[d].phase.conn, oldest))
  {
    var c := st.calls[d];
    InvParts(st, d);
    OwnedIsElsewhere(st, d, c.phase.conn.key);
    hide Inv, CallOk;
    PushBackIsOk(st.config.tryMax, c);
    assert c.phase.conn.key in OwnedBy(c);
    hide OwnedBy, PushBack, Table.Push;
    PushIs(st.pool, c.phase.conn, oldest);
    PushMoves(st, d, st.pool.Push(c.phase.conn, oldest), c.phase.conn, KeyOf(oldest));
  }

  /** A step that only changes where a call has got to. */
  lemma PhaseKeepsInv(st: State, d: nat, c': Call)
    requires Inv(st) && d < |st.calls| && c' == st.calls[d].(phase := c'.phase, attempt := c'.attempt)
    requires HeldBy(c') == HeldBy(st.calls[d]) && CallOk(st.config.tryMax, c')
    ensures Inv(With(st, st.pool, d, c'))
  {
    InvParts(st, d);
    hide Inv, CallOk;
    MoveKeepsInv(st, d, st.pool, c', []);
    assert st.evicted + [] == st.evicted;
  }

  lemma PhasesAreOk(tryMax: int, c: Call)
    requires CallOk(tryMax, c)
    ensures c.phase.Pulling? ==>
              var c' := c.(phase := Missing); CallOk(tryMax, c') && HeldBy(c') == HeldBy(c)
    ensures c.phase.Missing? ==>
              var c' := NextAttempt(tryMax, c); CallOk(tryMax, c') && HeldBy(c') == HeldBy(c)
    ensures c.phase.Trying? ==>
              var c' := c.(phase := Holding(c.phase.conn)); CallOk(tryMax, c') && HeldBy(c') == HeldBy(c)
    ensures c.phase.Trying? ==>
              ClosesHeld(tryMax, c, NextAttempt(tryMax, c.(closed := c.closed + [c.phase.conn.key])))
    ensures c.phase.Holding? ==>
              ClosesHeld(tryMax, c, c.(phase := Ended, closed := c.closed + [c.phase.conn.key]))
  {
  }

  lemma CallStepKeepsInv(st: State, d: nat, a: Action)
    requires Inv(st) && d < |st.calls|
    ensures Inv(CallStep(st, d, a))
  {
    var c, tryMax := st.calls[d], st.config.tryMax;
    InvParts(st, d);
    PhasesAreOk(tryMax, c);
    hide Inv, CallOk, HeldBy, OwnedBy, MayEvict, ClosesHeld, NextAttempt, Pull, PushStep, With;
    hide Table.Ok, Table.TakeIdle, Table.AddNew, Table.CloseOne;
    match a
    case TakeIdle(_, key) => if c.phase.Pulling? && key in st.pool.idles { TakeIdleKeepsInv(st, d, key); }
    case FindNone(_) =>
      if c.phase.Pulling? && st.pool.idles == map[] {
        PhaseKeepsInv(st, d, c.(phase := Missing));
      }
    case RawFails(_) => if c.phase.Missing? { PhaseKeepsInv(st, d, NextAttempt(tryMax, c)); }
    case RawOk(_, now) => if c.phase.Missing? { AddNewKeepsInv(st, d, now); }
    case TryFails(_) =>
      if c.phase.Trying? {
        CloseKeepsInv(st, d, NextAttempt(tryMax, c.(closed := c.closed + [c.phase.conn.key])));
      }
    case Refused(_, now, oldest) => if c.phase.Trying? { PushKeepsInv(st, d, oldest); }
    case Accepted(_) => if c.phase.Trying? { PhaseKeepsInv(st, d, c.(phase := Holding(c.phase.conn))); }
    case Break(_) =>
      if c.phase.Holding? {
        CloseKeepsInv(st, d, c.(phase := Ended, closed := c.closed + [c.phase.conn.key]));
      }
    case Return(_, now, oldest) => if c.phase.Holding? { PushKeepsInv(st, d, oldest); }
    case _ =>
  }

  lemma {:induction false} DistinctCounts(keys: seq<nat>, key: nat)
    requires Distinct(keys)
    ensures multiset(keys)[key] == if key in keys then 1 else 0
  {
    if keys != [] {
      var n := |keys| - 1;
      assert keys == keys[..n] + [keys[n]];
      DistinctCounts(keys[..n], key);
    }
  }

  lemma TimeoutKeepsInv(st: State, now: int, keys: seq<nat>)
    requires Inv(st) && TooOld(st.pool.idles, st.config.keepIdle, now, keys)
    ensures Inv(Apply(st, Timeout(now, keys)))
  {
    hide CallOk, Owners, Closings;
    var st' := Apply(st, Timeout(now, keys));
    forall key: nat
      ensures Places(st', key) == Places(st, key)
    {
      DistinctCounts(keys, key);
    }
    hide Places, TooOld;
  }

  lemma CloseAllKeepsInv(st: State, keys: seq<nat>)
    requires Inv(st)
    ensures Inv(st.(pool := st.pool.CloseEach(keys), shut := st.shut + keys))
  {
    hide CallOk, Owners, Closings;
    var st' := st.(pool := st.pool.CloseEach(keys), shut := st.shut + keys);
    assert forall key: nat :: Places(st', key) == Places(st, key);
  }

  lemma NewCallIsOk(tryMax: int)
    ensures var c := NewCall(tryMax); CallOk(tryMax, c) && OwnedBy(c) == multiset(c.closed) == multiset{}
  {
  }

  lemma BeginKeepsInv(st: State)
    requires Inv(st)
    ensures Inv(Apply(st, Begin))
  {
    var st' := Apply(st, Begin);
    var c := NewCall(st.config.tryMax);
    NewCallIsOk(st.config.tryMax);
    hide CallOk, OwnedBy, NewCall;
    forall key: nat
      ensures Places(st', key) == Places(st, key) && Closings(st'.calls, key) == Closings(st.calls, key)
    {
      OneMoreCall(st.calls, c, key);
    }
    hide Places;
  }

  lemma ApplyKeepsInv(st: State, a: Action)
    requires Inv(st)
    ensures Inv(Apply(st, a))
  {
    hide Inv, CallStep;
    match a
    case Begin => BeginKeepsInv(st);
    case Timeout(now, keys) =>
      if TooOld(st.pool.idles, st.config.keepIdle, now, keys) {
        TimeoutKeepsInv(st, now, keys);
      }
    case CloseAll(keys) => CloseAllKeepsInv(st, keys);
    case _ =>
      if a.d < |st.calls| {
        CallStepKeepsInv(st, a.d, a);
      }
  }

  lemma {:induction false} RunKeepsInv(states: seq<State>, actions: seq<Action>, i: nat)
    requires IsRun(states, actions) && i < |states|
    ensures Inv(states[i]) && states[i].config == states[0].config
  {
    if i == 0 {
      assert states[0] == Start(states[0].config);
    } else {
      hide Inv, Apply;
      RunKeepsInv(states, actions, i - 1);
      assert Steps(states[i - 1], actions[i - 1], states[i]);
      ApplyKeepsInv(states[i - 1], actions[i - 1]);
    }
  }

  /** Every list of actions has a run, from an empty pool. */
  lemma {:induction false} RunExists(config: Config, actions: seq<Action>) returns (states: seq<State>)
    ensures IsRun(states, actions) && states[0] == Start(config)
  {
    hide Apply;
    if actions == [] {
      states := [Start(config)];
    } else {
      var n := |actions| - 1;
      var before := RunExists(config, actions[..n]);
      states := before + [Apply(before[n], actions[n])];
      forall i {:trigger actions[i]} | 0 <= i < |actions|
        ensures Steps(states[i], actions[i], states[i + 1])
      {
        assert i < n ==> actions[..n][i] == actions[i];
      }
    }
  }

  /** What one call holds or has closed no other has, and none of it is idle. */
  ghost predicate Apart(st: State) {
    && st.pool.conns.Keys !! st.pool.idles.Keys
    && (forall d, e :: 0 <= d < e < |st.calls| ==> OwnedBy(st.calls[d]) !! OwnedBy(st.calls[e]))
    && (forall d :: 0 <= d < |st.calls| ==> OwnedBy(st.calls[d]) !! multiset(st.pool.idles.Keys))
  }

  /** What a call has pulled is what it has closed, has pushed back and holds, each channel once. */
  ghost predicate Accounts(tryMax: int, c: Call) {
    && multiset(c.pulled) == multiset(c.closed) + multiset(c.pushed) + HeldBy(c)
    && Distinct(c.pulled) && |c.pulled| <= tryMax
  }

  lemma InvOwns(st: State)
    requires Inv(st)
    ensures Apart(st)
  {
    assert st.pool.conns.Keys !! st.pool.idles.Keys by { hide Conserved, Logged, CallOk; }
    hide Inv, OwnedBy;
    forall d, e, key: nat | 0 <= d < e < |st.calls| && key in OwnedBy(st.calls[d])
      ensures key !in OwnedBy(st.calls[e])
    {
      OwnedIsElsewhere(st, d, key);
    }
    forall d, key: nat | 0 <= d < |st.calls| && key in OwnedBy(st.calls[d])
      ensures key !in multiset(st.pool.idles.Keys)
    {
      OwnedIsElsewhere(st, d, key);
    }
  }

  /** Pool ownership, over every run. Each channel ever made is in exactly one place: idle, in the hands
      of one call, closed by one call, or expired. So what one call holds or has closed no other has, and
      none of it is idle. Each call has pulled every channel at most once, at most `TryMax` in all, and
      each of them it holds, has closed, or has pushed back. */
  lemma PoolOwnership(states: seq<State>, actions: seq<Action>, i: nat)
    requires IsRun(states, actions) && i < |states| && states[0].config.tryMax >= 1
    ensures Conserved(states[i]) && Logged(states[i]) && Apart(states[i])
    ensures forall c :: c in states[i].calls ==> Accounts(states[0].config.tryMax, c)
  {
    hide IsRun, Conserved, Logged, HeldBy;
    RunKeepsInv(states, actions, i);
    InvOwns(states[i]);
    assert forall c :: c in states[i].calls ==> CallOk(states[0].config.tryMax, c);
  }

  lemma StepGrows(st: State, a: Action, d: nat)
    requires d < |st.calls|
    ensures d < |Apply(st, a).calls| && st.calls[d].closed <= Apply(st, a).calls[d].closed
    ensures st.expired <= Apply(st, a).expired
  {
  }

  lemma {:induction false} RunGrows(states: seq<State>, actions: seq<Action>, n: nat, i: nat, d: nat)
    requires IsRun(states, actions) && n <= i < |states| && d < |states[n].calls|
    ensures d < |states[i].calls| && states[n].calls[d].closed <= states[i].calls[d].closed
    ensures states[n].expired <= states[i].expired
    decreases i
  {
    hide Apply;
    if n < i {
      RunGrows(states, actions, n, i - 1, d);
      assert Steps(states[i - 1], actions[i - 1], states[i]);
      StepGrows(states[i - 1], actions[i - 1], d);
    }
  }

  lemma OwnedAt(c: Call, key: nat)
    ensures OwnedBy(c)[key] == HeldBy(c)[key] + multiset(c.closed)[key]
    ensures key in c.closed ==> multiset(c.closed)[key] >= 1
  {
  }

  lemma ClosedIsUnheld(st: State, d: nat, e: nat, key: nat)
    requires Inv(st) && d < |st.calls| && e < |st.calls|
    requires key in st.calls[d].closed || key in st.expired
    ensures key !in st.pool.idles && key !in HeldBy(st.calls[e])
  {
    assert Places(st, key) <= 1;
    assert key in st.expired ==> multiset(st.expired)[key] >= 1;
    hide Inv, OwnedBy, HeldBy;
    OneOwner(st.calls, d, key);
    OneOwner(st.calls, e, key);
    OwnedAt(st.calls[d], key);
    OwnedAt(st.calls[e], key);
    if e < d {
      TwoOwners(st.calls, e, d, key);
    } else if d < e {
      TwoOwners(st.calls, d, e, key);
    }
  }

  /** A channel a call has closed, or that has expired, is never idle or in a call's hands again. */
  lemma ClosedForGood(states: seq<State>, actions: seq<Action>, n: nat, i: nat, d: nat, key: nat)
    requires IsRun(states, actions) && n <= i < |states| && d < |states[n].calls|
    requires key in states[n].calls[d].closed || key in states[n].expired
    ensures var st := states[i];
            key !in st.pool.idles && forall e :: 0 <= e < |st.calls| ==> key !in HeldBy(st.calls[e])
  {
    RunGrows(states, actions, n, i, d);
    RunKeepsInv(states, actions, i);
    var st := states[i];
    hide IsRun, HeldBy, Inv;
    ClosedIsUnheld(st, d, d, key);
    forall e | 0 <= e < |st.calls|
      ensures key !in HeldBy(st.calls[e])
    {
      ClosedIsUnheld(st, d, e, key);
    }
  }
}
