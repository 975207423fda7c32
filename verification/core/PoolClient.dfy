/** The pool's own methods (core/cs.go:321-447) and the loop of a dial over them (core/cs.go:460-501), each
    proved to be what `Pool` says of it, and to be steps of `PoolRuns`. */
module PoolClient {
  import opened OptionType
  import opened Pool
  import PoolRuns

  /** What happens to one attempt of `DialBack`, once a channel has been asked for. */
  datatype Outcome = NoChannel | WriteFails | ReadFails | Answer(message: string)

  datatype DialResult = Success(conn: Chan, message: string) | Failure

  /** Attempt `i` is the first that is answered, with this text. */
  ghost predicate FirstAnswered(script: seq<Outcome>, i: nat, message: string) {
    i < |script| && script[i] == Answer(message) && forall j :: 0 <= j < i ==> !script[j].Answer?
  }

  lemma {:induction false} SomeAnswerIsFirst(script: seq<Outcome>, i: nat)
    requires i < |script| && script[i].Answer?
    ensures exists k, text :: FirstAnswered(script, k, text)
  {
    if j :| 0 <= j < i && script[j].Answer? {
      SomeAnswerIsFirst(script, j);
    } else {
      assert FirstAnswered(script, i, script[i].message);
    }
  }

  lemma FirstIs(script: seq<Outcome>, i: nat)
    requires i < |script| && script[i].Answer? && forall j :: 0 <= j < i ==> !script[j].Answer?
    ensures FirstAnswered(script, i, script[i].message)
  {
  }

  lemma OnlyFirst(script: seq<Outcome>, k: nat, message: string)
    requires FirstAnswered(script, k, message)
    ensures exists i :: 0 <= i < |script| && script[i].Answer?
    ensures forall i, text :: FirstAnswered(script, i, text) ==> i == k && text == message
  {
  }

  lemma NoneFirst(script: seq<Outcome>)
    requires forall i :: 0 <= i < |script| ==> !script[i].Answer?
    ensures forall i, text :: !FirstAnswered(script, i, text)
  {
  }

  // ---------- the dial as steps of a run ----------

  /** From `st` the steps `acts`, all of call `d`, lead to the pool `pool` and make `c` of the call. */
  ghost predicate Moves(st: PoolRuns.State, d: nat, acts: seq<PoolRuns.Action>, pool: Table, c: PoolRuns.Call) {
    && d < |st.calls| && (forall a :: a in acts ==> PoolRuns.Of(a, d))
    && var st' := PoolRuns.After(st, acts);
       st'.pool == pool && st'.calls == st.calls[d := c] && st'.config == st.config
  }

  /** Nothing moves yet. */
  lemma StandsStill(st: PoolRuns.State, d: nat)
    requires d < |st.calls|
    ensures Moves(st, d, [], st.pool, st.calls[d])
  {
  }

  lemma MovesOn(st: PoolRuns.State, d: nat, acts: seq<PoolRuns.Action>, pool: Table, c: PoolRuns.Call,
                a: PoolRuns.Action, pool': Table, c': PoolRuns.Call)
    requires Moves(st, d, acts, pool, c) && PoolRuns.Of(a, d)
    requires var st1 := PoolRuns.After(st, acts);
             var st2 := PoolRuns.CallStep(st1, d, a);
             st2.pool == pool' && st2.calls == st1.calls[d := c'] && st2.config == st1.config
    ensures Moves(st, d, acts + [a], pool', c')
  {
    hide PoolRuns.CallStep;
    PoolRuns.OneMore(st, acts, a);
    assert st.calls[d := c][d := c'] == st.calls[d := c'];
  }

  /** What `PullConn` did is one step, or two. */
  lemma Pulled(st: PoolRuns.State, d: nat, acts: seq<PoolRuns.Action>, pool: Table, c: PoolRuns.Call,
               conn: Option<Chan>, now: int, pool': Table)
    returns (acts': seq<PoolRuns.Action>)
    requires Moves(st, d, acts, pool, c) && c.phase.Pulling?
    requires pool.idles != map[] ==>
               conn.Some? && conn.value.key in pool.idles && conn.value == pool.idles[conn.value.key]
               && pool' == pool.TakeIdle(conn.value.key)
    requires pool.idles == map[] && conn.Some? ==> conn.value == Chan(pool.next, now) && pool' == pool.AddNew(now)
    requires pool.idles == map[] && conn.None? ==> pool' == pool
    ensures Moves(st, d, acts', pool',
                  if conn.Some? then PoolRuns.Pull(c, conn.value) else PoolRuns.NextAttempt(st.config.tryMax, c))
  {
    hide PoolRuns.After;
    if pool.idles != map[] {
      var a := PoolRuns.TakeIdle(d, conn.value.key);
      MovesOn(st, d, acts, pool, c, a, pool', PoolRuns.Pull(c, conn.value));
      acts' := acts + [a];
    } else {
      var c1 := c.(phase := PoolRuns.Missing);
      var acts1 := acts + [PoolRuns.FindNone(d)];
      MovesOn(st, d, acts, pool, c, PoolRuns.FindNone(d), pool, c1);
      if conn.Some? {
        MovesOn(st, d, acts1, pool, c1, PoolRuns.RawOk(d, now), pool', PoolRuns.Pull(c1, conn.value));
        acts' := acts1 + [PoolRuns.RawOk(d, now)];
        assert PoolRuns.Pull(c1, conn.value) == PoolRuns.Pull(c, conn.value);
      } else {
        var c2 := PoolRuns.NextAttempt(st.config.tryMax, c1);
        MovesOn(st, d, acts1, pool, c1, PoolRuns.RawFails(d), pool', c2);
        acts' := acts1 + [PoolRuns.RawFails(d)];
        assert c2 == PoolRuns.NextAttempt(st.config.tryMax, c);
      }
    }
  }

  /** An attempt that came to nothing. */
  lemma GivenUp(st: PoolRuns.State, d: nat, acts: seq<PoolRuns.Action>, pool: Table, c: PoolRuns.Call, conn: Chan)
    returns (acts': seq<PoolRuns.Action>)
    requires Moves(st, d, acts, pool, c) && c.phase == PoolRuns.Trying(conn)
    ensures Moves(st, d, acts', pool.CloseOne(conn.key),
                  PoolRuns.NextAttempt(st.config.tryMax, c.(closed := c.closed + [conn.key])))
  {
    var c' := PoolRuns.NextAttempt(st.config.tryMax, c.(closed := c.closed + [conn.key]));
    hide PoolRuns.After;
    MovesOn(st, d, acts, pool, c, PoolRuns.TryFails(d), pool.CloseOne(conn.key), c');
    acts' := acts + [PoolRuns.TryFails(d)];
  }

  /** A refused channel goes back. */
  lemma PushedBack(st: PoolRuns.State, d: nat, acts: seq<PoolRuns.Action>, pool: Table, c: PoolRuns.Call, conn: Chan,
                   now: int, evicted: Option<Chan>)
    returns (acts': seq<PoolRuns.Action>, c': PoolRuns.Call)
    requires Moves(st, d, acts, pool, c) && c.phase == PoolRuns.Trying(conn)
    requires MayEvict(pool.idles, st.config.maxIdle, now, evicted)
    ensures Moves(st, d, acts', pool.Push(conn, evicted), c')
    ensures c'.phase.Ended? && c'.attempt == c.attempt && c'.pulled == c.pulled
  {
    hide PoolRuns.After, MayEvict;
    c' := PoolRuns.PushBack(c, conn);
    var a := PoolRuns.Refused(d, now, evicted);
    MovesOn(st, d, acts, pool, c, a, pool.Push(conn, evicted), c');
    acts' := acts + [a];
  }

  /** An accepted one is the session's. */
  lemma TakenOver(st: PoolRuns.State, d: nat, acts: seq<PoolRuns.Action>, pool: Table, c: PoolRuns.Call, conn: Chan)
    returns (acts': seq<PoolRuns.Action>, c': PoolRuns.Call)
    requires Moves(st, d, acts, pool, c) && c.phase == PoolRuns.Trying(conn)
    ensures Moves(st, d, acts', pool, c')
    ensures c'.phase == PoolRuns.Holding(conn) && c'.attempt == c.attempt && c'.pulled == c.pulled
  {
    hide PoolRuns.After;
    c' := c.(phase := PoolRuns.Holding(conn));
    MovesOn(st, d, acts, pool, c, PoolRuns.Accepted(d), pool, c');
    acts' := acts + [PoolRuns.Accepted(d)];
  }

  /** How a call that has dialed stands: it holds its channel or has none, and has made one attempt for each
      outcome up to the first answer, or all of them. */
  ghost predicate Dialed(script: seq<Outcome>, tryMax: int, c: PoolRuns.Call, r: Option<Chan>, pulled: seq<nat>) {
    && c.phase == (if r.Some? then PoolRuns.Holding(r.value) else PoolRuns.Ended)
    && c.pulled == pulled
    && (forall i, text :: FirstAnswered(script, i, text) ==> c.attempt == i)
    && ((forall i :: 0 <= i < |script| ==> !script[i].Answer?) ==> c.attempt == tryMax)
  }

  lemma NoneDialed(script: seq<Outcome>, tryMax: int, c: PoolRuns.Call, pulled: seq<nat>)
    requires c.phase.Ended? && c.pulled == pulled && c.attempt == tryMax
    requires forall i :: 0 <= i < |script| ==> !script[i].Answer?
    ensures Dialed(script, tryMax, c, None, pulled)
  {
  }

  lemma SomeDialed(script: seq<Outcome>, tryMax: int, c: PoolRuns.Call, r: Option<Chan>, message: string,
                   pulled: seq<nat>)
    requires FirstAnswered(script, c.attempt, message) && c.pulled == pulled
    requires c.phase == if r.Some? then PoolRuns.Holding(r.value) else PoolRuns.Ended
    ensures Dialed(script, tryMax, c, r, pulled)
  {
  }

  lemma Begun(st: PoolRuns.State)
    requires 1 <= st.config.tryMax
    ensures var st' := PoolRuns.Apply(st, PoolRuns.Begin);
            && st'.pool == st.pool && st'.config == st.config && |st'.calls| == |st.calls| + 1
            && BeforeAttempt(st'.calls[|st.calls|], 0, st.config.tryMax, [])
  {
  }

  /** From `st` a new call begins and, moving alone by the steps `acts`, dials to the end and leaves this pool. */
  ghost predicate RanAlone(st: PoolRuns.State, acts: seq<PoolRuns.Action>, pool: Table, script: seq<Outcome>,
                           r: Option<Chan>, pulled: seq<nat>) {
    && (forall a :: a in acts ==> PoolRuns.Of(a, |st.calls|))
    && var st' := PoolRuns.After(PoolRuns.Apply(st, PoolRuns.Begin), acts);
       && st'.pool == pool && |st'.calls| == |st.calls| + 1 && st'.calls[..|st.calls|] == st.calls
       && Dialed(script, st.config.tryMax, st'.calls[|st.calls|], r, pulled)
  }

  lemma CallAdded(st: PoolRuns.State, acts: seq<PoolRuns.Action>, pool: Table, c: PoolRuns.Call, script: seq<Outcome>,
                  r: Option<Chan>, pulled: seq<nat>)
    requires Moves(PoolRuns.Apply(st, PoolRuns.Begin), |st.calls|, acts, pool, c)
    requires Dialed(script, st.config.tryMax, c, r, pulled)
    ensures RanAlone(st, acts, pool, script, r, pulled)
  {
    hide PoolRuns.After, Dialed;
    var old' := PoolRuns.Apply(st, PoolRuns.Begin).calls;
    assert old'[|st.calls| := c] == st.calls + [c];
  }

  /** The session of call `d` has the channel `c`. */
  ghost predicate HasInHand(st: PoolRuns.State, d: nat, c: Chan) {
    d < |st.calls| && st.calls[d].phase == PoolRuns.Holding(c)
  }

  /** The step `a` ends call `d` and leaves this pool. */
  ghost predicate EndsBy(st: PoolRuns.State, d: nat, a: PoolRuns.Action, pool: Table) {
    && d < |st.calls| && PoolRuns.Of(a, d)
    && var st' := PoolRuns.CallStep(st, d, a);
       st'.pool == pool && d < |st'.calls| && st'.calls[d].phase.Ended?
  }

  /** A call where the loop of `DialBack` stands before its `i`-th attempt. */
  ghost predicate BeforeAttempt(c: PoolRuns.Call, i: int, tryMax: int, pulled: seq<nat>) {
    c.attempt == i && c.phase == (if i < tryMax then PoolRuns.Pulling else PoolRuns.Ended) && c.pulled == pulled
  }

  // ---------- the client's methods ----------

  class Client {
    var conns: map<nat, Chan>
    var idles: map<nat, Chan>
    var closed: seq<nat>
    var next: nat
    const MaxIdle: int
    const KeepIdle: int
    const TryMax: int

    ghost function Contents(): Table
      reads this
    {
      Table(conns, idles, closed, next)
    }

    ghost predicate Valid()
      reads this
    {
      Contents().Ok()
    }

    /** The pool of a run is this one, or was. */
    ghost predicate IsPoolOf(st: PoolRuns.State)
      reads this
    {
      IsPool(st, Contents())
    }

    ghost predicate IsPool(st: PoolRuns.State, pool: Table) {
      st.pool == pool && st.config == PoolRuns.Config(TryMax, MaxIdle, KeepIdle)
    }

    constructor (maxIdle: int, keepIdle: int, tryMax: int)
      ensures Valid() && Contents() == Table(map[], map[], [], 0)
      ensures MaxIdle == maxIdle && KeepIdle == keepIdle && TryMax == tryMax
    {
      MaxIdle, KeepIdle, TryMax := maxIdle, keepIdle, tryMax;
      conns, idles, closed, next := map[], map[], [], 0;
    }

    /** `pullConn`: an idle channel if there is one, otherwise a new one if the dialer gives one. */
    method PullConn(raw: bool, now: int) returns (r: Option<Chan>)
      requires Valid()
      modifies this`conns, this`idles, this`next
      ensures Valid()
      ensures old(idles) != map[] ==>
                && r.Some? && r.value.key in old(idles) && r.value == old(idles)[r.value.key]
                && Contents() == old(Contents()).TakeIdle(r.value.key)
      ensures old(idles) == map[] && raw ==>
                r == Some(Chan(old(next), now)) && Contents() == old(Contents()).AddNew(now)
      ensures old(idles) != map[] ==> idles == old(idles) - {r.value.key} && conns == old(conns) && next == old(next)
      ensures old(idles) == map[] && raw ==>
                conns == old(conns)[old(next) := r.value] && idles == map[] && next == old(next) + 1
      ensures old(idles) == map[] && !raw ==> r.None? && Contents() == old(Contents())
    {
      if idles != map[] {
        var key :| key in idles;
        r := Some(idles[key]);
        idles := idles - {key};
      } else if !raw {
        r := None;
      } else {
        r := Some(Chan(next, now));
        conns := conns[next := r.value];
        next := next + 1;
      }
    }

    method CloseChan(c: Chan)
      modifies this`closed
      ensures Contents() == old(Contents()).CloseOne(c.key)
    {
      closed := closed + [c.key];
    }

    /** The channel `pushConn` evicts: the least recently made of those made before `now`. */
    method FindOldest(now: int) returns (oldest: Option<Chan>)
      requires Valid()
      ensures Oldest(idles, now, oldest)
    {
      var oldestTime := now;
      oldest := None;
      var todo := idles.Keys;
      while todo != {}
        invariant todo <= idles.Keys
        invariant oldest.None? ==> oldestTime == now
        invariant oldest.Some? ==>
                    && oldest.value.key in idles && idles[oldest.value.key] == oldest.value
                    && oldestTime == oldest.value.lastUsed < now
        invariant forall k :: k in idles && k !in todo ==> oldestTime <= idles[k].lastUsed
        decreases todo
      {
        var k :| k in todo;
        var last := idles[k].lastUsed;
        if oldestTime - last > 0 {
          oldestTime, oldest := last, Some(idles[k]);
        }
        todo := todo - {k};
      }
    }

    /** `pushConn` closes the oldest idle channel of a full pool, but leaves it in the pool: a push
        always adds its channel, and the pool stays within `MaxIdle` only while it is not yet full. */
    method PushConn(c: Chan, now: int) returns (ghost evicted: Option<Chan>)
      requires Valid() && c.key < next
      modifies this`conns, this`idles, this`closed
      ensures Valid()
      ensures MayEvict(old(idles), MaxIdle, now, evicted) && Contents() == old(Contents()).Push(c, evicted)
      ensures conns == old(conns) - {c.key} && idles == old(idles)[c.key := c]
      ensures |old(idles)| < MaxIdle || (forall k :: k in old(idles) ==> old(idles)[k].lastUsed >= now) ==>
                closed == old(closed)
      ensures |old(idles)| >= MaxIdle && (exists k :: k in old(idles) && old(idles)[k].lastUsed < now) ==>
                exists k :: k in old(idles) && closed == old(closed) + [k]
                  && forall j :: j in old(idles) ==> old(idles)[k].lastUsed <= old(idles)[j].lastUsed
      ensures c.key !in old(idles) ==> (|idles| <= MaxIdle <==> |old(idles)| < MaxIdle)
    {
      hide Table.Ok, MayEvict;
      ghost var before := Contents();
      evicted := Evict(now);
      conns := conns - {c.key};
      idles := idles[c.key := c];
      PushIs(before, c, evicted);
    }

    /** A full pool's oldest channel is closed. */
    method Evict(now: int) returns (ghost evicted: Option<Chan>)
      requires Valid()
      modifies this`closed
      ensures MayEvict(idles, MaxIdle, now, evicted) && closed == old(closed) + KeyOf(evicted)
      ensures |idles| < MaxIdle || (forall k :: k in idles ==> idles[k].lastUsed >= now) ==> closed == old(closed)
      ensures |idles| >= MaxIdle && (exists k :: k in idles && idles[k].lastUsed < now) ==>
                exists k :: k in idles && closed == old(closed) + [k]
                  && forall j :: j in idles ==> idles[k].lastUsed <= idles[j].lastUsed
    {
      if |idles| < MaxIdle {
        return None;
      }
      var oldest := FindOldest(now);
      if oldest.Some? {
        CloseChan(oldest.value);
      }
      return oldest;
    }

    /** `timeoutConn` closes and drops exactly the idle channels that are too old. */
    method TimeoutConn(now: int)
      requires Valid()
      modifies this`idles, this`closed
      ensures Valid()
      ensures |closed| >= |old(closed)|
      ensures var keys := closed[|old(closed)|..];
              TooOld(old(idles), KeepIdle, now, keys) && Contents() == old(Contents()).Expire(keys)
      ensures forall st :: IsPool(st, old(Contents())) ==>
                PoolRuns.Apply(st, PoolRuns.Timeout(now, closed[|old(closed)|..])).pool == Contents()
      ensures forall k :: k in closed[|old(closed)|..] <==> k in old(idles) && now - old(idles)[k].lastUsed > KeepIdle
      ensures conns == old(conns)
      ensures idles == map k | k in old(idles) && now - old(idles)[k].lastUsed <= KeepIdle :: old(idles)[k]
    {
      var todo := idles.Keys;
      ghost var was, log, keys := idles, closed, [];
      while todo != {}
        invariant todo <= was.Keys && closed == log + keys
        invariant idles == map k | k in was && k !in keys :: was[k]
        invariant Distinct(keys)
        invariant forall k :: k in keys <==> k in was && k !in todo && now - was[k].lastUsed > KeepIdle
        decreases todo
      {
        var k :| k in todo;
        if now - idles[k].lastUsed > KeepIdle {
          CloseChan(idles[k]);
          idles := idles - {k};
          keys := keys + [k];
        }
        todo := todo - {k};
      }
      assert closed[|log|..] == keys;
      YoungStay(was, KeepIdle, now, keys);
    }

    /** `Close` closes every recorded channel, whoever holds it, and no idle one; it takes none out. */
    method Close()
      requires Valid()
      modifies this`closed
      ensures Valid() && |closed| >= |old(closed)|
      ensures var keys := closed[|old(closed)|..];
              AllRecorded(conns, keys) && Contents() == old(Contents()).CloseEach(keys)
      ensures forall st :: IsPool(st, old(Contents())) ==>
                PoolRuns.Apply(st, PoolRuns.CloseAll(closed[|old(closed)|..])).pool == Contents()
      ensures forall k :: k in closed[|old(closed)|..] <==> k in conns
      ensures forall i, j :: |old(closed)| <= i < j < |closed| ==> closed[i] != closed[j]
    {
      var todo := conns.Keys;
      ghost var log, keys := closed, [];
      while todo != {}
        invariant todo <= conns.Keys && closed == log + keys && Distinct(keys)
        invariant forall k :: k in keys <==> k in conns && k !in todo
        decreases todo
      {
        var k :| k in todo;
        CloseChan(conns[k]);
        keys := keys + [k];
        todo := todo - {k};
      }
      assert closed[|log|..] == keys;
    }

    /** `DialBack`: up to `TryMax` attempts, each with its own channel; `script` says how each goes.
        Every channel but the returned one is closed, and none of them goes back to the pool. With
        `TryMax < 1` there is no attempt, no error and no answer to read, and the code panics. */
    method DialBack(script: seq<Outcome>, now: int, ghost st: PoolRuns.State, ghost d: nat)
      returns (r: DialResult, ghost pulled: seq<nat>, ghost acts: seq<PoolRuns.Action>, ghost c: PoolRuns.Call)
      requires Valid() && 1 <= TryMax == |script|
      requires IsPoolOf(st) && d < |st.calls| && BeforeAttempt(st.calls[d], 0, TryMax, [])
      modifies this`conns, this`idles, this`next, this`closed
      ensures Valid()
      ensures |pulled| <= TryMax && forall k :: k in pulled ==> k !in idles
      ensures r.Success? ==> pulled != [] && pulled[|pulled| - 1] == r.conn.key < next
      ensures closed == old(closed) + if r.Success? then pulled[..|pulled| - 1] else pulled
      ensures r.Success? <==> exists i :: 0 <= i < |script| && script[i].Answer?
      ensures r.Success? ==> exists i :: 0 <= i < |script| && script[i] == Answer(r.message)
                                && forall j :: 0 <= j < i ==> !script[j].Answer?
      ensures Moves(st, d, acts, Contents(), c) && c.pulled == pulled
      ensures if r.Success? then c.phase == PoolRuns.Trying(r.conn) && FirstAnswered(script, c.attempt, r.message)
              else c.phase.Ended? && c.attempt == TryMax
    {
      hide Moves, FirstAnswered;
      r, pulled, acts, c := Failure, [], [], st.calls[d];
      StandsStill(st, d);
      for i := 0 to TryMax
        invariant Valid() && r == Failure
        invariant |pulled| <= i && closed == old(closed) + pulled
        invariant forall k :: k in pulled ==> k !in idles && k < next
        invariant forall j :: 0 <= j < i ==> !script[j].Answer?
        invariant Moves(st, d, acts, Contents(), c) && BeforeAttempt(c, i, TryMax, pulled)
      {
        ghost var before := Contents();
        // a script entry other than NoChannel means that a channel could be had
        var conn := PullConn(!script[i].NoChannel?, now);
        acts := Pulled(st, d, acts, before, c, conn, now, Contents());
        c := if conn.Some? then PoolRuns.Pull(c, conn.value) else PoolRuns.NextAttempt(TryMax, c);
        if conn.Some? {
          pulled := pulled + [conn.value.key];
          if script[i].Answer? {
            FirstIs(script, i);
            return Success(conn.value, script[i].message), pulled, acts, c;
          }
          acts := GivenUp(st, d, acts, Contents(), c, conn.value);
          c := PoolRuns.NextAttempt(TryMax, c.(closed := c.closed + [conn.value.key]));
          CloseChan(conn.value);
        }
      }
    }

    /** `DialConn`: a channel whose dial was refused goes back to the pool, and the dial fails. All
        other channels it pulled are closed, and with no answer the last one is closed as well. */
    method DialConn(script: seq<Outcome>, now: int, ghost st: PoolRuns.State)
      returns (r: Option<Chan>, ghost pulled: seq<nat>, ghost acts: seq<PoolRuns.Action>)
      requires Valid() && 1 <= TryMax == |script| && IsPoolOf(st)
      modifies this`conns, this`idles, this`next, this`closed
      ensures Valid() && |pulled| <= TryMax
      ensures (forall i :: 0 <= i < |script| ==> !script[i].Answer?) ==>
                r.None? && closed == old(closed) + pulled && forall k :: k in pulled ==> k !in idles
      ensures forall i :: FirstAnswered(script, i, "ok") ==>
                && r.Some? && pulled != [] && r.value.key == pulled[|pulled| - 1] && r.value.key !in idles
                && closed == old(closed) + pulled[..|pulled| - 1]
      ensures forall i, text :: FirstAnswered(script, i, text) && text != "ok" ==>
                && r.None? && pulled != [] && pulled[|pulled| - 1] in idles && pulled[|pulled| - 1] !in conns
                && exists evicted :: MayEvict(idles - {pulled[|pulled| - 1]}, MaxIdle, now, evicted)
                     && closed == old(closed) + pulled[..|pulled| - 1] + KeyOf(evicted)
      ensures RanAlone(st, acts, Contents(), script, r, pulled)
    {
      hide Moves, FirstAnswered, Dialed, RanAlone, BeforeAttempt, MayEvict, PoolRuns.After, PoolRuns.Apply;
      ghost var st0, n := PoolRuns.Apply(st, PoolRuns.Begin), |st.calls|;
      Begun(st);
      var d;
      ghost var c;
      d, pulled, acts, c := DialBack(script, now, st0, n);
      if d.Failure? {
        NoneFirst(script);
        NoneDialed(script, TryMax, c, pulled);
        CallAdded(st, acts, Contents(), c, script, None, pulled);
        return None, pulled, acts;
      }
      OnlyFirst(script, c.attempt, d.message);
      if d.message != "ok" {
        ghost var before := Contents();
        ghost var evicted := PushConn(d.conn, now);
        assert idles - {d.conn.key} == before.idles;
        acts, c := PushedBack(st0, n, acts, before, c, d.conn, now, evicted);
        SomeDialed(script, TryMax, c, None, d.message, pulled);
        CallAdded(st, acts, Contents(), c, script, None, pulled);
        return None, pulled, acts;
      }
      acts, c := TakenOver(st0, n, acts, Contents(), c, d.conn);
      SomeDialed(script, TryMax, c, Some(d.conn), d.message, pulled);
      CallAdded(st, acts, Contents(), c, script, Some(d.conn), pulled);
      return Some(d.conn), pulled, acts;
    }

    /** `piperConn.Close`: a broken channel is closed, a sound one goes back to the pool. */
    method ClosePiper(c: Chan, broken: bool, now: int) returns (ghost evicted: Option<Chan>)
      requires Valid() && c.key < next
      modifies this`conns, this`idles, this`closed
      ensures Valid()
      ensures broken ==> Contents() == old(Contents()).CloseOne(c.key)
      ensures !broken ==>
                MayEvict(old(idles), MaxIdle, now, evicted) && Contents() == old(Contents()).Push(c, evicted)
      ensures forall st, d :: IsPool(st, old(Contents())) && HasInHand(st, d, c) ==>
                EndsBy(st, d, if broken then PoolRuns.Break(d) else PoolRuns.Return(d, now, evicted), Contents())
    {
      if broken {
        CloseChan(c);
        evicted := None;
      } else {
        evicted := PushConn(c, now);
      }
    }
  }
}
