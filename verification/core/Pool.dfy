/** The client's channel pool (core/cs.go:274-517) as a value, and what each critical section of `connsLck`
    makes of it. `PoolRuns` lets any number of concurrent `DialPiper` calls interleave at these sections;
    `PoolClient` has the code. */
module Pool {
  import opened OptionType

  /** `LastUsed` is set when the channel is made and never again (core/cs.go:33-47). */
  datatype Chan = Chan(key: nat, lastUsed: int)

  // ---------- the pool as a value ----------

  /** The client's two maps, the channels `Close` was called on, in order, and the first unused key; a
      key is the address of a channel that is still referenced. */
  datatype Table = Table(conns: map<nat, Chan>, idles: map<nat, Chan>, closed: seq<nat>, next: nat) {

    ghost predicate Ok() {
      && conns.Keys !! idles.Keys
      && (forall k :: k in conns ==> k < next && conns[k].key == k)
      && (forall k :: k in idles ==> k < next && idles[k].key == k)
    }

    /** `pullConn`, first section: an idle channel leaves the pool. */
    function TakeIdle(key: nat): Table {
      this.(idles := idles - {key})
    }

    /** `pullConn`, second section: a new channel is recorded. */
    function AddNew(now: int): Table {
      this.(conns := conns[next := Chan(next, now)], next := next + 1)
    }

    /** A channel is closed. */
    function CloseOne(key: nat): Table {
      this.(closed := closed + [key])
    }

    /** `pushConn`: `evicted` is closed, but stays in the pool. */
    function Push(c: Chan, evicted: Option<Chan>): Table {
      Table(conns - {c.key}, idles[c.key := c], closed + KeyOf(evicted), next)
    }

    /** `Close`: the channels `keys` are closed, in this order, and stay where they are. */
    function CloseEach(keys: seq<nat>): Table {
      this.(closed := closed + keys)
    }

    /** `timeoutConn`: the channels `keys` are closed and dropped, in this order. */
    function Expire(keys: seq<nat>): Table {
      this.(idles := map k | k in idles && k !in keys :: idles[k], closed := closed + keys)
    }
  }

  function KeyOf(c: Option<Chan>): seq<nat> {
    if c.Some? then [c.value.key] else []
  }

  predicate Distinct(keys: seq<nat>) {
    forall i, j :: 0 <= i < j < |keys| ==> keys[i] != keys[j]
  }

  /** `oldest` is a channel of the pool used before `now`, and none was used before it. */
  predicate Oldest(idles: map<nat, Chan>, now: int, oldest: Option<Chan>) {
    match oldest
    case None => forall k :: k in idles ==> idles[k].lastUsed >= now
    case Some(c) =>
      && c.key in idles && idles[c.key] == c && c.lastUsed < now
      && forall k :: k in idles ==> c.lastUsed <= idles[k].lastUsed
  }

  /** What a push may close: the oldest channel of a full pool, or nothing. */
  predicate MayEvict(idles: map<nat, Chan>, maxIdle: int, now: int, evicted: Option<Chan>) {
    if |idles| >= maxIdle then Oldest(idles, now, evicted) else evicted == None
  }

  /** `keys` lists the recorded channels, each once. */
  ghost predicate AllRecorded(conns: map<nat, Chan>, keys: seq<nat>) {
    Distinct(keys) && forall k :: k in keys <==> k in conns
  }

  /** `keys` lists the idle channels that are too old, each once. */
  ghost predicate TooOld(idles: map<nat, Chan>, keepIdle: int, now: int, keys: seq<nat>) {
    Distinct(keys) && forall k :: k in keys <==> k in idles && now - idles[k].lastUsed > keepIdle
  }

  lemma YoungStay(idles: map<nat, Chan>, keepIdle: int, now: int, keys: seq<nat>)
    requires TooOld(idles, keepIdle, now, keys)
    ensures (map k | k in idles && k !in keys :: idles[k])
         == map k | k in idles && now - idles[k].lastUsed <= keepIdle :: idles[k]
  {
  }

  // ---------- what each section does to the pool ----------

  lemma TakeIdleIs(t: Table, key: nat)
    requires t.Ok() && key in t.idles
    ensures var t' := t.TakeIdle(key);
            t'.Ok() && t'.closed == t.closed && t'.next == t.next && t'.idles.Keys == t.idles.Keys - {key}
  {
  }

  lemma AddNewIs(t: Table, now: int)
    requires t.Ok()
    ensures var t' := t.AddNew(now);
            t'.Ok() && t'.closed == t.closed && t'.next == t.next + 1 && t'.idles == t.idles
  {
  }

  lemma PushIs(t: Table, conn: Chan, oldest: Option<Chan>)
    requires t.Ok() && conn.key < t.next
    ensures var t' := t.Push(conn, oldest);
            && t'.Ok() && t'.closed == t.closed + KeyOf(oldest) && t'.next == t.next
            && t'.idles.Keys == t.idles.Keys + {conn.key}
  {
  }
}
