/** The gateway's table under concurrency: one `procData` loop, any number of `procRead` exits,
    timeouts and close-all, interleaved at their lock sections (udpgw/udpgw.go:49-56, 115-153,
    185-202, 238-257). */
module GatewayRuns {
  import opened Gateway
  import opened Header
  import opened OptionType

  /** Where the `procData` loop is with a request whose conid it did not find. */
  datatype Loop = Ready | Missed(q: Parsed) | Limited(q: Parsed) | Dialed(conn: Conn)

  /** `readers` run `procRead`; `exiting` ones have deleted their entry and not yet closed their socket. */
  datatype State = State(maxConn: int, gw: Sockets, loop: Loop, readers: set<Conn>, exiting: set<Conn>)

  datatype Action =
    | Lookup(p: seq<Byte>)           // read lock: the loop looks the conid of a packet up
    | Limit(victim: Option<Conn>)    // limitConn; the victim is some entry of a full table
    | DialFails
    | DialOk
    | Record
    | ReaderDeletes(c: Conn)
    | ReaderCloses(c: Conn)
    | Timeout(keys: set<nat>)        // procTimeout drops these entries
    | CloseAll

  function Start(maxConn: int): State { State(maxConn, Sockets(map[], {}, 0), Ready, {}, {}) }

  /** Whichever entry was used least recently. */
  predicate SomeVictim(t: Table, maxConn: int, victim: Option<Conn>) {
    if |t| < maxConn || t == map[] then victim == None
    else victim.Some? && victim.value.conid in t && t[victim.value.conid] == victim.value
  }

  lemma MakesRoomIsSomeVictim(t: Table, latest: map<nat, int>, maxConn: int, victim: Option<Conn>)
    requires (forall k :: k in t ==> t[k].sock in latest) && MakesRoom(t, latest, maxConn, victim)
    ensures SomeVictim(t, maxConn, victim)
  {
  }

  function Drop(st: State, keys: set<nat>): State {
    st.(gw := st.gw.Drop(keys))
  }

  function LimitStep(st: State, victim: Option<Conn>): State {
    if st.loop.Missed? && SomeVictim(st.gw.table, st.maxConn, victim) then
      st.(gw := st.gw.Without(victim), loop := Limited(st.loop.q))
    else st
  }

  /** A step that is not enabled changes nothing. */
  function Apply(st: State, a: Action): State {
    match a
    case Lookup(p) =>
      var q := Parse(p);
      if st.loop.Ready? && q.Request? && q.conid !in st.gw.table then st.(loop := Missed(q)) else st
    case Limit(victim) => LimitStep(st, victim)
    case DialFails => if st.loop.Limited? then st.(loop := Ready) else st
    case DialOk =>
      if st.loop.Limited? && st.loop.q.Request? then
        st.(loop := Dialed(NewConn(st.gw.next, st.loop.q)), gw := st.gw.Dial())
      else st
    case Record =>
      if st.loop.Dialed? then
        st.(gw := st.gw.Insert(st.loop.conn), readers := st.readers + {st.loop.conn}, loop := Ready)
      else st
    case ReaderDeletes(c) =>
      if c in st.readers then
        st.(gw := st.gw.Forget(c), readers := st.readers - {c}, exiting := st.exiting + {c})
      else st
    case ReaderCloses(c) =>
      if c in st.exiting then st.(gw := st.gw.CloseSock(c), exiting := st.exiting - {c}) else st
    case Timeout(keys) => Drop(st, keys)
    case CloseAll => Drop(st, st.gw.table.Keys)
  }

  function Limit1(maxConn: int): int { if maxConn >= 1 then maxConn else 1 }

  function ConidOf(q: Parsed): set<nat> { if q.Request? then {q.conid} else {} }

  /** The conid the loop is about to record, if any. */
  function Coming(l: Loop): set<nat> {
    match l
    case Ready => {}
    case Missed(q) => ConidOf(q)
    case Limited(q) => ConidOf(q)
    case Dialed(conn) => {conn.conid}
  }

  ghost predicate Safe(st: State) {
    && (forall k :: k in st.gw.table ==> st.gw.table[k].conid == k)
    && (forall k :: k in st.gw.table ==> st.gw.table[k].sock in st.gw.open)
    && |st.gw.table| <= Limit1(st.maxConn)
  }

  /** Entries have readers that have not deleted them, and sockets of their own. */
  ghost predicate TableOk(st: State) {
    && (forall j, k :: j in st.gw.table && k in st.gw.table && st.gw.table[j].sock == st.gw.table[k].sock ==> j == k)
    && (forall k :: k in st.gw.table ==> st.gw.table[k] in st.readers)
  }

  function Known(st: State): set<Conn> { st.readers + st.exiting }

  ghost predicate ReadersOk(st: State) {
    && st.readers !! st.exiting
    && (forall c, d :: c in Known(st) && d in Known(st) && c.sock == d.sock ==> c == d)
    && (forall c :: c in Known(st) ==> c.sock < st.gw.next)
    && (forall s :: s in st.gw.open ==> s < st.gw.next)
  }

  ghost predicate LoopOk(st: State) {
    && Coming(st.loop) !! st.gw.table.Keys
    && (st.loop.Limited? || st.loop.Dialed? ==> |st.gw.table| < Limit1(st.maxConn))
    && (st.loop.Dialed? ==>
          && st.loop.conn.sock in st.gw.open
          && forall c :: c in Known(st) ==> c.sock != st.loop.conn.sock)
  }

  ghost predicate Inv(st: State) {
    Safe(st) && TableOk(st) && ReadersOk(st) && LoopOk(st)
  }

  lemma FewerEntries(t: Table, keys: set<nat>)
    ensures |t - keys| <= |t|
    ensures forall k :: k in keys && k in t ==> |t - keys| < |t|
  {
    assert (t - keys).Keys == t.Keys - keys;
    SubsetSize(t.Keys - keys, t.Keys);
  }

  lemma SubsetSize(a: set<nat>, b: set<nat>)
    requires a <= b
    ensures |a| <= |b| && (a != b ==> |a| < |b|)
  {
    assert b == a + (b - a);
  }

  lemma DropKeepsSafe(st: State, keys: set<nat>)
    requires Safe(st) && TableOk(st)
    ensures Safe(Drop(st, keys))
  {
    FewerEntries(st.gw.table, keys);
  }

  lemma DropKeepsTable(st: State, keys: set<nat>)
    requires TableOk(st) && ReadersOk(st)
    ensures TableOk(Drop(st, keys)) && ReadersOk(Drop(st, keys))
  {
    hide SocksOf;
    assert Drop(st, keys).gw.open <= st.gw.open;
  }

  lemma DropKeepsLoop(st: State, keys: set<nat>)
    requires LoopOk(st) && TableOk(st)
    ensures LoopOk(Drop(st, keys))
  {
    FewerEntries(st.gw.table, keys);
    if st.loop.Dialed? {
      assert forall k :: k in st.gw.table ==> st.gw.table[k].sock != st.loop.conn.sock;
      assert st.loop.conn.sock !in SocksOf(st.gw.table, keys);
    }
  }

  lemma DropKeepsInv(st: State, keys: set<nat>)
    requires Inv(st)
    ensures Inv(Drop(st, keys)) && |Drop(st, keys).gw.table| <= |st.gw.table|
    ensures forall k :: k in keys && k in st.gw.table ==> |Drop(st, keys).gw.table| < |st.gw.table|
    ensures Drop(st, keys).loop == st.loop && Drop(st, keys).maxConn == st.maxConn
  {
    hide Safe, TableOk, ReadersOk, LoopOk;
    FewerEntries(st.gw.table, keys);
    DropKeepsSafe(st, keys);
    DropKeepsTable(st, keys);
    DropKeepsLoop(st, keys);
  }

  lemma LimitKeepsInv(st: State, victim: Option<Conn>)
    requires Inv(st)
    ensures Inv(LimitStep(st, victim))
  {
    hide TableOk, ReadersOk, LoopOk;
    if st.loop.Missed? && SomeVictim(st.gw.table, st.maxConn, victim) {
      LimitedIsOk(st);
      if victim.Some? {
        DropKeepsInv(st, {victim.value.conid});
        LimitedIsOk(Drop(st, {victim.value.conid}));
      }
    }
  }

  lemma LimitedIsOk(st: State)
    requires Inv(st) && st.loop.Missed?
    ensures |st.gw.table| < Limit1(st.maxConn) ==> Inv(st.(loop := Limited(st.loop.q)))
    ensures st.gw.table == map[] ==> |st.gw.table| < Limit1(st.maxConn)
  {
  }

  lemma InsertKeepsTable(st: State)
    requires TableOk(st) && st.loop.Dialed? && LoopOk(st)
    ensures TableOk(Apply(st, Record))
  {
    assert forall k :: k in st.gw.table ==> st.gw.table[k].sock != st.loop.conn.sock;
  }

  lemma InsertKeepsReaders(st: State)
    requires ReadersOk(st) && st.loop.Dialed? && LoopOk(st)
    ensures ReadersOk(Apply(st, Record))
  {
  }

  lemma InsertKeepsSafe(st: State)
    requires Safe(st) && st.loop.Dialed? && LoopOk(st)
    ensures Safe(Apply(st, Record)) && LoopOk(Apply(st, Record))
  {
    assert Apply(st, Record).gw.table.Keys == st.gw.table.Keys + {st.loop.conn.conid};
  }

  lemma InsertKeepsInv(st: State)
    requires Inv(st) && st.loop.Dialed?
    ensures Inv(Apply(st, Record))
  {
    hide Safe, TableOk, ReadersOk, LoopOk, Apply;
    InsertKeepsSafe(st);
    InsertKeepsTable(st);
    InsertKeepsReaders(st);
  }

  lemma KeyIsConid(st: State, k: nat)
    requires Safe(st) && k in st.gw.table
    ensures st.gw.table[k].conid == k
  {
  }

  lemma ReaderDeletesKeepsTable(st: State, c: Conn)
    requires TableOk(st) && c in st.readers && Safe(st)
    ensures TableOk(Apply(st, ReaderDeletes(c)))
  {
    hide Safe;
    var st' := Apply(st, ReaderDeletes(c));
    forall k | k in st'.gw.table
      ensures k in st.gw.table && st'.gw.table[k] == st.gw.table[k] && st.gw.table[k] in st'.readers
    {
      KeyIsConid(st, k);
    }
  }

  lemma ReaderDeletesKeepsReaders(st: State, c: Conn)
    requires ReadersOk(st) && c in st.readers
    ensures ReadersOk(Apply(st, ReaderDeletes(c)))
  {
    var st' := Apply(st, ReaderDeletes(c));
    assert Known(st') == Known(st);
  }

  lemma ReaderDeletesKeepsSafe(st: State, c: Conn)
    requires Safe(st) && LoopOk(st) && c in st.readers
    ensures Safe(Apply(st, ReaderDeletes(c))) && LoopOk(Apply(st, ReaderDeletes(c)))
  {
    FewerEntries(st.gw.table, {c.conid});
    var st' := Apply(st, ReaderDeletes(c));
    assert Known(st') == Known(st);
  }

  lemma ReaderDeletesKeepsInv(st: State, c: Conn)
    requires Inv(st) && c in st.readers
    ensures Inv(Apply(st, ReaderDeletes(c)))
  {
    hide Safe, TableOk, ReadersOk, LoopOk, Apply;
    ReaderDeletesKeepsTable(st, c);
    ReaderDeletesKeepsReaders(st, c);
    ReaderDeletesKeepsSafe(st, c);
  }

  lemma ReaderClosesKeepsInv(st: State, c: Conn)
    requires Inv(st) && c in st.exiting
    ensures Inv(Apply(st, ReaderCloses(c)))
  {
    var st' := Apply(st, ReaderCloses(c));
    assert Safe(st') by { hide LoopOk; }
    assert TableOk(st') by { hide Safe, ReadersOk, LoopOk; }
    assert ReadersOk(st') by { hide Safe, LoopOk, TableOk; }
    hide Safe, ReadersOk, TableOk;
  }

  lemma DialOkKeepsInv(st: State)
    requires Inv(st) && st.loop.Limited?
    ensures Inv(Apply(st, DialOk))
  {
    var st' := Apply(st, DialOk);
    assert Safe(st') && TableOk(st') by { hide ReadersOk, LoopOk; }
    assert ReadersOk(st') by { hide Safe, LoopOk, TableOk; }
    hide Safe, TableOk;
  }

  lemma ApplyKeepsInv(st: State, a: Action)
    requires Inv(st)
    ensures Inv(Apply(st, a)) && Apply(st, a).maxConn == st.maxConn
  {
    hide Safe, TableOk, ReadersOk, Drop;
    DropKeepsNames(st);
    match a
    case Limit(victim) => LimitKeepsInv(st, victim);
    case Record => if st.loop.Dialed? { InsertKeepsInv(st); }
    case DialOk => if st.loop.Limited? { DialOkKeepsInv(st); }
    case ReaderDeletes(c) => if c in st.readers { ReaderDeletesKeepsInv(st, c); }
    case ReaderCloses(c) => if c in st.exiting { ReaderClosesKeepsInv(st, c); }
    case Timeout(keys) => DropKeepsInv(st, keys);
    case CloseAll => DropKeepsInv(st, st.gw.table.Keys);
    case Lookup(conid) => assert Inv(Apply(st, a)) by { SameTable(st, Apply(st, a)); }
    case DialFails => assert Inv(Apply(st, a)) by { SameTable(st, Apply(st, a)); }
  }

  lemma DropKeepsNames(st: State)
    ensures forall keys :: Drop(st, keys).maxConn == st.maxConn
  {
  }

  lemma SameTable(st: State, st': State)
    requires Inv(st) && st' == st.(loop := st'.loop) && LoopOk(st')
    ensures Inv(st')
  {
  }

  /** The state after a run. */
  function Run(maxConn: int, actions: seq<Action>): State {
    if actions == [] then Start(maxConn)
    else Apply(Run(maxConn, actions[..|actions| - 1]), actions[|actions| - 1])
  }

  lemma {:induction false} RunKeepsInv(maxConn: int, actions: seq<Action>)
    ensures Inv(Run(maxConn, actions)) && Run(maxConn, actions).maxConn == maxConn
  {
    if actions == [] {
    } else {
      var before := actions[..|actions| - 1];
      RunKeepsInv(maxConn, before);
      hide Inv;
      ApplyKeepsInv(Run(maxConn, before), actions[|actions| - 1]);
    }
  }

  /** Table safety, over every run: each key is its entry's conid, no entry holds a closed socket, and
      the table stays within its bound. */
  lemma TableSafety(maxConn: int, actions: seq<Action>)
    ensures Safe(Run(maxConn, actions)) && Run(maxConn, actions).maxConn == maxConn
  {
    RunKeepsInv(maxConn, actions);
  }

  lemma RunSnoc(maxConn: int, actions: seq<Action>, a: Action)
    ensures Run(maxConn, actions + [a]) == Apply(Run(maxConn, actions), a)
  {
    hide Apply;
    assert (actions + [a])[..|actions|] == actions;
  }

  const REQUEST: seq<Byte> := [0, 0, 7, 10, 0, 0, 1, 0, 53]

  /** The connection to 10.0.0.1, port 53, that a first request with conid 7 makes on a socket. */
  function Seventh(sock: nat): Conn { Conn(sock, 7, 0, [10, 0, 0, 1], 53) }

  const Connect := [Lookup(REQUEST), Limit(None), DialOk, Record]

  lemma RequestParsed()
    ensures Parse(REQUEST) == Request(0, 7, [10, 0, 0, 1], 53, [])
  {
    assert REQUEST[3..7] == [10, 0, 0, 1] && REQUEST[9..] == [];
  }

  /** The configured bound is kept by every run exactly when it is at least one: `limitConn` has
      nothing to drop from an empty table, so one entry always fits. */
  lemma MaxConnIsKeptIff(maxConn: int)
    ensures (forall actions: seq<Action> :: |Run(maxConn, actions).gw.table| <= maxConn) <==> maxConn >= 1
  {
    if maxConn >= 1 {
      forall actions: seq<Action>
        ensures |Run(maxConn, actions).gw.table| <= maxConn
      {
        TableSafety(maxConn, actions);
      }
    } else {
      FirstConnect(maxConn);
      assert |Run(maxConn, Connect).gw.table| == 1;
    }
  }

  /** A connection made from a state with room and nothing in the way. */
  lemma ConnectFrom(maxConn: int, actions: seq<Action>)
    requires var st := Run(maxConn, actions); st.loop.Ready? && st.gw.table == map[]
    ensures var st, c := Run(maxConn, actions), Seventh(Run(maxConn, actions).gw.next);
            Run(maxConn, actions + Connect)
            == st.(gw := Sockets(map[7 := c], st.gw.open + {c.sock}, c.sock + 1), readers := st.readers + {c})
  {
    RequestParsed();
    hide Inv, Run, Parse;
    var a1 := actions + [Lookup(REQUEST)];
    var a2 := a1 + [Limit(None)];
    var a3 := a2 + [DialOk];
    RunSnoc(maxConn, actions, Lookup(REQUEST));
    RunSnoc(maxConn, a1, Limit(None));
    RunSnoc(maxConn, a2, DialOk);
    RunSnoc(maxConn, a3, Record);
    assert a3 + [Record] == actions + Connect;
  }

  lemma FirstConnect(maxConn: int)
    ensures Run(maxConn, Connect)
         == State(maxConn, Sockets(map[7 := Seventh(0)], {0}, 1), Ready, {Seventh(0)}, {})
  {
    assert Run(maxConn, []) == Start(maxConn);
    hide Inv, Run;
    ConnectFrom(maxConn, []);
    assert [] + Connect == Connect;
  }

  // ---------- sockets and entries ----------

  /** An open socket that nothing will close by way of its entry, its exiting reader or the loop. */
  ghost predicate Orphan(st: State, s: nat) {
    && s in st.gw.open
    && (forall k :: k in st.gw.table ==> st.gw.table[k].sock != s)
    && (forall c :: c in st.exiting ==> c.sock != s)
    && !(st.loop.Dialed? && st.loop.conn.sock == s)
  }

  /** Every open socket has an entry, or an exiting reader, or has just been dialed by the loop. */
  ghost predicate Accounted(st: State) {
    forall s :: !Orphan(st, s)
  }

  /** A reader deletes an entry that is not its own: the entry of its conid is by now a newer one. */
  predicate Late(st: State, a: Action) {
    && a.ReaderDeletes? && a.c in st.readers
    && a.c.conid in st.gw.table && st.gw.table[a.c.conid] != a.c
  }

  lemma DropKeepsAccounted(st: State, keys: set<nat>)
    requires Accounted(st)
    ensures Accounted(Drop(st, keys))
  {
    forall s
      ensures !Orphan(Drop(st, keys), s)
    {
      assert !Orphan(st, s);
      if s in st.gw.open && exists k :: k in st.gw.table && st.gw.table[k].sock == s {
        var k :| k in st.gw.table && st.gw.table[k].sock == s;
        assert k in keys ==> s in SocksOf(st.gw.table, keys);
        assert k !in keys ==> Drop(st, keys).gw.table[k].sock == s;
      }
    }
  }

  lemma LoopKeepsAccounted(st: State, a: Action)
    requires Inv(st) && Accounted(st) && (a.Lookup? || a.DialFails? || a.DialOk? || a.Record?)
    ensures Accounted(Apply(st, a))
  {
    hide Safe, TableOk, ReadersOk;
    var st' := Apply(st, a);
    forall s
      ensures !Orphan(st', s)
    {
      assert !Orphan(st, s);
      if a.Record? && st.loop.Dialed? {
        assert st'.gw.table[st.loop.conn.conid] == st.loop.conn;
        assert forall k :: k in st.gw.table ==> st'.gw.table[k] == st.gw.table[k];
      }
    }
  }

  lemma ReaderClosesKeepsAccounted(st: State, c: Conn)
    requires Accounted(st) && c in st.exiting
    ensures Accounted(Apply(st, ReaderCloses(c)))
  {
    var st' := Apply(st, ReaderCloses(c));
    forall s
      ensures !Orphan(st', s)
    {
      assert !Orphan(st, s);
    }
  }

  lemma TimelyKeepsAccounted(st: State, c: Conn)
    requires Inv(st) && Accounted(st) && c in st.readers && !Late(st, ReaderDeletes(c))
    ensures Accounted(Apply(st, ReaderDeletes(c)))
  {
    hide ReadersOk, LoopOk;
    var st' := Apply(st, ReaderDeletes(c));
    forall s
      ensures !Orphan(st', s)
    {
      assert !Orphan(st, s);
      assert c in st'.exiting;
      assert forall k :: k in st.gw.table && k != c.conid ==> st'.gw.table[k] == st.gw.table[k];
    }
  }

  /** The newer connection loses its entry and keeps its socket. */
  lemma LateOrphans(st: State, a: Action)
    requires Inv(st) && Late(st, a)
    ensures Orphan(Apply(st, a), st.gw.table[a.c.conid].sock)
  {
  }

  /** A step leaves a socket without an entry exactly when it is a late exit of a reader. */
  lemma StepOrphansIff(st: State, a: Action)
    requires Inv(st) && Accounted(st)
    ensures Accounted(Apply(st, a)) <==> !Late(st, a)
  {
    hide Inv, Orphan, SomeVictim, Sockets.Drop;
    match a
    case Limit(victim) => LimitKeepsAccounted(st, victim);
    case ReaderDeletes(c) =>
      if Late(st, a) {
        LateOrphans(st, a);
      } else if c in st.readers {
        TimelyKeepsAccounted(st, c);
      }
    case ReaderCloses(c) => if c in st.exiting { ReaderClosesKeepsAccounted(st, c); }
    case Timeout(keys) => DropKeepsAccounted(st, keys);
    case CloseAll => DropKeepsAccounted(st, st.gw.table.Keys);
    case _ => LoopKeepsAccounted(st, a);
  }

  lemma LimitKeepsAccounted(st: State, victim: Option<Conn>)
    requires Accounted(st)
    ensures Accounted(LimitStep(st, victim))
  {
    if victim.Some? {
      DropKeepsAccounted(st, {victim.value.conid});
    }
    var st' := LimitStep(st, victim);
    forall s
      ensures !Orphan(st', s)
    {
      assert !Orphan(st, s);
      assert victim.Some? ==> !Orphan(Drop(st, {victim.value.conid}), s);
    }
  }

  /** Every open socket keeps its entry throughout a run exactly when no reader exits late in it. */
  lemma RunOrphansIff(maxConn: int, actions: seq<Action>)
    ensures (forall n: nat :: n <= |actions| ==> Accounted(Run(maxConn, actions[..n])))
       <==> (forall n: nat :: n < |actions| ==> !Late(Run(maxConn, actions[..n]), actions[n]))
  {
    hide Run, Accounted, Late;
    if forall n: nat :: n < |actions| ==> !Late(Run(maxConn, actions[..n]), actions[n]) {
      forall n: nat | n <= |actions|
        ensures Accounted(Run(maxConn, actions[..n]))
      {
        TimelyRunIsAccounted(maxConn, actions, n);
      }
    }
    if forall n: nat :: n <= |actions| ==> Accounted(Run(maxConn, actions[..n])) {
      forall n: nat | n < |actions|
        ensures !Late(Run(maxConn, actions[..n]), actions[n])
      {
        assert Accounted(Run(maxConn, actions[..n + 1]));
        RunStepOrphansIff(maxConn, actions, n);
      }
    }
  }

  lemma RunStepOrphansIff(maxConn: int, actions: seq<Action>, n: nat)
    requires n < |actions| && Accounted(Run(maxConn, actions[..n]))
    ensures Accounted(Run(maxConn, actions[..n + 1])) <==> !Late(Run(maxConn, actions[..n]), actions[n])
  {
    hide Accounted, Late;
    RunKeepsInv(maxConn, actions[..n]);
    RunSnoc(maxConn, actions[..n], actions[n]);
    assert actions[..n] + [actions[n]] == actions[..n + 1];
    hide Inv, Run, Apply;
    StepOrphansIff(Run(maxConn, actions[..n]), actions[n]);
  }

  lemma {:induction false} TimelyRunIsAccounted(maxConn: int, actions: seq<Action>, n: nat)
    requires n <= |actions|
    requires forall i: nat :: i < |actions| ==> !Late(Run(maxConn, actions[..i]), actions[i])
    ensures Accounted(Run(maxConn, actions[..n]))
  {
    hide Late;
    if n == 0 {
      assert actions[..0] == [];
    } else {
      TimelyRunIsAccounted(maxConn, actions, n - 1);
      hide Run, Accounted;
      RunStepOrphansIff(maxConn, actions, n - 1);
    }
  }

  const Reconnect := Connect + [Timeout({7})] + Connect

  lemma TimedOut()
    ensures Run(16, Connect + [Timeout({7})]) == State(16, Sockets(map[], {}, 1), Ready, {Seventh(0)}, {})
  {
    hide Inv, Run, Connect;
    FirstConnect(16);
    RunSnoc(16, Connect, Timeout({7}));
    assert map[7 := Seventh(0)] - {7} == map[];
    assert SocksOf(map[7 := Seventh(0)], {7}) == {0};
  }

  lemma Reconnected()
    ensures var st := Run(16, Reconnect);
            && 1 in st.gw.open && st.readers == {Seventh(0), Seventh(1)} && st.gw.table == map[7 := Seventh(1)]
            && st.exiting == {} && st.loop == Ready
  {
    hide Inv, Run, Connect;
    TimedOut();
    ConnectFrom(16, Connect + [Timeout({7})]);
  }

  /** There are such runs: here socket 1 is open and read, and not in the table. */
  lemma LateExitOrphansSocket()
    ensures Late(Run(16, Reconnect), ReaderDeletes(Seventh(0)))
    ensures var st := Run(16, Reconnect + [ReaderDeletes(Seventh(0))]);
            Orphan(st, 1) && Seventh(1) in st.readers && st.gw.table == map[]
  {
    hide Inv, Run, Reconnect, Connect;
    Reconnected();
    RunSnoc(16, Reconnect, ReaderDeletes(Seventh(0)));
    assert map[7 := Seventh(1)] - {7} == map[];
  }
}
