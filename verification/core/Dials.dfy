/** Pool and channels together: any number of concurrent `DialPiper` calls over one pool, with a whole
    channel, both ends and both wires, behind each key of the pool (core/cs.go:215-261, 321-447, 460-542).
    A call moves the client end of the channel it has in hand, and no other; servers, expiries, evictions
    and stray Closes come at any time. */
module Dials {
  import opened OptionType
  import opened Channel
  import opened Pool
  import P = PoolRuns
  import S = Session
  import Steps = SessionSteps
  import Wires = SessionWires
  import Isolation = SessionIsolation

  /** A dial: the channel it went out on, and its place among the dials of that channel. */
  datatype Place = Place(key: nat, dial: nat)

  /** What a call asked for, the dial it owes its session to or is waiting for, and the payloads it has put
      into the session and taken out of it. */
  datatype Use = Use(target: string, at: Option<Place>, sent: seq<string>, got: seq<string>)

  /** `chans[k]` is the channel with key `k`, and `uses[d]` goes with call `d` of the pool. */
  datatype World = World(pool: P.State, chans: seq<S.State>, uses: seq<Use>)

  datatype Action =
    | Begin(target: string)
    | Look(a: P.Action)                                 // a step of pullConn
    | Dial(d: nat)                                      // DialBack writes the Dial
    | Await(d: nat, now: int, oldest: Option<Chan>)     // ... and reads the answer, or what comes in its place
    | DialFails(d: nat)                                 // one of the two fails
    | Send(d: nat, payload: string)                     // PipeConn writes
    | Receive(d: nat)                                   // ... reads
    | Shut(d: nat)                                      // ... closes the channel
    | PipeFails(d: nat)                                 // one of these fails
    | Finish(d: nat, now: int, oldest: Option<Chan>)    // piperConn.Close
    | Tend(a: P.Action)                                 // timeoutConn or Close, as far as the pool goes
    | Stray(k: nat)                                     // a Close of theirs, or of an eviction
    | Serve(k: nat, step: S.Action)                     // the server end of a channel

  function Start(config: P.Config): World { World(P.Start(config), [], []) }

  // ---------- the steps ----------

  /** The channel a call has in hand. */
  function InHand(c: P.Call): Option<nat> {
    match c.phase
    case Trying(conn) => Some(conn.key)
    case Holding(conn) => Some(conn.key)
    case _ => None
  }

  /** One end of channel `k` takes the step `a`. */
  function Moved(w: World, k: nat, a: S.Action): S.State
    requires k < |w.chans| && S.Counted(w.chans[k])
  {
    S.Apply(w.chans[k], a)
  }

  ghost predicate Ready(w: World, d: nat) {
    && d < |w.uses| && d < |w.pool.calls| && InHand(w.pool.calls[d]).Some?
    && InHand(w.pool.calls[d]).value < |w.chans| && S.Counted(w.chans[InHand(w.pool.calls[d]).value])
  }

  /** Call `d` steps on the channel it has in hand; the pool and the call's record follow. */
  ghost function Act(w: World, d: nat, st': S.State, pool': P.State, u': Use): World
    requires Ready(w, d)
  {
    World(pool', w.chans[InHand(w.pool.calls[d]).value := st'], w.uses[d := u'])
  }

  ghost function DialStep(w: World, d: nat): World
    requires Ready(w, d)
  {
    var k, u := InHand(w.pool.calls[d]).value, w.uses[d];
    if w.pool.calls[d].phase.Trying? && w.chans[k].c.phase.Idle? then
      Act(w, d, Moved(w, k, S.ClientDial(u.target)), w.pool, u.(at := Some(Place(k, |w.chans[k].c.tries|))))
    else w
  }

  /** "ok" gives the call its channel, another text sends the channel back to the pool, anything else has it
      closed, and the call tries another. */
  ghost function AwaitStep(w: World, d: nat, now: int, oldest: Option<Chan>): World
    requires Ready(w, d)
  {
    var k, u := InHand(w.pool.calls[d]).value, w.uses[d];
    if w.pool.calls[d].phase.Trying? && w.chans[k].c.phase.Busy? && w.chans[k].s2c != [] then
      var st' := Moved(w, k, S.ClientRead);
      match st'.c.phase
      case Pipe(_, _) => Act(w, d, st', P.Apply(w.pool, P.Accepted(d)), u)
      case Idle =>
        if MayEvict(w.pool.pool.idles, w.pool.config.maxIdle, now, oldest) then
          Act(w, d, st', P.Apply(w.pool, P.Refused(d, now, oldest)), u)
        else w
      case _ => Act(w, d, st', P.Apply(w.pool, P.TryFails(d)), u.(at := None))
    else w
  }

  ghost function DialFailsStep(w: World, d: nat): World
    requires Ready(w, d)
  {
    var k, u := InHand(w.pool.calls[d]).value, w.uses[d];
    if w.pool.calls[d].phase.Trying? && w.chans[k].c.phase.Busy? then
      Act(w, d, Moved(w, k, S.ClientFail), P.Apply(w.pool, P.TryFails(d)), u.(at := None))
    else w
  }

  ghost function PipeStep(w: World, d: nat, a: Action): World
    requires Ready(w, d)
  {
    var k, u := InHand(w.pool.calls[d]).value, w.uses[d];
    if !w.pool.calls[d].phase.Holding? then w
    else
      match a
      case Send(_, payload) =>
        if S.CanWrite(w.chans[k].c) then
          Act(w, d, Moved(w, k, S.ClientData(payload)), w.pool, u.(sent := u.sent + [payload]))
        else w
      case Receive(_) =>
        if w.chans[k].s2c != [] && S.CanPipeRead(w.chans[k].c) then
          var f := w.chans[k].s2c[0];
          var more := if Classify(w.chans[k].c.inUse, f) == Fine then [f.payload] else [];
          Act(w, d, Moved(w, k, S.ClientRead), w.pool, u.(got := u.got + more))
        else w
      case Shut(_) => Act(w, d, Moved(w, k, S.ClientClose), w.pool, u)
      case PipeFails(_) => Act(w, d, Moved(w, k, S.ClientFail), w.pool, u)
      case _ => w
  }

  ghost function FinishStep(w: World, d: nat, now: int, oldest: Option<Chan>): World
    requires Ready(w, d)
  {
    var k, u := InHand(w.pool.calls[d]).value, w.uses[d];
    if w.pool.calls[d].phase.Holding? && S.PipeOver(w.chans[k].c) then
      var st' := Moved(w, k, S.ClientDone);
      if st'.c.phase.Gone? then Act(w, d, st', P.Apply(w.pool, P.Break(d)), u)
      else if MayEvict(w.pool.pool.idles, w.pool.config.maxIdle, now, oldest) then
        Act(w, d, st', P.Apply(w.pool, P.Return(d, now, oldest)), u)
      else w
    else w
  }

  /** A new channel begins with nothing written and nothing dialed. */
  ghost function LookStep(w: World, a: P.Action): World {
    match a
    case TakeIdle(_, _) => w.(pool := P.Apply(w.pool, a))
    case FindNone(_) => w.(pool := P.Apply(w.pool, a))
    case RawFails(_) => w.(pool := P.Apply(w.pool, a))
    case RawOk(_, _) =>
      var pool' := P.Apply(w.pool, a);
      w.(pool := pool', chans := if pool'.pool.next == w.pool.pool.next then w.chans else w.chans + [S.Start])
    case _ => w
  }

  ghost function Apply(w: World, a: Action): World {
    match a
    case Begin(target) => World(P.Apply(w.pool, P.Begin), w.chans, w.uses + [Use(target, None, [], [])])
    case Look(pa) => LookStep(w, pa)
    case Tend(pa) => if pa.Timeout? || pa.CloseAll? then w.(pool := P.Apply(w.pool, pa)) else w
    case Stray(k) =>
      if k < |w.chans| && S.Counted(w.chans[k]) then w.(chans := w.chans[k := Moved(w, k, S.ClientStray)]) else w
    case Serve(k, sa) =>
      if k < |w.chans| && S.Counted(w.chans[k]) && !Steps.OfClient(sa) then
        w.(chans := w.chans[k := Moved(w, k, sa)])
      else w
    case Dial(d) => if Ready(w, d) then DialStep(w, d) else w
    case Await(d, now, oldest) => if Ready(w, d) then AwaitStep(w, d, now, oldest) else w
    case DialFails(d) => if Ready(w, d) then DialFailsStep(w, d) else w
    case Finish(d, now, oldest) => if Ready(w, d) then FinishStep(w, d, now, oldest) else w
    case _ => if Ready(w, a.d) then PipeStep(w, a.d, a) else w
  }

  /** Looking for a channel and tending the pool are the pool's own steps. */
  lemma PoolMovesAlike(w: World, a: P.Action)
    ensures a.Timeout? || a.CloseAll? ==> Apply(w, Tend(a)).pool == P.Apply(w.pool, a)
    ensures a.TakeIdle? || a.FindNone? || a.RawFails? || a.RawOk? ==> Apply(w, Look(a)).pool == P.Apply(w.pool, a)
  {
  }

  // ---------- the invariant ----------

  /** The try a place stands for is the call's: its target, what it put in, what it took out. */
  ghost predicate Recorded(chans: seq<S.State>, u: Use) {
    if u.at.None? then u.sent == [] && u.got == []
    else
      && u.at.value.key < |chans|
      && u.at.value.dial < |chans[u.at.value.key].c.tries|
      && var t := chans[u.at.value.key].c.tries[u.at.value.dial];
         t.target == u.target && S.DataOf(t.out) == u.sent && t.got == u.got
  }

  /** The call stands for the last dial of this channel. */
  predicate AtLast(e: S.End, key: nat, u: Use) {
    u.at.Some? && u.at.value.key == key && u.at.value.dial + 1 == |e.tries|
  }

  /** How far a call has got, and how far the channel it has in hand. */
  ghost predicate Poised(chans: seq<S.State>, c: P.Call, u: Use) {
    match c.phase
    case Pulling => u.at == None
    case Missing => u.at == None
    case Trying(conn) =>
      && conn.key < |chans|
      && var e := chans[conn.key].c;
         if e.phase.Idle? then u.at == None else e.phase.Busy? && AtLast(e, conn.key, u)
    case Holding(conn) =>
      && conn.key < |chans|
      && chans[conn.key].c.phase.Pipe? && AtLast(chans[conn.key].c, conn.key, u)
    case Ended => true
  }

  /** No two calls stand for one dial. */
  ghost predicate Apart(uses: seq<Use>) {
    forall d, e :: 0 <= d < e < |uses| && uses[d].at.Some? ==> uses[d].at != uses[e].at
  }

  ghost predicate IsOpen(chans: seq<S.State>, p: Place) {
    p.key < |chans| && p.dial < |chans[p.key].c.tries| && chans[p.key].c.tries[p.dial].open
  }

  ghost predicate Claimed(uses: seq<Use>, p: Place) {
    exists d :: 0 <= d < |uses| && uses[d].at == Some(p)
  }

  /** What idles is free to dial on. */
  ghost predicate IdleIsFree(w: World) {
    forall k :: k in w.pool.pool.idles && k < |w.chans| ==> w.chans[k].c.phase.Idle?
  }

  ghost predicate Channels(chans: seq<S.State>) {
    forall k :: 0 <= k < |chans| ==> S.Inv(chans[k])
  }

  ghost predicate Calls(w: World) {
    && |w.uses| == |w.pool.calls|
    && forall d :: 0 <= d < |w.uses| ==>
         Recorded(w.chans, w.uses[d]) && Poised(w.chans, w.pool.calls[d], w.uses[d])
  }

  ghost predicate Inv(w: World) {
    && P.Inv(w.pool) && Channels(w.chans) && |w.chans| == w.pool.pool.next
    && Calls(w) && Apart(w.uses) && IdleIsFree(w)
    && forall p :: IsOpen(w.chans, p) ==> Claimed(w.uses, p)
  }

  // ---------- what steps do to the client end of a channel ----------

  /** What a record keeps of a try. */
  predicate SameTry(t: S.Try, t': S.Try) {
    t'.target == t.target && S.DataOf(t'.out) == S.DataOf(t.out) && t'.got == t.got
  }

  /** Nothing but try `i` has changed for those who keep records. */
  ghost predicate Keeps(e: S.End, e': S.End, i: int) {
    && |e.tries| <= |e'.tries|
    && forall j :: 0 <= j < |e.tries| && j != i ==>
         SameTry(e.tries[j], e'.tries[j]) && e'.tries[j].open == e.tries[j].open
  }

  lemma DialIs(st: S.State, target: string)
    requires S.Inv(st) && st.c.phase.Idle?
    ensures S.Counted(st) && S.Inv(S.Apply(st, S.ClientDial(target)))
    ensures var e' := S.Apply(st, S.ClientDial(target)).c;
            && e'.phase.Busy? && Keeps(st.c, e', -1) && |e'.tries| == |st.c.tries| + 1
            && e'.tries[|st.c.tries|] == S.Try(target, None, false, [], [], [])
  {
    hide S.Inv;
    Steps.InvCounts(st);
    Steps.ApplyKeepsInv(st, S.ClientDial(target));
  }

  /** Closing, from inside or outside a session, writes no data. */
  lemma ClosesKeep(st: S.State, a: S.Action)
    requires S.Inv(st) && (a.ClientStray? || (a.ClientClose? && S.CanWrite(st.c)))
    ensures S.Counted(st) && S.Inv(S.Apply(st, a))
    ensures var e' := S.Apply(st, a).c;
            Keeps(st.c, e', -1) && |e'.tries| == |st.c.tries| && (e'.phase.Pipe? <==> st.c.phase.Pipe?)
            && (!st.c.phase.Pipe? ==> e'.phase == st.c.phase)
  {
    hide S.Inv, S.DataOf, S.AddOut;
    Steps.InvCounts(st);
    Steps.ApplyKeepsInv(st, a);
    CloseFrameKeeps(st.c.tries);
  }

  lemma CloseFrameKeeps(tries: seq<S.Try>)
    requires tries != []
    ensures var tries' := S.AddOut(tries, |tries| - 1, CLOSE_FRAME);
            |tries'| == |tries| && forall j :: 0 <= j < |tries| ==>
              SameTry(tries[j], tries'[j]) && tries'[j].open == tries[j].open
  {
    hide S.DataOf, S.HasClose, S.DataUpToClose;
    Wires.DataSnoc(tries[|tries| - 1].out, CLOSE_FRAME);
  }

  lemma ReadFrameKeeps(tries: seq<S.Try>, i: int, f: Frame)
    requires 0 <= i < |tries|
    ensures var tries' := S.AddInp(tries, i, f);
            |tries'| == |tries| && forall j :: 0 <= j < |tries| ==>
              SameTry(tries[j], tries'[j]) && tries'[j].open == tries[j].open && tries'[j].out == tries[j].out
  {
    hide S.DataOf;
  }

  lemma ServerKeeps(st: S.State, a: S.Action)
    requires S.Inv(st) && !Steps.OfClient(a)
    ensures S.Counted(st) && S.Inv(S.Apply(st, a)) && S.Apply(st, a).c == st.c
  {
    hide S.Inv, S.Apply;
    Steps.InvCounts(st);
    Steps.ApplyKeepsInv(st, a);
    Steps.OtherEndUnmoved(st, a);
  }

  lemma BusyIs(st: S.State)
    requires S.Inv(st) && st.c.phase.Busy?
    ensures var n := |st.c.tries| - 1;
            && n >= 1 && st.c.tries[n].ans.None? && !st.c.tries[n].open
            && S.DataOf(st.c.tries[n].out) == [] && st.c.tries[n].got == []
  {
    hide S.ForwardWire, S.BackwardWire, S.ServerOk;
    assert S.ClientTry(st.c.tries[|st.c.tries| - 1]);
  }

  lemma AwaitIs(st: S.State)
    requires S.Inv(st) && st.c.phase.Busy? && st.s2c != []
    ensures S.Counted(st) && S.Inv(S.Apply(st, S.ClientRead))
    ensures var e, e' := st.c, S.Apply(st, S.ClientRead).c;
            && (e'.phase.Pipe? || e'.phase.Idle? || e'.phase.Gone?)
            && Keeps(e, e', |e.tries| - 1) && |e'.tries| == |e.tries| >= 1
            && SameTry(e.tries[|e.tries| - 1], e'.tries[|e.tries| - 1])
            && (e'.tries[|e.tries| - 1].open <==> e'.phase.Pipe?)
  {
    hide S.Inv, S.AwaitStep;
    BusyIs(st);
    Steps.InvCounts(st);
    Steps.ApplyKeepsInv(st, S.ClientRead);
    Steps.BusyClient(st);
    AwaitStepIs(st);
  }

  lemma AwaitStepIs(st: S.State)
    requires S.Counted(st) && st.c.phase.Busy? && st.s2c != [] && S.Answered(st.c.tries) >= 1
    requires !st.c.tries[|st.c.tries| - 1].open
    ensures var e, e' := st.c, S.AwaitStep(st).c;
            && (e'.phase.Pipe? || e'.phase.Idle? || e'.phase.Gone?)
            && Keeps(e, e', |e.tries| - 1) && |e'.tries| == |e.tries|
            && SameTry(e.tries[|e.tries| - 1], e'.tries[|e.tries| - 1])
            && (e'.tries[|e.tries| - 1].open <==> e'.phase.Pipe?)
  {
    hide S.DataOf, S.AddOut, S.AddInp;
    ReadFrameKeeps(st.c.tries, S.Answered(st.c.tries) - 1, st.s2c[0]);
    CloseFrameKeeps(S.AddInp(st.c.tries, S.Answered(st.c.tries) - 1, st.s2c[0]));
  }

  lemma FailIs(st: S.State)
    requires S.Inv(st) && (st.c.phase.Busy? || st.c.phase.Pipe?)
    ensures S.Counted(st) && S.Inv(S.Apply(st, S.ClientFail))
    ensures var e' := S.Apply(st, S.ClientFail).c;
            && e'.tries == st.c.tries
            && if st.c.phase.Busy? then e'.phase.Gone? else e'.phase == st.c.phase
  {
    hide S.Inv;
    Steps.InvCounts(st);
    Steps.ApplyKeepsInv(st, S.ClientFail);
  }

  lemma SendIs(st: S.State, payload: string)
    requires S.Inv(st) && S.CanWrite(st.c)
    ensures S.Counted(st) && S.Inv(S.Apply(st, S.ClientData(payload)))
    ensures var e, e', n := st.c, S.Apply(st, S.ClientData(payload)).c, |st.c.tries| - 1;
            && e'.phase == e.phase && Keeps(e, e', n) && |e'.tries| == |e.tries| >= 1
            && e'.tries[n] == e.tries[n].(out := e'.tries[n].out)
            && S.DataOf(e'.tries[n].out) == S.DataOf(e.tries[n].out) + [payload]
  {
    hide S.Inv;
    Steps.InvCounts(st);
    Steps.ApplyKeepsInv(st, S.ClientData(payload));
    Wires.DataSnoc(st.c.tries[|st.c.tries| - 1].out, Frame(Data, payload));
    hide S.DataOf;
  }

  lemma ReceiveIs(st: S.State)
    requires S.Inv(st) && S.CanPipeRead(st.c) && st.s2c != []
    ensures S.Counted(st) && S.Inv(S.Apply(st, S.ClientRead))
    ensures var e, e', n, f := st.c, S.Apply(st, S.ClientRead).c, |st.c.tries| - 1, st.s2c[0];
            && e'.phase.Pipe? && Keeps(e, e', n) && |e'.tries| == |e.tries| >= 1
            && e'.tries[n] == e.tries[n].(inp := e'.tries[n].inp, got := e'.tries[n].got)
            && e'.tries[n].got == e.tries[n].got + if Classify(e.inUse, f) == Fine then [f.payload] else []
  {
    hide S.Inv, S.DataOf;
    Steps.InvCounts(st);
    Steps.ApplyKeepsInv(st, S.ClientRead);
  }

  lemma DoneIs(st: S.State)
    requires S.Inv(st) && S.PipeOver(st.c)
    ensures S.Counted(st) && S.Inv(S.Apply(st, S.ClientDone))
    ensures var e' := S.Apply(st, S.ClientDone).c; e'.tries == st.c.tries && (e'.phase.Idle? || e'.phase.Gone?)
  {
    hide S.Inv;
    Steps.InvCounts(st);
    Steps.ApplyKeepsInv(st, S.ClientDone);
  }

  // ---------- a call acts on the channel it has in hand ----------

  /** Nobody else has it, and it is not idle. */
  lemma InHandIsOwn(w: World, d: nat)
    requires Inv(w) && d < |w.pool.calls| && InHand(w.pool.calls[d]).Some?
    ensures var k := InHand(w.pool.calls[d]).value;
            && Ready(w, d) && k !in w.pool.pool.idles && S.Inv(w.chans[k])
            && forall e :: 0 <= e < |w.pool.calls| && e != d ==> InHand(w.pool.calls[e]) != Some(k)
  {
    var k := InHand(w.pool.calls[d]).value;
    hide P.Inv, Calls, Apart, IdleIsFree, IsOpen, S.Inv;
    HeldIsOwned(w.pool.calls[d]);
    P.OwnedIsElsewhere(w.pool, d, k);
    Steps.InvCounts(w.chans[k]);
    assert d < |w.uses| by { UsesGoWithCalls(w); }
    forall e: nat | e < |w.pool.calls| && e != d
      ensures InHand(w.pool.calls[e]) != Some(k)
    {
      if InHand(w.pool.calls[e]) == Some(k) {
        HeldIsOwned(w.pool.calls[e]);
        P.OwnedIsElsewhere(w.pool, e, k);
      }
    }
  }

  lemma UsesGoWithCalls(w: World)
    requires Calls(w)
    ensures |w.uses| == |w.pool.calls|
  {
  }

  lemma HeldIsOwned(c: P.Call)
    ensures InHand(c).Some? ==> P.OwnedBy(c)[InHand(c).value] >= 1
  {
  }

  /** What the pool may do while call `d` acts. */
  ghost predicate PoolFollows(pool: P.State, pool': P.State, d: nat, k: nat) {
    && P.Inv(pool') && pool'.pool.next == pool.pool.next && |pool'.calls| == |pool.calls|
    && (forall e :: 0 <= e < |pool.calls| && e != d ==> pool'.calls[e] == pool.calls[e])
    && pool'.pool.idles.Keys <= pool.pool.idles.Keys + {k}
  }

  /** What the record of call `d` may become: it stands for the same dial, for the next of its channel, or
      for none. */
  predicate RecordFollows(u: Use, u': Use, e: S.End, k: nat) {
    u'.at == u.at || u'.at == None || u'.at == Some(Place(k, |e.tries|))
  }

  /** Only the dial the call stands for has changed on its channel. */
  ghost predicate OwnTryOnly(u: Use, e: S.End, e': S.End, k: nat) {
    if u.at.Some? && u.at.value.key == k then Keeps(e, e', u.at.value.dial) else Keeps(e, e', -1)
  }

  lemma OthersStayRecorded(w: World, d: nat, x: nat, k: nat, st': S.State)
    requires d < |w.uses| && x < |w.uses| && x != d && k < |w.chans| && Apart(w.uses)
    requires OwnTryOnly(w.uses[d], w.chans[k].c, st'.c, k) && Recorded(w.chans, w.uses[x])
    ensures Recorded(w.chans[k := st'], w.uses[x])
  {
    hide S.DataOf;
    assert w.uses[x].at.Some? ==> w.uses[x].at != w.uses[d].at;
  }

  lemma OthersStayPoised(chans: seq<S.State>, k: nat, st': S.State, c: P.Call, u: Use)
    requires k < |chans| && Poised(chans, c, u) && InHand(c) != Some(k)
    ensures Poised(chans[k := st'], c, u)
  {
  }

  lemma ActKeepsCalls(w: World, d: nat, st': S.State, pool': P.State, u': Use)
    requires Inv(w) && Ready(w, d)
    requires var k := InHand(w.pool.calls[d]).value;
             && PoolFollows(w.pool, pool', d, k) && OwnTryOnly(w.uses[d], w.chans[k].c, st'.c, k)
             && Recorded(w.chans[k := st'], u') && Poised(w.chans[k := st'], pool'.calls[d], u')
    ensures Calls(Act(w, d, st', pool', u'))
  {
    hide Recorded, Poised, OwnTryOnly, Apart, P.Inv, S.Inv;
    var k := InHand(w.pool.calls[d]).value;
    InHandIsOwn(w, d);
    var w' := Act(w, d, st', pool', u');
    forall x | 0 <= x < |w'.uses|
      ensures Recorded(w'.chans, w'.uses[x]) && Poised(w'.chans, w'.pool.calls[x], w'.uses[x])
    {
      if x != d {
        OthersStayRecorded(w, d, x, k, st');
        OthersStayPoised(w.chans, k, st', w.pool.calls[x], w.uses[x]);
      }
    }
  }

  lemma ActKeepsApart(w: World, d: nat, u': Use, k: nat)
    requires d < |w.uses| && k < |w.chans| && Apart(w.uses)
    requires forall x :: 0 <= x < |w.uses| ==> Recorded(w.chans, w.uses[x])
    requires RecordFollows(w.uses[d], u', w.chans[k].c, k)
    ensures Apart(w.uses[d := u'])
  {
    hide S.DataOf;
    var uses' := w.uses[d := u'];
    forall x, y | 0 <= x < y < |uses'| && uses'[x].at.Some?
      ensures uses'[x].at != uses'[y].at
    {
      assert Recorded(w.chans, w.uses[x]) && Recorded(w.chans, w.uses[y]);
    }
  }

  /** A dial is open only if the call stands for it now, or it was open already and another call's. */
  ghost predicate OpenFollows(w: World, d: nat, k: nat, st': S.State, u': Use)
    requires d < |w.uses| && k < |w.chans|
  {
    var chans' := w.chans[k := st'];
    forall p :: IsOpen(chans', p) ==>
      u'.at == Some(p) || (IsOpen(w.chans, p) && w.uses[d].at != Some(p))
  }

  lemma ActKeepsClaims(w: World, d: nat, k: nat, st': S.State, u': Use, p: Place)
    requires d < |w.uses| && k < |w.chans| && OpenFollows(w, d, k, st', u')
    requires forall q :: IsOpen(w.chans, q) ==> Claimed(w.uses, q)
    requires IsOpen(w.chans[k := st'], p)
    ensures Claimed(w.uses[d := u'], p)
  {
    hide IsOpen;
    var uses' := w.uses[d := u'];
    if u'.at == Some(p) {
      assert uses'[d].at == Some(p);
    } else {
      var x :| 0 <= x < |w.uses| && w.uses[x].at == Some(p);
      assert uses'[x].at == Some(p);
    }
  }

  lemma ActKeepsInv(w: World, d: nat, st': S.State, pool': P.State, u': Use)
    requires Inv(w) && Ready(w, d) && S.Inv(st')
    requires var k := InHand(w.pool.calls[d]).value;
             && PoolFollows(w.pool, pool', d, k) && OwnTryOnly(w.uses[d], w.chans[k].c, st'.c, k)
             && Recorded(w.chans[k := st'], u') && Poised(w.chans[k := st'], pool'.calls[d], u')
             && RecordFollows(w.uses[d], u', w.chans[k].c, k) && OpenFollows(w, d, k, st', u')
             && (k in pool'.pool.idles ==> st'.c.phase.Idle?)
    ensures Inv(Act(w, d, st', pool', u'))
  {
    hide Recorded, Poised, OwnTryOnly, RecordFollows, OpenFollows, IsOpen, Claimed, Apart, P.Inv, S.Inv;
    var k := InHand(w.pool.calls[d]).value;
    ActKeepsCalls(w, d, st', pool', u');
    ActKeepsApart(w, d, u', k);
    var chans' := w.chans[k := st'];
    forall p | IsOpen(chans', p)
      ensures Claimed(w.uses[d := u'], p)
    {
      ActKeepsClaims(w, d, k, st', u', p);
    }
  }

  // ---------- every step keeps the invariant ----------

  lemma PoolOf(w: World, d: nat)
    requires Inv(w) && d < |w.pool.calls|
    ensures P.Inv(w.pool) && d < |w.uses|
    ensures Recorded(w.chans, w.uses[d]) && Poised(w.chans, w.pool.calls[d], w.uses[d])
  {
    hide P.Inv, Recorded, Poised, Apart, IdleIsFree, IsOpen, Claimed, Channels;
  }

  /** Nothing happens in the pool. */
  lemma PoolRests(pool: P.State, d: nat, k: nat)
    requires P.Inv(pool)
    ensures PoolFollows(pool, pool, d, k)
  {
  }

  /** The call keeps its channel, or has it closed. */
  lemma PoolMovesOn(pool: P.State, d: nat, a: P.Action)
    requires P.Inv(pool) && d < |pool.calls| && InHand(pool.calls[d]).Some?
    requires a == P.Accepted(d) || a == P.TryFails(d) || a == P.Break(d)
    ensures var c, pool' := pool.calls[d], P.Apply(pool, a);
            && PoolFollows(pool, pool', d, InHand(c).value) && pool'.pool.idles == pool.pool.idles
            && (a.Accepted? && c.phase.Trying? ==> pool'.calls[d].phase == P.Holding(c.phase.conn))
            && (a.TryFails? && c.phase.Trying? ==> pool'.calls[d].phase.Pulling? || pool'.calls[d].phase.Ended?)
            && (a.Break? && c.phase.Holding? ==> pool'.calls[d].phase.Ended?)
  {
    hide P.Inv;
    P.ApplyKeepsInv(pool, a);
  }

  /** The channel goes back to the pool. */
  lemma PoolTakesBack(pool: P.State, d: nat, a: P.Action, now: int, oldest: Option<Chan>)
    requires P.Inv(pool) && d < |pool.calls| && InHand(pool.calls[d]).Some?
    requires if pool.calls[d].phase.Trying? then a == P.Refused(d, now, oldest) else a == P.Return(d, now, oldest)
    requires MayEvict(pool.pool.idles, pool.config.maxIdle, now, oldest)
    ensures var c, pool' := pool.calls[d], P.Apply(pool, a);
            && PoolFollows(pool, pool', d, InHand(c).value) && pool'.calls[d].phase.Ended?
  {
    hide P.Inv, MayEvict;
    P.ApplyKeepsInv(pool, a);
  }

  /** A step that changes no dial opens none. */
  lemma NothingOpens(w: World, d: nat, k: nat, st': S.State, u': Use)
    requires d < |w.uses| && k < |w.chans| && Keeps(w.chans[k].c, st'.c, -1)
    requires |st'.c.tries| == |w.chans[k].c.tries| || !st'.c.tries[|w.chans[k].c.tries|].open
    requires |st'.c.tries| <= |w.chans[k].c.tries| + 1
    requires u'.at == w.uses[d].at || (w.uses[d].at.Some? ==> !IsOpen(w.chans, w.uses[d].at.value))
    ensures OpenFollows(w, d, k, st', u')
  {
  }

  lemma DialKeepsInv(w: World, d: nat)
    requires Inv(w) && Ready(w, d)
    ensures Inv(DialStep(w, d))
  {
    hide P.Inv, S.Inv, S.Apply;
    var k, c, u := InHand(w.pool.calls[d]).value, w.pool.calls[d], w.uses[d];
    var e := w.chans[k].c;
    if c.phase.Trying? && e.phase.Idle? {
      InHandIsOwn(w, d);
      PoolOf(w, d);
      PoolRests(w.pool, d, k);
      DialIs(w.chans[k], u.target);
      var st', u' := Moved(w, k, S.ClientDial(u.target)), u.(at := Some(Place(k, |e.tries|)));
      NothingOpens(w, d, k, st', u');
      hide Inv, PoolFollows, OpenFollows;
      ActKeepsInv(w, d, st', w.pool, u');
    }
  }

  /** A step on the channel's last dial, for which the call stands. */
  lemma LastTryOnly(w: World, d: nat, k: nat, st': S.State)
    requires d < |w.uses| && k < |w.chans| && AtLast(w.chans[k].c, k, w.uses[d])
    requires Keeps(w.chans[k].c, st'.c, |w.chans[k].c.tries| - 1) || Keeps(w.chans[k].c, st'.c, -1)
    ensures OwnTryOnly(w.uses[d], w.chans[k].c, st'.c, k)
  {
    hide SameTry;
  }

  /** ... keeps its record, if the record follows the try. */
  lemma LastTryRecorded(w: World, d: nat, k: nat, st': S.State, u': Use)
    requires d < |w.uses| && k < |w.chans| && AtLast(w.chans[k].c, k, w.uses[d]) && Recorded(w.chans, w.uses[d])
    requires |st'.c.tries| == |w.chans[k].c.tries|
    requires var n := |st'.c.tries| - 1;
             var t, t' := w.chans[k].c.tries[n], st'.c.tries[n];
             && t'.target == t.target && u' == w.uses[d].(sent := u'.sent, got := u'.got)
             && (t.got == w.uses[d].got ==> t'.got == u'.got)
             && (S.DataOf(t.out) == w.uses[d].sent ==> S.DataOf(t'.out) == u'.sent)
    ensures Recorded(w.chans[k := st'], u')
  {
    hide S.DataOf;
  }

  /** Only the dial the call stands for can have opened. */
  lemma OwnMayOpen(w: World, d: nat, k: nat, st': S.State)
    requires d < |w.uses| && k < |w.chans| && AtLast(w.chans[k].c, k, w.uses[d])
    requires Keeps(w.chans[k].c, st'.c, |w.chans[k].c.tries| - 1) && |st'.c.tries| == |w.chans[k].c.tries|
    ensures OpenFollows(w, d, k, st', w.uses[d])
    ensures !st'.c.tries[|st'.c.tries| - 1].open ==> OpenFollows(w, d, k, st', w.uses[d].(at := None))
  {
    hide SameTry;
  }

  lemma AwaitKeepsInv(w: World, d: nat, now: int, oldest: Option<Chan>)
    requires Inv(w) && Ready(w, d)
    ensures Inv(AwaitStep(w, d, now, oldest))
  {
    hide P.Inv, S.Inv, S.Apply, P.Apply, S.DataOf, MayEvict;
    var k, c, u := InHand(w.pool.calls[d]).value, w.pool.calls[d], w.uses[d];
    if c.phase.Trying? && w.chans[k].c.phase.Busy? && w.chans[k].s2c != [] {
      InHandIsOwn(w, d);
      PoolOf(w, d);
      AwaitIs(w.chans[k]);
      BusyIs(w.chans[k]);
      var st' := Moved(w, k, S.ClientRead);
      LastTryOnly(w, d, k, st');
      LastTryRecorded(w, d, k, st', u);
      OwnMayOpen(w, d, k, st');
      hide Inv, PoolFollows, OpenFollows, OwnTryOnly, Keeps, SameTry;
      if st'.c.phase.Pipe? {
        PoolMovesOn(w.pool, d, P.Accepted(d));
        ActKeepsInv(w, d, st', P.Apply(w.pool, P.Accepted(d)), u);
      } else if st'.c.phase.Idle? {
        if MayEvict(w.pool.pool.idles, w.pool.config.maxIdle, now, oldest) {
          PoolTakesBack(w.pool, d, P.Refused(d, now, oldest), now, oldest);
          ActKeepsInv(w, d, st', P.Apply(w.pool, P.Refused(d, now, oldest)), u);
        }
      } else {
        PoolMovesOn(w.pool, d, P.TryFails(d));
        ActKeepsInv(w, d, st', P.Apply(w.pool, P.TryFails(d)), u.(at := None));
      }
    }
  }

  lemma DialFailsKeepsInv(w: World, d: nat)
    requires Inv(w) && Ready(w, d)
    ensures Inv(DialFailsStep(w, d))
  {
    hide P.Inv, S.Inv, S.Apply, P.Apply, S.DataOf;
    var k, c, u := InHand(w.pool.calls[d]).value, w.pool.calls[d], w.uses[d];
    if c.phase.Trying? && w.chans[k].c.phase.Busy? {
      InHandIsOwn(w, d);
      PoolOf(w, d);
      FailIs(w.chans[k]);
      BusyIs(w.chans[k]);
      var st' := Moved(w, k, S.ClientFail);
      LastTryOnly(w, d, k, st');
      OwnMayOpen(w, d, k, st');
      PoolMovesOn(w.pool, d, P.TryFails(d));
      hide Inv, PoolFollows, OpenFollows, OwnTryOnly, Keeps, SameTry;
      ActKeepsInv(w, d, st', P.Apply(w.pool, P.TryFails(d)), u.(at := None));
    }
  }

  /** A step within a session: the pool rests, and the record follows the session's dial. */
  lemma WithinSession(w: World, d: nat, st': S.State, u': Use)
    requires Inv(w) && Ready(w, d) && w.pool.calls[d].phase.Holding? && S.Inv(st')
    requires var e, e' := w.chans[InHand(w.pool.calls[d]).value].c, st'.c;
             var n := |e.tries| - 1;
             && e'.phase.Pipe? && |e'.tries| == |e.tries| && n >= 0
             && Keeps(e, e', n)
             && e'.tries[n].target == e.tries[n].target
             && u' == w.uses[d].(sent := u'.sent, got := u'.got)
             && (e.tries[n].got == w.uses[d].got ==> e'.tries[n].got == u'.got)
             && (S.DataOf(e.tries[n].out) == w.uses[d].sent ==> S.DataOf(e'.tries[n].out) == u'.sent)
    ensures Inv(Act(w, d, st', w.pool, u'))
  {
    hide P.Inv, S.Inv, S.DataOf;
    var k := InHand(w.pool.calls[d]).value;
    InHandIsOwn(w, d);
    PoolOf(w, d);
    PoolRests(w.pool, d, k);
    LastTryOnly(w, d, k, st');
    LastTryRecorded(w, d, k, st', u');
    OwnMayOpen(w, d, k, st');
    assert OpenFollows(w, d, k, st', u');
    hide Inv, PoolFollows, OpenFollows, OwnTryOnly, Keeps, SameTry;
    ActKeepsInv(w, d, st', w.pool, u');
  }

  lemma PipeKeepsInv(w: World, d: nat, a: Action)
    requires Inv(w) && Ready(w, d) && (a.Send? || a.Receive? || a.Shut? || a.PipeFails?)
    ensures Inv(PipeStep(w, d, a))
  {
    hide P.Inv, S.Inv, S.Apply, S.DataOf;
    var k, c, u := InHand(w.pool.calls[d]).value, w.pool.calls[d], w.uses[d];
    if c.phase.Holding? {
      var st, e := w.chans[k], w.chans[k].c;
      InHandIsOwn(w, d);
      PoolOf(w, d);
      hide Inv;
      match a
      case Send(_, payload) =>
        if S.CanWrite(e) {
          SendIs(st, payload);
          WithinSession(w, d, Moved(w, k, S.ClientData(payload)), u.(sent := u.sent + [payload]));
        }
      case Receive(_) =>
        if st.s2c != [] && S.CanPipeRead(e) {
          ReceiveIs(st);
          var f := st.s2c[0];
          var more := if Classify(e.inUse, f) == Fine then [f.payload] else [];
          WithinSession(w, d, Moved(w, k, S.ClientRead), u.(got := u.got + more));
        }
      case Shut(_) =>
        ShutIs(st);
        WithinSession(w, d, Moved(w, k, S.ClientClose), u);
      case PipeFails(_) =>
        FailIs(st);
        WithinSession(w, d, Moved(w, k, S.ClientFail), u);
    }
  }

  lemma ShutIs(st: S.State)
    requires S.Inv(st) && st.c.phase.Pipe?
    ensures S.Counted(st) && S.Inv(S.Apply(st, S.ClientClose))
    ensures var e' := S.Apply(st, S.ClientClose).c;
            Keeps(st.c, e', -1) && |e'.tries| == |st.c.tries| >= 1 && e'.phase.Pipe?
  {
    hide S.Inv;
    Steps.InvCounts(st);
    if S.CanWrite(st.c) {
      ClosesKeep(st, S.ClientClose);
    }
  }

  lemma FinishKeepsInv(w: World, d: nat, now: int, oldest: Option<Chan>)
    requires Inv(w) && Ready(w, d)
    ensures Inv(FinishStep(w, d, now, oldest))
  {
    hide P.Inv, S.Inv, S.Apply, P.Apply, S.DataOf, MayEvict;
    var k, c, u := InHand(w.pool.calls[d]).value, w.pool.calls[d], w.uses[d];
    if c.phase.Holding? && S.PipeOver(w.chans[k].c) {
      InHandIsOwn(w, d);
      PoolOf(w, d);
      DoneIs(w.chans[k]);
      var st' := Moved(w, k, S.ClientDone);
      LastTryOnly(w, d, k, st');
      LastTryRecorded(w, d, k, st', u);
      OwnMayOpen(w, d, k, st');
      hide Inv, PoolFollows, OpenFollows, OwnTryOnly, Keeps, SameTry;
      if st'.c.phase.Gone? {
        PoolMovesOn(w.pool, d, P.Break(d));
        ActKeepsInv(w, d, st', P.Apply(w.pool, P.Break(d)), u);
      } else if MayEvict(w.pool.pool.idles, w.pool.config.maxIdle, now, oldest) {
        PoolTakesBack(w.pool, d, P.Return(d, now, oldest), now, oldest);
        ActKeepsInv(w, d, st', P.Apply(w.pool, P.Return(d, now, oldest)), u);
      }
    }
  }

  // ---------- steps of nobody's call ----------

  /** A step of the other end, or a stray Close: it changes no record and no phase. */
  lemma ChannelKeepsInv(w: World, k: nat, st': S.State)
    requires Inv(w) && k < |w.chans| && S.Inv(st')
    requires var e, e' := w.chans[k].c, st'.c;
             && Keeps(e, e', -1) && |e'.tries| == |e.tries| && (e'.phase.Pipe? <==> e.phase.Pipe?)
             && (!e.phase.Pipe? ==> e'.phase == e.phase)
    ensures Inv(w.(chans := w.chans[k := st']))
  {
    hide P.Inv, S.Inv, S.DataOf, Apart;
    var w' := w.(chans := w.chans[k := st']);
    forall d | 0 <= d < |w.uses|
      ensures Recorded(w'.chans, w.uses[d]) && Poised(w'.chans, w.pool.calls[d], w.uses[d])
    {
      assert Recorded(w.chans, w.uses[d]) && Poised(w.chans, w.pool.calls[d], w.uses[d]);
    }
    forall p | IsOpen(w'.chans, p)
      ensures Claimed(w.uses, p)
    {
      assert IsOpen(w.chans, p);
    }
  }

  lemma StrayKeepsInv(w: World, k: nat)
    requires Inv(w) && k < |w.chans|
    ensures S.Counted(w.chans[k]) && Inv(w.(chans := w.chans[k := Moved(w, k, S.ClientStray)]))
  {
    hide P.Inv, S.Inv, S.Apply, Calls, Apart, IdleIsFree, IsOpen;
    ClosesKeep(w.chans[k], S.ClientStray);
    ChannelKeepsInv(w, k, Moved(w, k, S.ClientStray));
  }

  lemma ServeKeepsInv(w: World, k: nat, a: S.Action)
    requires Inv(w) && k < |w.chans| && !Steps.OfClient(a)
    ensures S.Counted(w.chans[k]) && Inv(w.(chans := w.chans[k := Moved(w, k, a)]))
  {
    hide P.Inv, S.Inv, S.Apply, Calls, Apart, IdleIsFree, IsOpen;
    ServerKeeps(w.chans[k], a);
    ChannelKeepsInv(w, k, Moved(w, k, a));
  }

  /** The pool moves on by itself: no call gets a channel, and nothing new idles. */
  lemma TendKeepsInv(w: World, a: P.Action)
    requires Inv(w) && (a.Timeout? || a.CloseAll?)
    ensures Inv(w.(pool := P.Apply(w.pool, a)))
  {
    hide P.Inv, S.Inv, Apart, Recorded, Poised, IsOpen, Claimed, TooOld, AllRecorded;
    P.ApplyKeepsInv(w.pool, a);
  }

  lemma BeginKeepsInv(w: World, target: string)
    requires Inv(w)
    ensures Inv(Apply(w, Begin(target)))
  {
    hide P.Inv, S.Inv, IsOpen;
    P.ApplyKeepsInv(w.pool, P.Begin);
    var w' := Apply(w, Begin(target));
    hide Recorded;
    forall d | 0 <= d < |w'.uses|
      ensures Recorded(w'.chans, w'.uses[d]) && Poised(w'.chans, w'.pool.calls[d], w'.uses[d])
    {
      if d < |w.uses| {
        assert Recorded(w.chans, w.uses[d]) && Poised(w.chans, w.pool.calls[d], w.uses[d]);
      } else {
        NewUse(w'.chans, w.pool.config.tryMax, target);
      }
    }
    forall p | IsOpen(w.chans, p)
      ensures Claimed(w'.uses, p)
    {
      var d :| 0 <= d < |w.uses| && w.uses[d].at == Some(p);
      assert w'.uses[d].at == Some(p);
    }
  }

  lemma NewUse(chans: seq<S.State>, tryMax: int, target: string)
    ensures var u := Use(target, None, [], []); Recorded(chans, u) && Poised(chans, P.NewCall(tryMax), u)
  {
  }

  /** `pullConn`, in the pool: the call gets an idle channel, a new one, or none. */
  lemma LookIs(pool: P.State, a: P.Action)
    requires P.Inv(pool) && (a.TakeIdle? || a.FindNone? || a.RawFails? || a.RawOk?)
    ensures var pool' := P.Apply(pool, a);
            && P.Inv(pool') && |pool'.calls| == |pool.calls|
            && (forall e :: 0 <= e < |pool.calls| && e != a.d ==> pool'.calls[e] == pool.calls[e])
            && pool'.pool.idles.Keys <= pool.pool.idles.Keys
            && pool'.pool.next == pool.pool.next
               + (if a.RawOk? && a.d < |pool.calls| && pool.calls[a.d].phase.Missing? then 1 else 0)
            && (a.d < |pool.calls| && pool'.calls[a.d] != pool.calls[a.d] ==>
                  && (pool.calls[a.d].phase.Pulling? || pool.calls[a.d].phase.Missing?)
                  && match InHand(pool'.calls[a.d])
                     case None => !pool'.calls[a.d].phase.Trying? && !pool'.calls[a.d].phase.Holding?
                     case Some(k) =>
                       && pool'.calls[a.d].phase.Trying?
                       && if a.RawOk? then k == pool.pool.next && pool'.pool.next == k + 1
                          else k in pool.pool.idles && k < pool.pool.next)
  {
    hide P.CallOk, P.Conserved, P.Logged;
    P.ApplyKeepsInv(pool, a);
  }

  lemma LookKeepsInv(w: World, a: P.Action)
    requires Inv(w)
    ensures Inv(LookStep(w, a))
  {
    hide P.Inv, P.Apply, S.Inv, IsOpen, Apart, Claimed;
    if a.TakeIdle? || a.FindNone? || a.RawFails? || a.RawOk? {
      LookIs(w.pool, a);
      LookKeepsCalls(w, a);
      LookKeepsChannels(w, a);
    }
  }

  lemma LookKeepsChannels(w: World, a: P.Action)
    requires Inv(w) && (a.TakeIdle? || a.FindNone? || a.RawFails? || a.RawOk?)
    ensures Channels(LookStep(w, a).chans)
    ensures forall p :: IsOpen(LookStep(w, a).chans, p) ==> IsOpen(w.chans, p)
  {
    hide P.Inv, P.Apply, S.Inv, Apart, Claimed;
    Steps.StartInv();
  }

  lemma LookKeepsCalls(w: World, a: P.Action)
    requires Inv(w) && (a.TakeIdle? || a.FindNone? || a.RawFails? || a.RawOk?)
    ensures Calls(LookStep(w, a))
  {
    hide P.Inv, P.Apply, S.Inv, IsOpen, Apart, Claimed, S.DataOf;
    LookIs(w.pool, a);
    var w' := LookStep(w, a);
    assert forall k :: 0 <= k < |w.chans| ==> w'.chans[k] == w.chans[k];
    forall d | 0 <= d < |w'.uses|
      ensures Recorded(w'.chans, w'.uses[d]) && Poised(w'.chans, w'.pool.calls[d], w'.uses[d])
    {
      assert Recorded(w.chans, w.uses[d]) && Poised(w.chans, w.pool.calls[d], w.uses[d]);
    }
  }

  lemma ApplyKeepsInv(w: World, a: Action)
    requires Inv(w)
    ensures Inv(Apply(w, a))
  {
    hide Inv, DialStep, AwaitStep, DialFailsStep, PipeStep, FinishStep, LookStep, P.Apply, Moved;
    match a
    case Begin(target) => BeginKeepsInv(w, target);
    case Look(pa) => LookKeepsInv(w, pa);
    case Tend(pa) => if pa.Timeout? || pa.CloseAll? { TendKeepsInv(w, pa); }
    case Stray(k) => if k < |w.chans| { StrayKeepsInv(w, k); }
    case Serve(k, sa) => if k < |w.chans| && !Steps.OfClient(sa) { ServeKeepsInv(w, k, sa); }
    case Dial(d) => if Ready(w, d) { DialKeepsInv(w, d); }
    case Await(d, now, oldest) => if Ready(w, d) { AwaitKeepsInv(w, d, now, oldest); }
    case DialFails(d) => if Ready(w, d) { DialFailsKeepsInv(w, d); }
    case Finish(d, now, oldest) => if Ready(w, d) { FinishKeepsInv(w, d, now, oldest); }
    case _ => if Ready(w, a.d) { PipeKeepsInv(w, a.d, a); }
  }

  // ---------- runs ----------

  ghost predicate Stepped(w: World, a: Action, w': World) { w' == Apply(w, a) }

  /** A run: the worlds a list of actions leads through, from an empty pool on. */
  ghost predicate IsRun(worlds: seq<World>, actions: seq<Action>) {
    && |worlds| == |actions| + 1
    && worlds[0] == Start(worlds[0].pool.config)
    && forall i {:trigger actions[i]} :: 0 <= i < |actions| ==> Stepped(worlds[i], actions[i], worlds[i + 1])
  }

  lemma StartInv(config: P.Config)
    ensures Inv(Start(config))
  {
    PoolStartInv(config);
    hide P.Inv;
  }

  lemma PoolStartInv(config: P.Config)
    ensures P.Inv(P.Start(config))
  {
    var st := P.Start(config);
    assert P.IsRun([st], []);
    P.RunKeepsInv([st], [], 0);
  }

  lemma {:induction false} RunKeepsInv(worlds: seq<World>, actions: seq<Action>, i: nat)
    requires IsRun(worlds, actions) && i < |worlds|
    ensures Inv(worlds[i])
  {
    hide Inv, Apply;
    if i == 0 {
      StartInv(worlds[0].pool.config);
    } else {
      RunKeepsInv(worlds, actions, i - 1);
      assert Stepped(worlds[i - 1], actions[i - 1], worlds[i]);
      ApplyKeepsInv(worlds[i - 1], actions[i - 1]);
    }
  }

  lemma {:induction false} RunExists(config: P.Config, actions: seq<Action>) returns (worlds: seq<World>)
    ensures IsRun(worlds, actions) && worlds[0] == Start(config)
  {
    hide Apply;
    if actions == [] {
      worlds := [Start(config)];
    } else {
      var n := |actions| - 1;
      var before := RunExists(config, actions[..n]);
      worlds := before + [Apply(before[n], actions[n])];
      forall i {:trigger actions[i]} | 0 <= i < |actions|
        ensures Stepped(worlds[i], actions[i], worlds[i + 1])
      {
        assert i < n ==> actions[..n][i] == actions[i];
      }
    }
  }

  // ---------- isolation of calls ----------

  /** What call `u` has put into its session, and taken out of it, against the server's side of its dial. */
  ghost predicate Served(chans: seq<S.State>, u: Use) {
    match u.at
    case None => u.sent == [] && u.got == []
    case Some(p) =>
      && p.key < |chans| && p.dial < |chans[p.key].c.tries|
      && if p.dial < |chans[p.key].s.tries| then
           var s, t := chans[p.key].s.tries[p.dial], chans[p.key].c.tries[p.dial];
           && s.target == u.target && s.got <= u.sent && u.got <= S.DataOf(s.out)
           && Isolation.Paired(s, t) && u.sent == S.DataOf(t.out) && u.got == t.got
         else u.got == []
  }

  lemma PairedIsServed(s: S.Try, t: S.Try)
    requires Isolation.Paired(s, t)
    ensures s.got <= S.DataOf(t.out) && t.got <= S.DataOf(s.out)
  {
    Wires.NoCloseYet(t.out);
    Wires.NoCloseYet(s.out);
  }

  /** A dial the server has not taken yet has no payloads. */
  lemma UnseenIsEmpty(st: S.State, i: nat)
    requires S.Inv(st) && |st.s.tries| <= i < |st.c.tries|
    ensures st.c.tries[i].got == []
  {
    hide S.BackwardWire, S.ServerOk, S.DataOf, S.DataUpToClose, S.HasClose;
    Wires.ForwardPrefix(st, 0);
    Isolation.NotYetOpen(st);
    assert S.ClientTry(st.c.tries[i]);
  }

  lemma InvServes(w: World, d: nat)
    requires Inv(w) && d < |w.uses|
    ensures Served(w.chans, w.uses[d])
  {
    hide P.Inv, S.Inv, Poised, Apart, IdleIsFree, IsOpen, Isolation.Paired, S.DataOf;
    assert Recorded(w.chans, w.uses[d]);
    if w.uses[d].at.Some? {
      var p := w.uses[d].at.value;
      var st := w.chans[p.key];
      if p.dial < |st.s.tries| {
        Isolation.DialIsPaired(st, p.dial);
        PairedIsServed(st.s.tries[p.dial], st.c.tries[p.dial]);
        SameTarget(st.s.tries[p.dial], st.c.tries[p.dial]);
      } else {
        UnseenIsEmpty(st, p.dial);
      }
    }
  }

  lemma SameTarget(s: S.Try, t: S.Try)
    requires Isolation.Paired(s, t)
    ensures s.target == t.target
  {
  }

  /** Every call's payloads, over every interleaving of all calls, all channels, both ends, and expiries: a
      call that owes its session to a dial has asked the server end of that very dial for its own target; the
      server's session got a start of what the call put in, and the call a start of what that session wrote,
      each all of it once it has read a Close. */
  lemma EveryCallIsServed(worlds: seq<World>, actions: seq<Action>, i: nat, d: nat)
    requires IsRun(worlds, actions) && i < |worlds| && d < |worlds[i].uses|
    ensures Served(worlds[i].chans, worlds[i].uses[d])
  {
    hide Inv, IsRun, Served;
    RunKeepsInv(worlds, actions, i);
    InvServes(worlds[i], d);
  }

  lemma InvClaims(w: World, k: nat, i: nat)
    requires Inv(w) && k < |w.chans| && i < |w.chans[k].s.tries|
    requires w.chans[k].s.tries[i].got != []
    ensures Claimed(w.uses, Place(k, i))
  {
    hide P.Inv, S.Inv, Calls, Apart, IdleIsFree, Claimed, Isolation.Paired;
    Isolation.DialIsPaired(w.chans[k], i);
    assert IsOpen(w.chans, Place(k, i));
  }

  /** Nothing else reaches a session: whatever payloads a session of any channel's server has got, they are
      those of one call, the only one that stands for its dial. */
  lemma EverySessionHasOneCall(worlds: seq<World>, actions: seq<Action>, n: nat, k: nat, i: nat) returns (d: nat)
    requires IsRun(worlds, actions) && n < |worlds|
    requires k < |worlds[n].chans| && i < |worlds[n].chans[k].s.tries|
    requires worlds[n].chans[k].s.tries[i].got != []
    ensures var w := worlds[n];
            && d < |w.uses| && w.uses[d].at == Some(Place(k, i))
            && w.chans[k].s.tries[i].target == w.uses[d].target && w.chans[k].s.tries[i].got <= w.uses[d].sent
            && forall e :: 0 <= e < |w.uses| && e != d ==> w.uses[e].at != Some(Place(k, i))
  {
    hide IsRun, P.Inv, S.Inv, Calls, IdleIsFree, IsOpen, Isolation.Paired, S.DataOf;
    RunKeepsInv(worlds, actions, n);
    var w := worlds[n];
    InvClaims(w, k, i);
    d :| 0 <= d < |w.uses| && w.uses[d].at == Some(Place(k, i));
    InvServes(w, d);
  }
}
