/** Whole executions of either end: the loop of `ProcConn` (core/cs.go:215-261), and what a client does
    with one channel over its life, dial after dial (core/cs.go:460-542). Each execution, with whatever
    the other end does meanwhile, is a run of `Session`, and carries out its script turn by turn. */
module Loops {
  import opened Channel
  import opened OptionType
  import opened Session
  import opened SessionSteps
  import opened SessionIsolation
  import opened Ends

  /** A statement of `PipeConn`. */
  datatype Move = In | Out(payload: string) | Shut

  /** What happens next: a step of the other end, the arrival of all frames up to the n-th on the wire, a
      Close of the channel from elsewhere on this side, or a statement of this end, with what it depends on:
      the network, the target to dial, the dialer's answer, and what `PipeConn` has to do. */
  datatype Turn =
    | Theirs(a: Action)
    | Arrive(n: nat)
    | Stray
    | Mine(fails: bool, target: string, refusal: Option<string>, move: Move)

  function Own(client: bool, st: State): End { if client then st.c else st.s }

  function Incoming(client: bool, st: State): seq<Frame> { if client then st.s2c else st.c2s }

  function Outgoing(client: bool, st: State): seq<Frame> { if client then st.c2s else st.s2c }

  // ---------- what a turn asks for ----------

  /** A read takes a frame that has arrived, and fails if there is none. */
  function Reading(client: bool, fails: bool, ready: nat): Action {
    if fails || ready == 0 then (if client then ClientFail else ServerFail)
    else (if client then ClientRead else ServerRead)
  }

  /** The statement an end is at: what it does next depends on how far it has got, and on nothing else that
      happened before. `None` is a statement of `PipeConn` that is no longer due. */
  function Due(client: bool, turn: Turn, own: End, ready: nat): Option<Action>
    requires turn.Mine?
  {
    match own.phase
    case Idle => Some(if client then ClientDial(turn.target) else Reading(false, turn.fails, ready))
    case Busy =>
      if client then Some(Reading(true, turn.fails, ready))
      else if turn.refusal.Some? then Some(ServerRefuse(turn.refusal.value))
      else Some(ServerAccept)
    case Pipe(_, _) =>
      (match turn.move
       case In => if CanPipeRead(own) then Some(Reading(client, turn.fails, ready)) else None
       case Out(p) => if CanWrite(own) then Some(if client then ClientData(p) else ServerData(p)) else None
       case Shut => if CanWrite(own) then Some(if client then ClientClose else ServerClose) else None)
    case Gone => None
  }

  predicate Reads(a: Action) { a == ClientRead || a == ServerRead }

  predicate Fails(a: Action) { a == ClientFail || a == ServerFail }

  /** A statement is one step of the run, and a second one when its write fails. */
  function StepsOf(a: Action, fails: bool): seq<Action> {
    [a] + if fails then [if OfClient(a) then ClientFail else ServerMark] else []
  }

  /** What a turn does, met in the state `st` with `ready` frames arrived: the steps of the run, and how many
      frames are then there. No turn is what an end does unasked: it leaves a `PipeConn` that has returned,
      and so no statement is met there. */
  ghost predicate Does(client: bool, turn: Option<Turn>, st: State, ready: nat, acts: seq<Action>, after: nat) {
    var own := Own(client, st);
    match turn
    case None => PipeOver(own) && acts == [if client then ClientDone else ServerDone] && after == ready
    case Some(Theirs(a)) => acts == (if OfClient(a) != client then [a] else []) && after == ready
    case Some(Arrive(n)) => acts == [] && after == if ready <= n <= |Incoming(client, st)| then n else ready
    case Some(Stray) => acts == [if client then ClientStray else ServerStray] && after == ready
    case Some(Mine(fails, target, refusal, move)) =>
      && !PipeOver(own) && !own.phase.Gone?
      && match Due(client, turn.value, own, ready)
         case None => acts == [] && after == ready
         case Some(a) =>
           acts == StepsOf(a, fails && !Reads(a) && !Fails(a)) && after == ready - (if Reads(a) then 1 else 0)
  }

  /** What a turn writes to the raw connection: the frames its steps put on the wire, and nothing when the
      write fails. */
  ghost predicate Sends(client: bool, turn: Option<Turn>, st: State, st': State, sent: seq<Frame>) {
    var wire, wire' := Outgoing(client, st), Outgoing(client, st');
    match turn
    case Some(Theirs(_)) => sent == []
    case Some(Arrive(_)) => sent == []
    case Some(Mine(fails, _, _, _)) => exists put :: wire' == wire + put && sent == if fails then [] else put
    case _ => wire' == wire + sent
  }

  // ---------- the run so far ----------

  /** A turn, or none, the steps of the run that are its, and the frames it wrote. */
  datatype Entry = Entry(turn: Option<Turn>, from: nat, to: nat, ready: nat, after: nat, sent: seq<Frame>)

  datatype Trace = Trace(states: seq<State>, actions: seq<Action>, log: seq<Entry>)

  /** The trace is a run, and it has led to `st`. */
  ghost predicate Traces(tr: Trace, st: State) {
    IsRun(tr.states, tr.actions) && tr.states[|tr.states| - 1] == st
  }

  function TurnsOf(log: seq<Entry>): seq<Turn> {
    if log == [] then [] else TurnsOf(log[..|log| - 1]) + Shown(log[|log| - 1].turn)
  }

  function Shown(turn: Option<Turn>): seq<Turn> {
    if turn.Some? then [turn.value] else []
  }

  /** What has been written, turn by turn. */
  function Written(log: seq<Entry>): seq<Frame> {
    if log == [] then [] else Written(log[..|log| - 1]) + log[|log| - 1].sent
  }

  ghost predicate EntryDone(tr: Trace, client: bool, e: Entry) {
    && e.from <= e.to <= |tr.actions| && e.to < |tr.states|
    && Does(client, e.turn, tr.states[e.from], e.ready, tr.actions[e.from..e.to], e.after)
    && Sends(client, e.turn, tr.states[e.from], tr.states[e.to], e.sent)
  }

  /** The turns `done`, in this order, and what an end does unasked, make up the whole run, one after the
      other, each as `Does` says. */
  ghost predicate CarriedOut(tr: Trace, client: bool, done: seq<Turn>, ready: nat) {
    && TurnsOf(tr.log) == done
    && (forall n :: 0 <= n < |tr.log| ==> EntryDone(tr, client, tr.log[n]))
    && (forall n :: 0 < n < |tr.log| ==>
          tr.log[n].from == tr.log[n - 1].to && tr.log[n].ready == tr.log[n - 1].after)
    && if tr.log == [] then tr.actions == [] && ready == 0
       else
         && tr.log[0].from == 0 && tr.log[0].ready == 0
         && tr.log[|tr.log| - 1].to == |tr.actions| && tr.log[|tr.log| - 1].after == ready
  }

  function Then(tr: Trace, a: Action, st': State): Trace {
    tr.(states := tr.states + [st'], actions := tr.actions + [a])
  }

  const NoTrace := Trace([Start], [], [])

  lemma StartTraced(client: bool)
    ensures Traces(NoTrace, Start) && CarriedOut(NoTrace, client, [], 0)
  {
  }

  lemma StepTraced(tr: Trace, st: State, a: Action)
    requires Traces(tr, st) && Counted(st)
    ensures Traces(Then(tr, a, Apply(st, a)), Apply(st, a))
  {
    hide Apply;
    var tr' := Then(tr, a, Apply(st, a));
    forall i {:trigger tr'.actions[i]} | 0 <= i < |tr'.actions|
      ensures Steps(tr'.states[i], tr'.actions[i], tr'.states[i + 1])
    {
      assert i < |tr.actions| ==> tr'.actions[i] == tr.actions[i];
    }
  }

  /** `tr'` goes on from `tr` by `acts`. */
  ghost predicate GoesOn(tr: Trace, tr': Trace, acts: seq<Action>) {
    tr.states <= tr'.states && tr'.actions == tr.actions + acts && tr'.log == tr.log
  }

  /** A statement of either end adds one step to the run, or two when its write fails. */
  lemma TriesTraced(tr: Trace, st: State, a: Action, fails: bool) returns (tr': Trace)
    requires Traces(tr, st) && Inv(st)
    ensures Counted(st) && Traces(tr', Tries(st, a, fails)) && GoesOn(tr, tr', StepsOf(a, fails))
  {
    hide Inv, Apply, Traces;
    TriesKeepsInv(st, a, fails);
    StepTraced(tr, st, a);
    tr' := Then(tr, a, Apply(st, a));
    if fails {
      var mark := if OfClient(a) then ClientFail else ServerMark;
      StepTraced(tr', Apply(st, a), mark);
      tr' := Then(tr', mark, Apply(Apply(st, a), mark));
    }
  }

  function Noted(tr: Trace, turn: Option<Turn>, from: nat, ready: nat, after: nat, sent: seq<Frame>): Trace {
    tr.(log := tr.log + [Entry(turn, from, |tr.actions|, ready, after, sent)])
  }

  /** The run goes on by what the turn does. */
  lemma TurnNoted(tr: Trace, tr1: Trace, client: bool, done: seq<Turn>, ready: nat, st: State, st1: State,
                  turn: Option<Turn>, acts: seq<Action>, after: nat, sent: seq<Frame>)
    requires Traces(tr, st) && CarriedOut(tr, client, done, ready) && Traces(tr1, st1) && GoesOn(tr, tr1, acts)
    requires Does(client, turn, st, ready, acts, after) && Sends(client, turn, st, st1, sent)
    ensures CarriedOut(Noted(tr1, turn, |tr.actions|, ready, after, sent), client, done + Shown(turn), after)
    ensures Written(Noted(tr1, turn, |tr.actions|, ready, after, sent).log) == Written(tr.log) + sent
  {
    hide Does, Sends, Apply, EntryDone;
    var tr' := Noted(tr1, turn, |tr.actions|, ready, after, sent);
    assert tr'.log[..|tr.log|] == tr.log;
    forall n | 0 <= n < |tr'.log|
      ensures EntryDone(tr', client, tr'.log[n])
    {
      if n < |tr.log| {
        EarlierEntry(tr, tr', client, tr.log[n]);
      } else {
        LastEntry(tr, tr', client, tr'.log[n], acts);
      }
    }
  }

  lemma EarlierEntry(tr: Trace, tr': Trace, client: bool, e: Entry)
    requires EntryDone(tr, client, e) && tr.states <= tr'.states && tr.actions <= tr'.actions
    ensures EntryDone(tr', client, e)
  {
    hide Does, Sends;
    assert tr'.actions[e.from..e.to] == tr.actions[e.from..e.to];
  }

  lemma LastEntry(tr: Trace, tr': Trace, client: bool, e: Entry, acts: seq<Action>)
    requires IsRun(tr.states, tr.actions) && tr.states <= tr'.states && tr'.actions == tr.actions + acts
    requires e.from == |tr.actions| && e.to == |tr'.actions| < |tr'.states|
    requires Does(client, e.turn, tr.states[|tr.actions|], e.ready, acts, e.after)
    requires Sends(client, e.turn, tr.states[|tr.actions|], tr'.states[|tr'.actions|], e.sent)
    ensures EntryDone(tr', client, e)
  {
    hide Does, Sends, Apply;
    assert tr'.actions[e.from..e.to] == acts;
  }

  /** A statement of this end, or a step it takes unasked. */
  lemma StatementNoted(tr: Trace, client: bool, done: seq<Turn>, ready: nat, st: State, turn: Option<Turn>,
                       a: Action, fails: bool, after: nat, sent: seq<Frame>)
    returns (tr': Trace)
    requires Traces(tr, st) && Inv(st) && CarriedOut(tr, client, done, ready)
    requires Does(client, turn, st, ready, StepsOf(a, fails), after)
    requires Counted(st) && Sends(client, turn, st, Tries(st, a, fails), sent)
    ensures Traces(tr', Tries(st, a, fails)) && Written(tr'.log) == Written(tr.log) + sent
    ensures CarriedOut(tr', client, done + Shown(turn), after)
  {
    hide Inv, Apply, Does, Sends, CarriedOut, Tries, Written;
    var tr1 := TriesTraced(tr, st, a, fails);
    TurnNoted(tr, tr1, client, done, ready, st, Tries(st, a, fails), turn, StepsOf(a, fails), after, sent);
    tr' := Noted(tr1, turn, |tr.actions|, ready, after, sent);
  }

  /** A turn without a step. */
  lemma NothingNoted(tr: Trace, client: bool, done: seq<Turn>, ready: nat, st: State, turn: Turn, after: nat)
    returns (tr': Trace)
    requires Traces(tr, st) && CarriedOut(tr, client, done, ready) && Does(client, Some(turn), st, ready, [], after)
    ensures Traces(tr', st) && CarriedOut(tr', client, done + [turn], after) && Written(tr'.log) == Written(tr.log)
  {
    hide Does, CarriedOut, Apply;
    assert tr.actions + [] == tr.actions && Written(tr.log) + [] == Written(tr.log);
    assert Outgoing(client, st) + [] == Outgoing(client, st);
    hide Written;
    TurnNoted(tr, tr, client, done, ready, st, st, Some(turn), [], after, []);
    tr' := Noted(tr, Some(turn), |tr.actions|, ready, after, []);
  }

  /** What the code of a statement has written, given what its step put on the wire. */
  lemma WroteIsSent(client: bool, turn: Turn, st: State, st': State, before: seq<Frame>, after: seq<Frame>)
    returns (sent: seq<Frame>)
    requires turn.Mine? && Wrote(before, after, Outgoing(client, st), Outgoing(client, st'), turn.fails)
    ensures after == before + sent && Sends(client, Some(turn), st, st', sent)
  {
    var put :|
      Outgoing(client, st') == Outgoing(client, st) + put && after == if turn.fails then before else before + put;
    sent := if turn.fails then [] else put;
    assert before + [] == before;
  }

  /** The read of an answer: when it is an error, a Close goes out. */
  lemma AnswerIsSent(turn: Turn, st: State, ready: nat, before: seq<Frame>, after: seq<Frame>)
    returns (sent: seq<Frame>)
    requires turn.Mine? && Counted(st) && st.c.phase.Busy?
    requires Wrote(before, after, st.c2s, Tries(st, Reading(true, turn.fails, ready), false).c2s, false)
    ensures after == before + sent
    ensures Sends(true, Some(turn), st, Tries(st, Reading(true, turn.fails, ready), false), sent)
  {
    hide AwaitStep;
    var st' := Tries(st, Reading(true, turn.fails, ready), false);
    sent :| st'.c2s == st.c2s + sent && after == before + sent;
    if turn.fails {
      SilentWire(true, st, ClientFail);
      assert |sent| == 0;
    }
    assert sent == if turn.fails then [] else sent;
    assert Sends(true, Some(turn), st, st', sent);
  }

  /** A read and the end of a session put nothing on the wire, but for a read of an answer. */
  lemma SilentSends(client: bool, turn: Option<Turn>, st: State, a: Action)
    requires Counted(st) && OfClient(a) == client && (turn.Some? ==> turn.value.Mine?)
    requires Fails(a) || (Reads(a) && !(client && st.c.phase.Busy?)) || a == ClientDone || a == ServerDone
    ensures Sends(client, turn, st, Tries(st, a, false), [])
  {
    SilentWire(client, st, a);
    hide Outgoing, Tries, Reads, Fails;
    var wire, wire', put: seq<Frame> := Outgoing(client, st), Outgoing(client, Tries(st, a, false)), [];
    assert wire' == wire + put;
    assert turn.Some? ==> put == if turn.value.fails then [] else put;
  }

  lemma SilentWire(client: bool, st: State, a: Action)
    requires Counted(st) && OfClient(a) == client
    requires Fails(a) || (Reads(a) && !(client && st.c.phase.Busy?)) || a == ClientDone || a == ServerDone
    ensures Outgoing(client, Tries(st, a, false)) == Outgoing(client, st)
  {
    hide PipeRead, AwaitStep;
  }

  // ---------- waiting ----------

  /** What waiting leaves alone of an end. */
  ghost predicate Alike(e: End, e': End) {
    && e'.phase == e.phase && e'.err == e.err && e'.inUse == e.inUse && |e'.tries| == |e.tries|
    && forall i :: 0 <= i < |e.tries| ==> e'.tries[i].target == e.tries[i].target
  }

  /** `conn` is this end, the trace has led here, and it has carried out these turns. */
  ghost predicate At(conn: ChannelConn, client: bool, st: State, tr: Trace, done: seq<Turn>)
    reads conn
  {
    && (if client then ClientIs(conn, st) else ServerIs(conn, st))
    && Traces(tr, st) && CarriedOut(tr, client, done, |conn.inbox|) && conn.outbox == Written(tr.log)
  }

  /** A step of the other end is none of this one's, and may put frames on their way to it. */
  lemma TheirStep(conn: ChannelConn, client: bool, st: State, a: Action)
    requires if client then ClientIs(conn, st) else ServerIs(conn, st)
    requires OfClient(a) != client
    ensures Counted(st) && Own(client, Apply(st, a)) == Own(client, st)
    ensures if client then ClientIs(conn, Apply(st, a)) else ServerIs(conn, Apply(st, a))
  {
    hide Inv, Apply;
    InvCounts(st);
    ApplyKeepsInv(st, a);
    OtherEndUnmoved(st, a);
    WireOnlyGrows(st, a);
  }

  /** A Close from elsewhere: a Close frame, unless the channel is marked. */
  method StrayClose(conn: ChannelConn, client: bool, before: State, ghost tr0: Trace, ghost done: seq<Turn>)
    returns (st: State, ghost tr: Trace)
    requires At(conn, client, before, tr0, done) && !Own(client, before).phase.Gone?
    modifies conn
    ensures At(conn, client, st, tr, done + [Stray]) && Alike(Own(client, before), Own(client, st))
  {
    hide Inv, Traces, CarriedOut, Written;
    InvCounts(before);
    var a := if client then ClientStray else ServerStray;
    conn.CloseConn(false);
    ApplyKeepsInv(before, a);
    ghost var sent := if Own(client, before).err then [] else [CLOSE_FRAME];
    assert Outgoing(client, Tries(before, a, false)) == Outgoing(client, before) + sent;
    assert conn.outbox == old(conn.outbox) + sent;
    tr := StatementNoted(tr0, client, done, |conn.inbox|, before, Some(Stray), a, false, |conn.inbox|, sent);
    st := Apply(before, a);
  }

  /** One turn that is no statement of this end. */
  method WaitTurn(conn: ChannelConn, client: bool, turn: Turn, before: State, ghost tr0: Trace, ghost done: seq<Turn>)
    returns (st: State, ghost tr: Trace)
    requires !turn.Mine? && At(conn, client, before, tr0, done) && !Own(client, before).phase.Gone?
    modifies conn
    ensures At(conn, client, st, tr, done + [turn]) && Alike(Own(client, before), Own(client, st))
  {
    hide Inv, Apply, Traces, CarriedOut, Written;
    InvCounts(before);
    ghost var ready := |conn.inbox|;
    match turn {
      case Theirs(a) =>
        if OfClient(a) != client {
          TheirStep(conn, client, before, a);
          tr := StatementNoted(tr0, client, done, ready, before, Some(turn), a, false, ready, []);
          st := Apply(before, a);
        } else {
          tr := NothingNoted(tr0, client, done, ready, before, turn, ready);
          st := before;
        }
      case Stray =>
        st, tr := StrayClose(conn, client, before, tr0, done);
      case Arrive(n) =>
        if |conn.inbox| <= n <= |Incoming(client, before)| {
          conn.inbox := Incoming(client, before)[..n];
        }
        tr := NothingNoted(tr0, client, done, ready, before, turn, |conn.inbox|);
        st := before;
      case Mine(_, _, _, _) =>
    }
  }

  lemma OneMore(script: seq<Turn>, i: nat)
    requires i < |script|
    ensures script[..i + 1] == script[..i] + [script[i]]
  {
  }

  /** Until this end's next statement: the other end moves, and frames arrive. */
  method Wait(conn: ChannelConn, client: bool, script: seq<Turn>, at: nat, before: State, ghost tr0: Trace)
    returns (i: nat, st: State, ghost tr: Trace)
    requires at <= |script| && At(conn, client, before, tr0, script[..at]) && !Own(client, before).phase.Gone?
    modifies conn
    ensures at <= i <= |script| && (i < |script| ==> script[i].Mine?)
    ensures At(conn, client, st, tr, script[..i]) && Alike(Own(client, before), Own(client, st))
  {
    hide At;
    i, st, tr := at, before, tr0;
    while i < |script| && !script[i].Mine?
      invariant at <= i <= |script|
      invariant At(conn, client, st, tr, script[..i]) && Alike(Own(client, before), Own(client, st))
    {
      OneMore(script, i);
      st, tr := WaitTurn(conn, client, script[i], st, tr, script[..i]);
      i := i + 1;
    }
  }

  /** A read of `PipeConn`. */
  method PipeTake(conn: ChannelConn, client: bool, turn: Turn, before: State, ghost tr0: Trace, ghost done: seq<Turn>)
    returns (st: State, ghost tr: Trace)
    requires turn.Mine? && turn.move.In? && At(conn, client, before, tr0, done)
    requires CanPipeRead(Own(client, before)) && !PipeOver(Own(client, before))
    modifies conn
    ensures At(conn, client, st, tr, done + [turn]) && Own(client, st).phase.Pipe?
  {
    hide Inv, Apply, Traces, CarriedOut, Tries, Written, Sends;
    InvCounts(before);
    ghost var ready, st' := |conn.inbox|, before;
    var a, payload := Reading(client, turn.fails, |conn.inbox|), None;
    payload, st' := PipeIn(conn, client, turn.fails, before);
    st := Tries(before, a, false);
    SilentSends(client, Some(turn), before, a);
    tr := StatementNoted(tr0, client, done, ready, before, Some(turn), a, false, |conn.inbox|, []);
  }

  /** A write of `PipeConn`, or its close. */
  method PipePut(conn: ChannelConn, client: bool, turn: Turn, before: State, ghost tr0: Trace, ghost done: seq<Turn>)
    returns (st: State, ghost tr: Trace)
    requires turn.Mine? && !turn.move.In? && At(conn, client, before, tr0, done)
    requires CanWrite(Own(client, before)) && !PipeOver(Own(client, before))
    modifies conn
    ensures At(conn, client, st, tr, done + [turn]) && Own(client, st).phase.Pipe?
  {
    hide Inv, Apply, Traces, CarriedOut, Tries, Written, Sends, Wrote;
    InvCounts(before);
    ghost var ready, st' := |conn.inbox|, before;
    var a := ServerClose;
    match turn.move {
      case Out(payload) =>
        a := if client then ClientData(payload) else ServerData(payload);
        st' := PipeOut(conn, client, payload, turn.fails, before);
      case Shut =>
        a := if client then ClientClose else ServerClose;
        st' := PipeClose(conn, client, turn.fails, before);
    }
    st := Tries(before, a, turn.fails);
    ghost var sent := WroteIsSent(client, turn, before, st, old(conn.outbox), conn.outbox);
    tr := StatementNoted(tr0, client, done, ready, before, Some(turn), a, turn.fails, ready, sent);
  }

  /** One read, write or close of `PipeConn`, if it is due. */
  method PipeMove(conn: ChannelConn, client: bool, turn: Turn, before: State, ghost tr0: Trace, ghost done: seq<Turn>)
    returns (st: State, ghost tr: Trace)
    requires turn.Mine? && At(conn, client, before, tr0, done)
    requires Own(client, before).phase.Pipe? && !PipeOver(Own(client, before))
    modifies conn
    ensures At(conn, client, st, tr, done + [turn]) && Own(client, st).phase.Pipe?
  {
    hide Inv, Apply, Traces, CarriedOut, Tries, Written, Sends;
    var own := Own(client, before);
    if turn.move.In? && CanPipeRead(own) {
      st, tr := PipeTake(conn, client, turn, before, tr0, done);
    } else if !turn.move.In? && CanWrite(own) {
      st, tr := PipePut(conn, client, turn, before, tr0, done);
    } else {
      tr := NothingNoted(tr0, client, done, |conn.inbox|, before, turn, |conn.inbox|);
      st := before;
    }
  }

  /** The reads and writes of `PipeConn`, in the order of the script, until it returns or the script ends. */
  method Piping(conn: ChannelConn, client: bool, script: seq<Turn>, at: nat, before: State, ghost tr0: Trace)
    returns (i: nat, st: State, ghost tr: Trace)
    requires at <= |script| && At(conn, client, before, tr0, script[..at]) && Own(client, before).phase.Pipe?
    modifies conn
    ensures at <= i <= |script| && At(conn, client, st, tr, script[..i])
    ensures Own(client, st).phase.Pipe? && (i < |script| ==> PipeOver(Own(client, st)))
  {
    hide At, Due;
    i, st, tr := at, before, tr0;
    while i < |script| && !PipeOver(Own(client, st))
      invariant at <= i <= |script|
      invariant At(conn, client, st, tr, script[..i]) && Own(client, st).phase.Pipe?
      decreases |script| - i
    {
      i, st, tr := Wait(conn, client, script, i, st, tr);
      if i < |script| && !PipeOver(Own(client, st)) {
        OneMore(script, i);
        st, tr := PipeMove(conn, client, script[i], st, tr, script[..i]);
        i := i + 1;
      }
    }
  }

  // ---------- the server ----------

  method TakeDial(conn: ChannelConn, turn: Turn, before: State, ghost tr0: Trace, ghost done: seq<Turn>)
    returns (target: Option<string>, st: State, ghost tr: Trace)
    requires turn.Mine? && At(conn, false, before, tr0, done) && before.s.phase.Idle?
    modifies conn
    ensures At(conn, false, st, tr, done + [turn])
    ensures if target.Some? then
              st.s.phase.Busy? && st.s.tries != [] && st.s.tries[|st.s.tries| - 1].target == target.value
            else st.s.phase.Gone? && conn.error
  {
    hide Inv, Apply, Traces, CarriedOut, Tries, Written, Sends;
    InvCounts(before);
    ghost var ready, st' := |conn.inbox|, before;
    var a := Reading(false, turn.fails, |conn.inbox|);
    target, st' := NextDial(conn, turn.fails, before);
    st := Tries(before, a, false);
    SilentSends(false, Some(turn), before, a);
    tr := StatementNoted(tr0, false, done, ready, before, Some(turn), a, false, |conn.inbox|, []);
  }

  method GiveAnswer(conn: ChannelConn, target: string, turn: Turn, before: State, ghost tr0: Trace,
                    ghost done: seq<Turn>)
    returns (st: State, ghost tr: Trace)
    requires turn.Mine? && At(conn, false, before, tr0, done) && before.s.phase.Busy?
    requires before.s.tries != [] && target == before.s.tries[|before.s.tries| - 1].target
    modifies conn
    ensures At(conn, false, st, tr, done + [turn])
    ensures if turn.refusal.Some? then st.s.phase.Idle? else st.s.phase.Pipe?
  {
    hide Inv, Apply, Traces, CarriedOut, Tries, Written, Sends;
    InvCounts(before);
    var a := if turn.refusal.Some? then ServerRefuse(turn.refusal.value) else ServerAccept;
    ghost var ready := |conn.inbox|;
    ghost var st' := Answer(conn, target, turn.refusal, turn.fails, before);
    st := Tries(before, a, turn.fails);
    ghost var sent := WroteIsSent(false, turn, before, st, old(conn.outbox), conn.outbox);
    tr := StatementNoted(tr0, false, done, ready, before, Some(turn), a, turn.fails, ready, sent);
  }

  method EndSession(conn: ChannelConn, before: State, ghost tr0: Trace, ghost done: seq<Turn>)
    returns (more: bool, st: State, ghost tr: Trace)
    requires At(conn, false, before, tr0, done) && PipeOver(before.s)
    modifies conn
    ensures At(conn, false, st, tr, done)
    ensures if more then st.s.phase.Idle? else st.s.phase.Gone? && conn.error
  {
    hide Inv, Apply, Traces, CarriedOut, Tries, Written, Sends;
    InvCounts(before);
    ghost var ready, st' := |conn.inbox|, before;
    more, st' := AfterSession(conn, before);
    st := Tries(before, ServerDone, false);
    SilentSends(false, None, before, ServerDone);
    tr := StatementNoted(tr0, false, done, ready, before, None, ServerDone, false, ready, []);
    assert done + [] == done;
  }

  /** `ProcConn`, from the first frame on: it carries out its script turn by turn. It stops before the end of
      the script only when the channel has been given up and its raw connection closed. */
  method ProcConn(conn: ChannelConn, script: seq<Turn>)
    returns (over: bool, consumed: nat, st: State, ghost tr: Trace)
    requires !conn.error && conn.inUse == "" && conn.inbox == conn.outbox == []
    modifies conn
    ensures conn.outbox == Written(tr.log)
    ensures consumed <= |script| && Traces(tr, st) && ServerIs(conn, st)
    ensures CarriedOut(tr, false, script[..consumed], |conn.inbox|)
    ensures if over then st.s.phase.Gone? && conn.rawClosed
            else consumed == |script| && !st.s.phase.Gone? && !PipeOver(st.s)
  {
    hide Inv, Traces, CarriedOut;
    StartInv();
    StartTraced(false);
    st, tr := Start, NoTrace;
    consumed := 0;
    while consumed < |script|
      invariant consumed <= |script| && At(conn, false, st, tr, script[..consumed]) && st.s.phase.Idle?
      decreases |script| - consumed
    {
      consumed, st, tr := Wait(conn, false, script, consumed, st, tr);
      if consumed == |script| {
        break;
      }
      OneMore(script, consumed);
      var target;
      target, st, tr := TakeDial(conn, script[consumed], st, tr, script[..consumed]);
      consumed := consumed + 1;
      if target.None? {
        conn.CloseConn(false);
        over := true;
        return;
      }
      consumed, st, tr := Wait(conn, false, script, consumed, st, tr);
      if consumed == |script| {
        break;
      }
      OneMore(script, consumed);
      var refusal := script[consumed].refusal;
      st, tr := GiveAnswer(conn, target.value, script[consumed], st, tr, script[..consumed]);
      consumed := consumed + 1;
      if refusal.Some? {
        continue;
      }
      consumed, st, tr := Piping(conn, false, script, consumed, st, tr);
      if !PipeOver(st.s) {
        break;
      }
      var more;
      more, st, tr := EndSession(conn, st, tr, script[..consumed]);
      if !more {
        conn.CloseConn(false);
        over := true;
        return;
      }
    }
    over := false;
  }

  // ---------- the client ----------

  method Dialing(conn: ChannelConn, turn: Turn, before: State, ghost tr0: Trace, ghost done: seq<Turn>)
    returns (st: State, ghost tr: Trace)
    requires turn.Mine? && At(conn, true, before, tr0, done) && before.c.phase.Idle?
    modifies conn
    ensures At(conn, true, st, tr, done + [turn])
    ensures if turn.fails then st.c.phase.Gone? && conn.rawClosed
            else st.c.phase.Busy? && st.c.tries != [] && st.c.tries[|st.c.tries| - 1].target == turn.target
  {
    hide Inv, Apply, Traces, CarriedOut, Tries, Written, Sends;
    InvCounts(before);
    ghost var ready := |conn.inbox|;
    ghost var st' := WriteDial(conn, turn.target, turn.fails, before);
    st := Tries(before, ClientDial(turn.target), turn.fails);
    ghost var sent := WroteIsSent(true, turn, before, st, old(conn.outbox), conn.outbox);
    tr := StatementNoted(tr0, true, done, ready, before, Some(turn), ClientDial(turn.target), turn.fails, ready, sent);
  }

  method TakeAnswer(conn: ChannelConn, target: string, turn: Turn, before: State, ghost tr0: Trace,
                    ghost done: seq<Turn>)
    returns (message: Option<string>, st: State, ghost tr: Trace)
    requires turn.Mine? && At(conn, true, before, tr0, done) && before.c.phase.Busy?
    requires before.c.tries != [] && target == before.c.tries[|before.c.tries| - 1].target
    modifies conn
    ensures At(conn, true, st, tr, done + [turn])
    ensures match message
            case None => st.c.phase.Gone?
            case Some(text) => if text == "ok" then st.c.phase.Pipe? else st.c.phase.Idle?
  {
    hide Inv, Apply, Traces, CarriedOut, Tries, Written, Sends;
    InvCounts(before);
    ghost var ready, st' := |conn.inbox|, before;
    var a := Reading(true, turn.fails, |conn.inbox|);
    message, st' := ReadBack(conn, target, turn.fails, false, before);
    st := Tries(before, a, false);
    ghost var sent := AnswerIsSent(turn, before, |old(conn.inbox)|, old(conn.outbox), conn.outbox);
    tr := StatementNoted(tr0, true, done, ready, before, Some(turn), a, false, |conn.inbox|, sent);
  }

  method Closing(conn: ChannelConn, before: State, ghost tr0: Trace, ghost done: seq<Turn>)
    returns (pushed: bool, st: State, ghost tr: Trace)
    requires At(conn, true, before, tr0, done) && PipeOver(before.c)
    modifies conn
    ensures At(conn, true, st, tr, done)
    ensures if pushed then st.c.phase.Idle? && !conn.error else st.c.phase.Gone? && conn.rawClosed
  {
    hide Inv, Apply, Traces, CarriedOut, Tries, Written, Sends;
    InvCounts(before);
    ghost var ready, st' := |conn.inbox|, before;
    pushed, st' := ClosePiper(conn, before);
    st := Tries(before, ClientDone, false);
    SilentSends(true, None, before, ClientDone);
    tr := StatementNoted(tr0, true, done, ready, before, None, ClientDone, false, ready, []);
    assert done + [] == done;
  }

  /** The life of a channel at the client: each time it is pulled from the pool, `DialBack` dials on it, a
      session follows an "ok", and a channel that is still sound goes back to the pool. It stops before the
      end of the script only when the channel has been given up for good. */
  method UseChannel(conn: ChannelConn, script: seq<Turn>)
    returns (over: bool, consumed: nat, st: State, ghost tr: Trace)
    requires !conn.error && conn.inUse == "" && conn.inbox == conn.outbox == []
    modifies conn
    ensures conn.outbox == Written(tr.log)
    ensures consumed <= |script| && Traces(tr, st) && ClientIs(conn, st)
    ensures CarriedOut(tr, true, script[..consumed], |conn.inbox|)
    ensures if over then st.c.phase.Gone? else consumed == |script| && !st.c.phase.Gone? && !PipeOver(st.c)
  {
    hide Inv, Traces, CarriedOut;
    StartInv();
    StartTraced(true);
    st, tr := Start, NoTrace;
    consumed := 0;
    while consumed < |script|
      invariant consumed <= |script| && At(conn, true, st, tr, script[..consumed]) && st.c.phase.Idle?
      decreases |script| - consumed
    {
      consumed, st, tr := Wait(conn, true, script, consumed, st, tr);
      if consumed == |script| {
        break;
      }
      OneMore(script, consumed);
      var target, fails := script[consumed].target, script[consumed].fails;
      st, tr := Dialing(conn, script[consumed], st, tr, script[..consumed]);
      consumed := consumed + 1;
      if fails {
        over := true;
        return;
      }
      consumed, st, tr := Wait(conn, true, script, consumed, st, tr);
      if consumed == |script| {
        break;
      }
      OneMore(script, consumed);
      var message;
      message, st, tr := TakeAnswer(conn, target, script[consumed], st, tr, script[..consumed]);
      consumed := consumed + 1;
      if message.None? {
        over := true;
        return;
      }
      if message.value != "ok" {
        continue;
      }
      consumed, st, tr := Piping(conn, true, script, consumed, st, tr);
      if !PipeOver(st.c) {
        break;
      }
      var pushed;
      pushed, st, tr := Closing(conn, st, tr, script[..consumed]);
      if !pushed {
        over := true;
        return;
      }
    }
    over := false;
  }
}
