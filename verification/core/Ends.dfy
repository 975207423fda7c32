/** What the two ends do with their channel, statement by statement (`ProcConn`, `DialBack`,
    `DialPiper`, `piperConn.Close` and the reads and writes of `PipeConn` between them, core/cs.go:53-130,
    215-261, 460-542), and the proof that each piece is a step of `Session`. */
module Ends {
  import opened Channel
  import opened OptionType
  import opened Session
  import opened SessionSteps

  /** `conn` is the end `e`. What has arrived is the start of `wire`, the frames on their way to it; the rest
      is still under way, or lost. An end that is gone is not used again. */
  ghost predicate Shows(conn: ChannelConn, e: End, wire: seq<Frame>)
    reads conn
  {
    e.phase.Gone? || (conn.error == e.err && conn.inUse == e.inUse && conn.inbox <= wire)
  }

  ghost predicate ServerIs(conn: ChannelConn, st: State)
    reads conn
  {
    Inv(st) && Shows(conn, st.s, st.c2s)
  }

  ghost predicate ClientIs(conn: ChannelConn, st: State)
    reads conn
  {
    Inv(st) && Shows(conn, st.c, st.s2c)
  }

  /** The step `a`. A failing write is the step whose frame nobody will read, and then the mark it leaves;
      a client that cannot write its Dial gives the channel up. */
  function Tries(st: State, a: Action, fails: bool): State
    requires Counted(st)
  {
    var st1 := Apply(st, a);
    if fails && Counted(st1) then Apply(st1, if OfClient(a) then ClientFail else ServerMark) else st1
  }

  /** A read takes the first frame that has arrived, if any has and the read does not fail. */
  predicate Consumed(before: seq<Frame>, after: seq<Frame>, fails: bool) {
    after == if fails || before == [] then before else before[1..]
  }

  lemma TriesKeepsInv(st: State, a: Action, fails: bool)
    requires Inv(st)
    ensures Counted(st) && Inv(Tries(st, a, fails)) && Counted(Apply(st, a))
  {
    hide Inv, Apply;
    InvCounts(st);
    ApplyKeepsInv(st, a);
    InvCounts(Apply(st, a));
    ApplyKeepsInv(Apply(st, a), if OfClient(a) then ClientFail else ServerMark);
  }

  /** What was written by a step that put `sent` on the wire: all of it, or nothing if the write failed. */
  ghost predicate Wrote(before: seq<Frame>, after: seq<Frame>, wire: seq<Frame>, wire': seq<Frame>, fails: bool) {
    exists sent :: wire' == wire + sent && after == if fails then before else before + sent
  }

  // ---------- the server ----------

  lemma IdleServer(st: State)
    requires Inv(st) && (st.s.phase.Idle? || st.s.phase.Busy?)
    ensures Counted(st) && st.s.inUse == ""
  {
    hide ForwardWire, BackwardWire, ClientOk;
  }

  /** The head of the loop of `ProcConn`: a Dial, or the channel is given up. */
  method NextDial(conn: ChannelConn, fails: bool, ghost st: State) returns (target: Option<string>, ghost st': State)
    requires ServerIs(conn, st) && st.s.phase.Idle?
    modifies conn
    ensures st' == Tries(st, if fails || old(conn.inbox) == [] then ServerFail else ServerRead, false)
    ensures ServerIs(conn, st') && conn.outbox == old(conn.outbox) && Consumed(old(conn.inbox), conn.inbox, fails)
    ensures if target.Some? then
              st'.s.phase.Busy? && st'.s.tries != [] && st'.s.tries[|st'.s.tries| - 1].target == target.value
            else st'.s.phase.Gone? && conn.error
  {
    hide Inv;
    InvCounts(st);
    TriesKeepsInv(st, if fails || conn.inbox == [] then ServerFail else ServerRead, false);
    st' := Tries(st, if fails || conn.inbox == [] then ServerFail else ServerRead, false);
    var r, err := conn.ReadFrame(fails);
    if err {
      conn.error := true;
      return None, st';
    }
    if r.frame.cmd != Dial {
      conn.error := true;
      return None, st';
    }
    return Some(r.frame.payload), st';
  }

  /** The answer to a Dial: the error of the dialer, or "ok" and a session. */
  method Answer(conn: ChannelConn, target: string, refusal: Option<string>, fails: bool, ghost st: State)
    returns (ghost st': State)
    requires ServerIs(conn, st) && st.s.phase.Busy?
    requires st.s.tries != [] && target == st.s.tries[|st.s.tries| - 1].target
    modifies conn
    ensures st' == Tries(st, if refusal.Some? then ServerRefuse(refusal.value) else ServerAccept, fails)
    ensures ServerIs(conn, st') && Wrote(old(conn.outbox), conn.outbox, st.s2c, st'.s2c, fails)
    ensures conn.inbox == old(conn.inbox)
    ensures if refusal.Some? then st'.s.phase.Idle? else st'.s.phase.Pipe?
  {
    hide Inv;
    IdleServer(st);
    var message := if refusal.Some? then refusal.value else "ok";
    conn.WriteCommand(Back, message, fails);
    TriesKeepsInv(st, if refusal.Some? then ServerRefuse(refusal.value) else ServerAccept, fails);
    st' := Tries(st, if refusal.Some? then ServerRefuse(refusal.value) else ServerAccept, fails);
    assert st'.s2c == st.s2c + [Frame(Back, message)];
    if refusal.None? {
      conn.inUse := target;
    }
  }

  /** After `PipeConn`: the loop goes on exactly when the channel is sound. */
  method AfterSession(conn: ChannelConn, ghost st: State) returns (more: bool, ghost st': State)
    requires ServerIs(conn, st) && PipeOver(st.s)
    modifies conn
    ensures st' == Tries(st, ServerDone, false)
    ensures ServerIs(conn, st') && conn.outbox == old(conn.outbox) && conn.inbox == old(conn.inbox)
    ensures if more then st'.s.phase.Idle? else st'.s.phase.Gone? && conn.error
  {
    hide Inv;
    InvCounts(st);
    conn.inUse := "";
    TriesKeepsInv(st, ServerDone, false);
    st' := Tries(st, ServerDone, false);
    more := !conn.error;
  }

  // ---------- the client ----------

  /** The Dial frame of `DialBack`; a channel it cannot be written to is closed. */
  method WriteDial(conn: ChannelConn, target: string, fails: bool, ghost st: State) returns (ghost st': State)
    requires ClientIs(conn, st) && st.c.phase.Idle?
    modifies conn
    ensures st' == Tries(st, ClientDial(target), fails)
    ensures ClientIs(conn, st') && Wrote(old(conn.outbox), conn.outbox, st.c2s, st'.c2s, fails)
    ensures conn.inbox == old(conn.inbox)
    ensures if fails then st'.c.phase.Gone? && conn.rawClosed
            else st'.c.phase.Busy? && st'.c.tries != [] && st'.c.tries[|st'.c.tries| - 1].target == target
  {
    hide Inv;
    InvCounts(st);
    conn.WriteCommand(Dial, target, fails);
    TriesKeepsInv(st, ClientDial(target), fails);
    st' := Tries(st, ClientDial(target), fails);
    assert st'.c2s == st.c2s + [Frame(Dial, target)];
    if fails {
      conn.CloseConn(false);
    }
  }

  /** The answer `DialBack` waits for, and what `DialConn` and `DialPiper` make of it: "ok" starts a session,
      another text is a refusal, and a channel with anything else in place of an answer is closed. */
  method ReadBack(conn: ChannelConn, target: string, fails: bool, closeFails: bool, ghost st: State)
    returns (message: Option<string>, ghost st': State)
    requires ClientIs(conn, st) && st.c.phase.Busy?
    requires st.c.tries != [] && target == st.c.tries[|st.c.tries| - 1].target
    modifies conn
    ensures st' == Tries(st, if fails || old(conn.inbox) == [] then ClientFail else ClientRead, false)
    ensures ClientIs(conn, st') && Wrote(old(conn.outbox), conn.outbox, st.c2s, st'.c2s, closeFails)
    ensures Consumed(old(conn.inbox), conn.inbox, fails)
    ensures match message
            case None => st'.c.phase.Gone?
            case Some(text) => if text == "ok" then st'.c.phase == Pipe(false, false) && conn.inUse == target
                               else st'.c.phase.Idle?
  {
    hide Inv;
    BusyClient(st);
    TriesKeepsInv(st, if fails || conn.inbox == [] then ClientFail else ClientRead, false);
    st' := Tries(st, if fails || conn.inbox == [] then ClientFail else ClientRead, false);
    var r, err := conn.ReadFrame(fails);
    if err {
      ghost var sent := if conn.error then [] else [CLOSE_FRAME];
      conn.CloseConn(closeFails);
      assert st'.c2s == st.c2s + sent;
      return None, st';
    }
    assert st'.c2s == st.c2s + [];
    if r.frame.payload == "ok" {
      conn.inUse := target;
    }
    return Some(r.frame.payload), st';
  }

  /** `piperConn.Close`: a channel with an error is closed, a sound one is free again. */
  method ClosePiper(conn: ChannelConn, ghost st: State) returns (pushed: bool, ghost st': State)
    requires ClientIs(conn, st) && PipeOver(st.c)
    modifies conn
    ensures st' == Tries(st, ClientDone, false)
    ensures ClientIs(conn, st') && conn.outbox == old(conn.outbox) && conn.inbox == old(conn.inbox)
    ensures if pushed then st'.c.phase.Idle? && !conn.error else st'.c.phase.Gone? && conn.rawClosed
  {
    hide Inv;
    InvCounts(st);
    TriesKeepsInv(st, ClientDone, false);
    st' := Tries(st, ClientDone, false);
    pushed := !conn.error;
    if pushed {
      conn.inUse := "";
    } else {
      conn.CloseConn(false);
    }
  }

  // ---------- either end, while piping ----------

  lemma PipeReadIs(e: End, f: Frame)
    requires CanPipeRead(e) && e.tries != []
    ensures var e' := PipeRead(e, |e.tries| - 1, f);
            && e'.phase.Pipe? && e'.inUse == e.inUse && e'.err == (e.err || Classify(e.inUse, f) == Broken)
            && |e'.tries| == |e.tries|
            && e'.tries[|e.tries| - 1].got
               == e.tries[|e.tries| - 1].got + if Classify(e.inUse, f) == Fine then [f.payload] else []
  {
  }

  /** A read of `PipeConn`: the payload handed on, or the end of reading. */
  method PipeIn(conn: ChannelConn, client: bool, fails: bool, ghost st: State)
    returns (payload: Option<string>, ghost st': State)
    requires if client then ClientIs(conn, st) && CanPipeRead(st.c) else ServerIs(conn, st) && CanPipeRead(st.s)
    modifies conn
    ensures var silent := fails || old(conn.inbox) == [];
            st' == Tries(st, if client then if silent then ClientFail else ClientRead
                             else if silent then ServerFail else ServerRead, false)
    ensures if client then ClientIs(conn, st') else ServerIs(conn, st')
    ensures conn.outbox == old(conn.outbox) && Consumed(old(conn.inbox), conn.inbox, fails)
    ensures var e, e' := if client then st.c else st.s, if client then st'.c else st'.s;
            && e'.phase.Pipe? && e.tries != [] && |e'.tries| == |e.tries|
            && e'.tries[|e.tries| - 1].got
               == e.tries[|e.tries| - 1].got + if payload.Some? then [payload.value] else []
  {
    hide Inv, AwaitStep, DialStep, AnswerStep, PipeRead;
    InvCounts(st);
    ghost var silent := fails || conn.inbox == [];
    if !silent {
      PipeReadIs(if client then st.c else st.s, if client then st.s2c[0] else st.c2s[0]);
    }
    TriesKeepsInv(st, if client then if silent then ClientFail else ClientRead
                     else if silent then ServerFail else ServerRead, false);
    st' := Tries(st, if client then if silent then ClientFail else ClientRead
                     else if silent then ServerFail else ServerRead, false);
    var r, err := conn.ReadFrame(fails);
    if err {
      return None, st';
    }
    return Some(r.frame.payload), st';
  }

  /** A write of `PipeConn`. */
  method PipeOut(conn: ChannelConn, client: bool, payload: string, fails: bool, ghost st: State)
    returns (ghost st': State)
    requires if client then ClientIs(conn, st) && CanWrite(st.c) else ServerIs(conn, st) && CanWrite(st.s)
    modifies conn
    ensures st' == Tries(st, if client then ClientData(payload) else ServerData(payload), fails)
    ensures (if client then st'.c else st'.s).phase.Pipe? && conn.inbox == old(conn.inbox)
    ensures if client then ClientIs(conn, st') && Wrote(old(conn.outbox), conn.outbox, st.c2s, st'.c2s, fails)
            else ServerIs(conn, st') && Wrote(old(conn.outbox), conn.outbox, st.s2c, st'.s2c, fails)
  {
    hide Inv;
    InvCounts(st);
    conn.WriteFrame(payload, fails);
    TriesKeepsInv(st, if client then ClientData(payload) else ServerData(payload), fails);
    st' := Tries(st, if client then ClientData(payload) else ServerData(payload), fails);
    assert client ==> st'.c2s == st.c2s + [Frame(Data, payload)];
    assert !client ==> st'.s2c == st.s2c + [Frame(Data, payload)];
  }

  /** `PipeConn` closes its channel once: a marked channel sends nothing. */
  method PipeClose(conn: ChannelConn, client: bool, fails: bool, ghost st: State) returns (ghost st': State)
    requires if client then ClientIs(conn, st) && CanWrite(st.c) else ServerIs(conn, st) && CanWrite(st.s)
    modifies conn
    ensures st' == Tries(st, if client then ClientClose else ServerClose, fails)
    ensures (if client then st'.c else st'.s).phase.Pipe? && conn.inbox == old(conn.inbox)
    ensures if client then ClientIs(conn, st') && Wrote(old(conn.outbox), conn.outbox, st.c2s, st'.c2s, fails)
            else ServerIs(conn, st') && Wrote(old(conn.outbox), conn.outbox, st.s2c, st'.s2c, fails)
  {
    hide Inv, ClientReadStep, ServerReadStep, DialStep, AnswerStep;
    InvCounts(st);
    ghost var sent := if conn.error then [] else [CLOSE_FRAME];
    conn.CloseConn(fails);
    TriesKeepsInv(st, if client then ClientClose else ServerClose, fails);
    st' := Tries(st, if client then ClientClose else ServerClose, fails);
    assert client ==> st'.c2s == st.c2s + sent;
    assert !client ==> st'.s2c == st.s2c + sent;
  }
}
