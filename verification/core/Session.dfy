/** One channel carrying one session after another (core/cs.go:53-130, 215-261, 460-542).

    The client end (`DialBack`, `DialPiper`, `piperConn.Close`) and the server end (`ProcConn`) are
    state machines over two FIFO wires; a run is any interleaving of their steps. `PipeConn` belongs
    to a library outside the repository and is taken to work like this: it writes Data frames, then
    closes the channel once, and returns when it has done so and has read the peer's Close, or when
    the channel is marked with an error.

    Closing the channel from elsewhere (pool timeout, eviction, `Client.Close`, `Server.Close`) is a
    stray Close frame, at any time. A failing read or write marks the channel; a frame whose write
    failed is one that stays on the wire unread. */
module Session {
  import opened Channel
  import opened OptionType

  /** One dial and what followed it, as one end saw it: `ans` is the text of the Back frame, `open`
      whether a session began, `out` the frames written and `inp` the frames read since then
      (on the client, written since its Dial and read since the Back; on the server the other way
      round), `got` the payloads handed to the session. */
  datatype Try = Try(
    target: string, ans: Option<string>, open: bool, out: seq<Frame>, inp: seq<Frame>, got: seq<string>)

  datatype Phase =
    | Idle
    | Busy                                       // client: waiting for Back; server: dialing
    | Pipe(sentClose: bool, doneReading: bool)
    | Gone

  datatype End = End(phase: Phase, inUse: string, err: bool, tries: seq<Try>)

  datatype State = State(c: End, s: End, c2s: seq<Frame>, s2c: seq<Frame>)

  datatype Action =
    | ClientDial(target: string) | ClientRead | ClientData(payload: string) | ClientClose
    | ClientDone | ClientStray | ClientFail
    | ServerRead | ServerRefuse(message: string) | ServerAccept | ServerData(payload: string)
    | ServerClose | ServerDone | ServerStray | ServerFail | ServerMark

  /** Before any dial: stands for the frames that belong to none. */
  const NoTry := Try("", Some(""), false, [], [], [])

  const Start := State(End(Idle, "", false, [NoTry]), End(Idle, "", false, [NoTry]), [], [])

  // ---------- pieces of a step ----------

  /** How many tries have been answered: all, or all but the last. */
  function Answered(tries: seq<Try>): int {
    if tries != [] && tries[|tries| - 1].ans.None? then |tries| - 1 else |tries|
  }

  function AddOut(tries: seq<Try>, i: int, f: Frame): seq<Try>
    requires 0 <= i < |tries|
  {
    tries[i := tries[i].(out := tries[i].out + [f])]
  }

  function AddInp(tries: seq<Try>, i: int, f: Frame): seq<Try>
    requires 0 <= i < |tries|
  {
    tries[i := tries[i].(inp := tries[i].inp + [f])]
  }

  function AddGot(tries: seq<Try>, i: int, f: Frame): seq<Try>
    requires 0 <= i < |tries|
  {
    tries[i := tries[i].(inp := tries[i].inp + [f], got := tries[i].got + [f.payload])]
  }

  /** The client writes `f`; it belongs to the last dial. */
  function ClientSend(st: State, f: Frame): State
    requires st.c.tries != []
  {
    st.(c := st.c.(tries := AddOut(st.c.tries, |st.c.tries| - 1, f)), c2s := st.c2s + [f])
  }

  /** The server writes `f`; it belongs to the last dial it has answered. */
  function ServerSend(st: State, f: Frame): State
    requires Answered(st.s.tries) >= 1
  {
    st.(s := st.s.(tries := AddOut(st.s.tries, Answered(st.s.tries) - 1, f)), s2c := st.s2c + [f])
  }

  /** One end reads `f` while piping, as part of try `i`. */
  function PipeRead(e: End, i: int, f: Frame): End
    requires e.phase.Pipe? && 0 <= i < |e.tries|
  {
    match Classify(e.inUse, f)
    case Fine => e.(tries := AddGot(e.tries, i, f))
    case Closed => e.(phase := e.phase.(doneReading := true), tries := AddInp(e.tries, i, f))
    case Broken => e.(phase := e.phase.(doneReading := true), err := true, tries := AddInp(e.tries, i, f))
  }

  predicate CanPipeRead(e: End) { e.phase.Pipe? && !e.phase.doneReading }

  predicate CanWrite(e: End) { e.phase.Pipe? && !e.phase.sentClose }

  /** `PipeConn` has returned. */
  predicate PipeOver(e: End) { e.phase.Pipe? && (e.err || (e.phase.sentClose && e.phase.doneReading)) }

  /** `piperConn.Close`, and the end of the loop body of `ProcConn`. */
  function AfterPipe(e: End): End {
    e.(phase := if e.err then Gone else Idle, inUse := "")
  }

  // ---------- the steps ----------

  /** `DialBack` writes the Dial frame of a channel pulled from the pool. */
  function DialStep(st: State, target: string): State {
    if st.c.phase.Idle? then
      st.(c := st.c.(phase := Busy, tries := st.c.tries + [Try(target, None, false, [], [], [])]),
          c2s := st.c2s + [Frame(Dial, target)])
    else st
  }

  /** `DialBack` reads the answer; a channel whose answer is an error is closed and not used again.
      `DialConn` and `DialPiper` start a session on "ok" and push the channel back otherwise. */
  function AwaitStep(st: State): State
    requires st.c.phase.Busy? && st.s2c != [] && st.c.tries != [] && Answered(st.c.tries) >= 1
  {
    var f, st1 := st.s2c[0], st.(s2c := st.s2c[1..]);
    var tries, last := st.c.tries, |st.c.tries| - 1;
    match Classify(st.c.inUse, f)
    case Fine =>
      var ok := f.payload == "ok";
      st1.(c := st.c.(
        phase := if ok then Pipe(false, false) else Idle,
        inUse := if ok then tries[last].target else st.c.inUse,
        tries := tries[last := tries[last].(ans := Some(f.payload), open := ok)]))
    case Closed =>
      var st2 := st1.(c := st.c.(phase := Gone, tries := AddInp(tries, Answered(tries) - 1, f)));
      if st.c.err then st2 else ClientSend(st2, CLOSE_FRAME)
    case Broken =>
      st1.(c := st.c.(phase := Gone, err := true, tries := AddInp(tries, Answered(tries) - 1, f)))
  }

  function ClientReadStep(st: State): State
    requires st.c.tries != [] && Answered(st.c.tries) >= 1
  {
    if st.s2c == [] then st
    else if st.c.phase.Busy? then AwaitStep(st)
    else if CanPipeRead(st.c) then
      st.(c := PipeRead(st.c, |st.c.tries| - 1, st.s2c[0]), s2c := st.s2c[1..])
    else st
  }

  /** `ProcConn` expects a Dial frame; anything else ends the channel. */
  function ServerReadStep(st: State): State
    requires st.s.tries != []
  {
    var tries, last := st.s.tries, |st.s.tries| - 1;
    if st.c2s == [] then st
    else
      var f, st1 := st.c2s[0], st.(c2s := st.c2s[1..]);
      if st.s.phase.Idle? then
        if Classify(st.s.inUse, f) == Fine && f.cmd == Dial then
          st1.(s := st.s.(phase := Busy, tries := tries + [Try(f.payload, None, false, [], [], [])]))
        else
          st1.(s := st.s.(phase := Gone, err := true, tries := AddInp(tries, last, f)))
      else if CanPipeRead(st.s) then st1.(s := PipeRead(st.s, last, f))
      else st
  }

  function AnswerStep(st: State, message: string, accept: bool): State
    requires st.s.tries != []
  {
    var tries, last := st.s.tries, |st.s.tries| - 1;
    if st.s.phase.Busy? then
      st.(s := st.s.(
            phase := if accept then Pipe(false, false) else Idle,
            inUse := if accept then tries[last].target else st.s.inUse,
            tries := tries[last := tries[last].(ans := Some(message), open := accept)]),
          s2c := st.s2c + [Frame(Back, message)])
    else st
  }

  /** A failing read. A failing write only marks the channel: `ServerMark`. */
  function FailStep(e: End): End {
    match e.phase
    case Idle => e.(phase := Gone, err := true)
    case Gone => e
    case _ => e.(err := true)
  }

  /** The whole step function; a step that is not enabled changes nothing. */
  function Apply(st: State, a: Action): State
    requires Counted(st)
  {
    match a
    case ClientDial(target) => DialStep(st, target)
    case ClientRead => ClientReadStep(st)
    case ClientData(payload) => if CanWrite(st.c) then ClientSend(st, Frame(Data, payload)) else st
    case ClientClose =>
      if CanWrite(st.c) then
        var st1 := st.(c := st.c.(phase := st.c.phase.(sentClose := true)));
        if st.c.err then st1 else ClientSend(st1, CLOSE_FRAME)
      else st
    case ClientDone => if PipeOver(st.c) then st.(c := AfterPipe(st.c)) else st
    case ClientStray => if st.c.phase.Gone? || st.c.err then st else ClientSend(st, CLOSE_FRAME)
    case ClientFail =>
      if st.c.phase.Busy? then st.(c := st.c.(phase := Gone, err := true)) else st.(c := FailStep(st.c))
    case ServerRead => ServerReadStep(st)
    case ServerRefuse(message) => AnswerStep(st, message, false)
    case ServerAccept => AnswerStep(st, "ok", true)
    case ServerData(payload) => if CanWrite(st.s) then ServerSend(st, Frame(Data, payload)) else st
    case ServerClose =>
      if CanWrite(st.s) then
        var st1 := st.(s := st.s.(phase := st.s.phase.(sentClose := true)));
        if st.s.err then st1 else ServerSend(st1, CLOSE_FRAME)
      else st
    case ServerDone => if PipeOver(st.s) then st.(s := AfterPipe(st.s)) else st
    case ServerStray => if st.s.phase.Gone? || st.s.err then st else ServerSend(st, CLOSE_FRAME)
    case ServerFail => st.(s := FailStep(st.s))
    case ServerMark => if st.s.phase.Gone? then st else st.(s := st.s.(err := true))
  }

  // ---------- the invariant ----------

  /** The first try of either end is answered, and so is every try but the last. */
  predicate Counted(st: State) {
    TriesCounted(st.c.tries) && TriesCounted(st.s.tries)
  }

  predicate TriesCounted(tries: seq<Try>) {
    && |tries| >= 1 && tries[0].ans.Some?
    && forall i :: 0 <= i < |tries| - 1 ==> tries[i].ans.Some?
  }

  /** The client-to-server wire holds what the client wrote and the server has not read, try by try. */
  ghost predicate ForwardWire(st: State)
    requires Counted(st)
  {
    var c, s := st.c.tries, st.s.tries;
    var n, m := |c|, |s|;
    && m <= n <= m + 1
    && (forall i :: 0 <= i < m ==> s[i].target == c[i].target)
    && (forall i :: 0 <= i < m - 1 ==> s[i].inp == c[i].out)
    && s[m - 1].inp <= c[m - 1].out
    && st.c2s == c[m - 1].out[|s[m - 1].inp|..]
                 + if n == m then [] else [Frame(Dial, c[m].target)] + c[m].out
  }

  /** And the other way round, with Back frames between the tries. */
  ghost predicate BackwardWire(st: State)
    requires Counted(st)
  {
    var c, s := st.c.tries, st.s.tries;
    var n, m := Answered(c), Answered(s);
    && n <= m <= n + 1
    && (forall i :: 0 <= i < n ==> c[i].ans == s[i].ans)
    && (forall i :: 0 <= i < n - 1 ==> c[i].inp == s[i].out)
    && c[n - 1].inp <= s[n - 1].out
    && st.s2c == s[n - 1].out[|c[n - 1].inp|..]
                 + if n == m then [] else [Frame(Back, s[n].ans.value)] + s[n].out
  }

  predicate PlainFrames(fs: seq<Frame>) { forall f :: f in fs ==> f.cmd == Data || f.cmd == Close }

  predicate HasClose(fs: seq<Frame>) { exists f :: f in fs && f.cmd == Close }

  function DataOf(fs: seq<Frame>): seq<string> {
    if fs == [] then []
    else DataOf(fs[..|fs| - 1]) + if fs[|fs| - 1].cmd == Data then [fs[|fs| - 1].payload] else []
  }

  /** The payloads before the first Close frame. */
  function DataUpToClose(fs: seq<Frame>): seq<string> {
    if fs == [] then []
    else if HasClose(fs[..|fs| - 1]) then DataUpToClose(fs[..|fs| - 1])
    else DataOf(fs)
  }

  /** A session that has read a Close. */
  ghost predicate Ended(t: Try) {
    t.open && HasClose(t.inp)
  }

  /** What any try has handed on: a start of what it read before the first Close, and all of that once
      it has read a Close. */
  ghost predicate Faithful(t: Try) {
    if t.open then t.got <= DataUpToClose(t.inp) && (Ended(t) ==> t.got == DataUpToClose(t.inp))
    else t.got == []
  }

  /** An open try the client has left behind in working order has sent a Close and read one. */
  ghost predicate Parted(t: Try) {
    t.open ==> HasClose(t.out) && Ended(t)
  }

  /** What holds of any try of the client: a refused one sent no data. */
  ghost predicate ClientTry(t: Try) {
    && PlainFrames(t.out)
    && (t.open <==> t.ans == Some("ok"))
    && (!t.open ==> DataOf(t.out) == [])
    && Faithful(t)
  }

  ghost predicate ClientOk(e: End)
    requires TriesCounted(e.tries)
  {
    var last := e.tries[|e.tries| - 1];
    && (forall i :: 0 <= i < |e.tries| ==> ClientTry(e.tries[i]))
    && (forall i :: 0 <= i < |e.tries| - 1 ==> Parted(e.tries[i]))
    && match e.phase
       case Idle => last.ans.Some? && !e.err && e.inUse == "" && Parted(last)
       case Busy => last.ans.None? && last.inp == [] && !e.err && e.inUse == ""
       case Pipe(sentClose, doneReading) =>
         && last.open
         && (sentClose && !e.err ==> HasClose(last.out))
         && (!doneReading ==> !HasClose(last.inp) && last.got == DataOf(last.inp))
         && (doneReading && !e.err ==> Ended(last))
       case Gone => true
  }

  /** A try the server has left behind: it read nothing after a refusal, and a Close in a session. */
  ghost predicate Settled(t: Try) {
    if t.open then Ended(t) else t.inp == []
  }

  ghost predicate ServerTry(t: Try) {
    PlainFrames(t.out) && (t.open ==> t.ans == Some("ok")) && (!t.open ==> DataOf(t.out) == []) && Faithful(t)
  }

  ghost predicate ServerOk(e: End)
    requires TriesCounted(e.tries)
  {
    var last := e.tries[|e.tries| - 1];
    && (forall i :: 0 <= i < |e.tries| ==> ServerTry(e.tries[i]))
    && (forall i :: 0 <= i < |e.tries| - 1 ==> Settled(e.tries[i]))
    && (e.phase.Busy? <==> last.ans.None?)
    && match e.phase
       case Idle => Settled(last) && e.inUse == ""
       case Busy => last.inp == [] && last.out == [] && e.inUse == ""
       case Pipe(sentClose, doneReading) =>
         && last.open
         && (!doneReading ==> !HasClose(last.inp) && last.got == DataOf(last.inp))
         && (doneReading && !e.err ==> Ended(last))
       case Gone => true
  }

  ghost predicate Wired(st: State) {
    Counted(st) && ForwardWire(st) && BackwardWire(st)
  }

  ghost predicate Inv(st: State) {
    Wired(st) && ClientOk(st.c) && ServerOk(st.s)
  }
}
