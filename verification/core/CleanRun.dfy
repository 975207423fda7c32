/** Runs in which nobody closes a channel from outside its session: then a session that read its
    Close got everything its peer wrote. */
module CleanRun {
  import opened Channel
  import opened Session
  import opened SessionWires
  import opened SessionSteps
  import opened SessionIsolation

  predicate Stray(a: Action) { a.ClientStray? || a.ServerStray? }

  /** Nothing is written after a Close. */
  ghost predicate CloseIsLast(out: seq<Frame>) {
    out == [] || !HasClose(out[..|out| - 1])
  }

  ghost predicate Tidy(e: End)
    requires TriesCounted(e.tries)
  {
    && (forall i :: 0 <= i < |e.tries| ==> CloseIsLast(e.tries[i].out))
    && (e.phase.Busy? ==> LastOf(e).out == [])
    && (CanWrite(e) ==> !HasClose(LastOf(e).out))
  }

  /** Writing, as a piping end does, or as a client that gives up a dial does. */
  lemma SendKeepsTidy(e: End, f: Frame, phase: Phase)
    requires TriesCounted(e.tries) && Tidy(e) && !HasClose(LastOf(e).out)
    requires !phase.Busy? && (f.cmd == Close && phase.Pipe? ==> phase.sentClose)
    requires f.cmd in {Data, Close}
    ensures var e' := e.(phase := phase, tries := AddOut(e.tries, |e.tries| - 1, f));
            TriesCounted(e'.tries) && Tidy(e')
  {
    var out := LastOf(e).out;
    DataSnoc(out, f);
    assert (out + [f])[..|out|] == out;
  }

  /** Reading never touches what was written. */
  lemma SameOutsTidy(e: End, e': End)
    requires TriesCounted(e.tries) && TriesCounted(e'.tries) && Tidy(e) && |e'.tries| == |e.tries|
    requires forall i :: 0 <= i < |e.tries| ==> e'.tries[i].out == e.tries[i].out
    requires e'.phase.Busy? ==> e.phase.Busy?
    requires CanWrite(e') ==> CanWrite(e) || e.phase.Busy?
    ensures Tidy(e')
  {
  }

  lemma PipeReadKeepsTidy(e: End, i: int, f: Frame)
    requires TriesCounted(e.tries) && Tidy(e) && e.phase.Pipe? && 0 <= i < |e.tries|
    ensures TriesCounted(PipeRead(e, i, f).tries) && Tidy(PipeRead(e, i, f))
  {
    SameOutsTidy(e, PipeRead(e, i, f));
  }

  lemma GiveUpKeepsTidy(st: State, i: int)
    requires Counted(st) && Tidy(st.c) && st.c.phase.Busy? && st.s2c != [] && 0 <= i < |st.c.tries|
    ensures var st1 := GiveUp(st, i);
            && Counted(st1) && Tidy(st1.c)
            && Counted(ClientSend(st1, CLOSE_FRAME)) && Tidy(ClientSend(st1, CLOSE_FRAME).c)
  {
    var st1 := GiveUp(st, i);
    SameOutsTidy(st.c, st1.c);
    SendKeepsTidy(st1.c, CLOSE_FRAME, Gone);
  }

  lemma AwaitAnswerKeepsTidy(st: State)
    requires Counted(st) && Tidy(st.c) && st.c.phase.Busy? && st.s2c != [] && st.s2c[0].cmd !in {Data, Close}
    requires Counted(AwaitStep(st))
    ensures Tidy(AwaitStep(st).c)
  {
    var e' := AwaitStep(st).c;
    assert forall i :: 0 <= i < |st.c.tries| ==> e'.tries[i].out == st.c.tries[i].out;
  }

  lemma AwaitKeepsTidy(st: State)
    requires Inv(st) && Tidy(st.c) && st.c.phase.Busy? && st.s2c != []
    ensures Counted(AwaitStep(st)) && Tidy(AwaitStep(st).c)
  {
    hide Inv, Tidy, AwaitStep, ClientSend, GiveUp;
    BusyClient(st);
    AwaitKeepsInv(st);
    InvCounts(AwaitStep(st));
    if st.s2c[0].cmd in {Data, Close} {
      AwaitErrorIs(st);
      GiveUpKeepsTidy(st, Answered(st.c.tries) - 1);
    } else {
      AwaitAnswerKeepsTidy(st);
    }
  }

  lemma ClientReadKeepsTidy(st: State)
    requires Inv(st) && Tidy(st.c)
    ensures Counted(ClientReadStep(st)) && Tidy(ClientReadStep(st).c)
  {
    hide Inv, Tidy, AwaitStep, PipeRead;
    InvCounts(st);
    if st.s2c != [] {
      if st.c.phase.Busy? {
        AwaitKeepsTidy(st);
      } else if CanPipeRead(st.c) {
        PipeReadKeepsTidy(st.c, |st.c.tries| - 1, st.s2c[0]);
      }
    }
  }

  lemma ClientStepKeepsTidy(st: State, a: Action)
    requires Inv(st) && Tidy(st.c) && OfClient(a) && !Stray(a)
    ensures Counted(Apply(st, a)) && Tidy(Apply(st, a).c)
  {
    hide Inv, Tidy, ClientReadStep, DialStep, HasClose;
    ApplyKeepsInv(st, a);
    InvCounts(st);
    InvCounts(Apply(st, a));
    match a
    case ClientDial(target) => DialKeepsTidy(st, target);
    case ClientRead => ClientReadKeepsTidy(st);
    case ClientData(payload) =>
      if CanWrite(st.c) {
        CanWriteIsOpen(st.c);
        SendKeepsTidy(st.c, Frame(Data, payload), st.c.phase);
      }
    case ClientClose =>
      if CanWrite(st.c) {
        SentKeepsTidy(st.c);
      }
    case _ => PhaseKeepsTidy(st.c);
  }

  lemma CanWriteIsOpen(e: End)
    requires TriesCounted(e.tries) && Tidy(e) && CanWrite(e)
    ensures !HasClose(LastOf(e).out)
  {
  }

  lemma SentKeepsTidy(e: End)
    requires TriesCounted(e.tries) && Tidy(e) && CanWrite(e)
    ensures Tidy(e.(phase := e.phase.(sentClose := true)))
    ensures var e' := e.(phase := e.phase.(sentClose := true), tries := AddOut(e.tries, |e.tries| - 1, CLOSE_FRAME));
            TriesCounted(e'.tries) && Tidy(e')
  {
    SendKeepsTidy(e, CLOSE_FRAME, e.phase.(sentClose := true));
  }

  lemma PhaseKeepsTidy(e: End)
    requires TriesCounted(e.tries) && Tidy(e)
    ensures Tidy(FailStep(e)) && Tidy(e.(phase := Gone, err := true)) && (PipeOver(e) ==> Tidy(AfterPipe(e)))
    ensures Tidy(e.(err := true))
  {
  }

  lemma DialKeepsTidy(st: State, target: string)
    requires Counted(st) && Counted(DialStep(st, target)) && Tidy(st.c)
    ensures Tidy(DialStep(st, target).c)
  {
    var tries' := DialStep(st, target).c.tries;
    assert forall i :: 0 <= i < |st.c.tries| ==> tries'[i] == st.c.tries[i];
  }

  lemma ServerReadKeepsTidy(st: State)
    requires Counted(st) && Counted(ServerReadStep(st)) && Tidy(st.s)
    ensures Tidy(ServerReadStep(st).s)
  {
    var e' := ServerReadStep(st).s;
    assert forall i :: 0 <= i < |st.s.tries| ==> e'.tries[i].out == st.s.tries[i].out;
  }

  lemma AnswerKeepsTidy(st: State, message: string, accept: bool)
    requires Counted(st) && Counted(AnswerStep(st, message, accept)) && Tidy(st.s)
    ensures Tidy(AnswerStep(st, message, accept).s)
  {
    SameOutsTidy(st.s, AnswerStep(st, message, accept).s);
  }

  lemma ServerWritesLast(st: State)
    requires Inv(st) && CanWrite(st.s)
    ensures Answered(st.s.tries) == |st.s.tries|
  {
    assert ServerTry(LastOf(st.s));
  }

  lemma ServerStepKeepsTidy(st: State, a: Action)
    requires Inv(st) && Tidy(st.s) && !OfClient(a) && !Stray(a)
    ensures Counted(Apply(st, a)) && Tidy(Apply(st, a).s)
  {
    hide Inv, Tidy, ServerReadStep, AnswerStep, HasClose;
    ApplyKeepsInv(st, a);
    InvCounts(st);
    InvCounts(Apply(st, a));
    match a
    case ServerRead => ServerReadKeepsTidy(st);
    case ServerRefuse(message) => AnswerKeepsTidy(st, message, false);
    case ServerAccept => AnswerKeepsTidy(st, "ok", true);
    case ServerData(payload) =>
      if CanWrite(st.s) {
        ServerWritesLast(st);
        CanWriteIsOpen(st.s);
        SendKeepsTidy(st.s, Frame(Data, payload), st.s.phase);
      }
    case ServerClose =>
      if CanWrite(st.s) {
        ServerWritesLast(st);
        SentKeepsTidy(st.s);
      }
    case _ => PhaseKeepsTidy(st.s);
  }

  lemma StepKeepsTidy(st: State, a: Action)
    requires Inv(st) && Tidy(st.c) && Tidy(st.s) && !Stray(a)
    ensures Counted(Apply(st, a)) && Tidy(Apply(st, a).c) && Tidy(Apply(st, a).s)
  {
    hide Inv, Tidy, Apply;
    InvCounts(st);
    OtherEndUnmoved(st, a);
    if OfClient(a) {
      ClientStepKeepsTidy(st, a);
    } else {
      ServerStepKeepsTidy(st, a);
    }
  }

  lemma {:induction false} RunIsTidy(states: seq<State>, actions: seq<Action>, i: nat)
    requires IsRun(states, actions) && i < |states|
    requires forall a :: a in actions ==> !Stray(a)
    ensures Counted(states[i]) && Tidy(states[i].c) && Tidy(states[i].s)
  {
    hide Inv, Apply;
    RunKeepsInv(states, actions, i);
    InvCounts(states[i]);
    if i > 0 {
      RunIsTidy(states, actions, i - 1);
      RunKeepsInv(states, actions, i - 1);
      assert Steps(states[i - 1], actions[i - 1], states[i]) && actions[i - 1] in actions;
      StepKeepsTidy(states[i - 1], actions[i - 1]);
    }
  }

  lemma TidyIsWhole(u: Try, v: Try)
    requires CloseIsLast(v.out) && GotFrom(u, v)
    ensures u.got <= DataOf(v.out) && (u.open && HasClose(u.inp) ==> u.got == DataOf(v.out))
  {
    NoCloseYet(v.out);
  }

  /** Without stray Closes a session that has read its Close got exactly what the other end wrote:
      nothing missing, nothing else, in order. */
  lemma CleanSessionsAreWhole(states: seq<State>, actions: seq<Action>, i: nat, j: nat)
    requires IsRun(states, actions) && i < |states|
    requires forall a :: a in actions ==> !Stray(a)
    requires j < |Sessions(states[i].s.tries)| && j < |Sessions(states[i].c.tries)|
    ensures var s, c := states[i].s.tries, states[i].c.tries;
            var u, v := s[Sessions(s)[j]], c[Sessions(c)[j]];
            && u.target == v.target
            && u.got <= DataOf(v.out) && (HasClose(u.inp) ==> u.got == DataOf(v.out))
            && v.got <= DataOf(u.out) && (HasClose(v.inp) ==> v.got == DataOf(u.out))
  {
    hide IsRun, GotFrom, CloseIsLast, HasClose, DataOf;
    EveryRunIsIsolated(states, actions, i);
    RunIsTidy(states, actions, i);
    var s, c := states[i].s.tries, states[i].c.tries;
    var u, v := s[Sessions(s)[j]], c[Sessions(c)[j]];
    assert Paired(u, v);
    TidyIsWhole(u, v);
    TidyIsWhole(v, u);
  }
}
