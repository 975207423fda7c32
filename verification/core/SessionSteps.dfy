/** Every step of either end keeps the invariant of a channel. */
module SessionSteps {
  import opened Channel
  import opened OptionType
  import opened Session
  import opened SessionWires

  // ---------- each kind of step keeps the ends in order ----------

  function LastOf(e: End): Try
    requires e.tries != []
  {
    e.tries[|e.tries| - 1]
  }

  lemma GrowKeepsTry(t: Try, f: Frame)
    requires Faithful(t) && PlainFrames(t.out) && f.cmd in {Data, Close}
    ensures var o := t.(out := t.out + [f]);
            && Faithful(o) && PlainFrames(o.out) && (HasClose(t.out) ==> HasClose(o.out))
            && (f.cmd == Close ==> DataOf(o.out) == DataOf(t.out) && HasClose(o.out))
    ensures (t.open ==> Ended(t)) ==> Faithful(t.(inp := t.inp + [f]))
  {
    DataSnoc(t.out, f);
    DataSnoc(t.inp, f);
  }

  lemma ClientSendKeepsOk(e: End, f: Frame)
    requires TriesCounted(e.tries) && ClientOk(e)
    requires f.cmd == Close || (f.cmd == Data && LastOf(e).open)
    ensures var e' := e.(tries := AddOut(e.tries, |e.tries| - 1, f));
            TriesCounted(e'.tries) && ClientOk(e') && (f.cmd == Close ==> HasClose(LastOf(e').out))
  {
    var last := |e.tries| - 1;
    var e' := e.(tries := AddOut(e.tries, last, f));
    assert ClientTry(e.tries[last]);
    GrowKeepsTry(e.tries[last], f);
    assert ClientTry(e'.tries[last]);
  }

  lemma ServerSendKeepsOk(e: End, f: Frame)
    requires TriesCounted(e.tries) && ServerOk(e)
    requires f.cmd == Close || (f.cmd == Data && e.tries[Answered(e.tries) - 1].open)
    ensures var e' := e.(tries := AddOut(e.tries, Answered(e.tries) - 1, f)); TriesCounted(e'.tries) && ServerOk(e')
  {
    var i := Answered(e.tries) - 1;
    assert ServerTry(e.tries[i]);
    GrowKeepsTry(e.tries[i], f);
    ServerOutKeepsOk(e, i, e.tries[i].out + [f]);
  }

  lemma ServerOutKeepsOk(e: End, i: nat, out: seq<Frame>)
    requires TriesCounted(e.tries) && ServerOk(e) && i == Answered(e.tries) - 1
    requires ServerTry(e.tries[i].(out := out))
    ensures var e' := e.(tries := e.tries[i := e.tries[i].(out := out)]); TriesCounted(e'.tries) && ServerOk(e')
  {
    hide ServerTry;
    var e' := e.(tries := e.tries[i := e.tries[i].(out := out)]);
    assert forall k :: 0 <= k < |e.tries| ==> Settled(e'.tries[k]) == Settled(e.tries[k]);
  }

  lemma PipeReadTakes(e: End, i: int, f: Frame)
    requires e.phase.Pipe? && 0 <= i < |e.tries|
    ensures Took(e.tries, PipeRead(e, i, f).tries, i, f)
  {
  }

  /** What reading one Data or Close frame does to the try it belongs to. */
  lemma ReadingKeepsTry(e: End, f: Frame)
    requires e.tries != [] && CanPipeRead(e) && f.cmd in {Data, Close}
    requires LastOf(e).open && !HasClose(LastOf(e).inp) && LastOf(e).got == DataOf(LastOf(e).inp)
    ensures var e' := PipeRead(e, |e.tries| - 1, f);
            var t := LastOf(e');
            && t == LastOf(e).(inp := t.inp, got := t.got) && Faithful(t)
            && e'.phase.Pipe?
            && (!e'.phase.doneReading ==> !HasClose(t.inp) && t.got == DataOf(t.inp))
            && (e'.phase.doneReading && !e'.err ==> Ended(t))
  {
    var t := LastOf(e);
    DataSnoc(t.inp, f);
    NoCloseYet(t.inp);
    NoCloseYet(t.inp + [f]);
  }

  lemma ClientReadingKeepsOk(e: End, f: Frame)
    requires TriesCounted(e.tries) && ClientOk(e) && CanPipeRead(e) && f.cmd in {Data, Close}
    ensures var e' := PipeRead(e, |e.tries| - 1, f); TriesCounted(e'.tries) && ClientOk(e')
  {
    hide DataUpToClose, DataOf, HasClose, PlainFrames;
    ReadingKeepsTry(e, f);
    var e' := PipeRead(e, |e.tries| - 1, f);
    assert ClientTry(LastOf(e));
    assert ClientTry(LastOf(e'));
    assert forall i :: 0 <= i < |e.tries| - 1 ==> e'.tries[i] == e.tries[i];
  }

  lemma ServerReadingKeepsOk(e: End, f: Frame)
    requires TriesCounted(e.tries) && ServerOk(e) && CanPipeRead(e) && f.cmd in {Data, Close}
    ensures var e' := PipeRead(e, |e.tries| - 1, f); TriesCounted(e'.tries) && ServerOk(e')
  {
    hide DataUpToClose, DataOf, HasClose, PlainFrames;
    ReadingKeepsTry(e, f);
    var e' := PipeRead(e, |e.tries| - 1, f);
    assert ServerTry(LastOf(e));
    assert ServerTry(LastOf(e'));
    assert forall i :: 0 <= i < |e.tries| - 1 ==> e'.tries[i] == e.tries[i];
  }

  /** A channel that is given up keeps the frame it read in its records. */
  lemma GivingUpKeepsOk(e: End, i: int, f: Frame, err: bool)
    requires TriesCounted(e.tries) && 0 <= i < |e.tries| && f.cmd in {Data, Close}
    ensures var e' := e.(phase := Gone, err := err, tries := AddInp(e.tries, i, f));
            && TriesCounted(e'.tries)
            && (ClientOk(e) && i < |e.tries| - 1 ==> ClientOk(e'))
            && (ServerOk(e) && e.phase.Idle? && i == |e.tries| - 1 ==> ServerOk(e'))
  {
    var e' := e.(phase := Gone, err := err, tries := AddInp(e.tries, i, f));
    if ClientOk(e) && i < |e.tries| - 1 {
      assert ClientTry(e.tries[i]) && Parted(e.tries[i]);
      GrowKeepsTry(e.tries[i], f);
      assert ClientTry(e'.tries[i]);
    }
    if ServerOk(e) && e.phase.Idle? && i == |e.tries| - 1 {
      assert ServerTry(e.tries[i]);
      GrowKeepsTry(e.tries[i], f);
      assert ServerTry(e'.tries[i]);
    }
  }

  // ---------- every step keeps the invariant ----------

  lemma ClientSendKeepsInv(st: State, f: Frame)
    requires Inv(st) && (f.cmd == Close || (f.cmd == Data && CanWrite(st.c)))
    ensures Inv(ClientSend(st, f))
  {
    hide ForwardWire, BackwardWire, ServerOk;
    ClientSendKeepsWires(st, f);
    ClientSendKeepsOk(st.c, f);
  }

  lemma SentCloseIsOk(e: End)
    requires TriesCounted(e.tries) && ClientOk(e) && CanWrite(e) && (e.err || HasClose(LastOf(e).out))
    ensures ClientOk(e.(phase := e.phase.(sentClose := true)))
  {
  }

  lemma ClientCloseKeepsInv(st: State)
    requires Inv(st) && CanWrite(st.c)
    ensures Inv(Apply(st, ClientClose))
  {
    hide ForwardWire, BackwardWire, ServerOk, ClientOk, HasClose;
    var st1 := st.(c := st.c.(phase := st.c.phase.(sentClose := true)));
    PhaseKeepsWires(st, st1);
    if st.c.err {
      SentCloseIsOk(st.c);
    } else {
      ClientSendKeepsWires(st1, CLOSE_FRAME);
      ClientSendKeepsOk(st.c, CLOSE_FRAME);
      SentCloseIsOk(ClientSend(st, CLOSE_FRAME).c);
    }
  }

  lemma ServerSendKeepsInv(st: State, f: Frame)
    requires Inv(st) && (f.cmd == Close || (f.cmd == Data && CanWrite(st.s)))
    ensures Inv(ServerSend(st, f))
  {
    hide ForwardWire, BackwardWire, ClientOk;
    ServerSendKeepsWires(st, f);
    ServerSendKeepsOk(st.s, f);
  }

  lemma ServerCloseKeepsInv(st: State)
    requires Inv(st) && CanWrite(st.s)
    ensures Inv(Apply(st, ServerClose))
  {
    hide ForwardWire, BackwardWire, ClientOk;
    var st1 := st.(s := st.s.(phase := st.s.phase.(sentClose := true)));
    PhaseKeepsWires(st, st1);
    if !st.s.err {
      ServerSendKeepsWires(st1, CLOSE_FRAME);
      ServerSendKeepsOk(st1.s, CLOSE_FRAME);
    }
  }

  lemma ClientPhasesKeepInv(st: State, a: Action)
    requires Inv(st) && (a.ClientDone? || a.ClientFail?)
    ensures Inv(Apply(st, a))
  {
    hide ForwardWire, BackwardWire, ServerOk;
    PhaseKeepsWires(st, Apply(st, a));
    assert ClientTry(LastOf(st.c));
  }

  lemma ServerPhasesKeepInv(st: State, a: Action)
    requires Inv(st) && (a.ServerDone? || a.ServerFail? || a.ServerMark?)
    ensures Inv(Apply(st, a))
  {
    hide ForwardWire, BackwardWire, ClientOk;
    PhaseKeepsWires(st, Apply(st, a));
    assert ServerTry(LastOf(st.s));
  }

  lemma DialKeepsInv(st: State, target: string)
    requires Inv(st)
    ensures Inv(DialStep(st, target))
  {
    hide ForwardWire, BackwardWire, ServerOk;
    if st.c.phase.Idle? {
      DialKeepsWires(st, target);
      var c, c' := st.c.tries, DialStep(st, target).c.tries;
      assert forall i :: 0 <= i < |c| ==> c'[i] == c[i];
      assert ClientTry(c'[|c|]);
    }
  }

  lemma AnswerKeepsInv(st: State, message: string, accept: bool)
    requires Inv(st) && (accept ==> message == "ok")
    ensures Inv(AnswerStep(st, message, accept))
  {
    hide ForwardWire, BackwardWire, ClientOk;
    if st.s.phase.Busy? {
      AnswerKeepsWires(st, message, accept);
      var s, s' := st.s.tries, AnswerStep(st, message, accept).s.tries;
      assert forall i :: 0 <= i < |s| - 1 ==> s'[i] == s[i];
      assert ServerTry(s[|s| - 1]);
      assert ServerTry(s'[|s| - 1]);
    }
  }

  lemma ServerTryPlain(e: End, i: nat)
    requires TriesCounted(e.tries) && ServerOk(e) && i < |e.tries|
    ensures PlainFrames(e.tries[i].out)
  {
    assert ServerTry(e.tries[i]);
  }

  lemma ClientTryPlain(e: End, i: nat)
    requires TriesCounted(e.tries) && ClientOk(e) && i < |e.tries|
    ensures PlainFrames(e.tries[i].out)
  {
    assert ClientTry(e.tries[i]);
  }

  lemma AwaitKeepsInv(st: State)
    requires Inv(st) && st.c.phase.Busy? && st.s2c != []
    ensures Inv(AwaitStep(st))
  {
    hide ForwardWire, BackwardWire, ServerOk;
    var i := Answered(st.c.tries) - 1;
    BackwardPrefix(st, i);
    ServerTryPlain(st.s, i);
    BackwardHead(st);
    if st.s2c[0].cmd == Back {
      AwaitFineKeepsInv(st);
    } else {
      AwaitErrorKeepsInv(st);
    }
  }

  /** What giving up after a Data or a Close frame in place of an answer amounts to. */
  function GiveUp(st: State, i: int): State
    requires st.s2c != [] && 0 <= i < |st.c.tries|
  {
    var f := st.s2c[0];
    st.(c := st.c.(phase := Gone, err := f.cmd != Close, tries := AddInp(st.c.tries, i, f)), s2c := st.s2c[1..])
  }

  lemma AwaitErrorIs(st: State)
    requires Counted(st) && st.c.phase.Busy? && st.s2c != [] && st.s2c[0].cmd in {Data, Close}
    requires st.c.inUse == "" && !st.c.err
    ensures var st1 := GiveUp(st, Answered(st.c.tries) - 1);
            AwaitStep(st) == if st.s2c[0].cmd == Close then ClientSend(st1, CLOSE_FRAME) else st1
  {
  }

  lemma BusyClient(st: State)
    requires Inv(st) && st.c.phase.Busy?
    ensures Counted(st) && st.c.inUse == "" && !st.c.err && Answered(st.c.tries) == |st.c.tries| - 1
  {
    hide ForwardWire, BackwardWire, ServerOk, ClientTry, Parted;
  }

  lemma GiveUpKeepsInv(st: State)
    requires Inv(st) && st.c.phase.Busy? && st.s2c != [] && st.s2c[0].cmd in {Data, Close}
    requires st.c.tries[Answered(st.c.tries) - 1].inp != st.s.tries[Answered(st.c.tries) - 1].out
    ensures Inv(GiveUp(st, Answered(st.c.tries) - 1))
  {
    BusyClient(st);
    hide ForwardWire, BackwardWire, ServerOk, ClientOk;
    var f, i := st.s2c[0], Answered(st.c.tries) - 1;
    ClientTakesKeepsWires(st, GiveUp(st, i).c);
    GivingUpKeepsOk(st.c, i, f, f.cmd != Close);
  }

  lemma AwaitErrorKeepsInv(st: State)
    requires Inv(st) && st.c.phase.Busy? && st.s2c != [] && st.s2c[0].cmd in {Data, Close}
    requires st.c.tries[Answered(st.c.tries) - 1].inp != st.s.tries[Answered(st.c.tries) - 1].out
    ensures Inv(AwaitStep(st))
  {
    BusyClient(st);
    hide Inv, AwaitStep, GiveUp, ClientSend;
    AwaitErrorIs(st);
    GiveUpKeepsInv(st);
    if st.s2c[0].cmd == Close {
      ClientSendKeepsInv(GiveUp(st, Answered(st.c.tries) - 1), CLOSE_FRAME);
    }
  }

  lemma AwaitFineKeepsInv(st: State)
    requires Inv(st) && st.c.phase.Busy? && st.s2c != [] && st.s2c[0].cmd == Back
    requires PlainFrames(st.s.tries[Answered(st.c.tries) - 1].out)
    ensures Inv(AwaitStep(st))
  {
    hide ForwardWire, BackwardWire, ServerOk;
    AwaitKeepsWires(st);
    var c, c' := st.c.tries, AwaitStep(st).c.tries;
    assert forall i :: 0 <= i < |c| - 1 ==> c'[i] == c[i];
    assert ClientTry(LastOf(st.c));
    assert ClientTry(c'[|c| - 1]);
  }

  lemma ClientReadKeepsInv(st: State)
    requires Inv(st)
    ensures Inv(ClientReadStep(st))
  {
    hide Inv, AwaitStep, PipeRead;
    assert Counted(st) by { InvCounts(st); }
    if st.s2c != [] && st.c.phase.Busy? {
      AwaitKeepsInv(st);
    } else if st.s2c != [] && CanPipeRead(st.c) {
      ClientPipeReadKeepsInv(st);
    }
  }

  lemma InvCounts(st: State)
    requires Inv(st)
    ensures Counted(st)
  {
  }

  lemma ClientPipeReadKeepsInv(st: State)
    requires Inv(st) && st.s2c != [] && CanPipeRead(st.c)
    ensures Inv(st.(c := PipeRead(st.c, |st.c.tries| - 1, st.s2c[0]), s2c := st.s2c[1..]))
  {
    hide ForwardWire, BackwardWire, ServerOk, ClientOk, PipeRead;
    var i, f := |st.c.tries| - 1, st.s2c[0];
    PipingClient(st);
    BackwardPrefix(st, i);
    ForwardPrefix(st, 0);
    ServerTryPlain(st.s, i);
    BackwardHead(st);
    ClientReadingKeepsOk(st.c, f);
    PipeReadTakes(st.c, i, f);
    ClientTakesKeepsWires(st, PipeRead(st.c, i, f));
  }

  lemma PipingClient(st: State)
    requires Inv(st) && st.c.phase.Pipe?
    ensures Answered(st.c.tries) == |st.c.tries|
  {
    hide ForwardWire, BackwardWire, ServerOk;
    assert ClientTry(LastOf(st.c));
  }

  lemma ServerReadKeepsInv(st: State)
    requires Inv(st)
    ensures Inv(ServerReadStep(st))
  {
    InvCounts(st);
    hide Inv, PipeRead;
    if st.c2s != [] && CanPipeRead(st.s) {
      ServerPipeReadKeepsInv(st);
    } else if st.c2s != [] && st.s.phase.Idle? {
      if st.c2s[0].cmd == Dial {
        AcceptDialKeepsInv(st);
      } else {
        ServerGivesUpKeepsInv(st);
      }
    }
  }

  lemma ServerFindsNext(st: State)
    requires Inv(st) && st.c2s != []
    ensures Counted(st)
    ensures var m, f := |st.s.tries|, st.c2s[0];
            && m <= |st.c.tries|
            && if st.s.tries[m - 1].inp != st.c.tries[m - 1].out then f.cmd in {Data, Close}
               else f.cmd == Dial && |st.c.tries| == m + 1
  {
    hide ForwardWire, BackwardWire, ClientOk, ServerOk;
    ForwardPrefix(st, |st.s.tries| - 1);
    ClientTryPlain(st.c, |st.s.tries| - 1);
    ForwardHead(st);
  }

  lemma ServerPipeReadKeepsInv(st: State)
    requires Inv(st) && st.c2s != [] && CanPipeRead(st.s)
    ensures Inv(st.(s := PipeRead(st.s, |st.s.tries| - 1, st.c2s[0]), c2s := st.c2s[1..]))
  {
    hide ForwardWire, BackwardWire, ClientOk, ServerOk, PipeRead;
    ServerFindsNext(st);
    PipingServerIsNotDialed(st);
    ServerReadingKeepsOk(st.s, st.c2s[0]);
    PipeReadTakes(st.s, |st.s.tries| - 1, st.c2s[0]);
    ServerTakesKeepsWires(st, PipeRead(st.s, |st.s.tries| - 1, st.c2s[0]));
  }

  /** An idle server that reads anything but a Dial gives the channel up. */
  lemma ServerGivesUpKeepsInv(st: State)
    requires Inv(st) && st.c2s != [] && st.s.phase.Idle? && st.c2s[0].cmd != Dial
    ensures var e' := st.s.(phase := Gone, err := true, tries := AddInp(st.s.tries, |st.s.tries| - 1, st.c2s[0]));
            Inv(st.(s := e', c2s := st.c2s[1..]))
  {
    hide ForwardWire, BackwardWire, ClientOk, ServerOk;
    var i, f := |st.s.tries| - 1, st.c2s[0];
    ServerFindsNext(st);
    ServerTakesKeepsWires(st, st.s.(phase := Gone, err := true, tries := AddInp(st.s.tries, i, f)));
    GivingUpKeepsOk(st.s, i, f, true);
  }

  /** The client does not dial again before its session has sent a Close: while the server is still
      reading a session, no Dial is next on its wire. */
  lemma PipingServerIsNotDialed(st: State)
    requires Inv(st) && CanPipeRead(st.s)
    ensures |st.c.tries| == |st.s.tries| + 1 ==>
              st.s.tries[|st.s.tries| - 1].inp != st.c.tries[|st.s.tries| - 1].out
  {
    hide ForwardWire, BackwardWire;
    var i := |st.s.tries| - 1;
    assert ServerTry(st.s.tries[i]);
    if |st.c.tries| == i + 2 {
      BackwardPrefix(st, i);
      assert ClientTry(st.c.tries[i]);
      assert HasClose(st.c.tries[i].out);
    }
  }

  lemma AcceptDialKeepsInv(st: State)
    requires Inv(st) && st.s.phase.Idle? && st.c2s != [] && st.c2s[0].cmd == Dial
    ensures Inv(ServerReadStep(st))
  {
    hide ForwardWire, BackwardWire, ClientOk;
    ForwardPrefix(st, |st.s.tries| - 1);
    ClientTryPlain(st.c, |st.s.tries| - 1);
    AcceptDialKeepsWires(st);
    NewTryIsOk(st.s, st.c2s[0].payload);
  }

  lemma NewTryIsOk(e: End, target: string)
    requires TriesCounted(e.tries) && ServerOk(e) && e.phase.Idle?
    ensures var e' := e.(phase := Busy, tries := e.tries + [Try(target, None, false, [], [], [])]);
            TriesCounted(e'.tries) && ServerOk(e')
  {
    var s' := e.tries + [Try(target, None, false, [], [], [])];
    assert forall i :: 0 <= i < |e.tries| ==> s'[i] == e.tries[i];
    assert ServerTry(s'[|e.tries|]);
  }

  lemma StartInv()
    ensures Inv(Start)
  {
    assert ClientTry(NoTry) && ServerTry(NoTry);
  }

  predicate OfClient(a: Action) {
    || a.ClientDial? || a.ClientRead? || a.ClientData? || a.ClientClose? || a.ClientDone?
    || a.ClientStray? || a.ClientFail?
  }

  lemma OtherEndUnmoved(st: State, a: Action)
    requires Counted(st)
    ensures if OfClient(a) then Apply(st, a).s == st.s else Apply(st, a).c == st.c
  {
  }

  /** A step of one end puts frames behind those already on their way to the other. */
  lemma WireOnlyGrows(st: State, a: Action)
    requires Counted(st)
    ensures if OfClient(a) then st.c2s <= Apply(st, a).c2s else st.s2c <= Apply(st, a).s2c
  {
  }

  lemma ClientKeepsInv(st: State, a: Action)
    requires Inv(st) && OfClient(a)
    ensures Inv(Apply(st, a))
  {
    hide Wired, ClientOk, ServerOk, DialStep, ClientReadStep, ClientSend;
    match a
    case ClientDial(target) => DialKeepsInv(st, target);
    case ClientRead => ClientReadKeepsInv(st);
    case ClientData(payload) => if CanWrite(st.c) { ClientSendKeepsInv(st, Frame(Data, payload)); }
    case ClientClose => if CanWrite(st.c) { ClientCloseKeepsInv(st); }
    case ClientStray => ClientSendKeepsInv(st, CLOSE_FRAME);
    case _ => ClientPhasesKeepInv(st, a);
  }

  lemma ServerKeepsInv(st: State, a: Action)
    requires Inv(st) && !OfClient(a)
    ensures Inv(Apply(st, a))
  {
    hide Wired, ClientOk, ServerOk, ServerReadStep, AnswerStep, ServerSend;
    match a
    case ServerRead => ServerReadKeepsInv(st);
    case ServerRefuse(message) => AnswerKeepsInv(st, message, false);
    case ServerAccept => AnswerKeepsInv(st, "ok", true);
    case ServerData(payload) => if CanWrite(st.s) { ServerSendKeepsInv(st, Frame(Data, payload)); }
    case ServerClose => if CanWrite(st.s) { ServerCloseKeepsInv(st); }
    case ServerStray => ServerSendKeepsInv(st, CLOSE_FRAME);
    case _ => ServerPhasesKeepInv(st, a);
  }

  /** Every step of either end keeps the invariant. */
  lemma ApplyKeepsInv(st: State, a: Action)
    requires Inv(st)
    ensures Inv(Apply(st, a))
  {
    hide Inv, Apply;
    if OfClient(a) {
      ClientKeepsInv(st, a);
    } else {
      ServerKeepsInv(st, a);
    }
  }
}
