/** What the steps of a session do to the two wires: frames are read in the order, and in the try,
    they were written in. */
module SessionWires {
  import opened Channel
  import opened OptionType
  import opened Session

  // ---------- frames and payloads ----------

  lemma DataSnoc(fs: seq<Frame>, f: Frame)
    ensures DataOf(fs + [f]) == DataOf(fs) + if f.cmd == Data then [f.payload] else []
    ensures HasClose(fs + [f]) <==> HasClose(fs) || f.cmd == Close
    ensures DataUpToClose(fs + [f]) == if HasClose(fs) then DataUpToClose(fs) else DataOf(fs + [f])
  {
    assert (fs + [f])[..|fs|] == fs;
  }

  lemma {:induction false} NoCloseYet(fs: seq<Frame>)
    ensures !HasClose(fs) ==> DataUpToClose(fs) == DataOf(fs)
    ensures DataUpToClose(fs) <= DataOf(fs)
  {
    if fs != [] {
      var front := fs[..|fs| - 1];
      NoCloseYet(front);
      assert fs == front + [fs[|fs| - 1]];
      DataSnoc(front, fs[|fs| - 1]);
    }
  }

  /** More frames never take payloads back, and none are added after a Close. */
  lemma {:induction false} DataGrows(p: seq<Frame>, fs: seq<Frame>)
    requires p <= fs
    ensures DataUpToClose(p) <= DataUpToClose(fs) && DataOf(p) <= DataOf(fs)
    ensures HasClose(p) ==> DataUpToClose(p) == DataUpToClose(fs)
    decreases |fs|
  {
    if p != fs {
      var front := fs[..|fs| - 1];
      assert fs == front + [fs[|fs| - 1]];
      DataGrows(p, front);
      DataSnoc(front, fs[|fs| - 1]);
      NoCloseYet(p);
      NoCloseYet(front);
    }
  }

  // ---------- each kind of step keeps the wires ----------

  /** Only the frames and targets matter to the forward wire. */
  lemma ForwardFrame(st: State, st': State)
    requires Counted(st) && Counted(st') && ForwardWire(st) && st'.c2s == st.c2s
    requires |st'.c.tries| == |st.c.tries| && |st'.s.tries| == |st.s.tries|
    requires forall i :: 0 <= i < |st.c.tries| ==>
               st'.c.tries[i].out == st.c.tries[i].out && st'.c.tries[i].target == st.c.tries[i].target
    requires forall i :: 0 <= i < |st.s.tries| ==>
               st'.s.tries[i].inp == st.s.tries[i].inp && st'.s.tries[i].target == st.s.tries[i].target
    ensures ForwardWire(st')
  {
  }

  /** Only the frames and answers matter to the backward wire. */
  lemma BackwardFrame(st: State, st': State)
    requires Counted(st) && Counted(st') && BackwardWire(st) && st'.s2c == st.s2c
    requires Answered(st'.c.tries) == Answered(st.c.tries) && Answered(st'.s.tries) == Answered(st.s.tries)
    requires forall i :: 0 <= i < Answered(st.c.tries) ==>
               st'.c.tries[i].inp == st.c.tries[i].inp && st'.c.tries[i].ans == st.c.tries[i].ans
    requires forall i :: 0 <= i < Answered(st.s.tries) ==>
               st'.s.tries[i].out == st.s.tries[i].out && st'.s.tries[i].ans == st.s.tries[i].ans
    ensures BackwardWire(st')
  {
  }

  lemma PhaseKeepsWires(st: State, st': State)
    requires Wired(st) && st'.c.tries == st.c.tries && st'.s.tries == st.s.tries
    requires st'.c2s == st.c2s && st'.s2c == st.s2c
    ensures Wired(st')
  {
  }

  lemma ForwardPrefix(st: State, i: nat)
    requires Counted(st) && ForwardWire(st) && i < |st.s.tries|
    ensures |st.s.tries| <= |st.c.tries| <= |st.s.tries| + 1
    ensures st.s.tries[i].target == st.c.tries[i].target && st.s.tries[i].inp <= st.c.tries[i].out
    ensures i < |st.s.tries| - 1 ==> st.s.tries[i].inp == st.c.tries[i].out
  {
  }

  lemma BackwardPrefix(st: State, i: nat)
    requires Counted(st) && BackwardWire(st) && i < Answered(st.c.tries)
    ensures i < Answered(st.s.tries) <= Answered(st.c.tries) + 1
    ensures st.c.tries[i].ans == st.s.tries[i].ans && st.c.tries[i].inp <= st.s.tries[i].out
  {
  }

  lemma ClientSendKeepsWires(st: State, f: Frame)
    requires Wired(st)
    ensures Wired(ClientSend(st, f))
  {
    hide ForwardWire, BackwardWire;
    BackwardFrame(st, ClientSend(st, f));
    ClientSendForward(st, f);
  }

  lemma ClientSendForward(st: State, f: Frame)
    requires Counted(st) && ForwardWire(st)
    ensures Counted(ClientSend(st, f)) && ForwardWire(ClientSend(st, f))
  {
    var c, c' := st.c.tries, ClientSend(st, f).c.tries;
    var m := |st.s.tries|;
    var read := |st.s.tries[m - 1].inp|;
    if |c| == m {
      assert c'[m - 1].out[read..] == c[m - 1].out[read..] + [f];
    } else {
      assert c'[m - 1] == c[m - 1];
    }
  }

  lemma ServerSendKeepsWires(st: State, f: Frame)
    requires Wired(st)
    ensures Wired(ServerSend(st, f))
  {
    hide ForwardWire, BackwardWire;
    ForwardFrame(st, ServerSend(st, f));
    ServerSendBackward(st, f);
  }

  lemma ServerSendBackward(st: State, f: Frame)
    requires Counted(st) && BackwardWire(st)
    ensures Counted(ServerSend(st, f)) && BackwardWire(ServerSend(st, f))
  {
    var s, s' := st.s.tries, ServerSend(st, f).s.tries;
    var n, m := Answered(st.c.tries), Answered(s);
    var read := |st.c.tries[n - 1].inp|;
    if n == m {
      assert s'[n - 1].out[read..] == s[n - 1].out[read..] + [f];
    } else {
      assert s'[n - 1] == s[n - 1];
    }
  }

  /** `tries` with the frame `f` read as part of try `i`. */
  predicate Took(tries: seq<Try>, tries': seq<Try>, i: int, f: Frame)
    requires 0 <= i < |tries|
  {
    tries' == AddInp(tries, i, f) || tries' == AddGot(tries, i, f)
  }

  /** The client takes a frame that belongs to its last answered try. */
  lemma ClientTakesKeepsWires(st: State, c': End)
    requires Wired(st) && st.s2c != []
    requires Took(st.c.tries, c'.tries, Answered(st.c.tries) - 1, st.s2c[0])
    requires st.c.tries[Answered(st.c.tries) - 1].inp != st.s.tries[Answered(st.c.tries) - 1].out
    ensures Wired(st.(c := c', s2c := st.s2c[1..]))
  {
    hide ForwardWire, BackwardWire;
    ForwardFrame(st, st.(c := c', s2c := st.s2c[1..]));
    ClientTakesBackward(st, c');
  }

  lemma ClientTakesBackward(st: State, c': End)
    requires Counted(st) && BackwardWire(st) && st.s2c != []
    requires Took(st.c.tries, c'.tries, Answered(st.c.tries) - 1, st.s2c[0])
    requires st.c.tries[Answered(st.c.tries) - 1].inp != st.s.tries[Answered(st.c.tries) - 1].out
    ensures var st' := st.(c := c', s2c := st.s2c[1..]); Counted(st') && BackwardWire(st')
  {
    var i := Answered(st.c.tries) - 1;
    var st' := st.(c := c', s2c := st.s2c[1..]);
    hide BackwardWire;
    BackwardIs(st);
    TakeHead(st.c.tries[i].inp, st.s.tries[i].out, st.s2c);
    assert Answered(c'.tries) == i + 1;
    assert st'.s2c == st.s.tries[i].out[|c'.tries[i].inp|..] + AfterAnswered(st);
    BackwardFrom(st');
  }

  /** What is on the client's wire behind the frames of its last answered try. */
  function AfterAnswered(st: State): seq<Frame>
    requires Counted(st)
  {
    var s, n := st.s.tries, Answered(st.c.tries);
    if n < Answered(s) then [Frame(Back, s[n].ans.value)] + s[n].out else []
  }

  lemma BackwardIs(st: State)
    requires Counted(st) && BackwardWire(st)
    ensures var c, s := st.c.tries, st.s.tries;
            var n := Answered(c);
            && n <= Answered(s) <= n + 1
            && (forall i :: 0 <= i < n ==> c[i].ans == s[i].ans)
            && (forall i :: 0 <= i < n - 1 ==> c[i].inp == s[i].out)
            && c[n - 1].inp <= s[n - 1].out
            && st.s2c == s[n - 1].out[|c[n - 1].inp|..] + AfterAnswered(st)
  {
  }

  lemma BackwardFrom(st: State)
    requires Counted(st)
    requires var c, s := st.c.tries, st.s.tries;
             var n := Answered(c);
             && n <= Answered(s) <= n + 1
             && (forall i :: 0 <= i < n ==> c[i].ans == s[i].ans)
             && (forall i :: 0 <= i < n - 1 ==> c[i].inp == s[i].out)
             && c[n - 1].inp <= s[n - 1].out
             && st.s2c == s[n - 1].out[|c[n - 1].inp|..] + AfterAnswered(st)
    ensures BackwardWire(st)
  {
  }

  lemma ServerTakesKeepsWires(st: State, s': End)
    requires Wired(st) && st.c2s != []
    requires Took(st.s.tries, s'.tries, |st.s.tries| - 1, st.c2s[0])
    requires st.s.tries[|st.s.tries| - 1].inp != st.c.tries[|st.s.tries| - 1].out
    ensures Wired(st.(s := s', c2s := st.c2s[1..]))
  {
    hide ForwardWire, BackwardWire;
    BackwardFrame(st, st.(s := s', c2s := st.c2s[1..]));
    ServerTakesForward(st, s');
  }

  lemma ServerTakesForward(st: State, s': End)
    requires Counted(st) && ForwardWire(st) && st.c2s != []
    requires Took(st.s.tries, s'.tries, |st.s.tries| - 1, st.c2s[0])
    requires st.s.tries[|st.s.tries| - 1].inp != st.c.tries[|st.s.tries| - 1].out
    ensures var st' := st.(s := s', c2s := st.c2s[1..]); Counted(st') && ForwardWire(st')
  {
    var i := |st.s.tries| - 1;
    TakeHead(st.s.tries[i].inp, st.c.tries[i].out, st.c2s);
  }

  /** Taking the head of the unread rest of `out`. */
  lemma TakeHead(inp: seq<Frame>, out: seq<Frame>, wire: seq<Frame>)
    requires inp <= out && inp != out && wire != [] && out[|inp|..] <= wire
    ensures inp + [wire[0]] <= out && out[|inp|..] == [wire[0]] + out[|inp| + 1..]
    ensures wire[1..] == out[|inp| + 1..] + wire[|out| - |inp|..]
  {
    var rest := out[|inp|..];
    assert rest[0] == wire[0] && rest == wire[..|rest|];
    assert inp + [wire[0]] == out[..|inp| + 1];
    assert wire == rest + wire[|rest|..];
  }

  /** What the client finds next on its wire: a frame of its last answered try, or the next answer. */
  lemma BackwardHead(st: State)
    requires Counted(st) && BackwardWire(st) && st.s2c != []
    requires PlainFrames(st.s.tries[Answered(st.c.tries) - 1].out)
    ensures var n, f := Answered(st.c.tries), st.s2c[0];
            if st.c.tries[n - 1].inp != st.s.tries[n - 1].out then f.cmd in {Data, Close}
            else f.cmd == Back && Answered(st.s.tries) == n + 1
  {
    var n := Answered(st.c.tries);
    NextLeft(st.s.tries[n - 1].out, |st.c.tries[n - 1].inp|, st.s2c);
  }

  /** What the server finds next on its wire: a frame of its last try, or the next Dial. */
  lemma ForwardHead(st: State)
    requires Counted(st) && ForwardWire(st) && st.c2s != []
    requires PlainFrames(st.c.tries[|st.s.tries| - 1].out)
    ensures var m, f := |st.s.tries|, st.c2s[0];
            if st.s.tries[m - 1].inp != st.c.tries[m - 1].out then f.cmd in {Data, Close}
            else f.cmd == Dial && |st.c.tries| == m + 1
  {
    var m := |st.s.tries|;
    NextLeft(st.c.tries[m - 1].out, |st.s.tries[m - 1].inp|, st.c2s);
  }

  lemma DialKeepsWires(st: State, target: string)
    requires Wired(st) && st.c.phase.Idle? && Answered(st.c.tries) == |st.c.tries|
    ensures Wired(DialStep(st, target))
  {
    var st' := DialStep(st, target);
    assert |st.s.tries| == |st.c.tries|;
    assert BackwardWire(st') by { hide ForwardWire; BackwardFrame(st, st'); }
    assert ForwardWire(st') by { hide BackwardWire; }
  }

  lemma AnswerKeepsWires(st: State, message: string, accept: bool)
    requires Wired(st) && st.s.phase.Busy? && Answered(st.s.tries) == |st.s.tries| - 1
    requires st.s.tries[|st.s.tries| - 1].out == []
    ensures Wired(AnswerStep(st, message, accept))
  {
    var st' := AnswerStep(st, message, accept);
    assert Answered(st.c.tries) == Answered(st.s.tries);
    assert ForwardWire(st') by { hide BackwardWire; ForwardFrame(st, st'); }
    assert BackwardWire(st') by {
      hide ForwardWire;
      var n := Answered(st.c.tries);
      assert st'.s.tries[..n] == st.s.tries[..n];
      assert st'.s.tries[n].out == [];
    }
  }

  /** The frame the client awaits, once nothing older is left on the wire, is the server's answer. */
  lemma AwaitKeepsWires(st: State)
    requires Wired(st) && st.c.phase.Busy? && st.s2c != []
    requires Answered(st.c.tries) == |st.c.tries| - 1 && st.c.tries[|st.c.tries| - 1].inp == []
    requires PlainFrames(st.s.tries[Answered(st.c.tries) - 1].out)
    requires Classify("", st.s2c[0]) == Fine && st.c.inUse == ""
    ensures Wired(AwaitStep(st))
  {
    var c, s := st.c.tries, st.s.tries;
    var n := Answered(c);
    NextLeft(s[n - 1].out, |c[n - 1].inp|, st.s2c);
    var st' := AwaitStep(st);
    assert ForwardWire(st') by { hide BackwardWire; ForwardFrame(st, st'); }
    assert BackwardWire(st') by {
      hide ForwardWire;
      assert st.s2c == [Frame(Back, s[n].ans.value)] + s[n].out;
      assert Answered(st'.c.tries) == n + 1;
      assert c[n - 1].inp == s[n - 1].out;
    }
  }

  /** While frames of the older try are left, the next one on the wire is one of them. */
  lemma NextLeft(out: seq<Frame>, read: nat, wire: seq<Frame>)
    requires PlainFrames(out) && read <= |out| && out[read..] <= wire
    ensures read < |out| ==> wire != [] && (wire[0].cmd == Data || wire[0].cmd == Close)
  {
    if read < |out| {
      assert out[read..][0] == out[read] && out[read] in out;
    }
  }

  lemma AcceptDialForward(st: State, st': State)
    requires Counted(st) && ForwardWire(st) && Counted(st')
    requires |st.c.tries| == |st.s.tries| + 1
    requires st.s.tries[|st.s.tries| - 1].inp == st.c.tries[|st.s.tries| - 1].out
    requires st'.c == st.c && st'.c2s == st.c2s[1..]
    requires st'.s.tries == st.s.tries + [Try(st.c2s[0].payload, None, false, [], [], [])]
    ensures ForwardWire(st')
  {
    var c, m := st.c.tries, |st.s.tries|;
    assert st.c2s == [Frame(Dial, c[m].target)] + c[m].out;
  }

  /** The Dial the idle server reads, once nothing older is left on the wire, is the client's next. */
  lemma AcceptDialKeepsWires(st: State)
    requires Wired(st) && st.s.phase.Idle? && st.c2s != [] && st.s.inUse == ""
    requires Answered(st.s.tries) == |st.s.tries| && PlainFrames(st.c.tries[|st.s.tries| - 1].out)
    requires st.c2s[0].cmd == Dial
    ensures Wired(ServerReadStep(st))
  {
    hide ForwardWire, BackwardWire;
    ForwardHead(st);
    var st' := ServerReadStep(st);
    assert forall i :: 0 <= i < |st.s.tries| ==> st'.s.tries[i] == st.s.tries[i];
    BackwardFrame(st, st');
    AcceptDialForward(st, st');
  }
}
