/** Session isolation, over every run of a channel. */
module SessionIsolation {
  import opened Channel
  import opened OptionType
  import opened Session
  import opened SessionWires
  import opened SessionSteps

  /** `st'` is what one action makes of `st`. */
  ghost predicate Steps(st: State, a: Action, st': State) {
    Counted(st) && st' == Apply(st, a)
  }

  /** A run: the states a list of actions leads through. */
  ghost predicate IsRun(states: seq<State>, actions: seq<Action>) {
    && |states| == |actions| + 1
    && states[0] == Start
    && forall i {:trigger actions[i]} :: 0 <= i < |actions| ==> Steps(states[i], actions[i], states[i + 1])
  }

  lemma {:induction false} RunKeepsInv(states: seq<State>, actions: seq<Action>, i: nat)
    requires IsRun(states, actions) && i < |states|
    ensures Inv(states[i])
  {
    hide Inv, Apply;
    if i == 0 {
      StartInv();
    } else {
      RunKeepsInv(states, actions, i - 1);
      assert Steps(states[i - 1], actions[i - 1], states[i]);
      ApplyKeepsInv(states[i - 1], actions[i - 1]);
    }
  }

  /** Every list of actions has a run. */
  lemma {:induction false} RunExists(actions: seq<Action>) returns (states: seq<State>)
    ensures IsRun(states, actions)
  {
    hide Inv, Apply;
    if actions == [] {
      states := [Start];
    } else {
      var n := |actions| - 1;
      var before := RunExists(actions[..n]);
      RunKeepsInv(before, actions[..n], n);
      InvCounts(before[n]);
      states := before + [Apply(before[n], actions[n])];
      forall i {:trigger actions[i]} | 0 <= i < |actions|
        ensures Steps(states[i], actions[i], states[i + 1])
      {
        if i < n {
          assert actions[..n][i] == actions[i];
        }
      }
    }
  }

  // ---------- session isolation ----------

  /** The tries that became sessions, in order. */
  function Sessions(tries: seq<Try>): (r: seq<nat>)
    ensures forall j :: 0 <= j < |r| ==> r[j] < |tries| && tries[r[j]].open
  {
    if tries == [] then []
    else
      var k := |tries| - 1;
      Sessions(tries[..k]) + if tries[k].open then [k] else []
  }

  lemma {:induction false} SameOpenSameSessions(s: seq<Try>, c: seq<Try>)
    requires |s| == |c| && forall i :: 0 <= i < |s| ==> (s[i].open <==> c[i].open)
    ensures Sessions(s) == Sessions(c)
  {
    if s != [] {
      SameOpenSameSessions(s[..|s| - 1], c[..|c| - 1]);
    }
  }

  /** Both ends agree on which dials became sessions, but for the last one the server took: its answer
      may still be unread, and a refusal that says "ok" passes for an acceptance until the server has
      read on. */
  lemma EndsAgree(st: State, i: nat)
    requires Inv(st) && i < |st.s.tries|
    ensures i < |st.c.tries|
    ensures var s, c := st.s.tries[i], st.c.tries[i];
            && (s.open && !c.open ==> i == |st.s.tries| - 1 && c.ans.None?)
            && (c.open && !s.open ==> i == |st.s.tries| - 1 && s.ans == Some("ok"))
  {
    hide ForwardWire, BackwardWire;
    ForwardPrefix(st, i);
    var s, c := st.s.tries[i], st.c.tries[i];
    assert ServerTry(s) && ClientTry(c);
    if i < |st.c.tries| - 1 || c.ans.Some? {
      BackwardPrefix(st, i);
    }
    if i < |st.s.tries| - 1 {
      assert Settled(s) && Parted(c);
    }
  }

  /** `t` got what `peer` wrote before its first Close: in order, from its start, and all of it once
      `t` has read a Close. */
  ghost predicate GotFrom(t: Try, peer: Try) {
    t.got <= DataUpToClose(peer.out) && (t.open && HasClose(t.inp) ==> t.got == DataUpToClose(peer.out))
  }

  lemma ServerGets(st: State, i: nat)
    requires Inv(st) && i < |st.s.tries|
    ensures i < |st.c.tries| && st.s.tries[i].target == st.c.tries[i].target
    ensures GotFrom(st.s.tries[i], st.c.tries[i])
    ensures !st.c.tries[i].open ==> st.s.tries[i].got == []
  {
    hide ForwardWire, BackwardWire;
    ForwardPrefix(st, i);
    var s, c := st.s.tries[i], st.c.tries[i];
    assert ServerTry(s) && ClientTry(c);
    DataGrows(s.inp, c.out);
    NoCloseYet(c.out);
  }

  lemma ClientGets(st: State, i: nat)
    requires Inv(st) && i < |st.s.tries| && i < |st.c.tries|
    ensures GotFrom(st.c.tries[i], st.s.tries[i])
    ensures !st.s.tries[i].open ==> st.c.tries[i].got == []
  {
    hide ForwardWire, BackwardWire;
    var s, c := st.s.tries[i], st.c.tries[i];
    assert ServerTry(s) && ClientTry(c);
    NoCloseYet(s.out);
    if i < Answered(st.c.tries) {
      BackwardPrefix(st, i);
      DataGrows(c.inp, s.out);
    } else {
      assert !c.open;
    }
  }

  /** The two ends of one session. */
  ghost predicate Paired(u: Try, v: Try) {
    u.target == v.target && GotFrom(u, v) && GotFrom(v, u)
  }

  /** The j-th session at either end, while both have one, is the same dial, and each end got only what
      the other wrote in it. A session that only one end has yet carries nothing. */
  ghost predicate Isolated(st: State) {
    SessionsPaired(st.s.tries, Sessions(st.s.tries), st.c.tries, Sessions(st.c.tries))
  }

  ghost predicate SessionsPaired(us: seq<Try>, s: seq<nat>, vs: seq<Try>, c: seq<nat>)
    requires (forall j :: 0 <= j < |s| ==> s[j] < |us|) && (forall j :: 0 <= j < |c| ==> c[j] < |vs|)
  {
    && (forall j :: 0 <= j < |s| && j < |c| ==> Paired(us[s[j]], vs[c[j]]))
    && (forall j :: |c| <= j < |s| ==> us[s[j]].got == [])
    && (forall j :: |s| <= j < |c| ==> vs[c[j]].got == [])
  }

  /** Both ends have the same sessions before the server's last dial, and at most one each from there. */
  lemma SessionsAgree(st: State) returns (common: seq<nat>)
    requires Inv(st)
    ensures var k := |st.s.tries| - 1;
            && (forall j :: 0 <= j < |common| ==> common[j] < |st.s.tries|)
            && Sessions(st.s.tries) == WithLast(common, st.s.tries, k)
            && Sessions(st.c.tries) == WithLast(common, st.c.tries, k)
  {
    hide ForwardWire, BackwardWire, ServerOk;
    var c, s, k := st.c.tries, st.s.tries, |st.s.tries| - 1;
    ForwardPrefix(st, 0);
    forall i | 0 <= i < k
      ensures s[i].open <==> c[i].open
    {
      EndsAgree(st, i);
    }
    SameOpenSameSessions(s[..k], c[..k]);
    common := Sessions(s[..k]);
    if |c| == k + 2 {
      NotYetOpen(st);
      assert c[..k + 1][..k] == c[..k];
    }
  }

  lemma NotYetOpen(st: State)
    requires Inv(st) && |st.c.tries| == |st.s.tries| + 1
    ensures !st.c.tries[|st.s.tries|].open
  {
    var k := |st.s.tries|;
    assert ClientTry(st.c.tries[k]);
    assert Answered(st.c.tries) <= k by { hide ForwardWire, ClientOk, ServerOk; }
  }

  lemma DialIsPaired(st: State, i: nat)
    requires Inv(st) && i < |st.s.tries|
    ensures i < |st.c.tries| && Paired(st.s.tries[i], st.c.tries[i])
    ensures !st.c.tries[i].open ==> st.s.tries[i].got == []
    ensures !st.s.tries[i].open ==> st.c.tries[i].got == []
  {
    hide Inv, GotFrom;
    ServerGets(st, i);
    ClientGets(st, i);
  }

  function WithLast(common: seq<nat>, tries: seq<Try>, k: nat): seq<nat>
    requires k < |tries|
  {
    common + if tries[k].open then [k] else []
  }

  lemma SessionsPairUp(us: seq<Try>, vs: seq<Try>, common: seq<nat>, k: nat)
    requires k + 1 == |us| <= |vs| && forall i :: 0 <= i < |us| ==> Paired(us[i], vs[i])
    requires forall j :: 0 <= j < |common| ==> common[j] < |us|
    requires (!vs[k].open ==> us[k].got == []) && (!us[k].open ==> vs[k].got == [])
    ensures SessionsPaired(us, WithLast(common, us, k), vs, WithLast(common, vs, k))
  {
    hide Paired;
  }

  lemma InvIsolates(st: State)
    requires Inv(st)
    ensures Isolated(st)
  {
    assert |st.s.tries| >= 1;
    hide Inv, Paired, SessionsPaired;
    var common := SessionsAgree(st);
    var us, vs, k := st.s.tries, st.c.tries, |st.s.tries| - 1;
    DialIsPaired(st, k);
    forall i | 0 <= i < |us|
      ensures Paired(us[i], vs[i])
    {
      DialIsPaired(st, i);
    }
    SessionsPairUp(us, vs, common, k);
  }

  /** Session isolation, over every run. */
  lemma EveryRunIsIsolated(states: seq<State>, actions: seq<Action>, i: nat)
    requires IsRun(states, actions) && i < |states|
    ensures Isolated(states[i])
  {
    hide Inv;
    RunKeepsInv(states, actions, i);
    InvIsolates(states[i]);
  }
}
