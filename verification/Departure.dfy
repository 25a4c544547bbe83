/**
 * What becomes of a channel whose partner has left: it learns of it by a Close frame, or it stays
 * bound to nobody for ever (src/session/multiplex_handler.c:516-526, 618-641, 720-744).
 */
module Departure {
  import opened Wrappers
  import opened Endpoint
  import opened Protocol

  predicate IsCloseTo(f: Frame, a: nat) { f.ptype == CLOSE && f.local == a }

  ghost predicate Told(q: seq<Frame>, a: nat) {
    exists k :: 0 <= k < |q| && IsCloseTo(q[k], a)
  }

  /** Channel `a` is bound, or about to be bound, to one that has gone, and no Close frame is on its way to it. */
  ghost predicate Abandoned(x: Sys, a: nat) {
    exists b :: Bound(x.l, x.rl, a, b) && b !in x.r.table && !Told(x.rl, a)
  }

  // ---------------------------------------------------------------- who sends a Close frame

  /** The sender of a Close frame that will reach a channel has left. */
  ghost predicate ClosesOk(s: Peer, t: Peer, q: seq<Frame>) {
    forall k :: 0 <= k < |q| && q[k].ptype == CLOSE && q[k].local in t.table ==> q[k].remote !in s.table
  }

  ghost predicate Closes(x: Sys) {
    ClosesOk(x.l, x.r, x.lr) && ClosesOk(x.r, x.l, x.rl)
  }

  /** Traffic comes from the channel its receiver is bound to. */
  lemma TrafficIsFromPartner(s: Peer, t: Peer, q: seq<Frame>, back: seq<Frame>, k: nat)
    requires FramesOk(s, t, q, back) && k < |q| && IsTraffic(q[k]) && q[k].local in t.table
    ensures Bound(t, q, q[k].local, q[k].remote)
  {
    assert TrafficOk(s, t, q, k);
  }

  lemma NewIsUnclaimed(x: Sys, act: Act, n: nat)
    requires Enabled(x, act) && Prudent(x, act) && n in StepLeft(x, act).l.table && n !in x.l.table
    ensures Unclaimed(x, n, act.OpenAct?) && AllocOf(act) == Some(n)
  {
  }

  /** What a step sends: at most one frame, and a Close only from the channel that it removes. */
  lemma SentClose(x: Sys, act: Act, k: nat)
    requires Enabled(x, act) && k < |Effect(x, act).sent| && Effect(x, act).sent[k].ptype == CLOSE
    ensures act.CloseAct? && act.sendOk && act.id in x.l.table && act.id !in StepLeft(x, act).l.table
    ensures Effect(x, act).sent[k] == Frame(CLOSE, 0, x.l.table[act.id].remote, act.id, []) && x.l.table[act.id].remote != 0
  {
  }

  lemma ClosesOut(x: Sys, act: Act)
    requires Inv(x) && Closes(x) && Enabled(x, act) && Prudent(x, act)
    ensures ClosesOk(StepLeft(x, act).l, x.r, StepLeft(x, act).lr)
  {
    var y := StepLeft(x, act);
    forall k | 0 <= k < |y.lr| && y.lr[k].ptype == CLOSE && y.lr[k].local in x.r.table ensures y.lr[k].remote !in y.l.table {
      if k < |x.lr| {
        assert y.lr[k] == x.lr[k];
        if y.lr[k].remote in y.l.table {
          NewIsUnclaimed(x, act, y.lr[k].remote);
          TrafficIsFromPartner(x.l, x.r, x.lr, x.rl, k);
          UnclaimedUnbound(x, y.lr[k].remote, act.OpenAct?, y.lr[k].local);
        }
      } else {
        SentClose(x, act, k - |x.lr|);
      }
    }
  }

  lemma ClosesIn(x: Sys, act: Act)
    requires Closes(x) && Enabled(x, act) && Prudent(x, act)
    ensures ClosesOk(x.r, StepLeft(x, act).l, StepLeft(x, act).rl)
  {
    var y := StepLeft(x, act);
    forall k | 0 <= k < |y.rl| && y.rl[k].ptype == CLOSE && y.rl[k].local in y.l.table ensures y.rl[k].remote !in x.r.table {
      var j := if act.ReceiveAct? then k + 1 else k;
      assert y.rl[k] == x.rl[j];
      if y.rl[k].local !in x.l.table {
        NewIsUnclaimed(x, act, y.rl[k].local);
        assert Concerns(x.rl[j], y.rl[k].local, act.OpenAct?);
      }
    }
  }

  lemma ClosesStep(x: Sys, y: Sys)
    requires Inv(x) && Closes(x) && Step(x, y, true)
    ensures Closes(y)
  {
    if act :| Enabled(x, act) && Prudent(x, act) && y == StepLeft(x, act) {
      ClosesOut(x, act);
      ClosesIn(x, act);
    } else {
      var act :| Enabled(Swap(x), act) && Prudent(Swap(x), act) && Swap(y) == StepLeft(Swap(x), act);
      ClosesOut(Swap(x), act);
      ClosesIn(Swap(x), act);
    }
  }

  lemma {:induction false} ClosesRun(xs: seq<Sys>, i: nat)
    requires Run(xs, true) && i < |xs|
    ensures Inv(xs[i]) && Closes(xs[i])
    decreases i
  {
    if i > 0 {
      ClosesRun(xs, i - 1);
      assert Step(xs[i - 1], xs[i], true);
      ClosesStep(xs[i - 1], xs[i]);
      InvStep(xs[i - 1], xs[i]);
    }
  }

  // ---------------------------------------------------------------- a step of the channel's own end

  /** The channel is accepted although its opener has gone. */
  predicate AcceptsLate(x: Sys, act: Act, a: nat)
    requires Enabled(x, act)
  {
    a !in x.l.table && act.ReceiveAct? && x.rl[0].ptype == OPEN && x.rl[0].remote !in x.r.table
  }

  lemma ConfirmedStays(x: Sys, act: Act, a: nat, b: nat)
    requires Inv(x) && Enabled(x, act) && act.ReceiveAct? && a in StepLeft(x, act).l.table
    requires x.rl[0].ptype == CONFIRMATION && x.rl[0].local == a && IsWaiting(x.l, a)
    ensures Bound(StepLeft(x, act).l, StepLeft(x, act).rl, a, b) <==> Bound(x.l, x.rl, a, b)
  {
    assert x.rl[0].remote != 0;
    ConfirmBindings(x);
    assert StepLeft(x, act).l.table == Confirmed(x.l, x.rl[0]).table;
  }

  /** What a channel that stays is bound to does not change. */
  lemma BoundStays(x: Sys, act: Act, a: nat, b: nat)
    requires Inv(x) && Enabled(x, act) && a in x.l.table && a in StepLeft(x, act).l.table
    ensures Bound(StepLeft(x, act).l, StepLeft(x, act).rl, a, b) <==> Bound(x.l, x.rl, a, b)
  {
    if act.ReceiveAct? && x.rl[0].ptype == CONFIRMATION && x.rl[0].local == a && IsWaiting(x.l, a) {
      ConfirmedStays(x, act, a, b);
    } else {
      EntryStays(x, act, a);
      if act.ReceiveAct? {
        ConfirmedPop(x.rl, a, b);
        assert IsWaiting(x.l, a) ==> !IsConfirmation(x.rl[0], a, b);
      }
    }
  }

  lemma ToldStays(x: Sys, act: Act, a: nat)
    requires Enabled(x, act) && a in x.l.table && a in StepLeft(x, act).l.table
    ensures Told(StepLeft(x, act).rl, a) <==> Told(x.rl, a)
  {
    var y := StepLeft(x, act);
    var d := if act.ReceiveAct? then 1 else 0;
    if k :| 0 <= k < |x.rl| && IsCloseTo(x.rl[k], a) {
      assert k >= d && y.rl[k - d] == x.rl[k];
    }
    if k :| 0 <= k < |y.rl| && IsCloseTo(y.rl[k], a) {
      assert x.rl[k + d] == y.rl[k];
    }
  }

  /** A channel that is new is abandoned iff it was accepted for one that has gone. */
  lemma NewIsAbandonedIff(x: Sys, act: Act, a: nat)
    requires Inv(x) && Enabled(x, act) && Prudent(x, act) && a !in x.l.table && a in StepLeft(x, act).l.table
    ensures Abandoned(StepLeft(x, act), a) <==> AcceptsLate(x, act, a)
  {
    var y := StepLeft(x, act);
    NewIsUnclaimed(x, act, a);
    assert forall k :: 0 <= k < |y.rl| ==> y.rl[k] == x.rl[if act.ReceiveAct? then k + 1 else k];
    assert !Told(y.rl, a);
    if act.ReceiveAct? {
      assert OpenOk(x.r, x.l, x.rl, x.lr, 0);
      assert Bound(y.l, y.rl, a, x.rl[0].remote);
    } else {
      assert forall b :: !ConfirmedBefore(y.rl, |y.rl|, a, b);
    }
  }

  lemma OwnStepIff(x: Sys, act: Act, a: nat)
    requires Inv(x) && Enabled(x, act) && Prudent(x, act) && a in StepLeft(x, act).l.table
    ensures Abandoned(StepLeft(x, act), a) <==> Abandoned(x, a) || AcceptsLate(x, act, a)
  {
    if a in x.l.table {
      ToldStays(x, act, a);
      forall b ensures Bound(StepLeft(x, act).l, StepLeft(x, act).rl, a, b) <==> Bound(x.l, x.rl, a, b) {
        BoundStays(x, act, a, b);
      }
    } else {
      NewIsAbandonedIff(x, act, a);
    }
  }

  // ---------------------------------------------------------------- a step of the partner's end

  /** How a channel leaves without a word: with all others, by refusing data, or when no Close frame can be sent. */
  predicate Silently(x: Sys, act: Act, b: nat)
    requires Enabled(x, act)
  {
    || act.CloseAllAct?
    || (act.ReceiveAct? && x.rl[0].ptype == DATA && x.rl[0].local == b && !act.env.accept)
    || (act.CloseAct? && act.id == b && (!act.sendOk || IsWaiting(x.l, b)))
  }

  /** The partner of `a` leaves without a word. */
  ghost predicate Deserted(x: Sys, act: Act, a: nat)
    requires Enabled(Swap(x), act)
  {
    exists b :: Bound(x.l, x.rl, a, b) && b in x.r.table && b !in StepLeft(Swap(x), act).l.table && Silently(Swap(x), act, b)
  }

  /** A Close frame that arrives comes from a partner that has gone. */
  lemma CloseMeansGone(x: Sys, b: nat, a: nat)
    requires Inv(x) && Closes(x) && x.rl != [] && IsCloseTo(x.rl[0], b) && Bound(x.l, x.rl, b, a)
    ensures a !in x.r.table
  {
    TrafficIsFromPartner(x.r, x.l, x.rl, x.lr, 0);
    BoundOnce(x.r, x.l, x.rl, x.lr, b, a, x.rl[0].remote);
  }

  /** A channel that is refused is not about to be bound. */
  lemma RefusedIsUnbound(x: Sys, b: nat, a: nat)
    requires Inv(x) && x.rl != [] && IsConfirmation(x.rl[0], b, 0) && IsWaiting(x.l, b)
    ensures !Bound(x.l, x.rl, b, a)
  {
    assert ConfirmationOk(x.r, x.l, x.rl, 0);
  }

  /** The frames that remove a channel. */
  lemma Removals(x: Sys, env: Env, b: nat)
    requires Enabled(x, ReceiveAct(env)) && b in x.l.table && b !in StepLeft(x, ReceiveAct(env)).l.table
    ensures IsCloseTo(x.rl[0], b) || (IsConfirmation(x.rl[0], b, 0) && IsWaiting(x.l, b)) || Silently(x, ReceiveAct(env), b)
  {
  }

  lemma Removers(x: Sys, act: Act, b: nat)
    requires Enabled(x, act) && b in x.l.table && b !in StepLeft(x, act).l.table
    ensures act.CloseAllAct? || act.ReceiveAct? || (act.CloseAct? && act.id == b)
  {
  }

  /** Closing a confirmed channel tells its partner, if the frame can be sent. */
  lemma ClosingTells(x: Sys, b: nat)
    requires b in x.l.table && x.l.table[b].remote != 0
    ensures Told(Effect(x, CloseAct(b, true)).sent, x.l.table[b].remote)
  {
    assert IsCloseTo(Effect(x, CloseAct(b, true)).sent[0], x.l.table[b].remote);
  }

  /** The only frame that removes a channel whose partner lives is one with data that it refuses. */
  lemma OnlyRefusingRemoves(x: Sys, env: Env, b: nat, a: nat)
    requires Inv(x) && Closes(x) && Enabled(x, ReceiveAct(env))
    requires Bound(x.l, x.rl, b, a) && a in x.r.table && b !in StepLeft(x, ReceiveAct(env)).l.table
    ensures Silently(x, ReceiveAct(env), b)
  {
    Removals(x, env, b);
    if IsCloseTo(x.rl[0], b) {
      CloseMeansGone(x, b, a);
    } else if IsConfirmation(x.rl[0], b, 0) && IsWaiting(x.l, b) {
      RefusedIsUnbound(x, b, a);
    }
  }

  /** A channel that leaves while its partner lives does so silently or sends it a Close frame. */
  lemma LeavesSilentlyOrTells(x: Sys, act: Act, b: nat, a: nat)
    requires Inv(x) && Closes(x) && Enabled(x, act)
    requires Bound(x.l, x.rl, b, a) && a in x.r.table && b !in StepLeft(x, act).l.table
    ensures Silently(x, act, b) || Told(Effect(x, act).sent, a)
  {
    Removers(x, act, b);
    if act.ReceiveAct? {
      OnlyRefusingRemoves(x, act.env, b, a);
    } else if !Silently(x, act, b) {
      ClosingTells(x, b);
    }
  }

  /** What the partner's end adds to the link: `a` is told of nothing unless its own partner left. */
  lemma NewsIsFromPartner(x: Sys, act: Act, a: nat)
    requires Inv(x) && Enabled(Swap(x), act) && a in x.l.table
    requires Told(Effect(Swap(x), act).sent, a)
    ensures act.CloseAct? && act.id in x.r.table && Bound(x.l, x.rl, a, act.id) && !Silently(Swap(x), act, act.id)
  {
    var sent := Effect(Swap(x), act).sent;
    var k :| 0 <= k < |sent| && IsCloseTo(sent[k], a);
    SentClose(Swap(x), act, k);
    assert Bound(x.r, x.lr, act.id, a);
  }

  lemma ToldAppend(q: seq<Frame>, more: seq<Frame>, a: nat)
    ensures Told(q + more, a) <==> Told(q, a) || Told(more, a)
  {
    if k :| 0 <= k < |q| && IsCloseTo(q[k], a) {
      assert IsCloseTo((q + more)[k], a);
    }
    if k :| 0 <= k < |more| && IsCloseTo(more[k], a) {
      assert IsCloseTo((q + more)[|q| + k], a);
    }
    if k :| 0 <= k < |q + more| && IsCloseTo((q + more)[k], a) {
      assert if k < |q| then IsCloseTo(q[k], a) else IsCloseTo(more[k - |q|], a);
    }
  }

  /** What the partner's end sends binds a channel only to one that is in its table. */
  lemma BoundAfterSending(x: Sys, act: Act, a: nat, b: nat)
    requires Enabled(Swap(x), act)
    ensures var y := Swap(StepLeft(Swap(x), act));
            && (Bound(x.l, x.rl, a, b) ==> Bound(y.l, y.rl, a, b))
            && (Bound(y.l, y.rl, a, b) && b !in y.r.table ==> Bound(x.l, x.rl, a, b))
  {
    var sent := Effect(Swap(x), act).sent;
    if sent != [] {
      assert sent == [sent[0]];
      ConfirmedAppend(x.rl, sent[0], a, b);
    } else {
      assert x.rl + sent == x.rl;
    }
  }

  /** A Close frame is on its way to a channel only if its partner has gone. */
  lemma ToldMeansGone(x: Sys, a: nat, b: nat)
    requires Inv(x) && Closes(x) && Bound(x.l, x.rl, a, b) && Told(x.rl, a)
    ensures b !in x.r.table
  {
    var k :| 0 <= k < |x.rl| && IsCloseTo(x.rl[k], a);
    TrafficIsFromPartner(x.r, x.l, x.rl, x.lr, k);
    BoundOnce(x.r, x.l, x.rl, x.lr, a, b, x.rl[k].remote);
  }

  lemma StaysAbandoned(x: Sys, act: Act, a: nat)
    requires Inv(x) && Enabled(Swap(x), act) && Prudent(Swap(x), act) && Abandoned(x, a)
    ensures Abandoned(Swap(StepLeft(Swap(x), act)), a)
  {
    var y := Swap(StepLeft(Swap(x), act));
    var b :| Bound(x.l, x.rl, a, b) && b !in x.r.table && !Told(x.rl, a);
    BoundAfterSending(x, act, a, b);
    if b in y.r.table {
      NewIsUnclaimed(Swap(x), act, b);
      UnclaimedUnbound(Swap(x), b, act.OpenAct?, a);
    }
    ToldAppend(x.rl, Effect(Swap(x), act).sent, a);
    if Told(y.rl, a) {
      NewsIsFromPartner(x, act, a);
      BoundOnce(x.r, x.l, x.rl, x.lr, a, b, act.id);
    }
  }

  lemma DesertedIsAbandoned(x: Sys, act: Act, a: nat)
    requires Inv(x) && Closes(x) && Enabled(Swap(x), act) && Deserted(x, act, a)
    ensures Abandoned(Swap(StepLeft(Swap(x), act)), a)
  {
    var y := Swap(StepLeft(Swap(x), act));
    var b :| Bound(x.l, x.rl, a, b) && b in x.r.table && b !in StepLeft(Swap(x), act).l.table && Silently(Swap(x), act, b);
    BoundAfterSending(x, act, a, b);
    ToldAppend(x.rl, Effect(Swap(x), act).sent, a);
    if Told(x.rl, a) {
      ToldMeansGone(x, a, b);
    } else if Told(Effect(Swap(x), act).sent, a) {
      NewsIsFromPartner(x, act, a);
      BoundOnce(x.r, x.l, x.rl, x.lr, a, b, act.id);
    }
  }

  lemma AbandonedByThisStep(x: Sys, act: Act, a: nat)
    requires Inv(x) && Closes(x) && Enabled(Swap(x), act)
    requires Abandoned(Swap(StepLeft(Swap(x), act)), a) && !Abandoned(x, a)
    ensures Deserted(x, act, a)
  {
    var y := Swap(StepLeft(Swap(x), act));
    var b :| Bound(y.l, y.rl, a, b) && b !in y.r.table && !Told(y.rl, a);
    BoundAfterSending(x, act, a, b);
    ToldAppend(x.rl, Effect(Swap(x), act).sent, a);
    assert b in x.r.table;
    assert Bound(x.r, x.lr, b, a);
    LeavesSilentlyOrTells(Swap(x), act, b, a);
  }

  lemma PartnersStepIff(x: Sys, act: Act, a: nat)
    requires Inv(x) && Closes(x) && Enabled(Swap(x), act) && Prudent(Swap(x), act)
    ensures Abandoned(Swap(StepLeft(Swap(x), act)), a) <==> Abandoned(x, a) || Deserted(x, act, a)
  {
    if Abandoned(x, a) {
      StaysAbandoned(x, act, a);
    } else if Deserted(x, act, a) {
      DesertedIsAbandoned(x, act, a);
    } else if Abandoned(Swap(StepLeft(Swap(x), act)), a) {
      AbandonedByThisStep(x, act, a);
    }
  }

  // ---------------------------------------------------------------- over whole runs

  /** In this step of its own end `a` is accepted too late. */
  ghost predicate AcceptedLate(x: Sys, y: Sys, a: nat) {
    exists act :: Enabled(x, act) && Prudent(x, act) && y == StepLeft(x, act) && AcceptsLate(x, act, a)
  }

  /** In this step its partner leaves without a word. */
  ghost predicate LeftAlone(x: Sys, y: Sys, a: nat) {
    exists act :: Enabled(Swap(x), act) && Prudent(Swap(x), act) && Swap(y) == StepLeft(Swap(x), act) && Deserted(x, act, a)
  }

  lemma CauseAbandons(x: Sys, y: Sys, a: nat)
    requires Inv(x) && Closes(x) && a in y.l.table && (AcceptedLate(x, y, a) || LeftAlone(x, y, a))
    ensures Abandoned(y, a)
  {
    if act :| Enabled(x, act) && Prudent(x, act) && y == StepLeft(x, act) && AcceptsLate(x, act, a) {
      OwnStepIff(x, act, a);
    } else {
      var act :| Enabled(Swap(x), act) && Prudent(Swap(x), act) && Swap(y) == StepLeft(Swap(x), act) && Deserted(x, act, a);
      PartnersStepIff(x, act, a);
    }
  }

  lemma AbandonedHasCause(x: Sys, y: Sys, a: nat)
    requires Inv(x) && Closes(x) && Step(x, y, true) && a in y.l.table
    ensures Abandoned(x, a) ==> Abandoned(y, a)
    ensures Abandoned(y, a) ==> Abandoned(x, a) || AcceptedLate(x, y, a) || LeftAlone(x, y, a)
  {
    if act :| Enabled(x, act) && Prudent(x, act) && y == StepLeft(x, act) {
      OwnStepIff(x, act, a);
    } else {
      var act :| Enabled(Swap(x), act) && Prudent(Swap(x), act) && Swap(y) == StepLeft(Swap(x), act);
      PartnersStepIff(x, act, a);
    }
  }

  /** Once abandoned a channel stays so until it leaves its table; its partner's id is not handed out again. */
  lemma AbandonedForEver(x: Sys, y: Sys, a: nat)
    requires Inv(x) && Closes(x) && Step(x, y, true) && Abandoned(x, a) && a in y.l.table
    ensures Abandoned(y, a)
  {
    AbandonedHasCause(x, y, a);
  }

  /** Step `i` abandons `a`, which has been in its table ever since. */
  ghost predicate Since(xs: seq<Sys>, i: nat, j: nat, a: nat)
    requires i < j < |xs|
  {
    (AcceptedLate(xs[i], xs[i + 1], a) || LeftAlone(xs[i], xs[i + 1], a)) && forall k :: i < k <= j ==> a in xs[k].l.table
  }

  lemma SinceGoesOn(xs: seq<Sys>, i: nat, m: nat, j: nat, a: nat)
    requires i < m < j < |xs| && j == m + 1
    ensures Since(xs, i, j, a) <==> Since(xs, i, m, a) && a in xs[j].l.table
  {
  }

  ghost predicate EverSince(xs: seq<Sys>, j: nat, a: nat)
    requires j < |xs|
  {
    exists i :: 0 <= i < j && Since(xs, i, j, a)
  }

  lemma EverSinceGoesOn(xs: seq<Sys>, m: nat, j: nat, a: nat)
    requires j < |xs| && j == m + 1
    ensures EverSince(xs, j, a) <==> a in xs[j].l.table && (EverSince(xs, m, a) || Since(xs, m, j, a))
  {
    forall i: nat | i < m ensures Since(xs, i, j, a) <==> Since(xs, i, m, a) && a in xs[j].l.table {
      SinceGoesOn(xs, i, m, j, a);
    }
  }

  /**
   * In every run a channel is bound to one that has gone, without a Close frame on its way, iff since
   * it got its id it was accepted after its opener had gone, or its partner left without a word.
   */
  lemma {:induction false} AbandonedIff(xs: seq<Sys>, j: nat, a: nat)
    requires Run(xs, true) && j < |xs|
    ensures Abandoned(xs[j], a) <==> EverSince(xs, j, a)
    decreases j
  {
    if j > 0 {
      var x, y := xs[j - 1], xs[j];
      AbandonedIff(xs, j - 1, a);
      ClosesRun(xs, j - 1);
      EverSinceGoesOn(xs, j - 1, j, a);
      if a in y.l.table {
        assert Step(x, y, true);
        AbandonedHasCause(x, y, a);
        if AcceptedLate(x, y, a) || LeftAlone(x, y, a) {
          CauseAbandons(x, y, a);
        }
      }
    }
  }
}
