/**
 * What the multiplexer does for its callers: what the answer to a call means, what the callbacks tell
 * the application, and that both ends of a connection are of one kind (src/session/multiplex_handler.c).
 */
module Service {
  import opened Wrappers
  import opened Endpoint
  import opened Protocol
  import opened Departure

  // ---------------------------------------------------------------- what an answer means

  predicate IsSending(act: Act) {
    (act.WriteAct? && act.id != 0) || act.PendAct? || act.ResumeAct?
  }

  function TypeSent(act: Act): nat
    requires IsSending(act)
  {
    if act.WriteAct? then DATA else if act.PendAct? then PENDING else RESUME
  }

  /** The channel, of whatever kind, is confirmed and not closed. */
  predicate IsUp(t: Table, id: nat) {
    id in t && t[id].remote != 0 && (t[id].status == Open || t[id].status == Pending)
  }

  /**
   * Write, pend and resume succeed iff the channel is up and the frame can be sent.  Success means that
   * exactly one frame went to the remote channel, with everything that was to be written; failure that
   * nothing was sent.  The table stays as it is, and nobody is called.
   */
  lemma SendingAnswer(x: Sys, act: Act)
    requires Enabled(x, act) && IsSending(act)
    ensures var out, t := Effect(x, act), x.l.table;
            && (out.rc.Done? <==> IsUp(t, act.id) && act.sendOk)
            && (out.rc.Done? ==> out.sent == [Frame(TypeSent(act), 0, t[act.id].remote, act.id, if act.WriteAct? then act.payload else [])])
            && (act.WriteAct? && out.rc.Done? ==> out.rc == Done(|act.payload|))
            && (!out.rc.Done? ==> out.sent == [])
            && (out.rc == NotExist <==> act.id !in t)
            && (out.rc == WrongState <==> act.id in t && !IsUp(t, act.id))
            && out.table == t && out.events == []
  {
  }

  /** Writing to channel 0 sends the data outside any channel, and they arrive as such. */
  lemma RawAnswer(x: Sys, payload: Payload, sendOk: bool, t: Table, env: Env)
    requires Allocates(t, env.alloc)
    ensures var out := Effect(x, WriteAct(0, payload, sendOk));
            && out.rc == (if sendOk then Done(|payload|) else SendError)
            && |out.sent| == (if sendOk then 1 else 0) && out.table == x.l.table && out.events == []
            && (sendOk ==> Receive(t, out.sent[0], env) == Outcome(t, [], [RawData(payload)], Done(0)))
  {
  }

  /**
   * Opening succeeds iff there is an id and the request can be sent; then the id is returned, a channel
   * waits under it, and one request went out.  Otherwise nothing has changed.
   */
  lemma OpeningAnswer(x: Sys, kind: Kind, cookie: Payload, alloc: Option<nat>, sendOk: bool)
    requires Enabled(x, OpenAct(kind, cookie, alloc, sendOk))
    ensures var out, t := Effect(x, OpenAct(kind, cookie, alloc, sendOk)), x.l.table;
            && (out.rc.Done? <==> alloc.Some? && sendOk)
            && (out.rc == LimitExceeded <==> alloc == None)
            && out.events == []
            && if out.rc.Done? then
                 && alloc == Some(out.rc.n) && out.rc.n !in t && out.table == t[out.rc.n := Chan(kind, 0, Opening)]
                 && |out.sent| == 1 && out.sent[0].ptype == OPEN && out.sent[0].remote == out.rc.n
               else
                 out.sent == [] && out.table == t
  {
  }

  /** Closing succeeds iff the channel exists; then it is gone, its owner is told once, and its partner if there is one. */
  lemma ClosingAnswer(x: Sys, id: nat, sendOk: bool)
    ensures var out, t := Effect(x, CloseAct(id, sendOk)), x.l.table;
            && (out.rc.Done? <==> id in t) && (out.rc == NotExist <==> id !in t)
            && out.table == t - {id}
            && out.events == (if id in t then [Closed(id, Normal)] else [])
            && out.sent == if id in t && t[id].remote != 0 && sendOk then [Frame(CLOSE, 0, t[id].remote, id, [])] else []
  {
  }

  /** The request of one end is heard at the other: with its cookie, and for a channel of its kind. */
  lemma RequestIsHeard(x: Sys, kind: Kind, cookie: Payload, n: nat, y: Sys, env: Env)
    requires Enabled(x, OpenAct(kind, cookie, Some(n), true))
    requires y.rl != [] && Effect(x, OpenAct(kind, cookie, Some(n), true)).sent == [y.rl[0]]
    requires Enabled(y, ReceiveAct(env)) && env.memory && env.alloc.Some? && (kind == User || env.worker)
    ensures var out, m := Effect(y, ReceiveAct(env)), env.alloc.value;
            && out.events != [] && out.events[0] == OpenRequest(m, if cookie == [] then None else Some(cookie))
            && (env.accept && env.sendOk ==> out.table == y.l.table[m := Chan(kind, n, Open)] && out.events[1..] == [Opened(m)])
            && (env.accept && !env.sendOk ==> out.table == y.l.table && out.events[1..] == [Closed(m, Error)])
            && (!env.accept ==> out.table == y.l.table && out.events[1..] == [])
            && out.sent == if env.sendOk then [Frame(CONFIRMATION, 0, n, if env.accept then m else 0, [])] else []
  {
  }

  /** Why a channel ends: normally by a call of its owner or of its partner's, with an error for every other cause. */
  lemma ReasonTells(x: Sys, act: Act, id: nat, reason: Reason)
    requires Enabled(x, act) && Closed(id, reason) in Effect(x, act).events
    ensures reason == if act.CloseAct? || (act.ReceiveAct? && x.rl[0].ptype == CLOSE) then Normal else Error
    ensures act.CloseAct? || act.ReceiveAct?
  {
  }

  // ---------------------------------------------------------------- what the callbacks tell

  /** The channels an application knows of, from its calls and its callbacks. */
  type Known = map<nat, Status>

  /** Of what it hears, this makes sense to the application. */
  predicate MakesSense(v: Known, e: Event) {
    match e
    case OpenRequest(id, _) => id !in v
    case Opened(id) => id in v && v[id] == Opening
    case Closed(id, _) => id in v
    case Delivered(id, _) => id in v && v[id] != Opening
    case Pended(id) => id in v && v[id] == Open
    case Resumed(id) => id in v && v[id] == Pending
    case RawData(_) => true
  }

  /** `accept` is its answer, if the event is a question. */
  function Hear(v: Known, e: Event, accept: bool): Known {
    match e
    case OpenRequest(id, _) => if accept then v[id := Opening] else v
    case Opened(id) => v[id := Open]
    case Closed(id, _) => v - {id}
    case Pended(id) => v[id := Pending]
    case Resumed(id) => v[id := Open]
    case _ => v
  }

  function HearAll(v: Known, es: seq<Event>, accept: bool): Known
    decreases |es|
  {
    if es == [] then v else Hear(HearAll(v, es[..|es| - 1], accept), es[|es| - 1], accept)
  }

  predicate AllMakeSense(v: Known, es: seq<Event>, accept: bool)
    decreases |es|
  {
    es == [] || (AllMakeSense(v, es[..|es| - 1], accept) && MakesSense(HearAll(v, es[..|es| - 1], accept), es[|es| - 1]))
  }

  predicate Answers(act: Act) { act.ReceiveAct? && act.env.accept }

  /** The callbacks of a step; those of closing all channels come in any order of the channels. */
  ghost predicate CalledBack(x: Sys, act: Act, es: seq<Event>)
    requires Enabled(x, act)
  {
    if act.CloseAllAct? then exists order, reason :: Arranged(x.l.table.Keys, order, reason, es)
    else es == Effect(x, act).events
  }

  predicate Arranged(ids: set<nat>, order: seq<nat>, reason: Reason, es: seq<Event>) {
    multiset(order) == multiset(ids) && es == CloseEvents(order, reason)
  }

  /** After a call: a channel that was opened is known by the id that is returned. */
  function Watch(v: Known, act: Act, rc: Rc, es: seq<Event>): Known {
    if act.OpenAct? && rc.Done? then v[rc.n := Opening] else HearAll(v, es, Answers(act))
  }

  function Statuses(t: Table): Known {
    map id | id in t :: t[id].status
  }

  lemma HearTwo(v: Known, a: Event, b: Event, accept: bool)
    ensures HearAll(v, [a], accept) == Hear(v, a, accept)
    ensures HearAll(v, [a, b], accept) == Hear(Hear(v, a, accept), b, accept)
    ensures AllMakeSense(v, [a], accept) <==> MakesSense(v, a)
    ensures AllMakeSense(v, [a, b], accept) <==> MakesSense(v, a) && MakesSense(Hear(v, a, accept), b)
  {
    assert [a][..0] == [] && [a, b][..1] == [a];
  }

  function Without(v: Known, order: seq<nat>): Known { v - set id | id in order }

  lemma WithoutOneMore(v: Known, order: seq<nat>, id: nat)
    ensures Without(v, order + [id]) == Without(v, order) - {id}
  {
  }

  lemma {:induction false} HearClosed(v: Known, order: seq<nat>, reason: Reason)
    requires multiset(order) <= multiset(v.Keys)
    ensures HearAll(v, CloseEvents(order, reason), false) == Without(v, order)
    ensures AllMakeSense(v, CloseEvents(order, reason), false)
    decreases |order|
  {
    if order != [] {
      var before, last := order[..|order| - 1], order[|order| - 1];
      assert order == before + [last];
      OnlyOnce(before, last, v.Keys);
      HearClosed(v, before, reason);
      HearMore(v, CloseEvents(before, reason), Closed(last, reason), false);
      WithoutOneMore(v, before, last);
    }
  }

  lemma HearMore(v: Known, es: seq<Event>, e: Event, accept: bool)
    ensures HearAll(v, es + [e], accept) == Hear(HearAll(v, es, accept), e, accept)
    ensures AllMakeSense(v, es + [e], accept) <==> AllMakeSense(v, es, accept) && MakesSense(HearAll(v, es, accept), e)
  {
    assert (es + [e])[..|es|] == es;
  }

  lemma OnlyOnce(order: seq<nat>, id: nat, keys: set<nat>)
    requires multiset(order + [id]) <= multiset(keys)
    ensures multiset(order) <= multiset(keys) && id in keys && id !in order
  {
    assert multiset(order + [id])[id] == multiset(order)[id] + 1;
  }

  /** One or two callbacks that make sense and tell what has changed. */
  predicate Tells(v: Known, es: seq<Event>, accept: bool, w: Known) {
    match |es|
    case 0 => v == w
    case 1 => MakesSense(v, es[0]) && Hear(v, es[0], accept) == w
    case _ =>
      && |es| == 2 && MakesSense(v, es[0]) && MakesSense(Hear(v, es[0], accept), es[1])
      && Hear(Hear(v, es[0], accept), es[1], accept) == w
  }

  lemma FewTell(v: Known, es: seq<Event>, accept: bool, w: Known)
    requires Tells(v, es, accept, w)
    ensures AllMakeSense(v, es, accept) && HearAll(v, es, accept) == w
  {
    if |es| == 1 {
      assert es == [es[0]];
      HearTwo(v, es[0], es[0], accept);
    } else if |es| == 2 {
      assert es == [es[0], es[1]];
      HearTwo(v, es[0], es[1], accept);
    }
  }

  lemma RequestTells(x: Sys, env: Env)
    requires x.rl != [] && x.rl[0].ptype == OPEN && Enabled(x, ReceiveAct(env))
    ensures var out := Effect(x, ReceiveAct(env));
            Tells(Statuses(x.l.table), out.events, env.accept, Statuses(out.table))
  {
  }

  lemma FrameTells(t: Table, f: Frame, env: Env)
    requires f.local in t
    ensures var out := ReceiveKnown(t, f, env);
            Tells(Statuses(t), out.events, env.accept, Statuses(out.table))
  {
  }

  lemma ClosingAllTells(x: Sys, order: seq<nat>, reason: Reason)
    requires multiset(order) == multiset(x.l.table.Keys)
    ensures var v := Statuses(x.l.table);
            AllMakeSense(v, CloseEvents(order, reason), false) && HearAll(v, CloseEvents(order, reason), false) == map[]
  {
    var v := Statuses(x.l.table);
    assert v.Keys == x.l.table.Keys;
    HearClosed(v, order, reason);
    forall id | id in v ensures id in order {
      assert multiset(x.l.table.Keys)[id] == 1;
    }
  }

  /** A call of its own tells the application what it has done. */
  lemma CallTells(x: Sys, act: Act)
    requires Enabled(x, act) && !act.ReceiveAct? && !act.CloseAllAct?
    ensures var out := Effect(x, act);
            var v := if act.OpenAct? && out.rc.Done? then Statuses(x.l.table)[out.rc.n := Opening] else Statuses(x.l.table);
            Tells(v, out.events, false, Statuses(out.table)) && (act.OpenAct? ==> out.events == [])
  {
  }

  lemma FramesTell(x: Sys, env: Env)
    requires Enabled(x, ReceiveAct(env))
    ensures var out := Effect(x, ReceiveAct(env));
            Tells(Statuses(x.l.table), out.events, env.accept, Statuses(out.table))
  {
    if x.rl[0].ptype == OPEN {
      RequestTells(x, env);
    } else if x.rl[0].local in x.l.table {
      FrameTells(x.l.table, x.rl[0], env);
    }
  }

  /**
   * Whatever a step does, its callbacks make sense one after the other to an application that knew the
   * channels before, and afterwards it knows them again: each one that comes, changes or goes is told of
   * exactly once.
   */
  lemma CallbacksTellAll(x: Sys, act: Act, es: seq<Event>)
    requires Enabled(x, act) && CalledBack(x, act, es)
    ensures AllMakeSense(Statuses(x.l.table), es, Answers(act))
    ensures Watch(Statuses(x.l.table), act, Effect(x, act).rc, es) == Statuses(Effect(x, act).table)
  {
    var v, w := Statuses(x.l.table), Statuses(Effect(x, act).table);
    if act.CloseAllAct? {
      var order, reason :| Arranged(x.l.table.Keys, order, reason, es);
      ClosingAllTells(x, order, reason);
    } else if act.ReceiveAct? {
      FramesTell(x, act.env);
      FewTell(v, es, act.env.accept, w);
    } else {
      CallTells(x, act);
      if !act.OpenAct? {
        FewTell(v, es, false, w);
      }
    }
  }

  /** What the left application knows in each state of a run, from what its end was asked to do and called back. */
  ghost predicate Follows(xs: seq<Sys>, vs: seq<Known>) {
    && |vs| == |xs| > 0 && vs[0] == map[]
    && forall i :: 0 <= i < |xs| - 1 ==> FollowsAt(xs, vs, i)
  }

  /** One step of a run: one of its own end, or one of the peer. */
  ghost predicate FollowsAt(xs: seq<Sys>, vs: seq<Known>, i: nat)
    requires |vs| == |xs| && i < |xs| - 1
  {
    OwnStep(xs[i], xs[i + 1], vs[i], vs[i + 1]) || (xs[i + 1].l == xs[i].l && vs[i + 1] == vs[i])
  }

  ghost predicate OwnStep(x: Sys, y: Sys, v: Known, w: Known) {
    exists act, es :: Notices(x, act, es, y, v, w)
  }

  ghost predicate Notices(x: Sys, act: Act, es: seq<Event>, y: Sys, v: Known, w: Known) {
    Enabled(x, act) && y == StepLeft(x, act) && CalledBack(x, act, es) && w == Watch(v, act, Effect(x, act).rc, es)
  }

  lemma KnowsOn(x: Sys, y: Sys, v: Known, w: Known)
    requires OwnStep(x, y, v, w) && v == Statuses(x.l.table)
    ensures w == Statuses(y.l.table)
  {
    var act, es :| Notices(x, act, es, y, v, w);
    CallbacksTellAll(x, act, es);
  }

  /** In every run, whatever ids are handed out, the application knows the channels and their status. */
  lemma {:induction false} ApplicationKnows(xs: seq<Sys>, vs: seq<Known>, i: nat)
    requires xs != [] && xs[0] == Start && Follows(xs, vs) && i < |xs|
    ensures vs[i] == Statuses(xs[i].l.table)
    decreases i
  {
    if i > 0 {
      ApplicationKnows(xs, vs, i - 1);
      assert FollowsAt(xs, vs, i - 1);
      if OwnStep(xs[i - 1], xs[i], vs[i - 1], vs[i]) {
        KnowsOn(xs[i - 1], xs[i], vs[i - 1], vs[i]);
      }
    }
  }

  // ---------------------------------------------------------------- kinds

  /** Requests under way carry the kind of the channel that asks. */
  ghost predicate AsksForKind(s: Peer, q: seq<Frame>) {
    forall k :: 0 <= k < |q| && q[k].ptype == OPEN && q[k].remote in s.table ==>
      KindOf(q[k].option, true) == Some(s.table[q[k].remote].kind)
  }

  ghost predicate Alike(x: Sys) {
    forall a, b :: Bound(x.l, x.rl, a, b) && b in x.r.table ==> x.l.table[a].kind == x.r.table[b].kind
  }

  ghost predicate KindsOk(x: Sys) {
    Inv(x) && Alike(x) && AsksForKind(x.l, x.lr) && AsksForKind(x.r, x.rl)
  }

  lemma AlikeMirrors(x: Sys)
    requires Inv(x) && Alike(x)
    ensures Alike(Swap(x))
  {
    forall b, a | Bound(x.r, x.lr, b, a) && a in x.l.table ensures x.l.table[a].kind == x.r.table[b].kind {
      assert Bound(x.l, x.rl, a, b);
    }
  }

  lemma KindStays(x: Sys, act: Act, a: nat)
    requires Enabled(x, act) && a in x.l.table && a in StepLeft(x, act).l.table
    ensures StepLeft(x, act).l.table[a].kind == x.l.table[a].kind
  {
  }

  lemma NewIsAlike(x: Sys, act: Act, a: nat, b: nat)
    requires KindsOk(x) && Enabled(x, act) && Prudent(x, act) && a !in x.l.table && a in StepLeft(x, act).l.table
    requires Bound(StepLeft(x, act).l, StepLeft(x, act).rl, a, b) && b in x.r.table
    ensures StepLeft(x, act).l.table[a].kind == x.r.table[b].kind
  {
    NewIsUnclaimed(x, act, a);
  }

  lemma AlikeStep(x: Sys, act: Act)
    requires KindsOk(x) && Enabled(x, act) && Prudent(x, act)
    ensures Alike(StepLeft(x, act))
  {
    var y := StepLeft(x, act);
    forall a, b | Bound(y.l, y.rl, a, b) && b in y.r.table ensures y.l.table[a].kind == y.r.table[b].kind {
      if a in x.l.table {
        BoundStays(x, act, a, b);
        KindStays(x, act, a);
      } else {
        NewIsAlike(x, act, a, b);
      }
    }
  }

  lemma AsksStep(x: Sys, act: Act)
    requires KindsOk(x) && Enabled(x, act) && Prudent(x, act)
    ensures var y := StepLeft(x, act); AsksForKind(y.l, y.lr) && AsksForKind(y.r, y.rl)
  {
    var y := StepLeft(x, act);
    forall k | 0 <= k < |y.lr| && y.lr[k].ptype == OPEN && y.lr[k].remote in y.l.table
      ensures KindOf(y.lr[k].option, true) == Some(y.l.table[y.lr[k].remote].kind)
    {
      if k < |x.lr| {
        assert y.lr[k] == x.lr[k];
        if x.lr[k].remote in x.l.table {
          KindStays(x, act, x.lr[k].remote);
        } else {
          NewIsUnclaimed(x, act, x.lr[k].remote);
        }
      } else {
        assert y.lr[k] == Effect(x, act).sent[k - |x.lr|];
      }
    }
    forall k | 0 <= k < |y.rl| && y.rl[k].ptype == OPEN && y.rl[k].remote in y.r.table
      ensures KindOf(y.rl[k].option, true) == Some(y.r.table[y.rl[k].remote].kind)
    {
      assert y.rl[k] == x.rl[if act.ReceiveAct? then k + 1 else k];
    }
  }

  lemma KindsStep(x: Sys, y: Sys)
    requires KindsOk(x) && Step(x, y, true)
    ensures KindsOk(y)
  {
    InvStep(x, y);
    if act :| Enabled(x, act) && Prudent(x, act) && y == StepLeft(x, act) {
      AlikeStep(x, act);
      AsksStep(x, act);
    } else {
      var act :| Enabled(Swap(x), act) && Prudent(Swap(x), act) && Swap(y) == StepLeft(Swap(x), act);
      AlikeMirrors(x);
      AlikeStep(Swap(x), act);
      AsksStep(Swap(x), act);
      AlikeMirrors(Swap(y));
    }
  }

  /** In every run the two ends of a connection are of the same kind. */
  lemma {:induction false} PartnersAreAlike(xs: seq<Sys>, i: nat)
    requires Run(xs, true) && i < |xs|
    ensures KindsOk(xs[i])
    ensures var x := xs[i]; forall a :: a in x.l.table && x.l.table[a].remote in x.r.table ==>
              x.l.table[a].kind == x.r.table[x.l.table[a].remote].kind
    decreases i
  {
    if i > 0 {
      PartnersAreAlike(xs, i - 1);
      assert Step(xs[i - 1], xs[i], true);
      KindsStep(xs[i - 1], xs[i]);
    }
    var x := xs[i];
    forall a | a in x.l.table && x.l.table[a].remote in x.r.table
      ensures x.l.table[a].kind == x.r.table[x.l.table[a].remote].kind
    {
      assert Bound(x.l, x.rl, a, x.l.table[a].remote);
    }
  }
}
