/**
 * When a channel id may be handed out again: exactly when nobody claims it.  Ids that are never
 * handed out twice satisfy this; an id that is claimed can always lead to a mix-up.
 */
module Reuse {
  import opened Wrappers
  import opened Endpoint
  import opened Protocol

  // ---------------------------------------------------------------- ids that are never handed out twice

  function IdsOf(alloc: Option<nat>): set<nat> {
    if alloc.Some? then {alloc.value} else {}
  }

  /** A step of the left end that draws no id from `used`, which becomes `after`. */
  ghost predicate FreshStep(x: Sys, used: set<nat>, y: Sys, after: set<nat>) {
    exists act :: Enabled(x, act) && IdsOf(AllocOf(act)) !! used && y == StepLeft(x, act) && after == used + IdsOf(AllocOf(act))
  }

  /** A step of a run in which each end draws only new ids. */
  ghost predicate FreshStepOfOne(x: Sys, l: set<nat>, r: set<nat>, y: Sys, l': set<nat>, r': set<nat>) {
    (FreshStep(x, l, y, l') && r' == r) || (FreshStep(Swap(x), r, Swap(y), r') && l' == l)
  }

  ghost predicate FreshAt(xs: seq<Sys>, ls: seq<set<nat>>, rs: seq<set<nat>>, i: nat)
    requires |xs| == |ls| == |rs| && i < |xs| - 1
  {
    FreshStepOfOne(xs[i], ls[i], rs[i], xs[i + 1], ls[i + 1], rs[i + 1])
  }

  /** A run in which each end remembers its ids (`ls` and `rs`) and draws only new ones. */
  ghost predicate FreshRun(xs: seq<Sys>, ls: seq<set<nat>>, rs: seq<set<nat>>) {
    && |xs| == |ls| == |rs| > 0
    && xs[0] == Start && ls[0] == {} && rs[0] == {}
    && forall i :: 0 <= i < |xs| - 1 ==> FreshAt(xs, ls, rs, i)
  }

  /** Every left id that occurs anywhere was drawn. */
  ghost predicate Drawn(x: Sys, used: set<nat>) {
    && x.l.table.Keys <= used
    && (forall k :: 0 <= k < |x.lr| ==> x.lr[k].remote in used + {0})
    && (forall k :: 0 <= k < |x.rl| ==> x.rl[k].local in used + {0})
    && (forall b :: b in x.r.table ==> x.r.table[b].remote in used + {0})
  }

  lemma DrawnLeft(x: Sys, used: set<nat>, act: Act)
    requires Enabled(x, act) && Drawn(x, used)
    ensures Drawn(StepLeft(x, act), used + IdsOf(AllocOf(act)))
  {
    var y := StepLeft(x, act);
    forall k | 0 <= k < |y.lr| ensures y.lr[k].remote in used + IdsOf(AllocOf(act)) + {0} {
      assert k < |x.lr| ==> y.lr[k] == x.lr[k];
    }
    forall k | 0 <= k < |y.rl| ensures y.rl[k].local in used + {0} {
      assert y.rl[k] == x.rl[if act.ReceiveAct? then k + 1 else k];
    }
  }

  /** What the right end sends and binds concerns drawn ids only. */
  lemma DrawnReply(x: Sys, used: set<nat>, act: Act)
    requires Enabled(Swap(x), act) && Drawn(x, used)
    ensures forall k :: 0 <= k < |Effect(Swap(x), act).sent| ==> Effect(Swap(x), act).sent[k].local in used + {0}
    ensures forall b :: b in Effect(Swap(x), act).table ==> Effect(Swap(x), act).table[b].remote in used + {0}
  {
    if act.ReceiveAct? {
      assert x.lr[0].remote in used + {0};
    }
  }

  lemma DrawnRight(x: Sys, used: set<nat>, act: Act)
    requires Enabled(Swap(x), act) && Drawn(x, used)
    ensures Drawn(Swap(StepLeft(Swap(x), act)), used)
  {
    var y := Swap(StepLeft(Swap(x), act));
    DrawnReply(x, used, act);
    forall k | 0 <= k < |y.lr| ensures y.lr[k].remote in used + {0} {
      assert y.lr[k] == x.lr[if act.ReceiveAct? then k + 1 else k];
    }
    forall k | 0 <= k < |y.rl| ensures y.rl[k].local in used + {0} {
      assert y.rl[k] == if k < |x.rl| then x.rl[k] else Effect(Swap(x), act).sent[k - |x.rl|];
    }
  }

  lemma DrawnStep(x: Sys, used: set<nat>, y: Sys, after: set<nat>, other: set<nat>)
    requires FreshStep(x, used, y, after) && Drawn(x, used) && Drawn(Swap(x), other)
    ensures Drawn(y, after) && Drawn(Swap(y), other)
  {
    var act :| Enabled(x, act) && IdsOf(AllocOf(act)) !! used && y == StepLeft(x, act) && after == used + IdsOf(AllocOf(act));
    DrawnLeft(x, used, act);
    assert Swap(Swap(x)) == x;
    DrawnRight(Swap(x), other, act);
  }

  lemma BothDrawnStep(x: Sys, l: set<nat>, r: set<nat>, y: Sys, l': set<nat>, r': set<nat>)
    requires FreshStepOfOne(x, l, r, y, l', r') && Drawn(x, l) && Drawn(Swap(x), r)
    ensures Drawn(y, l') && Drawn(Swap(y), r')
  {
    if FreshStep(x, l, y, l') && r' == r {
      DrawnStep(x, l, y, l', r);
    } else {
      assert Swap(Swap(x)) == x && Swap(Swap(y)) == y;
      DrawnStep(Swap(x), r, Swap(y), r', l);
    }
  }

  lemma {:induction false} AlwaysDrawn(xs: seq<Sys>, ls: seq<set<nat>>, rs: seq<set<nat>>, i: nat)
    requires FreshRun(xs, ls, rs) && i < |xs|
    ensures Drawn(xs[i], ls[i]) && Drawn(Swap(xs[i]), rs[i])
  {
    if i > 0 {
      AlwaysDrawn(xs, ls, rs, i - 1);
      assert FreshAt(xs, ls, rs, i - 1);
      BothDrawnStep(xs[i - 1], ls[i - 1], rs[i - 1], xs[i], ls[i], rs[i]);
    }
  }

  lemma FreshIsPrudent(x: Sys, used: set<nat>, y: Sys, after: set<nat>)
    requires FreshStep(x, used, y, after) && Drawn(x, used)
    ensures Step(x, y, true)
  {
    var act :| Enabled(x, act) && IdsOf(AllocOf(act)) !! used && y == StepLeft(x, act) && after == used + IdsOf(AllocOf(act));
    if AllocOf(act).Some? {
      assert AllocOf(act).value in IdsOf(AllocOf(act));
    }
    assert Prudent(x, act);
  }

  /** A run in which neither end hands out an id twice is one in which no claimed id is handed out. */
  lemma FreshRunsArePrudent(xs: seq<Sys>, ls: seq<set<nat>>, rs: seq<set<nat>>)
    requires FreshRun(xs, ls, rs)
    ensures Run(xs, true)
  {
    forall i | 0 <= i < |xs| - 1 ensures Step(xs[i], xs[i + 1], true) {
      AlwaysDrawn(xs, ls, rs, i);
      assert FreshAt(xs, ls, rs, i);
      var x, y := xs[i], xs[i + 1];
      if FreshStep(x, ls[i], y, ls[i + 1]) {
        FreshIsPrudent(x, ls[i], y, ls[i + 1]);
      } else {
        FreshIsPrudent(Swap(x), rs[i], Swap(y), rs[i + 1]);
        StepMirrors(Swap(x), Swap(y));
      }
    }
  }

  // ---------------------------------------------------------------- what the ends rely on

  /** The channels of the left end are paired. */
  ghost predicate Paired(x: Sys) {
    forall a :: a in x.l.table && x.l.table[a].remote != 0 ==>
      var b := x.l.table[a].remote;
      && (forall a' :: a' in x.l.table && x.l.table[a'].remote == b ==> a' == a)
      && (b in x.r.table ==> x.r.table[b].remote == a || (x.r.table[b].status == Opening && ConfirmedBefore(x.lr, |x.lr|, b, a)))
  }

  /**
   * The frame about to reach a channel of the left end is meant for it: traffic comes from its
   * partner, and a confirmation that it waits for answers its request, which is no longer under way.
   */
  ghost predicate Genuine(x: Sys) {
    x.rl != [] && x.rl[0].local in x.l.table ==>
      var f, ch := x.rl[0], x.l.table[x.rl[0].local];
      && (IsTraffic(f) ==> ch.status != Opening && ch.remote == f.remote)
      && (f.ptype == CONFIRMATION ==>
            ch.status == Opening ==> forall k :: 0 <= k < |x.lr| && x.lr[k].ptype == OPEN ==> x.lr[k].remote != f.local)
  }

  ghost predicate Sane(x: Sys) {
    Paired(x) && Genuine(x) && Paired(Swap(x)) && Genuine(Swap(x))
  }

  lemma InvIsSane(x: Sys)
    requires Inv(x)
    ensures Paired(x) && Genuine(x)
  {
    forall a | a in x.l.table && x.l.table[a].remote != 0
      ensures var b := x.l.table[a].remote;
              && (forall a' :: a' in x.l.table && x.l.table[a'].remote == b ==> a' == a)
              && (b in x.r.table ==> x.r.table[b].remote == a || (x.r.table[b].status == Opening && ConfirmedBefore(x.lr, |x.lr|, b, a)))
    {
      var b := x.l.table[a].remote;
      assert Bound(x.l, x.rl, a, b);
      forall a' | a' in x.l.table && x.l.table[a'].remote == b ensures a' == a {
        assert Bound(x.l, x.rl, a', b);
      }
    }
    if x.rl != [] && x.rl[0].local in x.l.table {
      if IsTraffic(x.rl[0]) {
        TrafficFindsChannelOpen(x);
      } else if x.rl[0].ptype == CONFIRMATION {
        assert ConfirmationOk(x.r, x.l, x.rl, 0);
        forall k | 0 <= k < |x.lr| && x.lr[k].ptype == OPEN ensures x.lr[k].remote != x.rl[0].local {
          assert OpenOk(x.l, x.r, x.lr, x.rl, k);
        }
      }
    }
  }

  // ---------------------------------------------------------------- continuations

  ghost predicate Continues(ys: seq<Sys>) {
    ys != [] && forall i :: 0 <= i < |ys| - 1 ==> Step(ys[i], ys[i + 1], true)
  }

  /** Prudent steps can lead from `x` to `y`. */
  ghost predicate Leads(x: Sys, y: Sys) {
    exists ys :: Continues(ys) && ys[0] == x && ys[|ys| - 1] == y
  }

  lemma LeadsNowhere(x: Sys)
    ensures Leads(x, x)
  {
    assert Continues([x]);
  }

  lemma LeadsOn(x: Sys, y: Sys, z: Sys)
    requires Leads(x, y) && Step(y, z, true)
    ensures Leads(x, z)
  {
    var ys :| Continues(ys) && ys[0] == x && ys[|ys| - 1] == y;
    var zs := ys + [z];
    forall i | 0 <= i < |zs| - 1 ensures Step(zs[i], zs[i + 1], true) {
      assert i < |ys| - 1 ==> Step(ys[i], ys[i + 1], true);
    }
    assert Continues(zs) && zs[0] == x && zs[|zs| - 1] == z;
  }

  lemma StepMirrors(x: Sys, y: Sys)
    requires Step(x, y, true)
    ensures Step(Swap(x), Swap(y), true)
  {
    assert Swap(Swap(x)) == x && Swap(Swap(y)) == y;
  }

  lemma LeadsMirrors(x: Sys, y: Sys)
    requires Leads(x, y)
    ensures Leads(Swap(x), Swap(y))
  {
    var ys :| Continues(ys) && ys[0] == x && ys[|ys| - 1] == y;
    var zs := seq(|ys|, i requires 0 <= i < |ys| => Swap(ys[i]));
    forall i | 0 <= i < |zs| - 1 ensures Step(zs[i], zs[i + 1], true) {
      StepMirrors(ys[i], ys[i + 1]);
    }
    assert Continues(zs) && zs[0] == Swap(x) && zs[|zs| - 1] == Swap(y);
  }

  lemma {:induction false} StaysSane(ys: seq<Sys>)
    requires Continues(ys) && Inv(ys[0])
    ensures Inv(ys[|ys| - 1]) && Sane(ys[|ys| - 1])
  {
    var n := |ys| - 1;
    if n > 0 {
      assert Continues(ys[..n]);
      StaysSane(ys[..n]);
      assert Step(ys[n - 1], ys[n], true);
      InvStep(ys[n - 1], ys[n]);
    }
    InvIsSane(ys[n]);
    InvIsSane(Swap(ys[n]));
  }

  /** A frame is taken in without drawing an id and without sending anything. */
  function Quiet(): Act { ReceiveAct(Env(true, None, true, false, true)) }

  /** The frame may change channel `c`. */
  predicate Touches(x: Sys, f: Frame, c: nat) { Concerns(f, c, IsWaiting(x.l, c)) }

  lemma QuietEffect(x: Sys)
    requires x.rl != []
    ensures Enabled(x, Quiet()) && Effect(x, Quiet()).sent == []
    ensures var table := Effect(x, Quiet()).table;
            forall c :: c in x.l.table && !Touches(x, x.rl[0], c) ==> c in table && table[c] == x.l.table[c]
  {
  }

  lemma QuietStep(x: Sys)
    requires x.rl != []
    ensures Enabled(x, Quiet())
    ensures var y := StepLeft(x, Quiet());
            && Step(x, y, true) && y.rl == x.rl[1..] && y.lr == x.lr && y.r == x.r
            && (forall c :: c in x.l.table && !Touches(x, x.rl[0], c) ==> c in y.l.table && y.l.table[c] == x.l.table[c])
  {
    QuietEffect(x);
    assert Prudent(x, Quiet());
  }

  /** The left end takes in `k` frames; channels they do not touch stay as they are. */
  lemma {:induction false} Drain(x: Sys, k: nat) returns (y: Sys)
    requires k <= |x.rl|
    ensures Leads(x, y) && y.rl == x.rl[k..] && y.lr == x.lr && y.r == x.r
    ensures forall c :: (forall j :: 0 <= j < k ==> !Touches(x, x.rl[j], c)) && c in x.l.table ==> c in y.l.table && y.l.table[c] == x.l.table[c]
  {
    if k == 0 {
      LeadsNowhere(x);
      y := x;
    } else {
      var z := Drain(x, k - 1);
      QuietStep(z);
      y := StepLeft(z, Quiet());
      LeadsOn(x, z, y);
      assert z.rl[0] == x.rl[k - 1];
    }
  }

  lemma DrainRight(x: Sys, k: nat) returns (y: Sys)
    requires k <= |x.lr|
    ensures Leads(x, y) && y.lr == x.lr[k..] && y.rl == x.rl && y.l == x.l
    ensures forall c :: (forall j :: 0 <= j < k ==> x.lr[j].local != c) && c in x.r.table ==> c in y.r.table && y.r.table[c] == x.r.table[c]
  {
    var z := Drain(Swap(x), k);
    LeadsMirrors(Swap(x), z);
    y := Swap(z);
    assert Swap(Swap(x)) == x;
  }

  /** Sooner or later something is wrong. */
  ghost predicate Breaks(x: Sys) {
    exists y :: Leads(x, y) && !Sane(y)
  }

  lemma {:induction false} LeadsFurther(x: Sys, zs: seq<Sys>)
    requires Continues(zs) && Leads(x, zs[0])
    ensures Leads(x, zs[|zs| - 1])
  {
    var n := |zs| - 1;
    if n > 0 {
      assert Continues(zs[..n]);
      LeadsFurther(x, zs[..n]);
      LeadsOn(x, zs[n - 1], zs[n]);
    }
  }

  lemma BreaksLater(x: Sys, y: Sys)
    requires Leads(x, y) && Breaks(y)
    ensures Breaks(x)
  {
    var z :| Leads(y, z) && !Sane(z);
    var zs :| Continues(zs) && zs[0] == y && zs[|zs| - 1] == z;
    LeadsFurther(x, zs);
  }

  // ---------------------------------------------------------------- how a claimed id leads to a mix-up

  /** Channel `n` has just been given its id: it waits for the answer to its request, or was accepted for the peer's `a`. */
  ghost predicate JustOpened(y: Sys, n: nat, a: nat) {
    && n != 0 && n in y.l.table && y.l.table[n].remote == a
    && (a == 0 ==> y.l.table[n].status == Opening && y.lr != [] && y.lr[|y.lr| - 1].ptype == OPEN && y.lr[|y.lr| - 1].remote == n)
    && (a != 0 ==> y.l.table[n].status == Open)
  }

  /** A frame that was on its way to the previous owner of the id reaches the new one. */
  lemma OldFrameArrives(y: Sys, n: nat, a: nat, k: nat)
    requires JustOpened(y, n, a) && k < |y.rl| && Concerns(y.rl[k], n, a == 0)
    requires forall j :: 0 <= j < k ==> !Concerns(y.rl[j], n, a == 0)
    requires (IsTraffic(y.rl[k]) && y.rl[k].remote != a) || y.rl[k].ptype == CONFIRMATION
    ensures Breaks(y)
  {
    var z := Drain(y, k);
    assert z.rl[0] == y.rl[k];
    assert a == 0 ==> z.lr[|z.lr| - 1].ptype == OPEN && z.lr[|z.lr| - 1].remote == n;
    assert !Genuine(z);
  }

  /** The partner of the previous owner believes to be bound to the new one. */
  lemma OldPartnerStays(y: Sys, n: nat, a: nat, b: nat)
    requires JustOpened(y, n, a) && b in y.r.table && b != a && y.r.table[b].remote == n
    requires a == 0 ==> forall k :: 0 <= k < |y.rl| ==> y.rl[k].local != n
    ensures Breaks(y)
  {
    LeadsNowhere(y);
    assert Swap(y).l.table[b].remote == n;
    assert !Paired(Swap(y));
  }

  lemma {:induction false} Above(s: set<nat>) returns (m: nat)
    ensures m > 0 && forall i :: i in s ==> i < m
    decreases |s|
  {
    if s == {} {
      m := 1;
    } else {
      var i :| i in s;
      var above := Above(s - {i});
      m := if i < above then above else i + 1;
      assert forall j :: j in s ==> j == i || j in s - {i};
    }
  }

  /** The right end can always draw an id that occurs nowhere. */
  lemma Unused(x: Sys, a: nat) returns (m: nat)
    ensures m > 0 && m != a && m !in x.r.table && Unclaimed(Swap(x), m, true) && Unclaimed(Swap(x), m, false)
  {
    var sent := set k | 0 <= k < |x.lr| :: x.lr[k].local;
    var got := set k | 0 <= k < |x.rl| :: x.rl[k].remote;
    var bound := set c | c in x.l.table :: x.l.table[c].remote;
    m := Above(sent + got + bound + x.r.table.Keys + {a});
    forall k | 0 <= k < |x.lr| ensures x.lr[k].local != m {
      assert x.lr[k].local in sent;
    }
    forall k | 0 <= k < |x.rl| ensures x.rl[k].remote != m {
      assert x.rl[k].remote in got;
    }
    forall c | c in x.l.table ensures x.l.table[c].remote != m {
      assert x.l.table[c].remote in bound;
    }
    assert a in {a};
  }

  /** The right end accepts the request at the head of its link under id `m`. */
  function Accept(m: nat): Act { ReceiveAct(Env(true, Some(m), true, true, true)) }

  lemma AcceptStep(x: Sys, m: nat)
    requires x.rl != [] && x.rl[0].ptype == OPEN && KindOf(x.rl[0].option, true).Some?
    requires m > 0 && m !in x.l.table && Unclaimed(x, m, false)
    ensures Enabled(x, Accept(m))
    ensures var y := StepLeft(x, Accept(m));
            && Step(x, y, true) && y.r == x.r && y.rl == x.rl[1..]
            && m in y.l.table && y.l.table[m].remote == x.rl[0].remote
            && y.lr == x.lr + [Frame(CONFIRMATION, 0, x.rl[0].remote, m, [])]
  {
    var y := StepLeft(x, Accept(m));
    assert Prudent(x, Accept(m));
  }

  lemma AcceptRight(x: Sys, m: nat) returns (y: Sys)
    requires x.lr != [] && x.lr[0].ptype == OPEN && KindOf(x.lr[0].option, true).Some?
    requires m > 0 && m !in x.r.table && Unclaimed(Swap(x), m, false)
    ensures Step(x, y, true) && y.l == x.l && y.lr == x.lr[1..]
    ensures m in y.r.table && y.r.table[m].remote == x.lr[0].remote
    ensures y.rl == x.rl + [Frame(CONFIRMATION, 0, x.lr[0].remote, m, [])]
  {
    AcceptStep(Swap(x), m);
    y := Swap(StepLeft(Swap(x), Accept(m)));
    StepMirrors(Swap(x), Swap(y));
  }

  lemma ConfirmRight(x: Sys) returns (y: Sys)
    requires x.lr != [] && x.lr[0].ptype == CONFIRMATION && x.lr[0].remote != 0
    requires x.lr[0].local in x.r.table && x.r.table[x.lr[0].local].status == Opening
    ensures Step(x, y, true) && y.l == x.l && y.lr == x.lr[1..] && y.rl == x.rl
    ensures x.lr[0].local in y.r.table && y.r.table[x.lr[0].local].remote == x.lr[0].remote
  {
    QuietStep(Swap(x));
    y := Swap(StepLeft(Swap(x), Quiet()));
    StepMirrors(Swap(x), Swap(y));
  }

  /** The peer's `m` was accepted for `n`, which is not waiting for it. */
  lemma AcceptedForNew(w: Sys, n: nat, a: nat, m: nat)
    requires JustOpened(w, n, a) && m in w.r.table && m != a && w.r.table[m].remote == n
    requires a == 0 ==> var k := |w.rl| - 1;
             k >= 0 && w.rl[k] == Frame(CONFIRMATION, 0, n, m, []) && forall j :: 0 <= j < k ==> w.rl[j].local != n
    ensures Breaks(w)
  {
    if a == 0 {
      OldFrameArrives(w, n, a, |w.rl| - 1);
    } else {
      OldPartnerStays(w, n, a, m);
    }
  }

  /** A request of the previous owner is accepted for the new one. */
  lemma OldRequestArrives(y: Sys, n: nat, a: nat, k: nat)
    requires JustOpened(y, n, a) && k < |y.lr| - 1
    requires y.lr[k].ptype == OPEN && KindOf(y.lr[k].option, true).Some? && y.lr[k].remote == n
    requires a == 0 ==> forall j :: 0 <= j < |y.rl| ==> y.rl[j].local != n
    ensures Breaks(y)
  {
    var z := DrainRight(y, k);
    var m := Unused(z, a);
    var w := AcceptRight(z, m);
    LeadsOn(y, z, w);
    assert w.lr[|w.lr| - 1] == y.lr[|y.lr| - 1];
    assert forall j :: 0 <= j < |z.rl| ==> w.rl[j] == z.rl[j];
    AcceptedForNew(w, n, a, m);
    BreaksLater(y, w);
  }

  /** A confirmation of the previous owner binds the peer's channel `b` to the new one. */
  lemma OldConfirmationArrives(y: Sys, n: nat, a: nat, k: nat)
    requires JustOpened(y, n, a) && k < |y.lr| - 1 && y.lr[k].ptype == CONFIRMATION && y.lr[k].remote == n
    requires y.lr[k].local != a && y.lr[k].local in y.r.table && y.r.table[y.lr[k].local].status == Opening
    requires forall j :: 0 <= j < k ==> y.lr[j].local != y.lr[k].local
    requires a == 0 ==> forall j :: 0 <= j < |y.rl| ==> y.rl[j].local != n
    ensures Breaks(y)
  {
    var b := y.lr[k].local;
    var z := DrainRight(y, k);
    assert z.lr[0] == y.lr[k];
    var w := ConfirmRight(z);
    LeadsOn(y, z, w);
    assert w.lr[|w.lr| - 1] == y.lr[|y.lr| - 1];
    OldPartnerStays(w, n, a, b);
    BreaksLater(y, w);
  }

  lemma {:induction false} FirstTo(q: seq<Frame>, n: nat, asking: bool, k: nat) returns (i: nat)
    requires k < |q| && Concerns(q[k], n, asking)
    ensures i <= k && Concerns(q[i], n, asking) && forall j :: 0 <= j < i ==> !Concerns(q[j], n, asking)
  {
    i := k;
    if exists j :: 0 <= j < k && Concerns(q[j], n, asking) {
      var j :| 0 <= j < k && Concerns(q[j], n, asking);
      i := FirstTo(q, n, asking, j);
    }
  }

  /** Whoever claims the id `n`: once it is handed out again, something can go wrong. */
  lemma ClaimedBreaks(z: Sys, y: Sys, n: nat, a: nat)
    requires Inv(z) && n !in z.l.table && !Unclaimed(z, n, a == 0)
    requires y.r == z.r && y.rl == z.rl && |y.lr| == |z.lr| + 1 && y.lr[..|z.lr|] == z.lr && JustOpened(y, n, a)
    requires a != 0 ==> Unheard(z.r, z.l, z.lr, a) && Silent(z.rl, a)
    ensures Breaks(y)
  {
    assert forall k :: 0 <= k < |z.lr| ==> y.lr[k] == z.lr[k];
    if k :| 0 <= k < |z.rl| && Concerns(z.rl[k], n, a == 0) {
      var i := FirstTo(z.rl, n, a == 0, k);
      assert KnownType(z.rl[i]) && TrafficOk(z.r, z.l, z.rl, i) && OpenOk(z.r, z.l, z.rl, z.lr, i);
      OldFrameArrives(y, n, a, i);
    } else if b :| b in z.r.table && z.r.table[b].remote == n {
      OldPartnerStays(y, n, a, b);
    } else {
      var k :| 0 <= k < |z.lr| && Claims(z.r, z.lr[k], n);
      assert KnownType(z.lr[k]);
      if z.lr[k].ptype == OPEN {
        OldRequestArrives(y, n, a, k);
      } else {
        ConfirmationIsFirst(z, k);
        OldConfirmationArrives(y, n, a, k);
      }
    }
  }

  /** No frame to a waiting channel overtakes its confirmation. */
  lemma ConfirmationIsFirst(z: Sys, k: nat)
    requires Inv(z) && k < |z.lr| && z.lr[k].ptype == CONFIRMATION && IsWaiting(z.r, z.lr[k].local)
    ensures forall j :: 0 <= j < k ==> z.lr[j].local != z.lr[k].local
  {
    var b := z.lr[k].local;
    assert ConfirmationOk(z.l, z.r, z.lr, k);
    forall j | 0 <= j < k ensures z.lr[j].local != b {
      assert KnownType(z.lr[j]) && TrafficOk(z.l, z.r, z.lr, j) && OpenOk(z.l, z.r, z.lr, z.rl, j);
      assert forall i :: 0 <= i < j ==> !IsConfirmation(z.lr[i], b, z.lr[j].remote);
    }
  }

  // ---------------------------------------------------------------- the exact condition

  /**
   * Opening a channel under a free id is safe, whatever happens afterwards, iff nobody claims the id.
   */
  lemma OpeningIsSafeIffUnclaimed(x: Sys, n: nat, kind: Kind, cookie: Payload)
    requires Inv(x) && n > 0 && n !in x.l.table
    ensures Unclaimed(x, n, true) <==>
            forall ys :: Continues(ys) && ys[0] == StepLeft(x, OpenAct(kind, cookie, Some(n), true)) ==> Sane(ys[|ys| - 1])
  {
    var act := OpenAct(kind, cookie, Some(n), true);
    var y := StepLeft(x, act);
    if Unclaimed(x, n, true) {
      InvStepLeft(x, act);
      forall ys | Continues(ys) && ys[0] == y ensures Sane(ys[|ys| - 1]) {
        StaysSane(ys);
      }
    } else {
      assert y.lr[|x.lr|] == Frame(OPEN, KindCode(kind), 0, n, cookie);
      ClaimedBreaks(x, y, n, 0);
      BreaksSomewhere(y);
    }
  }

  lemma BreaksSomewhere(y: Sys)
    requires Breaks(y)
    ensures !forall ys :: Continues(ys) && ys[0] == y ==> Sane(ys[|ys| - 1])
  {
    var z :| Leads(y, z) && !Sane(z);
    var ys :| Continues(ys) && ys[0] == y && ys[|ys| - 1] == z;
  }

  /** Accepting a request under a free id is safe, whatever happens afterwards, iff nobody claims the id. */
  lemma AcceptingIsSafeIffUnclaimed(x: Sys, n: nat, worker: bool)
    requires Inv(x) && n > 0 && n !in x.l.table
    requires x.rl != [] && x.rl[0].ptype == OPEN && KindOf(x.rl[0].option, worker).Some?
    ensures Unclaimed(x, n, false) <==>
            forall ys :: Continues(ys) && ys[0] == StepLeft(x, ReceiveAct(Env(worker, Some(n), true, true, true))) ==> Sane(ys[|ys| - 1])
  {
    var act := ReceiveAct(Env(worker, Some(n), true, true, true));
    var y := StepLeft(x, act);
    if Unclaimed(x, n, false) {
      InvStepLeft(x, act);
      forall ys | Continues(ys) && ys[0] == y ensures Sane(ys[|ys| - 1]) {
        StaysSane(ys);
      }
    } else {
      assert OpenOk(x.r, x.l, x.rl, x.lr, 0);
      var z := Popped(x, x.l);
      InvPop(x);
      forall k | 0 <= k < |x.rl| && Concerns(x.rl[k], n, false) ensures k > 0 && z.rl[k - 1] == x.rl[k] {
      }
      assert !Unclaimed(z, n, false);
      ClaimedBreaks(z, y, n, x.rl[0].remote);
      BreaksSomewhere(y);
    }
  }
}
