/**
 * Two multiplexer endpoints joined by two FIFO links.  One API call or one received frame is an
 * atomic step.  The invariant says which channel is bound to which, and that the payloads and
 * flow-control requests of a channel are never lost between bound channels.
 */
module Protocol {
  import opened Wrappers
  import opened Endpoint

  /**
   * An endpoint with the history of its channels; the history never influences a step.  `made` says
   * for which channel of the peer a channel was accepted.
   */
  datatype Peer = Peer(table: Table,
                       written: map<nat, seq<Payload>>,
                       delivered: map<nat, seq<Payload>>,
                       asked: map<nat, Status>,
                       made: map<nat, nat>)

  /** `lr` carries frames from `l` to `r`, `rl` from `r` to `l`. */
  datatype Sys = Sys(l: Peer, r: Peer, lr: seq<Frame>, rl: seq<Frame>)

  datatype Act =
    | OpenAct(kind: Kind, cookie: Payload, alloc: Option<nat>, sendOk: bool)
    | CloseAct(id: nat, sendOk: bool)
    | WriteAct(id: nat, payload: Payload, sendOk: bool)
    | PendAct(id: nat, sendOk: bool)
    | ResumeAct(id: nat, sendOk: bool)
    | CloseAllAct
    | ReceiveAct(env: Env)

  function Swap(x: Sys): Sys { Sys(x.r, x.l, x.rl, x.lr) }

  const Start := Sys(Peer(map[], map[], map[], map[], map[]), Peer(map[], map[], map[], map[], map[]), [], [])

  // ---------------------------------------------------------------- histories

  function Log(m: map<nat, seq<Payload>>, id: nat): seq<Payload> {
    if id in m then m[id] else []
  }

  function Asked(p: Peer, id: nat): Status {
    if id in p.asked then p.asked[id] else Open
  }

  function Forget(p: Peer, id: nat): Peer {
    Peer(p.table, p.written[id := []], p.delivered[id := []], p.asked[id := Open], p.made - {id})
  }

  function Make(p: Peer, id: nat, remote: nat): Peer {
    p.(made := p.made[id := remote])
  }

  function Wrote(p: Peer, id: nat, payload: Payload): Peer {
    p.(written := p.written[id := Log(p.written, id) + [payload]])
  }

  function Ask(p: Peer, id: nat, status: Status): Peer {
    p.(asked := p.asked[id := status])
  }

  function Took(p: Peer, id: nat, payload: Payload): Peer {
    p.(delivered := p.delivered[id := Log(p.delivered, id) + [payload]])
  }

  // ---------------------------------------------------------------- steps of the left endpoint

  function AllocOf(act: Act): Option<nat> {
    match act
    case OpenAct(_, _, alloc, _) => alloc
    case ReceiveAct(env) => env.alloc
    case _ => None
  }

  predicate Enabled(x: Sys, act: Act) {
    && Allocates(x.l.table, AllocOf(act))
    && (act.ReceiveAct? ==> x.rl != [])
  }

  function Effect(x: Sys, act: Act): Outcome
    requires Enabled(x, act)
  {
    var t := x.l.table;
    match act
    case OpenAct(kind, cookie, alloc, sendOk) => OpenChannel(t, kind, cookie, alloc, sendOk)
    case CloseAct(id, sendOk) => CloseChannel(t, id, sendOk)
    case WriteAct(id, payload, sendOk) => WriteChannel(t, id, payload, sendOk)
    case PendAct(id, sendOk) => PendChannel(t, id, sendOk)
    case ResumeAct(id, sendOk) => ResumeChannel(t, id, sendOk)
    case CloseAllAct => Outcome(map[], [], [], Done(0))  // the callbacks come in the order of the hash table
    case ReceiveAct(env) => Receive(t, x.rl[0], env)
  }

  /** What the step adds to the history: a new id starts afresh, calls that succeed and deliveries are logged. */
  function Record(x: Sys, act: Act): Peer
    requires Enabled(x, act)
  {
    var p := x.l;
    var out := Effect(x, act);
    match act
    case OpenAct(_, _, alloc, _) =>
      if alloc.Some? then Forget(p, alloc.value) else p
    case WriteAct(id, payload, _) => if id != 0 && out.rc.Done? then Wrote(p, id, payload) else p
    case PendAct(id, _) => if out.rc.Done? then Ask(p, id, Pending) else p
    case ResumeAct(id, _) => if out.rc.Done? then Ask(p, id, Open) else p
    case ReceiveAct(env) =>
      if x.rl[0].ptype == OPEN && env.alloc.Some? then
        var q := Forget(p, env.alloc.value);
        if env.alloc.value in out.table then Make(q, env.alloc.value, x.rl[0].remote) else q
      else if out.events != [] && out.events[0].Delivered? then Took(p, out.events[0].id, out.events[0].payload)
      else p
    case _ => p
  }

  function StepLeft(x: Sys, act: Act): Sys
    requires Enabled(x, act)
  {
    Sys(Record(x, act).(table := Effect(x, act).table), x.r, x.lr + Effect(x, act).sent,
        if act.ReceiveAct? then x.rl[1..] else x.rl)
  }

  predicate IsWaiting(t: Peer, b: nat) { b in t.table && t.table[b].status == Opening }

  /** A frame from channel `n` that will still have an effect: a request, or a confirmation somebody waits for. */
  predicate Claims(t: Peer, f: Frame, n: nat) {
    f.remote == n && (f.ptype == OPEN || (f.ptype == CONFIRMATION && IsWaiting(t, f.local)))
  }

  /** A frame to channel `n` that will have an effect there: a confirmation has one only on a channel that is `asking`. */
  predicate Concerns(f: Frame, n: nat, asking: bool) {
    f.local == n && (asking || f.ptype != CONFIRMATION)
  }

  /**
   * Nobody takes the left id `n` for a channel: no channel of the peer is bound to it, and neither a
   * frame to it nor a request or confirmation from it that will have an effect is on its way.  `asking`
   * says whether channel `n` is to wait for a confirmation.  Other frames to or from an earlier channel
   * `n` may still be under way; they do nothing.
   */
  ghost predicate Unclaimed(x: Sys, n: nat, asking: bool) {
    && (forall k :: 0 <= k < |x.lr| ==> !Claims(x.r, x.lr[k], n))
    && (forall k :: 0 <= k < |x.rl| ==> !Concerns(x.rl[k], n, asking))
    && (forall b :: b in x.r.table ==> x.r.table[b].remote != n)
  }

  ghost predicate Prudent(x: Sys, act: Act) {
    AllocOf(act).Some? ==> Unclaimed(x, AllocOf(act).value, act.OpenAct?)
  }

  /** A step of either side.  With `prudent`, ids somebody still claims are not handed out. */
  ghost predicate Step(x: Sys, y: Sys, prudent: bool) {
    || (exists act :: Enabled(x, act) && (prudent ==> Prudent(x, act)) && y == StepLeft(x, act))
    || (exists act :: Enabled(Swap(x), act) && (prudent ==> Prudent(Swap(x), act)) && Swap(y) == StepLeft(Swap(x), act))
  }

  ghost predicate Run(xs: seq<Sys>, prudent: bool) {
    && xs != []
    && xs[0] == Start
    && forall i :: 0 <= i < |xs| - 1 ==> Step(xs[i], xs[i + 1], prudent)
  }

  // ---------------------------------------------------------------- frames in flight

  predicate IsConfirmation(f: Frame, a: nat, b: nat) {
    f.ptype == CONFIRMATION && f.local == a && f.remote == b
  }

  /** Data of the stream itself, outside any channel. */
  predicate IsRaw(f: Frame) {
    f.ptype == DATA && f.local == 0 && f.remote == 0
  }

  predicate IsTraffic(f: Frame) {
    (f.ptype == DATA && !IsRaw(f)) || f.ptype == PENDING || f.ptype == RESUME || f.ptype == CLOSE
  }

  predicate ConfirmedBefore(q: seq<Frame>, n: nat, a: nat, b: nat)
    requires n <= |q|
  {
    exists j :: 0 <= j < n && IsConfirmation(q[j], a, b)
  }

  /** Payloads in flight to channel `a`, in order. */
  function DataTo(q: seq<Frame>, a: nat): seq<Payload> {
    if q == [] then []
    else (if q[0].ptype == DATA && q[0].local == a then [q[0].payload] else []) + DataTo(q[1..], a)
  }

  function Apply(status: Status, f: Frame, a: nat): Status {
    if f.local != a then status
    else if f.ptype == PENDING then Pending
    else if f.ptype == RESUME then Open
    else status
  }

  /** Flow-control status of channel `a` once everything in flight has arrived. */
  function StatusAfter(status: Status, q: seq<Frame>, a: nat): Status
    decreases q
  {
    if q == [] then (if status == Opening then Open else status)
    else StatusAfter(Apply(status, q[0], a), q[1..], a)
  }

  lemma {:induction false} DataToAppend(q: seq<Frame>, f: Frame, a: nat)
    ensures DataTo(q + [f], a) == DataTo(q, a) + (if f.ptype == DATA && f.local == a then [f.payload] else [])
  {
    if q == [] {
      assert q + [f] == [f];
      assert DataTo([f][1..], a) == [];
    } else {
      assert (q + [f])[1..] == q[1..] + [f];
      DataToAppend(q[1..], f, a);
    }
  }

  lemma {:induction false} StatusAfterAppend(status: Status, q: seq<Frame>, f: Frame, a: nat)
    ensures StatusAfter(status, q + [f], a) ==
            if f.local == a && f.ptype == PENDING then Pending
            else if f.local == a && f.ptype == RESUME then Open
            else StatusAfter(status, q, a)
    decreases q
  {
    if q == [] {
      assert q + [f] == [f];
      assert StatusAfter(Apply(status, f, a), [f][1..], a) == StatusAfter(Apply(status, f, a), [], a);
    } else {
      assert (q + [f])[1..] == q[1..] + [f];
      StatusAfterAppend(Apply(status, q[0], a), q[1..], f, a);
    }
  }

  lemma {:induction false} NothingTo(status: Status, q: seq<Frame>, a: nat)
    requires forall k :: 0 <= k < |q| ==> !Concerns(q[k], a, false)
    ensures DataTo(q, a) == []
    ensures StatusAfter(status, q, a) == if status == Opening then Open else status
  {
    if q != [] {
      NothingTo(status, q[1..], a);
    }
  }

  // ---------------------------------------------------------------- the invariant

  /** Channel `a` of `s` is bound, or about to be bound by a confirmation in `q`, to `b`. */
  ghost predicate Bound(s: Peer, q: seq<Frame>, a: nat, b: nat) {
    && a in s.table
    && b != 0
    && (s.table[a].remote == b || (s.table[a].status == Opening && ConfirmedBefore(q, |q|, a, b)))
  }

  ghost predicate TableOk(s: Peer) {
    && 0 !in s.table
    && forall a :: a in s.table ==>
         && (s.table[a].status == Opening <==> s.table[a].remote == 0)
         && (s.table[a].status == Opening ==> Log(s.delivered, a) == [])
  }

  /** One of the two channels was accepted for the other. */
  ghost predicate Introduced(s: Peer, t: Peer, a: nat, b: nat) {
    (b in t.made && t.made[b] == a) || (a in s.made && s.made[a] == b)
  }

  /** `q` carries frames from `s` to `t`; `back` the other way. */
  ghost predicate BindingOk(s: Peer, t: Peer, q: seq<Frame>, back: seq<Frame>) {
    && (forall a, b :: Bound(s, back, a, b) ==> Introduced(s, t, a, b))
    && (forall a, b :: Bound(s, back, a, b) && b in t.table ==> Bound(t, q, b, a))
    && (forall a, a', b :: Bound(s, back, a, b) && Bound(s, back, a', b) ==> a == a')
  }

  ghost predicate TrafficOk(s: Peer, t: Peer, q: seq<Frame>, k: nat)
    requires k < |q|
  {
    var b, a := q[k].local, q[k].remote;
    IsTraffic(q[k]) ==>
      && b != 0 && a != 0
      && (b in t.table ==>
            t.table[b].remote == a || (t.table[b].status == Opening && ConfirmedBefore(q, k, b, a)))
  }

  ghost predicate ConfirmationOk(s: Peer, t: Peer, q: seq<Frame>, k: nat)
    requires k < |q|
  {
    var b := q[k].local;
    q[k].ptype == CONFIRMATION && IsWaiting(t, b) ==>
      forall j :: 0 <= j < |q| && q[j].ptype == CONFIRMATION && q[j].local == b ==> j == k
  }

  /** `s` has opened `a`, and nothing but the request in flight knows about it. */
  ghost predicate Unheard(s: Peer, t: Peer, back: seq<Frame>, a: nat) {
    && a != 0
    && (a in s.table ==> s.table[a].status == Opening)
    && (forall j :: 0 <= j < |back| ==> back[j].local != a)
    && (forall b :: b in t.table ==> t.table[b].remote != a)
    && Log(s.written, a) == []
    && Asked(s, a) == Open
  }

  /** A frame that the receiver ignores: nobody is there, or somebody who waits for no confirmation. */
  predicate IsIgnored(t: Peer, f: Frame) {
    f.local !in t.table || (f.ptype == CONFIRMATION && t.table[f.local].status != Opening)
  }

  ghost predicate OpenOk(s: Peer, t: Peer, q: seq<Frame>, back: seq<Frame>, k: nat)
    requires k < |q|
  {
    q[k].ptype == OPEN ==>
      && q[k].local == 0
      && Unheard(s, t, back, q[k].remote)
      && forall j :: 0 <= j < |q| && q[j].remote == q[k].remote && j != k ==>
           j < k && q[j].ptype != OPEN && IsIgnored(t, q[j])
  }

  ghost predicate KnownType(f: Frame) {
    IsTraffic(f) || IsRaw(f) || (f.ptype == OPEN && KindOf(f.option, true).Some?) || f.ptype == CONFIRMATION
  }

  ghost predicate FramesOk(s: Peer, t: Peer, q: seq<Frame>, back: seq<Frame>) {
    forall k :: 0 <= k < |q| ==>
      KnownType(q[k]) && TrafficOk(s, t, q, k) && ConfirmationOk(s, t, q, k) && OpenOk(s, t, q, back, k)
  }

  /** Nothing written by `a` for its partner `b` is lost, and pend/resume requests get through. */
  ghost predicate ConservedFor(s: Peer, t: Peer, q: seq<Frame>, a: nat, b: nat)
    requires b in t.table
  {
    && Log(t.delivered, b) + DataTo(q, b) == Log(s.written, a)
    && StatusAfter(t.table[b].status, q, b) == Asked(s, a)
  }

  ghost predicate Conserved(s: Peer, t: Peer, q: seq<Frame>) {
    forall a, b :: Bound(t, q, b, a) ==> ConservedFor(s, t, q, a, b)
  }

  ghost predicate Half(s: Peer, t: Peer, q: seq<Frame>, back: seq<Frame>) {
    && TableOk(s)
    && BindingOk(s, t, q, back)
    && FramesOk(s, t, q, back)
    && Conserved(s, t, q)
  }

  ghost predicate Inv(x: Sys) {
    Half(x.l, x.r, x.lr, x.rl) && Half(x.r, x.l, x.rl, x.lr)
  }

  // ---------------------------------------------------------------- what keeps the invariant

  function Remove(x: Sys, ids: set<nat>): Sys {
    x.(l := x.l.(table := x.l.table - ids))
  }

  lemma InvRemove(x: Sys, ids: set<nat>)
    requires Inv(x)
    ensures Inv(Remove(x, ids))
  {
    var y := Remove(x, ids);
    assert forall c, b :: Bound(y.l, y.rl, c, b) <==> c !in ids && Bound(x.l, x.rl, c, b);
    assert forall k :: 0 <= k < |x.lr| ==> OpenOk(x.l, x.r, x.lr, x.rl, k);
    assert forall k :: 0 <= k < |x.rl| ==> OpenOk(x.r, x.l, x.rl, x.lr, k);
  }

  lemma ConfirmedAppend(q: seq<Frame>, f: Frame, a: nat, b: nat)
    ensures forall n: nat :: n <= |q| ==> (ConfirmedBefore(q + [f], n, a, b) <==> ConfirmedBefore(q, n, a, b))
    ensures ConfirmedBefore(q + [f], |q| + 1, a, b) <==> ConfirmedBefore(q, |q|, a, b) || IsConfirmation(f, a, b)
  {
    forall n: nat | n <= |q|
      ensures ConfirmedBefore(q + [f], n, a, b) <==> ConfirmedBefore(q, n, a, b)
    {
      assert forall j :: 0 <= j < n ==> (q + [f])[j] == q[j];
    }
    assert (q + [f])[|q|] == f;
    if ConfirmedBefore(q, |q|, a, b) {
      var j :| 0 <= j < |q| && IsConfirmation(q[j], a, b);
      assert IsConfirmation((q + [f])[j], a, b);
    }
    if ConfirmedBefore(q + [f], |q| + 1, a, b) {
      var j :| 0 <= j < |q| + 1 && IsConfirmation((q + [f])[j], a, b);
      assert j < |q| ==> IsConfirmation(q[j], a, b);
    }
  }

  /** A frame for channel `b`, other than a confirmation, leaves every binding as it was. */
  lemma BoundAppend(t: Peer, q: seq<Frame>, f: Frame)
    requires f.ptype != CONFIRMATION || IsIgnored(t, f) || f.remote == 0
    ensures forall b, a :: Bound(t, q + [f], b, a) <==> Bound(t, q, b, a)
  {
    forall b, a ensures Bound(t, q + [f], b, a) <==> Bound(t, q, b, a) {
      ConfirmedAppend(q, f, b, a);
    }
  }

  /** Old frames keep their promises when a frame is appended behind them. */
  lemma FramesAppend(s: Peer, t: Peer, q: seq<Frame>, back: seq<Frame>, f: Frame)
    requires FramesOk(s, t, q, back)
    requires f.ptype == CONFIRMATION && IsWaiting(t, f.local) ==> forall k :: 0 <= k < |q| ==> q[k].local != f.local
    requires forall k :: 0 <= k < |q| && q[k].ptype == OPEN ==> q[k].remote != f.remote
    requires KnownType(f) && TrafficOk(s, t, q + [f], |q|) && OpenOk(s, t, q + [f], back, |q|)
    ensures FramesOk(s, t, q + [f], back)
  {
    var q' := q + [f];
    forall k | 0 <= k < |q|
      ensures KnownType(q'[k]) && TrafficOk(s, t, q', k) && ConfirmationOk(s, t, q', k) && OpenOk(s, t, q', back, k)
    {
      assert q'[k] == q[k];
      assert TrafficOk(s, t, q, k) && ConfirmationOk(s, t, q, k) && OpenOk(s, t, q, back, k);
      ConfirmedAppend(q, f, q[k].local, q[k].remote);
      assert f.ptype == CONFIRMATION && f.local == q[k].local ==> !IsWaiting(t, f.local);
    }
    assert q'[|q|] == f;
    assert ConfirmationOk(s, t, q', |q|);
  }

  lemma ConservedAppend(s: Peer, s': Peer, t: Peer, q: seq<Frame>, f: Frame, a: nat, b: nat)
    requires b in t.table && ConservedFor(s, t, q, a, b)
    requires Log(s'.written, a) == Log(s.written, a) + if f.ptype == DATA && f.local == b then [f.payload] else []
    requires Asked(s', a) == if f.local == b && f.ptype == PENDING then Pending
                             else if f.local == b && f.ptype == RESUME then Open
                             else Asked(s, a)
    ensures ConservedFor(s', t, q + [f], a, b)
  {
    DataToAppend(q, f, b);
    StatusAfterAppend(t.table[b].status, q, f, b);
  }

  /** A channel is bound to one partner at most. */
  lemma BoundOnce(s: Peer, t: Peer, q: seq<Frame>, back: seq<Frame>, b: nat, a: nat, a': nat)
    requires TableOk(t) && FramesOk(s, t, q, back)
    requires Bound(t, q, b, a) && Bound(t, q, b, a')
    ensures a == a'
  {
    if t.table[b].status == Opening {
      var i :| 0 <= i < |q| && IsConfirmation(q[i], b, a);
      var j :| 0 <= j < |q| && IsConfirmation(q[j], b, a');
      assert ConfirmationOk(s, t, q, i);
    }
  }

  ghost function Sent(x: Sys, p: Peer, f: Frame): Sys {
    x.(l := p, lr := x.lr + [f])
  }

  ghost predicate TrafficFrom(x: Sys, f: Frame) {
    IsTraffic(f) && f.local != 0 && f.remote in x.l.table && x.l.table[f.remote].remote == f.local
  }

  function Logged(p: Peer, f: Frame): Peer {
    if f.ptype == DATA then Wrote(p, f.remote, f.payload)
    else if f.ptype == PENDING then Ask(p, f.remote, Pending)
    else if f.ptype == RESUME then Ask(p, f.remote, Open)
    else p
  }

  lemma TrafficFrames(x: Sys, f: Frame)
    requires Inv(x) && TrafficFrom(x, f)
    ensures FramesOk(Logged(x.l, f), x.r, x.lr + [f], x.rl)
  {
    var p := Logged(x.l, f);
    assert Bound(x.l, x.rl, f.remote, f.local);
    forall k | 0 <= k < |x.lr|
      ensures OpenOk(p, x.r, x.lr, x.rl, k) && (x.lr[k].ptype == OPEN ==> x.lr[k].remote != f.remote)
    {
      assert OpenOk(x.l, x.r, x.lr, x.rl, k);
    }
    assert FramesOk(p, x.r, x.lr, x.rl) by {
      assert forall k :: 0 <= k < |x.lr| ==> TrafficOk(x.l, x.r, x.lr, k) && ConfirmationOk(x.l, x.r, x.lr, k);
    }
    ConfirmedAppend(x.lr, f, f.local, f.remote);
    FramesAppend(p, x.r, x.lr, x.rl, f);
  }

  /** The traffic concerns either both or neither of two channels that are bound. */
  lemma TrafficOfPair(x: Sys, f: Frame, a: nat, b: nat)
    requires Inv(x) && TrafficFrom(x, f) && Bound(x.r, x.lr, b, a)
    ensures b == f.local <==> a == f.remote
  {
    assert Bound(x.l, x.rl, f.remote, f.local);
    if b == f.local {
      BoundOnce(x.l, x.r, x.lr, x.rl, b, a, f.remote);
    }
    if a == f.remote {
      assert Bound(x.l, x.rl, a, b);
    }
  }

  lemma TrafficConserved(x: Sys, f: Frame)
    requires Inv(x) && TrafficFrom(x, f)
    ensures Conserved(Logged(x.l, f), x.r, x.lr + [f])
  {
    var p := Logged(x.l, f);
    BoundAppend(x.r, x.lr, f);
    forall a, b | Bound(x.r, x.lr + [f], b, a) ensures ConservedFor(p, x.r, x.lr + [f], a, b) {
      TrafficOfPair(x, f, a, b);
      ConservedAppend(x.l, p, x.r, x.lr, f, a, b);
    }
  }

  /** The other direction is not concerned. */
  lemma TrafficOtherFrames(x: Sys, f: Frame)
    requires Inv(x) && TrafficFrom(x, f)
    ensures FramesOk(x.r, Logged(x.l, f), x.rl, x.lr + [f])
  {
    var p := Logged(x.l, f);
    forall k | 0 <= k < |x.rl|
      ensures TrafficOk(x.r, p, x.rl, k) && ConfirmationOk(x.r, p, x.rl, k) && OpenOk(x.r, p, x.rl, x.lr + [f], k)
    {
      assert TrafficOk(x.r, x.l, x.rl, k) && ConfirmationOk(x.r, x.l, x.rl, k) && OpenOk(x.r, x.l, x.rl, x.lr, k);
    }
  }

  lemma TrafficOther(x: Sys, f: Frame)
    requires Inv(x) && TrafficFrom(x, f)
    ensures Half(x.r, Logged(x.l, f), x.rl, x.lr + [f])
  {
    var p := Logged(x.l, f);
    TrafficOtherFrames(x, f);
    BoundAppend(x.r, x.lr, f);
    assert forall c, b :: Bound(p, x.rl, c, b) <==> Bound(x.l, x.rl, c, b);
    forall a, b | Bound(p, x.rl, b, a) ensures ConservedFor(x.r, p, x.rl, a, b) {
      assert ConservedFor(x.r, x.l, x.rl, a, b);
    }
  }

  /** Traffic on a bound channel. */
  lemma InvTraffic(x: Sys, f: Frame)
    requires Inv(x) && TrafficFrom(x, f)
    ensures Inv(Sent(x, Logged(x.l, f), f))
  {
    TrafficFrames(x, f);
    TrafficConserved(x, f);
    TrafficOther(x, f);
    BoundAppend(x.r, x.lr, f);
    var p := Logged(x.l, f);
    assert forall c, b :: Bound(p, x.rl, c, b) <==> Bound(x.l, x.rl, c, b);
  }

  /** Data of the stream itself concerns no channel. */
  lemma InvRaw(x: Sys, f: Frame)
    requires Inv(x) && IsRaw(f)
    ensures Inv(Sent(x, x.l, f))
  {
    var y := Sent(x, x.l, f);
    BoundAppend(x.r, x.lr, f);
    forall k | 0 <= k < |x.lr| && x.lr[k].ptype == OPEN ensures x.lr[k].remote != f.remote {
      assert OpenOk(x.l, x.r, x.lr, x.rl, k);
    }
    FramesAppend(x.l, x.r, x.lr, x.rl, f);
    forall k | 0 <= k < |x.rl| ensures OpenOk(x.r, x.l, x.rl, y.lr, k) {
      assert OpenOk(x.r, x.l, x.rl, x.lr, k);
    }
    forall a, b | Bound(y.r, y.lr, b, a) ensures ConservedFor(y.l, y.r, y.lr, a, b) {
      ConservedAppend(x.l, x.l, x.r, x.lr, f, a, b);
    }
  }

  ghost predicate CanForget(x: Sys, n: nat) {
    Inv(x) && n != 0 && n !in x.l.table && Unclaimed(x, n, false)
  }

  lemma ForgetFrames(x: Sys, n: nat)
    requires CanForget(x, n)
    ensures FramesOk(Forget(x.l, n), x.r, x.lr, x.rl) && FramesOk(x.r, Forget(x.l, n), x.rl, x.lr)
  {
    var p := Forget(x.l, n);
    forall k | 0 <= k < |x.lr|
      ensures TrafficOk(p, x.r, x.lr, k) && ConfirmationOk(p, x.r, x.lr, k) && OpenOk(p, x.r, x.lr, x.rl, k)
    {
      assert TrafficOk(x.l, x.r, x.lr, k) && ConfirmationOk(x.l, x.r, x.lr, k) && OpenOk(x.l, x.r, x.lr, x.rl, k);
    }
    forall k | 0 <= k < |x.rl|
      ensures TrafficOk(x.r, p, x.rl, k) && ConfirmationOk(x.r, p, x.rl, k) && OpenOk(x.r, p, x.rl, x.lr, k)
    {
      assert TrafficOk(x.r, x.l, x.rl, k) && ConfirmationOk(x.r, x.l, x.rl, k) && OpenOk(x.r, x.l, x.rl, x.lr, k);
    }
  }

  /** Nobody is bound, or about to be bound, to such an id. */
  lemma UnclaimedUnbound(x: Sys, n: nat, asking: bool, b: nat)
    requires Unclaimed(x, n, asking)
    ensures !Bound(x.r, x.lr, b, n)
  {
  }

  lemma ForgetConserved(x: Sys, n: nat)
    requires CanForget(x, n)
    ensures Conserved(Forget(x.l, n), x.r, x.lr) && Conserved(x.r, Forget(x.l, n), x.rl)
  {
    var p := Forget(x.l, n);
    forall a, b | Bound(x.r, x.lr, b, a) ensures ConservedFor(p, x.r, x.lr, a, b) {
      UnclaimedUnbound(x, n, false, b);
      assert ConservedFor(x.l, x.r, x.lr, a, b);
    }
    forall a, b | Bound(p, x.rl, b, a) ensures ConservedFor(x.r, p, x.rl, a, b) {
      assert Bound(x.l, x.rl, b, a) && ConservedFor(x.r, x.l, x.rl, a, b);
    }
  }

  lemma ForgetBindings(x: Sys, n: nat)
    requires CanForget(x, n)
    ensures BindingOk(Forget(x.l, n), x.r, x.lr, x.rl) && BindingOk(x.r, Forget(x.l, n), x.rl, x.lr)
  {
    var p := Forget(x.l, n);
    assert forall c, b :: Bound(p, x.rl, c, b) <==> Bound(x.l, x.rl, c, b);
    forall b ensures !Bound(x.r, x.lr, b, n) {
      UnclaimedUnbound(x, n, false, b);
    }
  }

  /** The history of an id nobody mentions can be dropped. */
  lemma InvForget(x: Sys, n: nat)
    requires CanForget(x, n)
    ensures Inv(x.(l := Forget(x.l, n)))
  {
    ForgetFrames(x, n);
    ForgetConserved(x, n);
    ForgetBindings(x, n);
  }

  /** A channel opened from this side: it exists, and only the request in flight knows about it. */
  function WithRequest(x: Sys, n: nat, kind: Kind, cookie: Payload): Sys {
    x.(l := x.l.(table := x.l.table[n := Chan(kind, 0, Opening)]),
       lr := x.lr + [Frame(OPEN, KindCode(kind), 0, n, cookie)])
  }

  lemma OpenFramesOut(x: Sys, n: nat, kind: Kind, cookie: Payload)
    requires Inv(x) && n != 0 && n !in x.l.table && Unclaimed(x, n, true)
    requires Log(x.l.written, n) == [] && Asked(x.l, n) == Open
    ensures FramesOk(WithRequest(x, n, kind, cookie).l, x.r, WithRequest(x, n, kind, cookie).lr, x.rl)
  {
    var y := WithRequest(x, n, kind, cookie);
    forall k | 0 <= k < |x.lr|
      ensures TrafficOk(y.l, x.r, x.lr, k) && ConfirmationOk(y.l, x.r, x.lr, k) && OpenOk(y.l, x.r, x.lr, x.rl, k)
    {
      assert TrafficOk(x.l, x.r, x.lr, k) && ConfirmationOk(x.l, x.r, x.lr, k) && OpenOk(x.l, x.r, x.lr, x.rl, k);
    }
    FramesAppend(y.l, x.r, x.lr, x.rl, Frame(OPEN, KindCode(kind), 0, n, cookie));
  }

  lemma OpenFramesIn(x: Sys, n: nat, kind: Kind, cookie: Payload)
    requires Inv(x) && n != 0 && n !in x.l.table && Unclaimed(x, n, true)
    ensures FramesOk(x.r, WithRequest(x, n, kind, cookie).l, x.rl, WithRequest(x, n, kind, cookie).lr)
  {
    var y := WithRequest(x, n, kind, cookie);
    forall k | 0 <= k < |x.rl|
      ensures TrafficOk(x.r, y.l, x.rl, k) && ConfirmationOk(x.r, y.l, x.rl, k) && OpenOk(x.r, y.l, x.rl, y.lr, k)
    {
      assert TrafficOk(x.r, x.l, x.rl, k) && ConfirmationOk(x.r, x.l, x.rl, k) && OpenOk(x.r, x.l, x.rl, x.lr, k);
    }
  }

  lemma OpenBindings(x: Sys, n: nat, kind: Kind, cookie: Payload)
    requires Inv(x) && n != 0 && n !in x.l.table && Unclaimed(x, n, true)
    ensures var y := WithRequest(x, n, kind, cookie);
            && (forall c, b :: Bound(y.l, x.rl, c, b) <==> Bound(x.l, x.rl, c, b))
            && (forall b, c :: Bound(x.r, y.lr, b, c) <==> Bound(x.r, x.lr, b, c))
            && BindingOk(y.l, x.r, y.lr, x.rl) && BindingOk(x.r, y.l, x.rl, y.lr)
  {
    var y := WithRequest(x, n, kind, cookie);
    BoundAppend(x.r, x.lr, Frame(OPEN, KindCode(kind), 0, n, cookie));
    assert forall b :: !ConfirmedBefore(x.rl, |x.rl|, n, b);
    assert forall c, b :: Bound(y.l, x.rl, c, b) <==> Bound(x.l, x.rl, c, b);
    forall b ensures !Bound(x.r, x.lr, b, n) {
      UnclaimedUnbound(x, n, true, b);
    }
  }

  lemma InvOpen(x: Sys, n: nat, kind: Kind, cookie: Payload)
    requires Inv(x) && n != 0 && n !in x.l.table && Unclaimed(x, n, true)
    requires Log(x.l.written, n) == [] && Log(x.l.delivered, n) == [] && Asked(x.l, n) == Open
    ensures Inv(WithRequest(x, n, kind, cookie))
  {
    var y := WithRequest(x, n, kind, cookie);
    var f := Frame(OPEN, KindCode(kind), 0, n, cookie);
    OpenFramesOut(x, n, kind, cookie);
    OpenFramesIn(x, n, kind, cookie);
    OpenBindings(x, n, kind, cookie);
    forall a, b | Bound(y.r, y.lr, b, a) ensures ConservedFor(y.l, y.r, y.lr, a, b) {
      ConservedAppend(x.l, y.l, x.r, x.lr, f, a, b);
    }
    forall a, b | Bound(y.l, y.rl, b, a) ensures ConservedFor(y.r, y.l, y.rl, a, b) {
      assert ConservedFor(x.r, x.l, x.rl, a, b);
    }
  }

  /** No frame coming from the other side was sent by its channel `a`. */
  ghost predicate Silent(q: seq<Frame>, a: nat) {
    forall k :: 0 <= k < |q| ==> q[k].remote != a
  }

  lemma {:induction false} OpeningCountsAsOpen(q: seq<Frame>, a: nat)
    ensures StatusAfter(Opening, q, a) == StatusAfter(Open, q, a)
  {
    if q != [] && Apply(Opening, q[0], a) == Opening {
      OpeningCountsAsOpen(q[1..], a);
    }
  }

  /** A refusal: the confirmation carries channel id 0. */
  lemma InvRefuse(x: Sys, a: nat)
    requires Inv(x)
    requires a != 0 ==> Unheard(x.r, x.l, x.lr, a) && Silent(x.rl, a)
    ensures Inv(Sent(x, x.l, Frame(CONFIRMATION, 0, a, 0, [])))
  {
    var f := Frame(CONFIRMATION, 0, a, 0, []);
    var y := Sent(x, x.l, f);
    BoundAppend(x.r, x.lr, f);
    forall k | 0 <= k < |x.lr| && x.lr[k].ptype == OPEN ensures x.lr[k].remote != f.remote {
      assert OpenOk(x.l, x.r, x.lr, x.rl, k);
    }
    FramesAppend(x.l, x.r, x.lr, x.rl, f);
    forall k | 0 <= k < |x.rl|
      ensures TrafficOk(x.r, x.l, x.rl, k) && ConfirmationOk(x.r, x.l, x.rl, k) && OpenOk(x.r, x.l, x.rl, y.lr, k)
    {
      assert OpenOk(x.r, x.l, x.rl, x.lr, k);
    }
    forall a', b | Bound(y.r, y.lr, b, a') ensures ConservedFor(y.l, y.r, y.lr, a', b) {
      ConservedAppend(x.l, x.l, x.r, x.lr, f, a', b);
    }
  }

  /** A channel opened by the peer's `a`, with its confirmation on the way back. */
  function WithAccepted(x: Sys, n: nat, kind: Kind, a: nat): Sys {
    x.(l := Make(x.l.(table := x.l.table[n := Chan(kind, a, Open)]), n, a),
       lr := x.lr + [Frame(CONFIRMATION, 0, a, n, [])])
  }

  ghost predicate CanAccept(x: Sys, n: nat, a: nat) {
    && n != 0 && n !in x.l.table && Unclaimed(x, n, false)
    && Log(x.l.written, n) == [] && Log(x.l.delivered, n) == [] && Asked(x.l, n) == Open
    && Unheard(x.r, x.l, x.lr, a) && Silent(x.rl, a)
  }

  lemma AcceptBindings(x: Sys, n: nat, kind: Kind, a: nat)
    requires Inv(x) && CanAccept(x, n, a)
    ensures forall c, b :: Bound(WithAccepted(x, n, kind, a).l, x.rl, c, b) <==> (Bound(x.l, x.rl, c, b) || (c == n && b == a))
    ensures forall b, c :: Bound(x.r, WithAccepted(x, n, kind, a).lr, b, c) <==>
                           (Bound(x.r, x.lr, b, c) || (b == a && c == n && a in x.r.table))
    ensures forall c :: !Bound(x.l, x.rl, c, a) && !Bound(x.r, x.lr, c, n) && !Bound(x.l, x.rl, n, c) && !Bound(x.r, x.lr, a, c)
  {
    var y := WithAccepted(x, n, kind, a);
    forall b, c
      ensures Bound(x.r, y.lr, b, c) <==> (Bound(x.r, x.lr, b, c) || (b == a && c == n && a in x.r.table))
    {
      ConfirmedAppend(x.lr, Frame(CONFIRMATION, 0, a, n, []), b, c);
    }
  }

  lemma AcceptFrames(x: Sys, n: nat, kind: Kind, a: nat)
    requires Inv(x) && CanAccept(x, n, a)
    ensures FramesOk(WithAccepted(x, n, kind, a).l, x.r, WithAccepted(x, n, kind, a).lr, x.rl)
    ensures FramesOk(x.r, WithAccepted(x, n, kind, a).l, x.rl, WithAccepted(x, n, kind, a).lr)
  {
    var y := WithAccepted(x, n, kind, a);
    forall k | 0 <= k < |x.lr|
      ensures TrafficOk(y.l, x.r, x.lr, k) && ConfirmationOk(y.l, x.r, x.lr, k) && OpenOk(y.l, x.r, x.lr, x.rl, k)
    {
      assert TrafficOk(x.l, x.r, x.lr, k) && ConfirmationOk(x.l, x.r, x.lr, k) && OpenOk(x.l, x.r, x.lr, x.rl, k);
    }
    FramesAppend(y.l, x.r, x.lr, x.rl, Frame(CONFIRMATION, 0, a, n, []));
    forall k | 0 <= k < |x.rl|
      ensures TrafficOk(x.r, y.l, x.rl, k) && ConfirmationOk(x.r, y.l, x.rl, k) && OpenOk(x.r, y.l, x.rl, y.lr, k)
    {
      assert TrafficOk(x.r, x.l, x.rl, k) && ConfirmationOk(x.r, x.l, x.rl, k) && OpenOk(x.r, x.l, x.rl, x.lr, k);
    }
  }

  lemma AcceptConserved(x: Sys, n: nat, kind: Kind, a: nat)
    requires Inv(x) && CanAccept(x, n, a)
    ensures Conserved(WithAccepted(x, n, kind, a).l, x.r, WithAccepted(x, n, kind, a).lr)
    ensures Conserved(x.r, WithAccepted(x, n, kind, a).l, x.rl)
  {
    var y := WithAccepted(x, n, kind, a);
    AcceptBindings(x, n, kind, a);
    forall c, b | Bound(y.r, y.lr, b, c) ensures ConservedFor(y.l, y.r, y.lr, c, b) {
      if b == a && c == n {
        NothingTo(Opening, x.lr, a);
        assert ConservedFor(x.l, x.r, x.lr, n, a);
      }
      ConservedAppend(x.l, y.l, x.r, x.lr, Frame(CONFIRMATION, 0, a, n, []), c, b);
    }
    forall c, b | Bound(y.l, y.rl, b, c) ensures ConservedFor(y.r, y.l, y.rl, c, b) {
      if b == n {
        NothingTo(Open, x.rl, n);
      } else {
        assert ConservedFor(x.r, x.l, x.rl, c, b);
      }
    }
  }

  lemma InvAccept(x: Sys, n: nat, kind: Kind, a: nat)
    requires Inv(x) && CanAccept(x, n, a)
    ensures Inv(WithAccepted(x, n, kind, a))
  {
    AcceptBindings(x, n, kind, a);
    AcceptFrames(x, n, kind, a);
    AcceptConserved(x, n, kind, a);
  }

  lemma ConfirmedPop(q: seq<Frame>, a: nat, b: nat)
    requires q != []
    ensures forall n: nat :: n < |q| && !IsConfirmation(q[0], a, b) ==>
              (ConfirmedBefore(q[1..], n, a, b) <==> ConfirmedBefore(q, n + 1, a, b))
  {
    forall n: nat | n < |q| && !IsConfirmation(q[0], a, b)
      ensures ConfirmedBefore(q[1..], n, a, b) <==> ConfirmedBefore(q, n + 1, a, b)
    {
      if ConfirmedBefore(q[1..], n, a, b) {
        var j :| 0 <= j < n && IsConfirmation(q[1..][j], a, b);
        assert IsConfirmation(q[j + 1], a, b);
      }
      if ConfirmedBefore(q, n + 1, a, b) {
        var j :| 0 <= j < n + 1 && IsConfirmation(q[j], a, b);
        assert IsConfirmation(q[1..][j - 1], a, b);
      }
    }
  }

  /** The first frame is consumed; `l'` is the receiver afterwards. */
  function Popped(x: Sys, l': Peer): Sys
    requires x.rl != []
  {
    x.(l := l', rl := x.rl[1..])
  }

  /** Channels of `p` keep their peers and their waiting confirmations. */
  ghost predicate SameBindings(x: Sys, p: Peer)
    requires x.rl != []
  {
    && p.written == x.l.written && p.asked == x.l.asked && p.made == x.l.made
    && p.table.Keys == x.l.table.Keys
    && forall c :: c in p.table ==>
         && p.table[c].remote == x.l.table[c].remote
         && (p.table[c].status == Opening <==> x.l.table[c].status == Opening)
         && (p.table[c].status == Opening ==> Log(p.delivered, c) == Log(x.l.delivered, c))
         && (x.rl[0].ptype == CONFIRMATION && p.table[c].status == Opening ==> c != x.rl[0].local)
  }

  lemma PopBindings(x: Sys, p: Peer)
    requires Inv(x) && x.rl != [] && SameBindings(x, p)
    ensures TableOk(p)
    ensures forall c, b :: Bound(p, x.rl[1..], c, b) <==> Bound(x.l, x.rl, c, b)
    ensures FramesOk(p, x.r, x.lr, x.rl[1..]) && FramesOk(x.r, p, x.rl[1..], x.lr)
  {
    var q := x.rl[1..];
    forall c, b ensures Bound(p, q, c, b) <==> Bound(x.l, x.rl, c, b) {
      ConfirmedPop(x.rl, c, b);
    }
    forall k | 0 <= k < |x.lr|
      ensures TrafficOk(p, x.r, x.lr, k) && ConfirmationOk(p, x.r, x.lr, k) && OpenOk(p, x.r, x.lr, q, k)
    {
      assert TrafficOk(x.l, x.r, x.lr, k) && ConfirmationOk(x.l, x.r, x.lr, k) && OpenOk(x.l, x.r, x.lr, x.rl, k);
    }
    forall k | 0 <= k < |q|
      ensures KnownType(q[k]) && TrafficOk(x.r, p, q, k) && ConfirmationOk(x.r, p, q, k) && OpenOk(x.r, p, q, x.lr, k)
    {
      assert q[k] == x.rl[k + 1];
      assert TrafficOk(x.r, x.l, x.rl, k + 1) && ConfirmationOk(x.r, x.l, x.rl, k + 1) && OpenOk(x.r, x.l, x.rl, x.lr, k + 1);
      ConfirmedPop(x.rl, q[k].local, q[k].remote);
    }
  }

  lemma PopConserved(x: Sys, a: nat, b: nat)
    requires x.rl != [] && IsIgnored(x.l, x.rl[0]) && b in x.l.table && ConservedFor(x.r, x.l, x.rl, a, b)
    ensures ConservedFor(x.r, x.l, x.rl[1..], a, b)
  {
    assert DataTo(x.rl, b) == DataTo(x.rl[1..], b);
  }

  /** A frame for nobody here, and a confirmation nobody waits for, are dropped. */
  lemma InvPop(x: Sys)
    requires Inv(x) && x.rl != [] && IsIgnored(x.l, x.rl[0])
    ensures Inv(Popped(x, x.l))
  {
    PopBindings(x, x.l);
    forall a, b | Bound(x.l, x.rl[1..], b, a) ensures ConservedFor(x.r, x.l, x.rl[1..], a, b) {
      PopConserved(x, a, b);
    }
  }

  /** Traffic reaches a channel that is no longer opening. */
  lemma TrafficFindsChannelOpen(x: Sys)
    requires Inv(x) && x.rl != [] && IsTraffic(x.rl[0]) && x.rl[0].local in x.l.table
    ensures x.l.table[x.rl[0].local].status != Opening
    ensures x.l.table[x.rl[0].local].remote == x.rl[0].remote
  {
    assert TrafficOk(x.r, x.l, x.rl, 0);
  }

  function Arrived(p: Peer, f: Frame): Peer
    requires f.local in p.table
  {
    var id := f.local;
    var p := p.(table := p.table[id := p.table[id].(status := Apply(p.table[id].status, f, id))]);
    if f.ptype == DATA then Took(p, id, f.payload) else p
  }

  lemma ArriveConserved(x: Sys, a: nat, b: nat)
    requires x.rl != [] && x.rl[0].local in x.l.table && IsTraffic(x.rl[0])
    requires x.l.table[x.rl[0].local].status != Opening
    requires b in x.l.table && ConservedFor(x.r, x.l, x.rl, a, b)
    ensures ConservedFor(x.r, Arrived(x.l, x.rl[0]), x.rl[1..], a, b)
  {
    var f, p := x.rl[0], Arrived(x.l, x.rl[0]);
    assert DataTo(x.rl, b) == (if f.ptype == DATA && f.local == b then [f.payload] else []) + DataTo(x.rl[1..], b);
    assert p.table[b].status == Apply(x.l.table[b].status, f, b);
  }

  lemma ArriveUnchanged(x: Sys)
    requires x.rl != [] && x.rl[0].local in x.l.table && IsTraffic(x.rl[0])
    requires x.l.table[x.rl[0].local].status != Opening
    ensures SameBindings(x, Arrived(x.l, x.rl[0]))
  {
  }

  lemma InvArrive(x: Sys)
    requires Inv(x) && x.rl != [] && IsTraffic(x.rl[0]) && x.rl[0].local in x.l.table
    ensures Inv(Popped(x, Arrived(x.l, x.rl[0])))
  {
    var p := Arrived(x.l, x.rl[0]);
    TrafficFindsChannelOpen(x);
    ArriveUnchanged(x);
    PopBindings(x, p);
    forall a, b | Bound(p, x.rl[1..], b, a) ensures ConservedFor(x.r, p, x.rl[1..], a, b) {
      ArriveConserved(x, a, b);
    }
    assert Conserved(p, x.r, x.lr) by {
      assert Conserved(x.l, x.r, x.lr);
    }
    assert BindingOk(p, x.r, x.lr, x.rl[1..]) && BindingOk(x.r, p, x.rl[1..], x.lr) by {
      assert BindingOk(x.l, x.r, x.lr, x.rl) && BindingOk(x.r, x.l, x.rl, x.lr);
    }
  }

  /** The confirmation that binds an opening channel. */
  function Confirmed(p: Peer, f: Frame): Peer
    requires f.local in p.table
  {
    p.(table := p.table[f.local := p.table[f.local].(status := Open, remote := f.remote)])
  }

  lemma ConfirmBindings(x: Sys)
    requires Inv(x) && x.rl != [] && x.rl[0].ptype == CONFIRMATION && x.rl[0].remote != 0
    requires IsWaiting(x.l, x.rl[0].local)
    ensures forall c, b :: Bound(Confirmed(x.l, x.rl[0]), x.rl[1..], c, b) <==> Bound(x.l, x.rl, c, b)
  {
    var f, q := x.rl[0], x.rl[1..];
    var p := Confirmed(x.l, f);
    assert ConfirmationOk(x.r, x.l, x.rl, 0);
    forall c, b ensures Bound(p, q, c, b) <==> Bound(x.l, x.rl, c, b) {
      ConfirmedPop(x.rl, c, b);
      if c == f.local && b == f.remote {
        assert IsConfirmation(x.rl[0], c, b);
      } else if c == f.local && Bound(x.l, x.rl, c, b) {
        BoundOnce(x.r, x.l, x.rl, x.lr, c, b, f.remote);
      }
    }
  }

  lemma ConfirmFrames(x: Sys)
    requires Inv(x) && x.rl != [] && x.rl[0].ptype == CONFIRMATION && x.rl[0].remote != 0
    requires IsWaiting(x.l, x.rl[0].local)
    ensures FramesOk(Confirmed(x.l, x.rl[0]), x.r, x.lr, x.rl[1..])
    ensures FramesOk(x.r, Confirmed(x.l, x.rl[0]), x.rl[1..], x.lr)
  {
    var f, q := x.rl[0], x.rl[1..];
    var p := Confirmed(x.l, f);
    assert ConfirmationOk(x.r, x.l, x.rl, 0);
    forall k | 0 <= k < |x.lr|
      ensures TrafficOk(p, x.r, x.lr, k) && ConfirmationOk(p, x.r, x.lr, k) && OpenOk(p, x.r, x.lr, q, k)
    {
      assert TrafficOk(x.l, x.r, x.lr, k) && ConfirmationOk(x.l, x.r, x.lr, k) && OpenOk(x.l, x.r, x.lr, x.rl, k);
    }
    forall k | 0 <= k < |q|
      ensures KnownType(q[k]) && TrafficOk(x.r, p, q, k) && ConfirmationOk(x.r, p, q, k) && OpenOk(x.r, p, q, x.lr, k)
    {
      assert q[k] == x.rl[k + 1];
      assert TrafficOk(x.r, x.l, x.rl, k + 1) && ConfirmationOk(x.r, x.l, x.rl, k + 1) && OpenOk(x.r, x.l, x.rl, x.lr, k + 1);
      ConfirmedPop(x.rl, q[k].local, q[k].remote);
      if IsTraffic(q[k]) && q[k].local == f.local {
        var j :| 0 <= j < k + 1 && IsConfirmation(x.rl[j], f.local, q[k].remote);
      }
    }
  }

  lemma ConfirmConservedFor(x: Sys, a: nat, b: nat)
    requires x.rl != [] && x.rl[0].ptype == CONFIRMATION && IsWaiting(x.l, x.rl[0].local)
    requires b in x.l.table && ConservedFor(x.r, x.l, x.rl, a, b)
    ensures ConservedFor(x.r, Confirmed(x.l, x.rl[0]), x.rl[1..], a, b)
  {
    assert DataTo(x.rl, b) == DataTo(x.rl[1..], b);
    OpeningCountsAsOpen(x.rl[1..], b);
  }

  lemma ConfirmConserved(x: Sys)
    requires Inv(x) && x.rl != [] && x.rl[0].ptype == CONFIRMATION && x.rl[0].remote != 0
    requires IsWaiting(x.l, x.rl[0].local)
    ensures Conserved(x.r, Confirmed(x.l, x.rl[0]), x.rl[1..])
  {
    var q := x.rl[1..];
    var p := Confirmed(x.l, x.rl[0]);
    ConfirmBindings(x);
    forall a, b | Bound(p, q, b, a) ensures ConservedFor(x.r, p, q, a, b) {
      assert Bound(x.l, x.rl, b, a);
      ConfirmConservedFor(x, a, b);
    }
  }

  lemma ConfirmSends(x: Sys)
    requires Inv(x) && x.rl != [] && x.rl[0].local in x.l.table
    ensures Conserved(Confirmed(x.l, x.rl[0]), x.r, x.lr)
  {
    var p := Confirmed(x.l, x.rl[0]);
    forall a, b | Bound(x.r, x.lr, b, a) ensures ConservedFor(p, x.r, x.lr, a, b) {
      assert ConservedFor(x.l, x.r, x.lr, a, b);
    }
  }

  lemma InvConfirm(x: Sys)
    requires Inv(x) && x.rl != [] && x.rl[0].ptype == CONFIRMATION && x.rl[0].remote != 0
    requires IsWaiting(x.l, x.rl[0].local)
    ensures Inv(Popped(x, Confirmed(x.l, x.rl[0])))
  {
    var q := x.rl[1..];
    var p := Confirmed(x.l, x.rl[0]);
    assert ConfirmationOk(x.r, x.l, x.rl, 0);
    ConfirmBindings(x);
    ConfirmFrames(x);
    ConfirmConserved(x);
    ConfirmSends(x);
    assert BindingOk(p, x.r, x.lr, q) && BindingOk(x.r, p, q, x.lr) by {
      assert BindingOk(x.l, x.r, x.lr, x.rl) && BindingOk(x.r, x.l, x.rl, x.lr);
    }
  }

  // ---------------------------------------------------------------- every step keeps the invariant

  /** The request is taken off the link, and the new id starts afresh. */
  function WithNewId(x: Sys, n: nat): Sys
    requires x.rl != []
  {
    var z := Popped(x, x.l);
    z.(l := Forget(z.l, n))
  }

  /** What a request does, step by step. */
  lemma RequestEffect(x: Sys, env: Env)
    requires x.rl != [] && x.rl[0].ptype == OPEN && x.rl[0].local == 0 && Enabled(x, ReceiveAct(env))
    ensures var f, z, y := x.rl[0], Popped(x, x.l), StepLeft(x, ReceiveAct(env));
            var kind := KindOf(f.option, env.worker);
            if env.alloc.Some? then
              var w := WithNewId(x, env.alloc.value);
              if kind.None? || !env.memory || !env.sendOk then y == w
              else if env.accept then y == WithAccepted(w, env.alloc.value, kind.value, f.remote)
              else y == Sent(w, w.l, Frame(CONFIRMATION, 0, f.remote, 0, []))
            else
              y == if kind.Some? && env.memory && env.sendOk then Sent(z, z.l, Frame(CONFIRMATION, 0, 0, 0, [])) else z
  {
  }

  /** Once the request is taken off the link nothing refers to its sender. */
  lemma RequestTaken(x: Sys)
    requires Inv(x) && x.rl != [] && x.rl[0].ptype == OPEN
    ensures x.rl[0].local == 0 && Inv(Popped(x, x.l))
    ensures Unheard(x.r, x.l, x.lr, x.rl[0].remote) && Silent(x.rl[1..], x.rl[0].remote)
  {
    assert OpenOk(x.r, x.l, x.rl, x.lr, 0);
    InvPop(x);
  }

  lemma ReadyToAccept(x: Sys, n: nat)
    requires Inv(x) && x.rl != [] && x.rl[0].ptype == OPEN && n != 0 && n !in x.l.table && Unclaimed(x, n, false)
    ensures Inv(WithNewId(x, n)) && CanAccept(WithNewId(x, n), n, x.rl[0].remote)
  {
    var z := Popped(x, x.l);
    RequestTaken(x);
    assert forall k :: 0 <= k < |z.rl| ==> z.rl[k] == x.rl[k + 1];
    InvForget(z, n);
  }

  lemma InvReceiveOpen(x: Sys, env: Env)
    requires Inv(x) && x.rl != [] && x.rl[0].ptype == OPEN
    requires Enabled(x, ReceiveAct(env)) && Prudent(x, ReceiveAct(env))
    ensures Inv(StepLeft(x, ReceiveAct(env)))
  {
    var kind := KindOf(x.rl[0].option, env.worker);
    RequestTaken(x);
    RequestEffect(x, env);
    if env.alloc.None? {
      InvRefuse(Popped(x, x.l), 0);
    } else {
      var n := env.alloc.value;
      ReadyToAccept(x, n);
      if kind.Some? && env.accept {
        InvAccept(WithNewId(x, n), n, kind.value, x.rl[0].remote);
      } else {
        InvRefuse(WithNewId(x, n), x.rl[0].remote);
      }
    }
  }

  /** A confirmation or a Close for a channel in the table. */
  lemma InvAnswered(x: Sys, env: Env)
    requires Inv(x) && x.rl != [] && x.rl[0].local in x.l.table
    requires x.rl[0].ptype == CONFIRMATION || x.rl[0].ptype == CLOSE
    requires Enabled(x, ReceiveAct(env))
    ensures Inv(StepLeft(x, ReceiveAct(env)))
  {
    var f := x.rl[0];
    var y := StepLeft(x, ReceiveAct(env));
    if IsIgnored(x.l, f) {
      InvPop(x);
      assert y == Popped(x, x.l);
    } else if f.ptype == CONFIRMATION && f.remote != 0 {
      InvConfirm(x);
      assert y == Popped(x, Confirmed(x.l, f));
    } else {
      assert ConfirmationOk(x.r, x.l, x.rl, 0);
      InvRemove(x, {f.local});
      InvPop(Remove(x, {f.local}));
      assert y == Popped(Remove(x, {f.local}), Remove(x, {f.local}).l);
    }
  }

  /** What traffic does to a channel that is no longer opening. */
  lemma ArriveEffect(x: Sys, env: Env)
    requires x.rl != [] && IsTraffic(x.rl[0]) && x.rl[0].ptype != CLOSE && Enabled(x, ReceiveAct(env))
    requires x.rl[0].local in x.l.table && x.l.table[x.rl[0].local].status != Opening
    ensures var f, z := x.rl[0], Popped(x, Arrived(x.l, x.rl[0]));
            StepLeft(x, ReceiveAct(env)) == if f.ptype == DATA && !env.accept then Remove(z, {f.local}) else z
  {
  }

  lemma InvReceive(x: Sys, env: Env)
    requires Inv(x) && x.rl != []
    requires Enabled(x, ReceiveAct(env)) && Prudent(x, ReceiveAct(env))
    ensures Inv(StepLeft(x, ReceiveAct(env)))
  {
    var f := x.rl[0];
    if f.ptype == OPEN {
      InvReceiveOpen(x, env);
    } else if f.local !in x.l.table {
      InvPop(x);
      assert StepLeft(x, ReceiveAct(env)) == Popped(x, x.l);
    } else if f.ptype == CONFIRMATION || f.ptype == CLOSE {
      InvAnswered(x, env);
    } else {
      assert KnownType(f);
      TrafficFindsChannelOpen(x);
      ArriveEffect(x, env);
      InvArrive(x);
      InvRemove(Popped(x, Arrived(x.l, f)), {f.local});
    }
  }

  lemma InvSendOn(x: Sys, act: Act)
    requires Inv(x) && Enabled(x, act)
    requires act.WriteAct? || act.PendAct? || act.ResumeAct?
    ensures Inv(StepLeft(x, act))
  {
    var y := StepLeft(x, act);
    if Effect(x, act).sent != [] {
      var f := Effect(x, act).sent[0];
      if IsRaw(f) {
        InvRaw(x, f);
        assert y == Sent(x, x.l, f);
      } else {
        InvTraffic(x, f);
        assert y == Sent(x, Logged(x.l, f), f);
      }
    } else {
      assert y == x;
    }
  }

  lemma InvClose(x: Sys, id: nat, sendOk: bool)
    requires Inv(x)
    ensures Inv(StepLeft(x, CloseAct(id, sendOk)))
  {
    var y := StepLeft(x, CloseAct(id, sendOk));
    if id in x.l.table {
      if Effect(x, CloseAct(id, sendOk)).sent != [] {
        var f := Frame(CLOSE, 0, x.l.table[id].remote, id, []);
        InvTraffic(x, f);
        InvRemove(Sent(x, x.l, f), {id});
        assert y == Remove(Sent(x, x.l, f), {id});
      } else {
        InvRemove(x, {id});
        assert y == Remove(x, {id});
      }
    } else {
      assert y == x;
    }
  }

  lemma InvOpenAct(x: Sys, act: Act)
    requires Inv(x) && act.OpenAct? && Enabled(x, act) && Prudent(x, act)
    ensures Inv(StepLeft(x, act))
  {
    var y := StepLeft(x, act);
    if act.alloc.Some? {
      var n := act.alloc.value;
      InvForget(x, n);
      var z := x.(l := Forget(x.l, n));
      if act.sendOk {
        InvOpen(z, n, act.kind, act.cookie);
        assert y == WithRequest(z, n, act.kind, act.cookie);
      } else {
        assert y == z;
      }
    } else {
      assert y == x;
    }
  }

  lemma InvStepLeft(x: Sys, act: Act)
    requires Inv(x) && Enabled(x, act) && Prudent(x, act)
    ensures Inv(StepLeft(x, act))
  {
    match act
    case OpenAct(_, _, _, _) => InvOpenAct(x, act);
    case CloseAct(id, sendOk) => InvClose(x, id, sendOk);
    case CloseAllAct =>
      InvRemove(x, x.l.table.Keys);
      assert StepLeft(x, act) == Remove(x, x.l.table.Keys);
    case ReceiveAct(env) => InvReceive(x, env);
    case _ => InvSendOn(x, act);
  }

  lemma InvStep(x: Sys, y: Sys)
    requires Inv(x) && Step(x, y, true)
    ensures Inv(y)
  {
    if act :| Enabled(x, act) && Prudent(x, act) && y == StepLeft(x, act) {
      InvStepLeft(x, act);
    } else {
      var act :| Enabled(Swap(x), act) && Prudent(Swap(x), act) && Swap(y) == StepLeft(Swap(x), act);
      InvStepLeft(Swap(x), act);
    }
  }

  lemma {:induction false} InvRun(xs: seq<Sys>)
    requires Run(xs, true)
    ensures Inv(xs[|xs| - 1])
  {
    if |xs| > 1 {
      var n := |xs| - 1;
      assert Step(xs[n - 1], xs[n], true);
      InvRun(xs[..n]);
      InvStep(xs[n - 1], xs[n]);
    }
  }

  // ---------------------------------------------------------------- what holds in every run

  /**
   * Pairing: a channel with a remote id `b` has `b` to itself, and one of the two was accepted for
   * the other; if the peer's `b` is still in its table it points back, or it is still opening and the
   * confirmation naming `a` is in flight.
   */
  lemma Pairing(xs: seq<Sys>, a: nat)
    requires Run(xs, true)
    requires a in xs[|xs| - 1].l.table && xs[|xs| - 1].l.table[a].remote != 0
    ensures var x := xs[|xs| - 1]; var b := x.l.table[a].remote;
            && (forall a' :: a' in x.l.table && x.l.table[a'].remote == b ==> a' == a)
            && Introduced(x.l, x.r, a, b)
            && (b in x.r.table ==>
                  || x.r.table[b].remote == a
                  || (x.r.table[b] == Chan(x.r.table[b].kind, 0, Opening) && ConfirmedBefore(x.lr, |x.lr|, b, a)))
  {
    InvRun(xs);
    var x := xs[|xs| - 1];
    assert Bound(x.l, x.rl, a, x.l.table[a].remote);
    forall a' | a' in x.l.table && x.l.table[a'].remote == x.l.table[a].remote ensures a' == a {
      assert Bound(x.l, x.rl, a', x.l.table[a].remote);
    }
  }

  /** Data that arrives for a channel in the table is handed to that channel's callback. */
  lemma NoDataIgnored(xs: seq<Sys>, env: Env)
    requires Run(xs, true)
    requires var x := xs[|xs| - 1];
             x.rl != [] && x.rl[0].ptype == DATA && x.rl[0].local in x.l.table && Allocates(x.l.table, env.alloc)
    ensures var x := xs[|xs| - 1]; var f := x.rl[0];
            && x.l.table[f.local].remote == f.remote
            && Delivered(f.local, f.payload) in Receive(x.l.table, f, env).events
  {
    InvRun(xs);
    var x := xs[|xs| - 1];
    TrafficFindsChannelOpen(x);
    assert Receive(x.l.table, x.rl[0], env).events[0] == Delivered(x.rl[0].local, x.rl[0].payload);
  }

  /**
   * Conservation: what a bound channel got, followed by what is in flight to it, is what its
   * partner wrote.
   */
  lemma DeliveredIsPrefixOfWritten(xs: seq<Sys>, a: nat)
    requires Run(xs, true)
    requires a in xs[|xs| - 1].l.table && xs[|xs| - 1].l.table[a].remote != 0
    ensures var x := xs[|xs| - 1]; var b := x.l.table[a].remote;
            && Log(x.l.delivered, a) + DataTo(x.rl, a) == Log(x.r.written, b)
            && Log(x.l.delivered, a) <= Log(x.r.written, b)
            && (x.rl == [] ==> Log(x.l.delivered, a) == Log(x.r.written, b))
  {
    InvRun(xs);
    var x := xs[|xs| - 1];
    assert Bound(x.l, x.rl, a, x.l.table[a].remote);
    assert ConservedFor(x.r, x.l, x.rl, x.l.table[a].remote, a);
  }

  /** Flow control: once the link is drained a channel is pending iff that was its partner's last request. */
  lemma FlowControlAgrees(xs: seq<Sys>, a: nat)
    requires Run(xs, true)
    requires a in xs[|xs| - 1].l.table && xs[|xs| - 1].l.table[a].remote != 0 && xs[|xs| - 1].rl == []
    ensures var x := xs[|xs| - 1];
            x.l.table[a].status == Pending <==> Asked(x.r, x.l.table[a].remote) == Pending
  {
    InvRun(xs);
    var x := xs[|xs| - 1];
    assert Bound(x.l, x.rl, a, x.l.table[a].remote);
    assert ConservedFor(x.r, x.l, x.rl, x.l.table[a].remote, a);
  }

  /** The two ends play the same role: whatever holds of the left end holds of the right one. */
  lemma RunsMirror(xs: seq<Sys>, prudent: bool)
    requires Run(xs, prudent)
    ensures Run(seq(|xs|, i requires 0 <= i < |xs| => Swap(xs[i])), prudent)
  {
    var ys := seq(|xs|, i requires 0 <= i < |xs| => Swap(xs[i]));
    forall i | 0 <= i < |ys| - 1 ensures Step(ys[i], ys[i + 1], prudent) {
      assert Step(xs[i], xs[i + 1], prudent);
      assert Swap(ys[i]) == xs[i] && Swap(ys[i + 1]) == xs[i + 1];
    }
  }

  // ---------------------------------------------------------------- a request nobody answers

  /** `a` waits for a confirmation while nothing in the system will ever refer to it. */
  ghost predicate Stranded(x: Sys, a: nat) {
    IsWaiting(x.l, a) && Unclaimed(x, a, true)
  }

  /**
   * The end that receives a request leaves its opener stranded iff it does not know the kind of
   * channel or has no memory (it then says nothing), has no id left (the refusal is then addressed to
   * channel 0), or cannot send the reply.
   */
  lemma StrandsOpenerIff(x: Sys, env: Env)
    requires Inv(x) && x.rl != [] && x.rl[0].ptype == OPEN && x.rl[0].remote in x.r.table
    requires Enabled(x, ReceiveAct(env))
    ensures Stranded(Swap(StepLeft(x, ReceiveAct(env))), x.rl[0].remote)
            <==> KindOf(x.rl[0].option, env.worker).None? || !env.memory || env.alloc.None? || !env.sendOk
  {
    var a := x.rl[0].remote;
    assert OpenOk(x.r, x.l, x.rl, x.lr, 0);
    var y := StepLeft(x, ReceiveAct(env));
    assert forall k :: 0 <= k < |x.lr| ==> y.lr[k] == x.lr[k];
    assert forall k :: 0 <= k < |y.rl| ==> y.rl[k] == x.rl[k + 1];
    if KindOf(x.rl[0].option, env.worker).Some? && env.memory && env.alloc.Some? && env.sendOk {
      assert y.lr[|x.lr|].local == a;
    }
  }

  /** Requests and confirmations come from new channels. */
  lemma OnlyNewcomersClaim(x: Sys, act: Act, a: nat)
    requires Enabled(x, act) && a in x.l.table && a != 0
    ensures forall k :: 0 <= k < |Effect(x, act).sent| ==> !Claims(x.r, Effect(x, act).sent[k], a)
  {
  }

  /** Unless it is confirmed, a channel that stays keeps its partner and goes on waiting if it did. */
  lemma EntryStays(x: Sys, act: Act, a: nat)
    requires Enabled(x, act) && a in x.l.table && a in StepLeft(x, act).l.table
    requires act.ReceiveAct? && x.rl[0].ptype == CONFIRMATION ==> x.rl[0].local != a || !IsWaiting(x.l, a)
    ensures StepLeft(x, act).l.table[a].remote == x.l.table[a].remote
    ensures IsWaiting(StepLeft(x, act).l, a) <==> IsWaiting(x.l, a)
  {
  }

  lemma StrandedLeft(x: Sys, act: Act, a: nat)
    requires Inv(x) && Enabled(x, act) && Stranded(x, a) && a in StepLeft(x, act).l.table
    ensures Stranded(StepLeft(x, act), a)
  {
    var y := StepLeft(x, act);
    OnlyNewcomersClaim(x, act, a);
    EntryStays(x, act, a);
    forall k | 0 <= k < |y.lr| ensures !Claims(y.r, y.lr[k], a) {
      assert y.lr[k] == if k < |x.lr| then x.lr[k] else Effect(x, act).sent[k - |x.lr|];
    }
    forall k | 0 <= k < |y.rl| ensures !Concerns(y.rl[k], a, true) {
      assert y.rl[k] == x.rl[if act.ReceiveAct? then k + 1 else k];
    }
  }

  /** What the right end sends is not addressed to a stranded channel. */
  lemma StrandedUnaddressed(x: Sys, act: Act, a: nat)
    requires Inv(x) && Enabled(Swap(x), act) && Stranded(x, a)
    ensures forall k :: 0 <= k < |Effect(Swap(x), act).sent| ==> Effect(Swap(x), act).sent[k].local != a
  {
    if act.ReceiveAct? {
      assert !Claims(x.r, x.lr[0], a);
    }
  }

  /** The right end binds nothing to it. */
  lemma StrandedUnbound(x: Sys, act: Act, a: nat)
    requires Inv(x) && Enabled(Swap(x), act) && Stranded(x, a)
    ensures forall b :: b in Effect(Swap(x), act).table ==> Effect(Swap(x), act).table[b].remote != a
  {
    if act.ReceiveAct? {
      assert !Claims(x.r, x.lr[0], a);
    }
  }

  /** Only ids nobody claims begin to wait. */
  lemma NewcomersUnclaimed(x: Sys, act: Act, b: nat)
    requires Enabled(x, act) && Prudent(x, act) && IsWaiting(StepLeft(x, act).l, b) && !IsWaiting(x.l, b)
    ensures Unclaimed(x, b, true)
  {
  }

  /** No frame from a stranded channel will have an effect. */
  lemma StrandedUnheard(x: Sys, act: Act, a: nat)
    requires Enabled(Swap(x), act) && Prudent(Swap(x), act) && Stranded(x, a)
    ensures var y := Swap(StepLeft(Swap(x), act));
            forall k :: 0 <= k < |y.lr| ==> !Claims(y.r, y.lr[k], a)
  {
    var y := Swap(StepLeft(Swap(x), act));
    forall k | 0 <= k < |y.lr| ensures !Claims(y.r, y.lr[k], a) {
      var j := if act.ReceiveAct? then k + 1 else k;
      assert y.lr[k] == x.lr[j] && !Claims(x.r, x.lr[j], a);
      if IsWaiting(y.r, y.lr[k].local) && !IsWaiting(x.r, y.lr[k].local) {
        NewcomersUnclaimed(Swap(x), act, y.lr[k].local);
      }
    }
  }

  lemma StrandedRight(x: Sys, act: Act, a: nat)
    requires Inv(x) && Enabled(Swap(x), act) && Prudent(Swap(x), act) && Stranded(x, a)
    ensures Stranded(Swap(StepLeft(Swap(x), act)), a)
  {
    StrandedUnaddressed(x, act, a);
    StrandedUnbound(x, act, a);
    StrandedUnheard(x, act, a);
  }

  /** A stranded channel stays opening until its own end closes it. */
  lemma StrandedForEver(x: Sys, y: Sys, a: nat)
    requires Inv(x) && Step(x, y, true) && Stranded(x, a)
    ensures a in y.l.table ==> Stranded(y, a)
  {
    if act :| Enabled(x, act) && Prudent(x, act) && y == StepLeft(x, act) {
      if a in y.l.table {
        StrandedLeft(x, act, a);
      }
    } else {
      var act :| Enabled(Swap(x), act) && Prudent(Swap(x), act) && Swap(y) == StepLeft(Swap(x), act);
      StrandedRight(x, act, a);
    }
  }
}
