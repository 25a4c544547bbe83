/**
 * Invite responses at the inviting end: a callback is registered per transaction, and fires when
 * the reply is complete or when it expires (src/carrier/ela_carrier.c:1582-1648, 1800-1935, 3017-3050).
 */
module Response {
  import opened Wrappers
  import opened Fragmentation

  /** What the application sees of a transaction, in order; Forgotten is an expiry it does not see. */
  datatype Notice =
    | Answered(delivery: Delivery)
    | TimedOut(tid: Tid, friend: FriendId, bundle: Option<string>)
    | Forgotten(tid: Tid)
    | Returned(tid: Tid, ok: bool)

  /** `used` are the tids drawn so far, `sending` those whose ela_invite_friend has registered but not returned. */
  datatype Requester = Requester(used: set<Tid>, sending: set<Tid>, callbacks: map<Tid, Option<string>>,
                                 assemblies: map<Tid, Assembly>, history: seq<Notice>)

  datatype Event =
    /** ela_invite_friend fails before it registers the callback. */
    | GiveUp(tid: Tid)
    /** It registers the callback, about to send the last packet. */
    | Register(tid: Tid, bundle: Option<string>)
    /** It has sent the last packet, or failed to, and returns. */
    | Sent(tid: Tid, ok: bool)
    | Arrive(friend: FriendId, packet: Packet)
    /** The callback is overdue; `known` is the friend found for it, if any. */
    | ExpireCallback(tid: Tid, known: Option<FriendId>)
    | ExpireAssemblies(tids: set<Tid>)

  const START := Requester({}, {}, map[], map[], [])

  /** Tids are never drawn twice. */
  predicate Enabled(s: Requester, e: Event) {
    match e
    case GiveUp(tid) => tid !in s.used
    case Register(tid, _) => tid !in s.used
    case Sent(tid, _) => tid in s.sending
    case _ => true
  }

  function Expired(tid: Tid, bundle: Option<string>, known: Option<FriendId>): Notice {
    if known.Some? then TimedOut(tid, known.value, bundle) else Forgotten(tid)
  }

  function Step(s: Requester, e: Event): Requester {
    match e
    case GiveUp(tid) => s.(used := s.used + {tid}, history := s.history + [Returned(tid, false)])
    case Register(tid, bundle) =>
      s.(used := s.used + {tid}, sending := s.sending + {tid}, callbacks := s.callbacks[tid := bundle])
    case Sent(tid, ok) =>
      s.(sending := s.sending - {tid},
         callbacks := if ok then s.callbacks else s.callbacks - {tid},
         history := s.history + [Returned(tid, ok)])
    case Arrive(friend, p) =>
      if p.tid !in s.callbacks then s
      else
        var (a, done) := Absorb(Reply, Find(s.assemblies, p.tid), friend, p);
        var t := s.(assemblies := Put(s.assemblies, p.tid, a));
        if done == [] then t else t.(callbacks := s.callbacks - {p.tid}, history := s.history + [Answered(done[0])])
    case ExpireCallback(tid, known) =>
      if tid !in s.callbacks then s
      else s.(callbacks := s.callbacks - {tid}, history := s.history + [Expired(tid, s.callbacks[tid], known)])
    case ExpireAssemblies(tids) => s.(assemblies := s.assemblies - tids)
  }

  function Run(s: Requester, es: seq<Event>): Requester
    decreases es
  {
    if es == [] then s else Run(Step(s, es[0]), es[1..])
  }

  predicate Possible(s: Requester, es: seq<Event>)
    decreases es
  {
    es == [] || (Enabled(s, es[0]) && Possible(Step(s, es[0]), es[1..]))
  }

  // ---------------------------------------------------------------- at most once

  function TidOf(n: Notice): Tid {
    if n.Answered? then n.delivery.tid else n.tid
  }

  predicate CallsBack(n: Notice, tid: Tid) {
    (n.Answered? || n.TimedOut?) && TidOf(n) == tid
  }

  predicate Fails(n: Notice, tid: Tid) {
    n == Returned(tid, false)
  }

  /** After this notice nothing waits for `tid` any more. */
  predicate Concludes(n: Notice, tid: Tid) {
    TidOf(n) == tid && (n.Returned? ==> !n.ok)
  }

  /** No callback comes after an earlier conclusion: not after another callback, not after a failure. */
  predicate Final(history: seq<Notice>) {
    forall i, j :: 0 <= i < j < |history| && Concludes(history[i], TidOf(history[i])) ==> !CallsBack(history[j], TidOf(history[i]))
  }

  /** Whoever was concluded is not waiting, and every transaction waits or was concluded. */
  predicate Accounted(s: Requester) {
    && (forall i :: 0 <= i < |s.history| && Concludes(s.history[i], TidOf(s.history[i])) ==> TidOf(s.history[i]) !in s.callbacks)
    && (forall tid <- s.used :: tid in s.callbacks || exists i :: 0 <= i < |s.history| && Concludes(s.history[i], tid))
  }

  predicate Bounded(assemblies: map<Tid, Assembly>) {
    forall tid <- assemblies :: Unfinished(assemblies[tid])
  }

  predicate Inv(s: Requester) {
    && s.callbacks.Keys <= s.used && s.sending <= s.used
    && (forall i :: 0 <= i < |s.history| ==> TidOf(s.history[i]) in s.used)
    && (forall i :: 0 <= i < |s.history| && s.history[i].Returned? ==> TidOf(s.history[i]) !in s.sending)
    && Final(s.history)
    && Accounted(s)
    && Bounded(s.assemblies)
  }

  /** A callback may be added for somebody who waits, if he stops waiting. */
  lemma Note(history: seq<Notice>, n: Notice, callbacks: map<Tid, Option<string>>)
    requires Final(history)
    requires forall i :: 0 <= i < |history| && Concludes(history[i], TidOf(history[i])) ==> TidOf(history[i]) !in callbacks
    requires CallsBack(n, TidOf(n)) ==> TidOf(n) in callbacks
    ensures Final(history + [n])
  {
  }

  lemma AccountedStep(s: Requester, e: Event, tid: Tid)
    requires Inv(s) && Enabled(s, e) && tid in Step(s, e).used && tid !in Step(s, e).callbacks
    ensures var history := Step(s, e).history;
            exists i :: 0 <= i < |history| && Concludes(history[i], tid)
  {
    var t := Step(s, e);
    if tid in s.used && tid !in s.callbacks {
      var i :| 0 <= i < |s.history| && Concludes(s.history[i], tid);
      assert t.history[i] == s.history[i];
    } else {
      assert Concludes(t.history[|s.history|], tid);
    }
  }

  /** The history grows by one notice, if at all. */
  lemma FinalStep(s: Requester, e: Event)
    requires Inv(s) && Enabled(s, e)
    ensures Final(Step(s, e).history)
  {
    var t := Step(s, e);
    if t.history != s.history {
      var n := t.history[|s.history|];
      assert t.history == s.history + [n];
      Note(s.history, n, s.callbacks);
    }
  }

  lemma AllAccountedStep(s: Requester, e: Event)
    requires Inv(s) && Enabled(s, e)
    ensures Accounted(Step(s, e))
  {
    var t := Step(s, e);
    assert t.history == s.history || t.history == s.history + [t.history[|s.history|]];
    forall tid | tid in t.used
      ensures tid in t.callbacks || exists i :: 0 <= i < |t.history| && Concludes(t.history[i], tid)
    {
      if tid !in t.callbacks {
        AccountedStep(s, e, tid);
      }
    }
  }

  lemma BoundedStep(s: Requester, e: Event)
    requires Bounded(s.assemblies)
    ensures Bounded(Step(s, e).assemblies)
  {
    if e.Arrive? {
      AbsorbKeepsUnfinished(Reply, Find(s.assemblies, e.packet.tid), e.friend, e.packet);
    }
  }

  lemma InvStep(s: Requester, e: Event)
    requires Inv(s) && Enabled(s, e)
    ensures Inv(Step(s, e))
  {
    FinalStep(s, e);
    AllAccountedStep(s, e);
    BoundedStep(s, e);
  }

  lemma {:induction false} InvRun(s: Requester, es: seq<Event>)
    requires Inv(s) && Possible(s, es)
    ensures Inv(Run(s, es))
    decreases es
  {
    if es != [] {
      InvStep(s, es[0]);
      InvRun(Step(s, es[0]), es[1..]);
    }
  }

  /** In every run a transaction is called back at most once: by its answer or by its expiry, never both. */
  lemma CallbackAtMostOnce(es: seq<Event>, i: nat, j: nat, tid: Tid)
    requires Possible(START, es)
    requires i < |Run(START, es).history| && j < |Run(START, es).history|
    requires CallsBack(Run(START, es).history[i], tid) && CallsBack(Run(START, es).history[j], tid)
    ensures i == j
  {
    InvRun(START, es);
  }

  /** In every run no callback comes after ela_invite_friend has returned -1. */
  lemma NoCallbackAfterFailure(es: seq<Event>, i: nat, j: nat, tid: Tid)
    requires Possible(START, es)
    requires i < j < |Run(START, es).history|
    requires Fails(Run(START, es).history[i], tid)
    ensures !CallsBack(Run(START, es).history[j], tid)
  {
    InvRun(START, es);
    assert Concludes(Run(START, es).history[i], TidOf(Run(START, es).history[i]));
  }

  /** In every run a transaction is waiting iff nothing has concluded it: none is lost, none lingers. */
  lemma WaitingIffNotConcluded(es: seq<Event>, tid: Tid)
    requires Possible(START, es) && tid in Run(START, es).used
    ensures var s := Run(START, es);
            tid in s.callbacks <==> !exists i :: 0 <= i < |s.history| && Concludes(s.history[i], tid)
  {
    InvRun(START, es);
  }

  /** In every run each stored assembly waits for more, and holds at most 8192 bytes. */
  lemma AssembliesBounded(es: seq<Event>, tid: Tid)
    requires Possible(START, es) && tid in Run(START, es).assemblies
    ensures var a := Run(START, es).assemblies[tid];
            |a.data| < a.total <= MAX_DATA
  {
    InvRun(START, es);
    assert Unfinished(Run(START, es).assemblies[tid]);
  }

  /**
   * When ela_invite_friend is about to return, in any run: the application has been called back, or
   * the expiry has dropped it, iff the callback is no longer in the table.  So a failing call comes
   * after a conclusion exactly when it finds nothing to take back.
   */
  lemma ConcludedBeforeReturnIff(es: seq<Event>, tid: Tid)
    requires Possible(START, es) && tid in Run(START, es).sending
    ensures var s := Run(START, es);
            tid !in s.callbacks <==> exists i :: 0 <= i < |s.history| && TidOf(s.history[i]) == tid && !s.history[i].Returned?
  {
    InvRun(START, es);
    WaitingIffNotConcluded(es, tid);
    var s := Run(START, es);
    if i :| 0 <= i < |s.history| && Concludes(s.history[i], tid) {
      assert !s.history[i].Returned?;
    } else if i :| 0 <= i < |s.history| && TidOf(s.history[i]) == tid && !s.history[i].Returned? {
      assert Concludes(s.history[i], tid);
    }
  }

  /** The callbacks that wait and the timeouts that were reported belong to these registrations. */
  ghost predicate Justified(s: Requester, past: seq<Event>) {
    && (forall tid <- s.callbacks :: Register(tid, s.callbacks[tid]) in past)
    && (forall n <- s.history :: n.TimedOut? ==> Register(n.tid, n.bundle) in past)
    && (forall n <- s.history :: n.Answered? ==> exists b :: Register(n.delivery.tid, b) in past)
  }

  lemma JustifiedStep(s: Requester, e: Event, past: seq<Event>)
    requires Justified(s, past)
    ensures Justified(Step(s, e), past + [e])
  {
    var t := Step(s, e);
    forall n | n in t.history && n.Answered? ensures exists b :: Register(n.delivery.tid, b) in past + [e] {
      if n in s.history {
        var b :| Register(n.delivery.tid, b) in past;
        assert Register(n.delivery.tid, b) in past + [e];
      } else {
        assert e.Arrive? && n.delivery.tid == e.packet.tid && e.packet.tid in s.callbacks;
        assert Register(n.delivery.tid, s.callbacks[e.packet.tid]) in past + [e];
      }
    }
  }

  lemma {:induction false} JustifiedRun(s: Requester, past: seq<Event>, es: seq<Event>)
    requires Justified(s, past)
    ensures Justified(Run(s, es), past + es)
    decreases es
  {
    if es == [] {
      assert past + es == past;
    } else {
      JustifiedStep(s, es[0], past);
      JustifiedRun(Step(s, es[0]), past + [es[0]], es[1..]);
      assert (past + [es[0]]) + es[1..] == past + es;
    }
  }

  /** In every run only registered transactions are called back, and a timeout reports the bundle that was registered. */
  lemma OnlyRegisteredAreCalledBack(es: seq<Event>, n: Notice, tid: Tid)
    requires n in Run(START, es).history && CallsBack(n, tid)
    ensures exists b :: Register(tid, b) in es && (n.TimedOut? ==> n.bundle == b)
  {
    JustifiedRun(START, [], es);
    assert [] + es == es;
  }

  /** A callback can come before the failure: the entry is in the table while the last packet is being sent. */
  lemma CallbackThenFailure(tid: Tid, friend: FriendId)
    ensures var es := [Register(tid, None), ExpireCallback(tid, Some(friend)), Sent(tid, false)];
            Possible(START, es) && Run(START, es).history == [TimedOut(tid, friend, None), Returned(tid, false)]
  {
    var es := [Register(tid, None), ExpireCallback(tid, Some(friend)), Sent(tid, false)];
    var s1 := Step(START, es[0]);
    var s2 := Step(s1, es[1]);
    var s3 := Step(s2, es[2]);
    assert es[1..][0] == es[1] && es[1..][1..][0] == es[2] && es[1..][1..][1..] == [];
    assert s2.history == [TimedOut(tid, friend, None)];
    assert Run(START, es) == Run(s1, es[1..]) == Run(s2, es[1..][1..]) == Run(s3, []) == s3;
    assert Possible(s2, es[1..][1..]);
    assert Possible(s1, es[1..]);
  }

  // ---------------------------------------------------------------- round trip of a reply

  /** The callbacks of `tid`. */
  function For(history: seq<Notice>, tid: Tid): seq<Notice>
    decreases |history|
  {
    if history == [] then []
    else
      var last := history[|history| - 1];
      For(history[..|history| - 1], tid) + if CallsBack(last, tid) then [last] else []
  }

  lemma ForOneMore(history: seq<Notice>, n: Notice, tid: Tid)
    ensures For(history + [n], tid) == For(history, tid) + if CallsBack(n, tid) then [n] else []
  {
    assert (history + [n])[..|history|] == history;
  }

  function Stream(es: seq<Event>, tid: Tid): Arrivals {
    if es == [] then []
    else (if es[0].Arrive? && es[0].packet.tid == tid then [(es[0].friend, es[0].packet)] else []) + Stream(es[1..], tid)
  }

  /** Nobody listens once the transaction is answered. */
  function CollectUntil(l: Local, ps: Arrivals): Local
    decreases ps
  {
    if ps == [] || l.deliveries != [] then l
    else
      var (a, done) := Absorb(Reply, l.assembly, ps[0].0, ps[0].1);
      CollectUntil(Local(a, done), ps[1..])
  }

  lemma {:induction false} NobodyIsCutOff(l: Local, ps: Arrivals)
    requires forall k :: 0 <= k < |ps| ==> Collect(Reply, l, ps[..k]).deliveries == []
    ensures CollectUntil(l, ps) == Collect(Reply, l, ps)
    decreases ps
  {
    if ps != [] {
      assert ps[..0] == [];
      var (a, done) := Absorb(Reply, l.assembly, ps[0].0, ps[0].1);
      var next := Local(a, l.deliveries + done);
      assert l.deliveries + done == done;
      forall k | 0 <= k < |ps| - 1 ensures Collect(Reply, next, ps[1..][..k]).deliveries == [] {
        assert ps[..k + 1][0] == ps[0] && ps[..k + 1][1..] == ps[1..][..k];
      }
      NobodyIsCutOff(next, ps[1..]);
    }
  }

  /** The state shows transaction `tid` as it would be had its packets arrived alone. */
  predicate Shows(s: Requester, tid: Tid, l: Local) {
    && |l.deliveries| <= 1
    && (tid in s.callbacks <==> l.deliveries == [])
    && Find(s.assemblies, tid) == l.assembly
    && For(s.history, tid) == if l.deliveries == [] then [] else [Answered(l.deliveries[0])]
  }

  /** The event neither concludes `tid` nor drops what has arrived for it. */
  predicate Spares(e: Event, tid: Tid) {
    match e
    case Sent(t, ok) => t == tid ==> ok
    case ExpireCallback(t, _) => t != tid
    case ExpireAssemblies(tids) => tid !in tids
    case _ => true
  }

  /** What happens to other transactions does not show. */
  lemma ShowsOther(s: Requester, t: Requester, tid: Tid, l: Local)
    requires Shows(s, tid, l)
    requires tid in t.callbacks <==> tid in s.callbacks
    requires Find(t.assemblies, tid) == Find(s.assemblies, tid)
    requires t.history == s.history || exists n :: t.history == s.history + [n] && !CallsBack(n, tid)
    ensures Shows(t, tid, l)
  {
    if t.history != s.history {
      var n :| t.history == s.history + [n] && !CallsBack(n, tid);
      ForOneMore(s.history, n, tid);
    }
  }

  lemma OtherEvent(s: Requester, e: Event, tid: Tid)
    requires tid in s.used && Enabled(s, e) && Spares(e, tid)
    requires e.Arrive? ==> e.packet.tid != tid
    ensures var t := Step(s, e);
            && (tid in t.callbacks <==> tid in s.callbacks)
            && Find(t.assemblies, tid) == Find(s.assemblies, tid)
            && (t.history == s.history || exists n :: t.history == s.history + [n] && !CallsBack(n, tid))
  {
    var t := Step(s, e);
    if t.history != s.history {
      var n := t.history[|s.history|];
      assert t.history == s.history + [n];
    }
  }

  lemma Shown(s: Requester, tid: Tid, a: Option<Assembly>, done: seq<Delivery>)
    requires Shows(s, tid, Local(Find(s.assemblies, tid), []))
    requires |done| <= 1 && (done != [] ==> done[0].tid == tid)
    ensures var t := s.(assemblies := Put(s.assemblies, tid, a));
            Shows(if done == [] then t else t.(callbacks := s.callbacks - {tid}, history := s.history + [Answered(done[0])]),
                  tid, Local(a, done))
  {
    if done != [] {
      ForOneMore(s.history, Answered(done[0]), tid);
    }
  }

  lemma ShowsOwn(s: Requester, friend: FriendId, p: Packet, l: Local)
    requires Shows(s, p.tid, l)
    ensures Shows(Step(s, Arrive(friend, p)), p.tid, CollectUntil(l, [(friend, p)]))
  {
    if l.deliveries == [] {
      var (a, done) := Absorb(Reply, l.assembly, friend, p);
      assert [(friend, p)][1..] == [];
      assert CollectUntil(l, [(friend, p)]) == CollectUntil(Local(a, done), []) == Local(a, done);
      Shown(s, p.tid, a, done);
    }
  }

  lemma StreamStep(es: seq<Event>, tid: Tid)
    requires es != []
    ensures Stream(es, tid) == Stream([es[0]], tid) + Stream(es[1..], tid)
    ensures Stream([es[0]], tid) == if es[0].Arrive? && es[0].packet.tid == tid then [(es[0].friend, es[0].packet)] else []
  {
    assert [es[0]][1..] == [] && Stream([es[0]][1..], tid) == [];
  }

  lemma ShowsStep(s: Requester, e: Event, tid: Tid, l: Local)
    requires Shows(s, tid, l) && tid in s.used && Enabled(s, e) && Spares(e, tid)
    ensures Shows(Step(s, e), tid, CollectUntil(l, Stream([e], tid))) && tid in Step(s, e).used
  {
    StreamStep([e], tid);
    if e.Arrive? && e.packet.tid == tid {
      ShowsOwn(s, e.friend, e.packet, l);
    } else {
      OtherEvent(s, e, tid);
      ShowsOther(s, Step(s, e), tid, l);
    }
  }

  lemma {:induction false} UntilSplit(l: Local, a: Arrivals, b: Arrivals)
    requires |a| <= 1
    ensures CollectUntil(l, a + b) == CollectUntil(CollectUntil(l, a), b)
  {
    if a == [] {
      assert a + b == b;
    } else {
      assert (a + b)[1..] == b && a[1..] == [];
    }
  }

  lemma {:induction false} OnlyOwnPacketsMatter(s: Requester, es: seq<Event>, tid: Tid, l: Local)
    requires Shows(s, tid, l) && tid in s.used && Possible(s, es)
    requires forall i :: 0 <= i < |es| ==> Spares(es[i], tid)
    ensures Shows(Run(s, es), tid, CollectUntil(l, Stream(es, tid)))
    decreases es
  {
    if es != [] {
      var first := Stream([es[0]], tid);
      ShowsStep(s, es[0], tid, l);
      OnlyOwnPacketsMatter(Step(s, es[0]), es[1..], tid, CollectUntil(l, first));
      StreamStep(es, tid);
      UntilSplit(l, first, Stream(es[1..], tid));
    }
  }

  /**
   * Round trip: the packets of a reply arrive in order, with strays under the same tid between the
   * first and the last, and interleaved with everything else that happens to other transactions.
   * The callback is called once, with the status, the data and the bundle that were sent.
   */
  lemma ReplyRoundTrip(s: Requester, es: seq<Event>, friend: FriendId, m: Message)
    requires Sendable(Reply, m) && Possible(s, es)
    requires m.tid in s.used && m.tid in s.callbacks && m.tid !in s.assemblies && For(s.history, m.tid) == []
    requires forall i :: 0 <= i < |es| ==> Spares(es[i], m.tid)
    requires Carries(Stream(es, m.tid), friend, m)
    ensures var t := Run(s, es);
            m.tid !in t.callbacks && m.tid !in t.assemblies && For(t.history, m.tid) ==
              [Answered(Delivery(m.tid, friend, m.ext, m.bundle, m.status, m.reason, m.data))]
  {
    var l := Local(None, []);
    var ps := Stream(es, m.tid);
    OnlyOwnPacketsMatter(s, es, m.tid, l);
    forall k | 0 <= k < |ps| ensures Collect(Reply, l, ps[..k]).deliveries == [] {
      CarriedIsDelivered(Reply, friend, m, [], ps, k);
    }
    NobodyIsCutOff(l, ps);
    CarriedIsDelivered(Reply, friend, m, [], ps, |ps|);
    assert ps[..|ps|] == ps;
  }

  lemma {:induction false} NothingFor(history: seq<Notice>, tid: Tid)
    requires forall n <- history :: !CallsBack(n, tid)
    ensures For(history, tid) == []
    decreases |history|
  {
    if history != [] {
      assert forall n <- history[..|history| - 1] :: n in history;
      NothingFor(history[..|history| - 1], tid);
    }
  }

  /** Who waits has not been called back. */
  lemma WaitingIsUnheard(s: Requester, tid: Tid)
    requires Inv(s) && tid in s.callbacks
    ensures For(s.history, tid) == []
  {
    forall n | n in s.history ensures !CallsBack(n, tid) {
      assert CallsBack(n, tid) ==> Concludes(n, TidOf(n)) && TidOf(n) == tid;
    }
    NothingFor(s.history, tid);
  }

  lemma ExpiryCallsBack(s: Requester, tid: Tid, known: Option<FriendId>)
    requires tid in s.callbacks && For(s.history, tid) == []
    ensures var t := Step(s, ExpireCallback(tid, known));
            t.callbacks == s.callbacks - {tid} && For(t.history, tid) == if known == None then [] else [TimedOut(tid, known.value, s.callbacks[tid])]
  {
    var n := Expired(tid, s.callbacks[tid], known);
    ForOneMore(s.history, n, tid);
    assert [] + [n] == [n];
  }

  /**
   * In every run an overdue transaction that still waits is called back once, with the bundle that was
   * registered, iff its friend is found; it has not been called back before, and it no longer waits.
   */
  lemma TimeoutIsReported(es: seq<Event>, tid: Tid, known: Option<FriendId>)
    requires Possible(START, es) && tid in Run(START, es).callbacks
    ensures var s := Run(START, es);
            var t := Step(s, ExpireCallback(tid, known));
            && Register(tid, s.callbacks[tid]) in es && For(s.history, tid) == [] && t.callbacks == s.callbacks - {tid}
            && For(t.history, tid) == if known == None then [] else [TimedOut(tid, known.value, s.callbacks[tid])]
  {
    var s := Run(START, es);
    InvRun(START, es);
    JustifiedRun(START, [], es);
    assert [] + es == es;
    WaitingIsUnheard(s, tid);
    ExpiryCallsBack(s, tid, known);
  }

  function Arrivals(friend: FriendId, ps: seq<Packet>): seq<Event> {
    seq(|ps|, i requires 0 <= i < |ps| => Arrive(friend, ps[i]))
  }

  /** Packets behind the first one do not begin anything. */
  lemma {:induction false} RestIsIgnored(s: Requester, friend: FriendId, m: Message, rest: Bytes)
    requires m.tid !in s.assemblies && m.status == 0
    ensures Run(s, Arrivals(friend, Following(m, rest))) == s
    decreases |rest|
  {
    if rest != [] {
      var es := Arrivals(friend, Following(m, rest));
      var n := Min(|rest|, UNIT);
      assert es[1..] == Arrivals(friend, Following(m, rest[n..]));
      assert s.assemblies - {m.tid} == s.assemblies;
      assert Step(s, es[0]) == s;
      RestIsIgnored(s, friend, m, rest[n..]);
    }
  }

  /** What has expired of a reply is gone: the rest of it changes nothing, and its callback goes on waiting. */
  lemma ExpiredIsNeverDelivered(s: Requester, tids: set<Tid>, friend: FriendId, m: Message, rest: Bytes)
    requires m.tid in tids && m.status == 0
    ensures var t := Step(s, ExpireAssemblies(tids));
            && t == s.(assemblies := t.assemblies) && m.tid !in t.assemblies
            && (forall u :: u in s.assemblies && u !in tids ==> u in t.assemblies && t.assemblies[u] == s.assemblies[u])
            && Run(t, Arrivals(friend, Following(m, rest))) == t
  {
    RestIsIgnored(Step(s, ExpireAssemblies(tids)), friend, m, rest);
  }

  /** Nothing but the expiry of a transaction times it out. */
  lemma OnlyExpiryTimesOut(s: Requester, e: Event)
    ensures |Step(s, e).history| > |s.history| && Step(s, e).history[|s.history|].TimedOut? ==>
              e.ExpireCallback? && e.tid in s.callbacks && e.known.Some?
  {
  }

  // ---------------------------------------------------------------- the handlers

  /** The expiry events of one tick, in the order in which the table is walked. */
  function Ticks(order: seq<Tid>, expired: set<Tid>, friends: map<Tid, FriendId>): seq<Event>
    decreases |order|
  {
    if order == [] then []
    else
      var last := order[|order| - 1];
      Ticks(order[..|order| - 1], expired, friends)
      + if last in expired then [ExpireCallback(last, Find(friends, last))] else []
  }

  lemma {:induction false} RunOneMore(s: Requester, es: seq<Event>, e: Event)
    ensures Run(s, es + [e]) == Step(Run(s, es), e)
    decreases es
  {
    if es == [] {
      assert ([e])[1..] == [] && [] + [e] == [e];
    } else {
      assert (es + [e])[1..] == es[1..] + [e];
      RunOneMore(Step(s, es[0]), es[1..], e);
    }
  }

  lemma RunTicks(s: Requester, order: seq<Tid>, i: nat, expired: set<Tid>, friends: map<Tid, FriendId>)
    requires i < |order|
    ensures var t := Run(s, Ticks(order[..i], expired, friends));
            Run(s, Ticks(order[..i + 1], expired, friends))
            == if order[i] in expired then Step(t, ExpireCallback(order[i], Find(friends, order[i]))) else t
  {
    var es := Ticks(order[..i], expired, friends);
    assert order[..i + 1][..i] == order[..i];
    if order[i] in expired {
      RunOneMore(s, es, ExpireCallback(order[i], Find(friends, order[i])));
    } else {
      assert es + [] == es;
    }
  }

  /** A tick removes exactly the overdue callbacks. */
  lemma {:induction false} TickRemovesOverdue(s: Requester, order: seq<Tid>, expired: set<Tid>, friends: map<Tid, FriendId>)
    ensures Run(s, Ticks(order, expired, friends)).callbacks == s.callbacks - set t | t in order && t in expired
    decreases |order|
  {
    if order != [] {
      var n := |order| - 1;
      var last := order[n];
      TickRemovesOverdue(s, order[..n], expired, friends);
      RunTicks(s, order, n, expired, friends);
      assert order == order[..n] + [last] && order[..n + 1] == order;
    }
  }

  class ResponseReceiver {
    var callbacks: map<Tid, Option<string>>
    var assemblies: Table
    var history: seq<Notice>
    ghost var used: set<Tid>
    ghost var sending: set<Tid>

    ghost predicate Valid()
      reads this, Buffers(assemblies)
    {
      AllValid(assemblies)
    }

    ghost function State(): Requester
      reads this, Buffers(assemblies)
      requires Valid()
    {
      Requester(used, sending, callbacks, Values(assemblies), history)
    }

    constructor ()
      ensures Valid() && State() == START
    {
      callbacks, assemblies, history, used, sending := map[], map[], [], {}, {};
    }

    /** The part of ela_invite_friend before the last packet is sent. */
    method Expect(tid: Tid, bundle: Option<string>)
      requires Valid() && Enabled(State(), Register(tid, bundle))
      modifies `callbacks, `used, `sending
      ensures Valid() && State() == Step(old(State()), Register(tid, bundle))
    {
      callbacks := callbacks[tid := bundle];
      used, sending := used + {tid}, sending + {tid};
    }

    /** The part of ela_invite_friend after the DHT has taken or refused the last packet. */
    method Return(tid: Tid, rc: int) returns (r: int)
      requires Valid() && Enabled(State(), Sent(tid, rc >= 0))
      modifies `callbacks, `history, `sending
      ensures Valid() && State() == Step(old(State()), Sent(tid, rc >= 0))
      ensures r == if rc < 0 then -1 else 0
    {
      if rc < 0 {
        callbacks := callbacks - {tid};
      }
      history, sending := history + [Returned(tid, rc >= 0)], sending - {tid};
      r := if rc < 0 then -1 else 0;
    }

    method Refile(table: Table)
      requires AllValid(table)
      modifies `assemblies
      ensures assemblies == table && Valid() && Values(table) == old(Values(table))
    {
      assert this !in Buffers(table);
      assemblies := table;
    }

    /** The callback leaves the table, and is called. */
    method Answer(d: Delivery)
      requires Valid()
      modifies `callbacks, `history
      ensures Valid() && Values(assemblies) == old(Values(assemblies))
      ensures callbacks == old(callbacks) - {d.tid} && history == old(history) + [Answered(d)]
    {
      callbacks, history := callbacks - {d.tid}, history + [Answered(d)];
    }

    /** handle_invite_response, for a packet of a known friend. */
    method HandleInviteResponse(friend: FriendId, p: Packet)
      requires Valid()
      modifies this, Buffers(assemblies)
      ensures Valid() && fresh(Buffers(assemblies) - old(Buffers(assemblies)))
      ensures State() == Step(old(State()), Arrive(friend, p))
    {
      if p.tid !in callbacks {
        return;
      }
      var table, done := Assemble(Reply, assemblies, friend, p);
      Refile(table);
      if done != [] {
        Answer(done[0]);
      }
    }

    /** An overdue callback leaves the table, and is called if its friend is found. */
    method Expire(tid: Tid, known: Option<FriendId>)
      requires Valid() && tid in callbacks
      modifies `callbacks, `history
      ensures Valid() && callbacks == old(callbacks) - {tid}
      ensures State() == Step(old(State()), ExpireCallback(tid, known))
    {
      var bundle := callbacks[tid];
      callbacks := callbacks - {tid};
      history := history + [if known.Some? then TimedOut(tid, known.value, bundle) else Forgotten(tid)];
    }

    /** do_transacted_callabcks_check; the table is walked in `order`, `friends` is what the lookup finds. */
    method CheckCallbacks(order: seq<Tid>, expired: set<Tid>, friends: map<Tid, FriendId>)
      requires Valid()
      requires (set t | t in order) == callbacks.Keys && forall i, j :: 0 <= i < j < |order| ==> order[i] != order[j]
      modifies `callbacks, `history
      ensures Valid() && State() == Run(old(State()), Ticks(order, expired, friends))
    {
      ghost var before := State();
      assert order[..0] == [];
      for i := 0 to |order|
        invariant Valid() && State() == Run(before, Ticks(order[..i], expired, friends))
        invariant forall j :: i <= j < |order| ==> order[j] in callbacks
      {
        RunTicks(before, order, i, expired, friends);
        if order[i] in expired {
          Expire(order[i], Find(friends, order[i]));
        }
      }
      assert order[..|order|] == order;
    }

    method ExpireOverdue(expired: set<Tid>)
      requires Valid()
      modifies `assemblies
      ensures Valid() && Buffers(assemblies) <= old(Buffers(assemblies))
      ensures State() == Step(old(State()), ExpireAssemblies(expired))
    {
      var table := CheckAssemblies(assemblies, expired);
      Refile(table);
    }
  }
}
