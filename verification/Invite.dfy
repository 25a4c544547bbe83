/**
 * Invite requests at the receiving end: packets of any number of transactions arrive interleaved,
 * unfinished assemblies expire (src/carrier/ela_carrier.c:1582-1601, 1680-1798).
 */
module Invite {
  import opened Wrappers
  import opened Fragmentation

  datatype Inbox = Inbox(assemblies: map<Tid, Assembly>, invitations: seq<Delivery>)

  /** The extensions whose invitations somebody takes: none is the application, the other is a session. */
  predicate Addressed(ext: Option<string>) {
    ext == None || ext == Some("session")
  }

  function Called(done: seq<Delivery>): seq<Delivery> {
    if done != [] && Addressed(done[0].ext) then done else []
  }

  datatype Event =
    | Arrive(friend: FriendId, packet: Packet)
    | Expire(tids: set<Tid>)

  function Handle(s: Inbox, e: Event): Inbox {
    match e
    case Arrive(friend, p) =>
      var (a, done) := Absorb(Request, Find(s.assemblies, p.tid), friend, p);
      Inbox(Put(s.assemblies, p.tid, a), s.invitations + Called(done))
    case Expire(tids) => s.(assemblies := s.assemblies - tids)
  }

  function HandleAll(s: Inbox, es: seq<Event>): Inbox
    decreases es
  {
    if es == [] then s else HandleAll(Handle(s, es[0]), es[1..])
  }

  predicate Bounded(assemblies: map<Tid, Assembly>) {
    forall tid <- assemblies :: Unfinished(assemblies[tid])
  }

  /** In every reachable inbox each assembly waits for more, and holds at most 8192 bytes. */
  lemma {:induction false} AssembliesBounded(s: Inbox, es: seq<Event>)
    requires Bounded(s.assemblies)
    ensures Bounded(HandleAll(s, es).assemblies)
    decreases es
  {
    if es != [] {
      var e := es[0];
      if e.Arrive? {
        AbsorbKeepsUnfinished(Request, Find(s.assemblies, e.packet.tid), e.friend, e.packet);
      }
      AssembliesBounded(Handle(s, e), es[1..]);
    }
  }

  // ---------------------------------------------------------------- one transaction among many

  function For(deliveries: seq<Delivery>, tid: Tid): seq<Delivery>
    decreases |deliveries|
  {
    if deliveries == [] then []
    else
      var last := deliveries[|deliveries| - 1];
      For(deliveries[..|deliveries| - 1], tid) + if last.tid == tid then [last] else []
  }

  lemma ForOneMore(deliveries: seq<Delivery>, d: Delivery, tid: Tid)
    ensures For(deliveries + [d], tid) == For(deliveries, tid) + if d.tid == tid then [d] else []
  {
    assert (deliveries + [d])[..|deliveries|] == deliveries;
  }

  /** The packets that concern `tid`. */
  function Stream(es: seq<Event>, tid: Tid): Arrivals {
    if es == [] then []
    else (if es[0].Arrive? && es[0].packet.tid == tid then [(es[0].friend, es[0].packet)] else []) + Stream(es[1..], tid)
  }

  /** The invitations among the deliveries. */
  function Heard(deliveries: seq<Delivery>): seq<Delivery>
    decreases |deliveries|
  {
    if deliveries == [] then []
    else
      var last := deliveries[|deliveries| - 1];
      Heard(deliveries[..|deliveries| - 1]) + if Addressed(last.ext) then [last] else []
  }

  lemma HeardOneMore(deliveries: seq<Delivery>, d: Delivery)
    ensures Heard(deliveries + [d]) == Heard(deliveries) + if Addressed(d.ext) then [d] else []
  {
    assert (deliveries + [d])[..|deliveries|] == deliveries;
  }

  /** The inbox shows transaction `tid` as it would be had its packets arrived alone. */
  predicate Shows(s: Inbox, tid: Tid, l: Local) {
    Find(s.assemblies, tid) == l.assembly && For(s.invitations, tid) == Heard(l.deliveries)
  }

  lemma Announced(invitations: seq<Delivery>, deliveries: seq<Delivery>, done: seq<Delivery>, tid: Tid)
    requires |done| <= 1
    ensures For(invitations + Called(done), tid) == For(invitations, tid) + if done != [] && done[0].tid == tid then Called(done) else []
    ensures Heard(deliveries + done) == Heard(deliveries) + Called(done)
  {
    if done == [] {
      assert invitations + [] == invitations && deliveries + [] == deliveries;
    } else {
      assert done == [done[0]];
      ForOneMore(invitations, done[0], tid);
      HeardOneMore(deliveries, done[0]);
      assert invitations + [] == invitations;
    }
  }

  lemma ShowsStep(s: Inbox, e: Event, tid: Tid, l: Local)
    requires Shows(s, tid, l)
    requires e.Expire? ==> tid !in e.tids
    ensures Shows(Handle(s, e), tid, Collect(Request, l, Stream([e], tid)))
  {
    assert Stream([e][1..], tid) == [];
    if e.Arrive? {
      var p := e.packet;
      var (a, done) := Absorb(Request, Find(s.assemblies, p.tid), e.friend, p);
      Announced(s.invitations, l.deliveries, done, tid);
      if p.tid == tid {
        assert Stream([e], tid) == [(e.friend, p)];
        CollectOne(Request, l, e.friend, p);
      }
    }
  }

  /** Packets and expiry of other transactions do not matter. */
  lemma {:induction false} OnlyOwnPacketsMatter(s: Inbox, es: seq<Event>, tid: Tid, l: Local)
    requires Shows(s, tid, l)
    requires forall i :: 0 <= i < |es| && es[i].Expire? ==> tid !in es[i].tids
    ensures Shows(HandleAll(s, es), tid, Collect(Request, l, Stream(es, tid)))
    decreases es
  {
    if es != [] {
      var first := Stream([es[0]], tid);
      ShowsStep(s, es[0], tid, l);
      OnlyOwnPacketsMatter(Handle(s, es[0]), es[1..], tid, Collect(Request, l, first));
      assert Stream([es[0]][1..], tid) == [];
      assert Stream(es, tid) == first + Stream(es[1..], tid);
      CollectSplit(Request, l, first, Stream(es[1..], tid));
    }
  }

  /**
   * Round trip: the packets of a message arrive in order, with strays under the same tid between the
   * first and the last, and interleaved with the packets and the expiry of other transactions.  One
   * invitation comes out, with the data and the bundle that were sent, if it is one to the application
   * (no extension is named) or to a session; none if any other extension is named.
   */
  lemma InviteRoundTrip(s: Inbox, es: seq<Event>, friend: FriendId, m: Message)
    requires Sendable(Request, m)
    requires m.tid !in s.assemblies && For(s.invitations, m.tid) == []
    requires forall i :: 0 <= i < |es| && es[i].Expire? ==> m.tid !in es[i].tids
    requires Carries(Stream(es, m.tid), friend, m)
    ensures var after := HandleAll(s, es);
            && m.tid !in after.assemblies
            && For(after.invitations, m.tid) ==
                 if m.ext == None || m.ext == Some("session")
                 then [Delivery(m.tid, friend, m.ext, m.bundle, m.status, m.reason, m.data)] else []
  {
    var ps := Stream(es, m.tid);
    OnlyOwnPacketsMatter(s, es, m.tid, Local(None, []));
    CarriedIsDelivered(Request, friend, m, [], ps, |ps|);
    assert ps[..|ps|] == ps;
    HeardOneMore([], Delivered(friend, m));
  }

  /** And none comes out as long as a packet is missing. */
  lemma NoInvitationWhileIncomplete(s: Inbox, es: seq<Event>, friend: FriendId, m: Message, ps: Arrivals, k: nat)
    requires Sendable(Request, m) && Carries(ps, friend, m)
    requires m.tid !in s.assemblies && For(s.invitations, m.tid) == []
    requires forall i :: 0 <= i < |es| && es[i].Expire? ==> m.tid !in es[i].tids
    requires k < |ps| && Stream(es, m.tid) == ps[..k]
    ensures For(HandleAll(s, es).invitations, m.tid) == []
  {
    OnlyOwnPacketsMatter(s, es, m.tid, Local(None, []));
    CarriedIsDelivered(Request, friend, m, [], ps, k);
  }

  function Arrivals(friend: FriendId, ps: seq<Packet>): seq<Event> {
    seq(|ps|, i requires 0 <= i < |ps| => Arrive(friend, ps[i]))
  }

  /** Packets behind the first one do not begin anything. */
  lemma {:induction false} RestIsIgnored(s: Inbox, friend: FriendId, m: Message, rest: Bytes)
    requires m.tid !in s.assemblies
    ensures HandleAll(s, Arrivals(friend, Following(m, rest))) == s
    decreases |rest|
  {
    if rest != [] {
      var es := Arrivals(friend, Following(m, rest));
      var n := Min(|rest|, UNIT);
      assert es[1..] == Arrivals(friend, Following(m, rest[n..]));
      assert s.assemblies - {m.tid} == s.assemblies && s.invitations + [] == s.invitations;
      assert Handle(s, es[0]) == s;
      RestIsIgnored(s, friend, m, rest[n..]);
    }
  }

  /** What has expired is gone: the rest of its message changes nothing, and nobody is invited. */
  lemma ExpiredIsNeverDelivered(s: Inbox, tids: set<Tid>, friend: FriendId, m: Message, rest: Bytes)
    requires m.tid in tids
    ensures var t := Handle(s, Expire(tids));
            && t.invitations == s.invitations && m.tid !in t.assemblies
            && (forall u :: u in s.assemblies && u !in tids ==> u in t.assemblies && t.assemblies[u] == s.assemblies[u])
            && HandleAll(t, Arrivals(friend, Following(m, rest))) == t
  {
    RestIsIgnored(Handle(s, Expire(tids)), friend, m, rest);
  }

  // ---------------------------------------------------------------- the handler

  class InviteReceiver {
    var assemblies: Table
    var invitations: seq<Delivery>

    ghost predicate Valid()
      reads this, Buffers(assemblies)
    {
      AllValid(assemblies)
    }

    ghost function State(): Inbox
      reads this, Buffers(assemblies)
      requires Valid()
    {
      Inbox(Values(assemblies), invitations)
    }

    constructor ()
      ensures Valid() && State() == Inbox(map[], [])
    {
      assemblies, invitations := map[], [];
    }

    method Refile(table: Table)
      requires AllValid(table)
      modifies `assemblies
      ensures assemblies == table && Valid() && Values(table) == old(Values(table))
    {
      assert this !in Buffers(table);
      assemblies := table;
    }

    /** The application or the session extension is called. */
    method Invite(d: Delivery)
      requires Valid()
      modifies `invitations
      ensures Valid() && Values(assemblies) == old(Values(assemblies))
      ensures invitations == old(invitations) + Called([d])
    {
      if d.ext == None || d.ext.value == "session" {
        invitations := invitations + [d];
      }
    }

    /** handle_invite_request, for a packet of a known friend. */
    method HandleInviteRequest(friend: FriendId, p: Packet)
      requires Valid()
      modifies this, Buffers(assemblies)
      ensures Valid() && fresh(Buffers(assemblies) - old(Buffers(assemblies)))
      ensures State() == Handle(old(State()), Arrive(friend, p))
    {
      var table, done := Assemble(Request, assemblies, friend, p);
      Refile(table);
      if done != [] {
        Invite(done[0]);
      }
    }

    method ExpireAssemblies(expired: set<Tid>)
      requires Valid()
      modifies this
      ensures Valid() && Buffers(assemblies) <= old(Buffers(assemblies))
      ensures State() == Handle(old(State()), Expire(expired))
    {
      var table := CheckAssemblies(assemblies, expired);
      Refile(table);
    }
  }
}
