/**
 * Splitting the data of an invite or of a reply into packets, and putting the packets of one
 * transaction together again (src/carrier/ela_carrier.c:1680-1935, 2910-3190).
 */
module Fragmentation {
  import opened Wrappers

  type Tid = int
  type FriendId = string

  const UNIT: nat := 1280
  const MAX_DATA: nat := 8192

  /** Invite requests and invite responses travel the same way, and are checked differently. */
  datatype Kind = Request | Reply

  /** What the caller wants to send; a request has status 0, and only a refusal has a reason. */
  datatype Message = Message(tid: Tid, ext: Option<string>, bundle: Option<string>, status: int, reason: Option<string>, data: Bytes)

  /** One packet.  `total` is the whole length in the first packet, zero afterwards. */
  datatype Packet = Packet(tid: Tid, ext: Option<string>, bundle: Option<string>, status: int, reason: Option<string>,
                           total: nat, data: Bytes)

  function BundleLen(bundle: Option<string>): nat {
    if bundle.Some? then |bundle.value| else 0
  }

  /** What ela_invite_friend and ela_reply_friend_invite accept. */
  predicate Sendable(kind: Kind, m: Message) {
    && (m.bundle.Some? ==> 0 < |m.bundle.value| <= MAX_BUNDLE)
    && |m.data| <= MAX_DATA
    && (if m.status != 0 then kind.Reply? && m.data == [] && m.reason.Some? else m.data != [] && m.reason == None)
  }

  function Following(m: Message, rest: Bytes): seq<Packet>
    decreases |rest|
  {
    if rest == [] then []
    else
      var n := Min(|rest|, UNIT);
      [Packet(m.tid, m.ext, None, m.status, None, 0, rest[..n])] + Following(m, rest[n..])
  }

  function FirstLen(m: Message): nat
    requires BundleLen(m.bundle) <= MAX_BUNDLE
  {
    Min(|m.data|, UNIT - BundleLen(m.bundle))
  }

  /** The first packet carries bundle and reason, and leaves room for the bundle. */
  function First(m: Message): Packet
    requires BundleLen(m.bundle) <= MAX_BUNDLE
  {
    Packet(m.tid, m.ext, m.bundle, m.status, m.reason, |m.data|, m.data[..FirstLen(m)])
  }

  function Packets(m: Message): seq<Packet>
    requires BundleLen(m.bundle) <= MAX_BUNDLE
  {
    [First(m)] + Following(m, m.data[FirstLen(m)..])
  }

  /** No packet holds more than 1280 bytes of bundle and data, and no packet but the last holds less. */
  lemma {:induction false} FollowingFit(m: Message, rest: Bytes)
    ensures var ps := Following(m, rest);
            && (forall k :: 0 <= k < |ps| ==> ps[k].bundle == None && ps[k].total == 0 && 0 < |ps[k].data| <= 1280)
            && (forall k :: 0 <= k < |ps| - 1 ==> |ps[k].data| == 1280)
            && (rest == [] <==> ps == [])
    decreases |rest|
  {
    if rest != [] {
      FollowingFit(m, rest[Min(|rest|, UNIT)..]);
    }
  }

  lemma PacketsFit(kind: Kind, m: Message)
    requires Sendable(kind, m)
    ensures var ps := Packets(m);
            && ps[0].bundle == m.bundle && ps[0].total == |m.data|
            && (forall k :: 0 <= k < |ps| ==> BundleLen(ps[k].bundle) + |ps[k].data| <= 1280)
            && (forall k :: 0 <= k < |ps| - 1 ==> BundleLen(ps[k].bundle) + |ps[k].data| == 1280)
            && (forall k :: 0 < k < |ps| ==> ps[k].bundle == None && ps[k].total == 0 && ps[k].data != [])
  {
    FollowingFit(m, m.data[FirstLen(m)..]);
  }

  lemma Cut(data: Bytes, pos: nat, n: nat)
    requires pos + n <= |data|
    ensures data[pos..][n..] == data[pos + n..] && data[pos..][..n] == data[pos..pos + n]
    ensures data[..pos] + data[pos..][..n] == data[..pos + n]
  {
  }

  /** `sent` are the packets of the first `pos` bytes. */
  predicate SentSoFar(m: Message, sent: seq<Packet>, pos: nat)
    requires BundleLen(m.bundle) <= MAX_BUNDLE && pos <= |m.data|
  {
    Begins(sent, Packets(m)) && if sent == [] then pos == 0 else Packets(m)[|sent|..] == Following(m, m.data[pos..])
  }

  /** How many bytes go into the next packet. */
  function NextLen(m: Message, sent: seq<Packet>, pos: nat): (n: nat)
    requires BundleLen(m.bundle) <= MAX_BUNDLE && pos <= |m.data|
    ensures n <= |m.data| - pos
  {
    if sent == [] && pos == 0 then FirstLen(m) else Min(|m.data| - pos, UNIT)
  }

  /** The next packet is cut off what is still to be sent. */
  lemma NextPacket(m: Message, sent: seq<Packet>, pos: nat, packet: Packet)
    requires BundleLen(m.bundle) <= MAX_BUNDLE && pos <= |m.data| && SentSoFar(m, sent, pos) && (sent != [] ==> pos < |m.data|)
    requires packet == if sent == [] then First(m)
                       else Packet(m.tid, m.ext, None, m.status, None, 0, m.data[pos..pos + NextLen(m, sent, pos)])
    ensures |sent| < |Packets(m)| && SentSoFar(m, sent + [packet], pos + NextLen(m, sent, pos))
  {
    var n := NextLen(m, sent, pos);
    Cut(m.data, pos, n);
    MoveOver(Packets(m), sent, packet, Following(m, m.data[pos + n..]));
  }

  lemma NothingLeft(m: Message, sent: seq<Packet>)
    requires BundleLen(m.bundle) <= MAX_BUNDLE && sent != [] && SentSoFar(m, sent, |m.data|)
    ensures sent == Packets(m)
  {
  }

  /**
   * The sending loop; `accepted` says how many messages go out before the DHT refuses one or memory
   * runs out, in which case the loop is left with an error all the same.
   */
  method Send(kind: Kind, m: Message, accepted: nat) returns (sent: seq<Packet>, ok: bool)
    requires Sendable(kind, m)
    ensures ok == (|Packets(m)| <= accepted)
    ensures sent == if ok then Packets(m) else Packets(m)[..accepted]
  {
    var pos, len, index, bundleLen := 0, |m.data|, 0, BundleLen(m.bundle);
    sent := [];
    var more := true;
    while more
      invariant 0 <= pos <= |m.data| && len == |m.data| - pos && index == |sent| <= accepted
      invariant bundleLen == (if index == 0 then BundleLen(m.bundle) else 0) && (more <==> index == 0 || len > 0)
      invariant SentSoFar(m, sent, pos)
      decreases more, len
    {
      index := index + 1;
      var sendLen := if len + bundleLen <= UNIT then len else UNIT - bundleLen;
      bundleLen := 0;
      var packet := Packet(m.tid, m.ext, if index == 1 then m.bundle else None, m.status, if index == 1 then m.reason else None,
                           if index == 1 then len else 0, m.data[pos..pos + sendLen]);
      NextPacket(m, sent, pos, packet);
      pos := pos + sendLen;
      len := len - sendLen;
      if |sent| == accepted {
        return sent, false;
      }
      sent := sent + [packet];
      more := len > 0;
    }
    ok := true;
    NothingLeft(m, sent);
  }

  // ---------------------------------------------------------------- putting together

  /** An assembly: `data` is what has arrived of `total` bytes. */
  datatype Assembly = Assembly(ext: string, friend: FriendId, bundle: Option<string>, total: nat, data: Bytes)

  /** What the callback of a complete transaction is given. */
  datatype Delivery = Delivery(tid: Tid, friend: FriendId, ext: Option<string>, bundle: Option<string>,
                               status: int, reason: Option<string>, data: Bytes)

  function Name(ext: Option<string>): string {
    if ext.Some? then ext.value else ""
  }

  /** A refusal has no data. */
  function Payload(kind: Kind, p: Packet): Bytes {
    if kind.Reply? && p.status != 0 then [] else p.data
  }

  predicate Fits(kind: Kind, a: Assembly, friend: FriendId, p: Packet) {
    && (p.ext.Some? ==> a.ext == p.ext.value)
    && a.friend == friend
    && (kind.Request? ==> Payload(kind, p) != [])
    && |Payload(kind, p)| <= UNIT
    && |a.data| + |Payload(kind, p)| <= a.total
  }

  predicate Announces(kind: Kind, total: nat) {
    (kind.Request? ==> total > 0) && total <= MAX_DATA
  }

  /** The assembly a packet belongs to; a new one if there is none and the packet may begin it. */
  function Target(kind: Kind, current: Option<Assembly>, friend: FriendId, p: Packet): Option<Assembly> {
    if current.Some? then current
    else if Announces(kind, p.total) then Some(Assembly(Name(p.ext), friend, p.bundle, p.total, []))
    else None
  }

  function Extended(kind: Kind, a: Assembly, p: Packet): Assembly {
    a.(data := a.data + Payload(kind, p))
  }

  /** What one packet does to the assembly of its transaction, and the delivery it completes. */
  function Absorb(kind: Kind, current: Option<Assembly>, friend: FriendId, p: Packet): (r: (Option<Assembly>, seq<Delivery>))
    ensures r.1 != [] ==> |r.1| == 1 && r.1[0].tid == p.tid && r.1[0].friend == friend && r.0 == None
  {
    var target := Target(kind, current, friend, p);
    if target == None || !Fits(kind, target.value, friend, p) then (current, [])
    else
      var a := Extended(kind, target.value, p);
      if |a.data| == a.total then (None, [Delivery(p.tid, friend, p.ext, a.bundle, p.status, p.reason, a.data)])
      else (Some(a), [])
  }

  /** Every stored assembly still waits for something, and is bounded. */
  predicate Unfinished(a: Assembly) {
    |a.data| < a.total <= MAX_DATA
  }

  lemma AbsorbKeepsUnfinished(kind: Kind, current: Option<Assembly>, friend: FriendId, p: Packet)
    requires current.Some? ==> Unfinished(current.value)
    ensures var next := Absorb(kind, current, friend, p).0;
            next.Some? ==> Unfinished(next.value)
  {
  }

  /** The bytes a packet brings: none with a refusal. */
  function Brought(kind: Kind, p: Packet): Bytes { if kind == Request || p.status == 0 then p.data else [] }

  /** The packet is one for this assembly: from its friend, for its extension if it names one, and not too long. */
  predicate IsFor(kind: Kind, a: Assembly, friend: FriendId, p: Packet) {
    var n := |Brought(kind, p)|;
    && friend == a.friend && (p.ext == None || p.ext == Some(a.ext))
    && n <= UNIT && |a.data| + n <= a.total && (kind == Request ==> n > 0)
  }

  /** A packet is taken iff it is one for the assembly; it delivers what has come together iff that is all there is to come. */
  lemma TakenIff(kind: Kind, a: Assembly, friend: FriendId, p: Packet)
    ensures var data := a.data + Brought(kind, p);
            Absorb(kind, Some(a), friend, p) ==
            if !IsFor(kind, a, friend, p) then (Some(a), [])
            else if |data| == a.total then (None, [Delivery(p.tid, friend, p.ext, a.bundle, p.status, p.reason, data)])
            else (Some(Assembly(a.ext, a.friend, a.bundle, a.total, data)), [])
  {
  }

  /** Without an assembly a packet begins one iff it announces at most 8192 bytes, and some if it is a request. */
  lemma BegunIff(kind: Kind, friend: FriendId, p: Packet)
    ensures var a := Assembly(Name(p.ext), friend, p.bundle, p.total, []);
            Absorb(kind, None, friend, p) ==
            if p.total <= 8192 && (kind == Request ==> p.total > 0) && IsFor(kind, a, friend, p)
            then Absorb(kind, Some(a), friend, p) else (None, [])
  {
  }

  /** The packets of one transaction, each with the friend it came from. */
  type Arrivals = seq<(FriendId, Packet)>

  /** What has become of one transaction. */
  datatype Local = Local(assembly: Option<Assembly>, deliveries: seq<Delivery>)

  /** What one arrival does. */
  function Receive(kind: Kind, l: Local, arrival: (FriendId, Packet)): Local {
    var (a, done) := Absorb(kind, l.assembly, arrival.0, arrival.1);
    Local(a, l.deliveries + done)
  }

  function Collect(kind: Kind, l: Local, ps: Arrivals): Local
    decreases ps
  {
    if ps == [] then l else Collect(kind, Receive(kind, l, ps[0]), ps[1..])
  }

  lemma CollectOne(kind: Kind, l: Local, friend: FriendId, p: Packet)
    ensures var (a, done) := Absorb(kind, l.assembly, friend, p);
            Collect(kind, l, [(friend, p)]) == Local(a, l.deliveries + done)
  {
    assert [(friend, p)][1..] == [];
  }

  lemma {:induction false} CollectSplit(kind: Kind, l: Local, a: Arrivals, b: Arrivals)
    ensures Collect(kind, l, a + b) == Collect(kind, Collect(kind, l, a), b)
    decreases a
  {
    if a == [] {
      assert a + b == b;
    } else {
      assert (a + b)[1..] == a[1..] + b;
      CollectSplit(kind, Receive(kind, l, a[0]), a[1..], b);
    }
  }

  // ---------------------------------------------------------------- round trip of one transaction

  function FromFriend(friend: FriendId, ps: seq<Packet>): Arrivals {
    seq(|ps|, i requires 0 <= i < |ps| => (friend, ps[i]))
  }

  lemma FromFriendSlices(friend: FriendId, ps: seq<Packet>, k: nat)
    requires 0 < k <= |ps|
    ensures FromFriend(friend, ps)[1..] == FromFriend(friend, ps[1..])
    ensures FromFriend(friend, ps)[..k][1..] == FromFriend(friend, ps[1..])[..k - 1]
  {
  }

  /** The assembly when the first `off` bytes have arrived. */
  function Partial(friend: FriendId, m: Message, off: nat): Assembly
    requires off <= |m.data|
  {
    Assembly(Name(m.ext), friend, m.bundle, |m.data|, m.data[..off])
  }

  function Delivered(friend: FriendId, m: Message): Delivery {
    Delivery(m.tid, friend, m.ext, m.bundle, m.status, m.reason, m.data)
  }

  /** The transaction when the first `off` bytes have arrived: it waits for more, or has been delivered. */
  function At(friend: FriendId, m: Message, off: nat, deliveries: seq<Delivery>): Local
    requires off <= |m.data|
  {
    if off < |m.data| then Local(Some(Partial(friend, m, off)), deliveries)
    else Local(None, deliveries + [Delivered(friend, m)])
  }

  /** A packet in the middle extends the assembly; the last one completes the transaction. */
  lemma ReceiveNext(kind: Kind, friend: FriendId, m: Message, off: nat, deliveries: seq<Delivery>)
    requires off < |m.data| && m.status == 0 && m.reason == None
    ensures var n := Min(|m.data| - off, UNIT);
            var ps := Following(m, m.data[off..]);
            && ps != [] && ps[1..] == Following(m, m.data[off + n..])
            && Receive(kind, At(friend, m, off, deliveries), (friend, ps[0])) == At(friend, m, off + n, deliveries)
  {
    var n := Min(|m.data| - off, UNIT);
    Cut(m.data, off, n);
    assert off + n == |m.data| ==> m.data[..off + n] == m.data;
    assert deliveries + [] == deliveries;
  }

  lemma ReceiveFirst(kind: Kind, friend: FriendId, m: Message, deliveries: seq<Delivery>)
    requires Sendable(kind, m)
    ensures Receive(kind, Local(None, deliveries), (friend, First(m))) == At(friend, m, FirstLen(m), deliveries)
  {
    assert [] + Payload(kind, First(m)) == m.data[..FirstLen(m)];
    assert FirstLen(m) == |m.data| ==> m.data[..FirstLen(m)] == m.data;
    assert deliveries + [] == deliveries;
  }

  lemma CollectHead(kind: Kind, l: Local, ps: Arrivals, k: nat)
    requires 0 < k <= |ps|
    ensures Collect(kind, l, ps[..k]) == Collect(kind, Receive(kind, l, ps[0]), ps[1..][..k - 1])
  {
    assert ps[..k][1..] == ps[1..][..k - 1];
  }

  // ---------------------------------------------------------------- with strays in between

  /** A packet under the same tid that comes from somebody else or names another extension. */
  predicate Stray(arrival: (FriendId, Packet), friend: FriendId, name: string) {
    arrival.0 != friend || (arrival.1.ext.Some? && arrival.1.ext.value != name)
  }

  /** The arrivals without the strays. */
  function Meant(ps: Arrivals, friend: FriendId, name: string): Arrivals {
    if ps == [] then []
    else (if Stray(ps[0], friend, name) then [] else [ps[0]]) + Meant(ps[1..], friend, name)
  }

  /** The packets of `m` arrive in order; between the first and the last there may be strays. */
  predicate Carries(ps: Arrivals, friend: FriendId, m: Message)
    requires BundleLen(m.bundle) <= MAX_BUNDLE
  {
    && ps != [] && ps[0] == (friend, First(m)) && !Stray(ps[|ps| - 1], friend, Name(m.ext))
    && Meant(ps, friend, Name(m.ext)) == FromFriend(friend, Packets(m))
  }

  lemma {:induction false} LastIsMeant(ps: Arrivals, friend: FriendId, name: string)
    requires ps != [] && !Stray(ps[|ps| - 1], friend, name)
    ensures Meant(ps, friend, name) != []
  {
    if |ps| > 1 {
      LastIsMeant(ps[1..], friend, name);
    }
  }

  lemma MeantHead(ps: Arrivals, friend: FriendId, name: string, fs: seq<Packet>)
    requires ps != [] && !Stray(ps[0], friend, name) && Meant(ps, friend, name) == FromFriend(friend, fs)
    ensures fs != [] && ps[0] == (friend, fs[0]) && Meant(ps[1..], friend, name) == FromFriend(friend, fs[1..])
  {
    var meant := Meant(ps, friend, name);
    assert meant[0] == ps[0] && meant[1..] == Meant(ps[1..], friend, name);
    assert |meant| == |fs|;
    FromFriendSlices(friend, fs, |fs|);
  }

  lemma StrayIsIgnored(kind: Kind, friend: FriendId, m: Message, off: nat, deliveries: seq<Delivery>, arrival: (FriendId, Packet))
    requires off < |m.data| && Stray(arrival, friend, Name(m.ext))
    ensures Receive(kind, At(friend, m, off, deliveries), arrival) == At(friend, m, off, deliveries)
  {
    assert deliveries + [] == deliveries;
  }

  /** Either all has come and the message is delivered, or nothing is delivered yet. */
  predicate Reached(l: Local, friend: FriendId, m: Message, deliveries: seq<Delivery>, complete: bool) {
    if complete then l == Local(None, deliveries + [Delivered(friend, m)]) else l.deliveries == deliveries
  }

  /** The arrivals end with a packet that is not a stray, if there are any. */
  predicate EndsWell(ps: Arrivals, friend: FriendId, name: string) {
    ps != [] ==> !Stray(ps[|ps| - 1], friend, name)
  }

  /** Something arrives as long as something is missing. */
  lemma NoneLeftIff(friend: FriendId, m: Message, off: nat, ps: Arrivals)
    requires off <= |m.data| && EndsWell(ps, friend, Name(m.ext))
    requires Meant(ps, friend, Name(m.ext)) == FromFriend(friend, Following(m, m.data[off..]))
    ensures ps == [] <==> off == |m.data|
  {
    if ps != [] {
      LastIsMeant(ps, friend, Name(m.ext));
    }
    assert |FromFriend(friend, Following(m, m.data[off..]))| == |Following(m, m.data[off..])|;
  }

  /** One arrival, a stray or the next packet, leads from one state of the transaction to another. */
  lemma NextArrival(kind: Kind, friend: FriendId, m: Message, off: nat, deliveries: seq<Delivery>, ps: Arrivals) returns (off': nat)
    requires off < |m.data| && m.status == 0 && m.reason == None && ps != []
    requires Meant(ps, friend, Name(m.ext)) == FromFriend(friend, Following(m, m.data[off..]))
    ensures off' <= |m.data| && Receive(kind, At(friend, m, off, deliveries), ps[0]) == At(friend, m, off', deliveries)
    ensures Meant(ps[1..], friend, Name(m.ext)) == FromFriend(friend, Following(m, m.data[off'..]))
  {
    if Stray(ps[0], friend, Name(m.ext)) {
      StrayIsIgnored(kind, friend, m, off, deliveries, ps[0]);
      off' := off;
    } else {
      ReceiveNext(kind, friend, m, off, deliveries);
      MeantHead(ps, friend, Name(m.ext), Following(m, m.data[off..]));
      off' := off + Min(|m.data| - off, UNIT);
    }
  }

  lemma {:induction false} CollectAmongStrays(kind: Kind, friend: FriendId, m: Message, off: nat, deliveries: seq<Delivery>, ps: Arrivals, k: nat)
    requires off <= |m.data| && m.status == 0 && m.reason == None && k <= |ps|
    requires Meant(ps, friend, Name(m.ext)) == FromFriend(friend, Following(m, m.data[off..]))
    requires EndsWell(ps, friend, Name(m.ext))
    ensures Reached(Collect(kind, At(friend, m, off, deliveries), ps[..k]), friend, m, deliveries, k == |ps|)
    decreases |ps|
  {
    NoneLeftIff(friend, m, off, ps);
    if k > 0 {
      CollectHead(kind, At(friend, m, off, deliveries), ps, k);
      var off' := NextArrival(kind, friend, m, off, deliveries, ps);
      CollectAmongStrays(kind, friend, m, off', deliveries, ps[1..], k - 1);
    }
  }

  /** The message is delivered by the last arrival, once, and not before. */
  lemma CarriedIsDelivered(kind: Kind, friend: FriendId, m: Message, deliveries: seq<Delivery>, ps: Arrivals, k: nat)
    requires Sendable(kind, m) && Carries(ps, friend, m) && k <= |ps|
    ensures Reached(Collect(kind, Local(None, deliveries), ps[..k]), friend, m, deliveries, k == |ps|)
  {
    if k > 0 {
      CollectHead(kind, Local(None, deliveries), ps, k);
      ReceiveFirst(kind, friend, m, deliveries);
      MeantHead(ps, friend, Name(m.ext), Packets(m));
      AfterFirst(kind, friend, m, deliveries, ps[1..], k - 1);
    }
  }

  lemma AfterFirst(kind: Kind, friend: FriendId, m: Message, deliveries: seq<Delivery>, ps: Arrivals, k: nat)
    requires Sendable(kind, m) && k <= |ps| && EndsWell(ps, friend, Name(m.ext))
    requires Meant(ps, friend, Name(m.ext)) == FromFriend(friend, Packets(m)[1..])
    ensures Reached(Collect(kind, At(friend, m, FirstLen(m), deliveries), ps[..k]), friend, m, deliveries, k == |ps|)
  {
    assert Packets(m)[1..] == Following(m, m.data[FirstLen(m)..]);
    if FirstLen(m) < |m.data| {
      CollectAmongStrays(kind, friend, m, FirstLen(m), deliveries, ps, k);
    } else {
      NoneLeftIff(friend, m, FirstLen(m), ps);
    }
  }

  lemma {:induction false} FollowingNames(m: Message, rest: Bytes)
    ensures forall p <- Following(m, rest) :: p.ext == m.ext
    decreases |rest|
  {
    if rest != [] {
      FollowingNames(m, rest[Min(|rest|, UNIT)..]);
    }
  }

  lemma {:induction false} NoneIsStray(friend: FriendId, m: Message, ps: seq<Packet>)
    requires forall p <- ps :: p.ext == m.ext
    ensures Meant(FromFriend(friend, ps), friend, Name(m.ext)) == FromFriend(friend, ps)
  {
    if ps != [] {
      FromFriendSlices(friend, ps, |ps|);
      assert forall p <- ps[1..] :: p in ps;
      NoneIsStray(friend, m, ps[1..]);
    }
  }

  /** All packets of a message, in order and from one friend, yield the message once, and nothing before the last. */
  lemma CollectPackets(kind: Kind, friend: FriendId, m: Message, deliveries: seq<Delivery>, k: nat)
    requires Sendable(kind, m) && k <= |Packets(m)|
    ensures Reached(Collect(kind, Local(None, deliveries), FromFriend(friend, Packets(m))[..k]), friend, m, deliveries, k == |Packets(m)|)
  {
    var ps := Packets(m);
    FollowingNames(m, m.data[FirstLen(m)..]);
    NoneIsStray(friend, m, ps);
    assert ps[|ps| - 1].ext == m.ext;
    CarriedIsDelivered(kind, friend, m, deliveries, FromFriend(friend, ps), k);
  }

  // ---------------------------------------------------------------- packets that do not fit

  /** A packet from another friend leaves the assembly alone. */
  lemma StrangersAreIgnored(kind: Kind, a: Assembly, friend: FriendId, p: Packet)
    requires friend != a.friend
    ensures Absorb(kind, Some(a), friend, p) == (Some(a), [])
  {
  }

  /**
   * The extension is checked only when the packet names one: a packet that is fine otherwise is
   * taken in iff it names the right extension or none.
   */
  lemma ExtensionCheckedIffNamed(kind: Kind, a: Assembly, p: Packet)
    requires 0 < |Payload(kind, p)| <= UNIT && |a.data| + |Payload(kind, p)| <= a.total
    ensures Absorb(kind, Some(a), a.friend, p) != (Some(a), []) <==> p.ext == None || p.ext == Some(a.ext)
  {
    assert |Extended(kind, a, p).data| > |a.data|;
  }

  /** So an invitation to a session, completed by a nameless packet, is delivered without the name. */
  lemma NamelessPacketChangesAddressee(tid: Tid, friend: FriendId)
    ensures var first := Packet(tid, Some("session"), None, 0, None, 2, [1]);
            var last := Packet(tid, None, None, 0, None, 0, [2]);
            Collect(Request, Local(None, []), [(friend, first), (friend, last)])
            == Local(None, [Delivery(tid, friend, None, None, 0, None, [1, 2])])
  {
    var first := Packet(tid, Some("session"), None, 0, None, 2, [1]);
    var last := Packet(tid, None, None, 0, None, 0, [2]);
    var ps := [(friend, first), (friend, last)];
    var a := Assembly("session", friend, None, 2, [1]);
    var delivery := Delivery(tid, friend, None, None, 0, None, [1, 2]);
    assert Absorb(Request, None, friend, first) == (Some(a), []) by {
      assert [] + [1] == [1];
    }
    assert Absorb(Request, Some(a), friend, last) == (None, [delivery]) by {
      assert [1] + [2] == [1, 2];
    }
    assert ps[1..] == [(friend, last)] && ps[1..][1..] == [];
    assert [] + [delivery] == [delivery];
    assert Collect(Request, Local(Some(a), []), ps[1..]) == Collect(Request, Local(None, [delivery]), ps[1..][1..]);
    assert Collect(Request, Local(None, []), ps) == Collect(Request, Local(Some(a), []), ps[1..]) by {
      var nobody: seq<Delivery> := [];
      assert nobody + [] == nobody;
    }
  }

  // ---------------------------------------------------------------- the record in memory

  /** The record of the C program: a buffer of the announced length, filled up to `dataOff`. */
  class TransactedAssembly {
    const tid: Tid
    const ext: string
    const friend: FriendId
    const bundle: Option<string>
    const data: array<byte>
    var dataOff: nat

    ghost predicate Valid()
      reads this
    {
      dataOff <= data.Length
    }

    ghost function Value(): Assembly
      reads this, data
      requires Valid()
    {
      Assembly(ext, friend, bundle, data.Length, data[..dataOff])
    }

    constructor (p: Packet, from: FriendId)
      ensures Valid() && fresh(data) && tid == p.tid
      ensures Value() == Assembly(Name(p.ext), from, p.bundle, p.total, [])
    {
      tid, ext, friend, bundle := p.tid, Name(p.ext), from, p.bundle;
      data := new byte[p.total](i => 0);
      dataOff := 0;
    }

    /** Copies the payload behind what is there already. */
    method Append(payload: Bytes)
      requires Valid() && dataOff + |payload| <= data.Length
      modifies this`dataOff, data
      ensures Valid() && dataOff == old(dataOff) + |payload|
      ensures Value() == old(Value()).(data := old(Value()).data + payload)
    {
      var off := dataOff;
      for i := 0 to |payload|
        invariant dataOff == off
        invariant data[..off] == old(data[..dataOff])
        invariant data[off..off + i] == payload[..i]
      {
        data[off + i] := payload[i];
      }
      assert data[..off + |payload|] == data[..off] + data[off..off + |payload|];
      dataOff := off + |payload|;
    }
  }

  /** A table of assemblies; each is filed under its tid and has its own buffer. */
  type Table = map<Tid, TransactedAssembly>

  ghost predicate Filed(table: Table) {
    && (forall t <- table :: table[t].tid == t)
    && (forall t <- table, u <- table :: t != u ==> table[t].data != table[u].data)
  }

  ghost function Buffers(table: Table): set<object> {
    (set t | t in table :: table[t]) + (set t | t in table :: table[t].data)
  }

  ghost predicate AllValid(table: Table)
    reads Buffers(table)
  {
    Filed(table) && forall t <- table :: table[t].Valid()
  }

  ghost function Values(table: Table): map<Tid, Assembly>
    reads Buffers(table)
    requires AllValid(table)
  {
    map t | t in table :: table[t].Value()
  }

  function Find<T>(m: map<Tid, T>, tid: Tid): Option<T> {
    if tid in m then Some(m[tid]) else None
  }

  function Put<T>(m: map<Tid, T>, tid: Tid, a: Option<T>): map<Tid, T> {
    if a.Some? then m[tid := a.value] else m - {tid}
  }

  /** Checks a packet against the assembly it belongs to, copies its payload, and delivers if that completes it. */
  method Take(kind: Kind, item: TransactedAssembly, from: FriendId, p: Packet) returns (ok: bool, done: seq<Delivery>)
    requires item.Valid() && p.tid == item.tid
    modifies item`dataOff, item.data
    ensures item.Valid() && ok == Fits(kind, old(item.Value()), from, p)
    ensures item.Value() == if ok then Extended(kind, old(item.Value()), p) else old(item.Value())
    ensures done == Absorb(kind, Some(old(item.Value())), from, p).1
  {
    done := [];
    var payload := Payload(kind, p);
    if (p.ext.Some? && item.ext != p.ext.value) || item.friend != from || (kind.Request? && payload == [])
       || |payload| > UNIT || item.dataOff + |payload| > item.data.Length {
      return false, done;
    }
    item.Append(payload);
    ok := true;
    if item.dataOff == item.data.Length {
      done := [Delivery(p.tid, from, p.ext, item.bundle, p.status, p.reason, item.data[..item.dataOff])];
    }
  }

  lemma WithoutEntries(table: Table, tids: set<Tid>)
    requires AllValid(table)
    ensures AllValid(table - tids) && Buffers(table - tids) <= Buffers(table)
    ensures Values(table - tids) == Values(table) - tids
  {
  }

  lemma WithEntry(table: Table, item: TransactedAssembly)
    requires AllValid(table) && item.Valid() && forall t <- table :: table[t].data != item.data
    ensures var after := table[item.tid := item];
            AllValid(after) && Values(after) == Values(table)[item.tid := item.Value()]
            && Buffers(after) <= Buffers(table) + {item, item.data}
  {
  }

  /** A packet of a transaction without assembly: it begins one, or is everything there is to come. */
  method Begin(kind: Kind, table: Table, from: FriendId, p: Packet) returns (after: Table, done: seq<Delivery>)
    requires AllValid(table) && p.tid !in table
    ensures AllValid(after) && fresh(Buffers(after) - Buffers(table))
    ensures var (a, deliveries) := Absorb(kind, None, from, p);
            done == deliveries && Values(after) == Put(Values(table), p.tid, a)
  {
    after, done := table, [];
    ghost var before := Values(table);
    WithoutEntries(table, {p.tid});
    assert table - {p.tid} == table;
    if Announces(kind, p.total) {
      var item := new TransactedAssembly(p, from);
      var ok;
      ok, done := Take(kind, item, from, p);
      assert AllValid(table) && Values(table) == before;
      if ok && done == [] {
        WithEntry(table, item);
        after := table[p.tid := item];
      }
    }
  }

  /** A packet is taken by its assembly in the table; the other entries stay as they are. */
  method TakeFiled(kind: Kind, table: Table, item: TransactedAssembly, from: FriendId, p: Packet) returns (done: seq<Delivery>)
    requires AllValid(table) && p.tid in table && table[p.tid] == item
    modifies item`dataOff, item.data
    ensures AllValid(table) && Values(table) == old(Values(table))[p.tid := item.Value()]
    ensures var (a, deliveries) := Absorb(kind, Some(old(item.Value())), from, p);
            done == deliveries && (done == [] ==> a == Some(item.Value()))
  {
    ghost var before := Values(table);
    var ok;
    ok, done := Take(kind, item, from, p);
    forall t <- table ensures table[t].Valid() && (t != p.tid ==> table[t].Value() == before[t]) {
    }
  }

  /** A packet of a transaction with an assembly. */
  method Continue(kind: Kind, table: Table, item: TransactedAssembly, from: FriendId, p: Packet)
    returns (after: Table, done: seq<Delivery>)
    requires AllValid(table) && p.tid in table && table[p.tid] == item
    modifies item`dataOff, item.data
    ensures AllValid(after) && Buffers(after) <= Buffers(table)
    ensures var (a, deliveries) := Absorb(kind, Some(old(item.Value())), from, p);
            done == deliveries && Values(after) == Put(old(Values(table)), p.tid, a)
  {
    done := TakeFiled(kind, table, item, from, p);
    after := if done != [] then table - {p.tid} else table;
    WithoutEntries(table, {p.tid});
  }

  /** What both packet handlers do with the table of assemblies. */
  method Assemble(kind: Kind, table: Table, from: FriendId, p: Packet) returns (after: Table, done: seq<Delivery>)
    requires AllValid(table)
    modifies Buffers(table)
    ensures AllValid(after) && fresh(Buffers(after) - Buffers(table))
    ensures var (a, deliveries) := Absorb(kind, Find(old(Values(table)), p.tid), from, p);
            done == deliveries && Values(after) == Put(old(Values(table)), p.tid, a)
  {
    if p.tid in table {
      after, done := Continue(kind, table, table[p.tid], from, p);
    } else {
      after, done := Begin(kind, table, from, p);
    }
  }

  /** The loop of do_tassemblies_expire over a table. */
  method Purge<K(==), V>(table: map<K, V>, expired: set<K>) returns (after: map<K, V>)
    ensures after == table - expired
  {
    after := table;
    var rest := table.Keys;
    while rest != {}
      invariant rest <= table.Keys
      invariant after == table - (expired - rest)
      decreases |rest|
    {
      var t :| t in rest;
      rest := rest - {t};
      if t in expired {
        after := after - {t};
      }
    }
  }

  /** do_tassemblies_expire, when the assemblies of `expired` are overdue. */
  method CheckAssemblies(table: Table, expired: set<Tid>) returns (after: Table)
    requires AllValid(table)
    ensures AllValid(after) && Buffers(after) <= Buffers(table)
    ensures Values(after) == Values(table) - expired
  {
    after := Purge(table, expired);
    WithoutEntries(table, expired);
  }
}
