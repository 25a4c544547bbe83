/**
 * What the applications at both ends of a file transfer can rely on: when their requests succeed, and
 * what a packet, a pend or an announcement does to a file, in every run in which no file id in use is
 * announced a second time (src/filetransfer/filetransfer.c).
 */
module Requests {
  import opened Wrappers
  import opened FileSlots

  /** The only slot that differs is i. */
  predicate OnlySlot(before: seq<Item>, after: seq<Item>, i: nat, item: Item) {
    |after| == |before| && i < |before| && after[i] == item && forall j :: 0 <= j < |before| && j != i ==> after[j] == before[j]
  }

  lemma {:induction false} RoleStays(s: System, es: seq<Event>)
    requires |s.items| == COUNT
    ensures Run(s, es).role == s.role
    decreases es
  {
    if es != [] {
      RoleStays(Step(s, es[0]), es[1..]);
    }
  }

  /** A run in good order. */
  lemma Reached(role: Role, file: Option<Info>, es: seq<Event>)
    requires Reaches(Start(role, file), es)
    ensures Inv(Run(Start(role, file), es)) && Run(Start(role, file), es).role == role
  {
    InvStart(role, file);
    InvRun(Start(role, file), es);
    RoleStays(Start(role, file), es);
  }

  // ---------------------------------------------------------------- the receiver's requests

  /** The request can be made of this file now. */
  predicate Timely(item: Item, request: Request) {
    match request
    case PullFrom(offset) => item.state == Standby && offset < item.size
    case Pend => item.state == Transferring
    case Resume => item.state == Standby
  }

  predicate Serves(items: seq<Item>, j: nat, fileid: string, request: Request) {
    j < |items| && items[j].fileid == fileid && Timely(items[j], request)
  }

  lemma AnswerInOrder(s: System, fileid: string, request: Request, sent: bool)
    requires Inv(s)
    ensures var (after, rc) := Ask(s.role, s.connected, s.items, fileid, request, sent);
            && (rc == Done <==> fileid != "" && s.role == Receiver && s.connected && sent && exists j: nat :: Serves(s.items, j, fileid, request))
            && (forall j: nat :: rc == Done && Serves(s.items, j, fileid, request) ==>
                  OnlySlot(s.items, after, j, s.items[j].(state := if request == Pend then Standby else Transferring)))
            && (rc != Done ==> after == s.items)
  {
    forall j: nat | Serves(s.items, j, fileid, request) ensures FirstFile(s.items, fileid) == j {
      LiveSlotIsFirst(s.items, j);
    }
    var i := FirstFile(s.items, fileid);
    assert i < COUNT && Timely(s.items[i], request) ==> Serves(s.items, i, fileid, request);
  }

  /**
   * In every run a pull, pend or resume succeeds iff this is the receiver, it is connected, the request
   * can be sent, and the named file waits (to be pulled from an offset within it, or resumed) or is being
   * transferred (to be pended).  Then its slot changes its state, and nothing else; otherwise nothing.
   */
  lemma RequestAnswer(role: Role, file: Option<Info>, es: seq<Event>, fileid: string, request: Request, sent: bool)
    requires Reaches(Start(role, file), es)
    ensures var s := Run(Start(role, file), es);
            var (after, rc) := Ask(s.role, s.connected, s.items, fileid, request, sent);
            && (rc == Done <==> fileid != "" && role == Receiver && s.connected && sent && exists j: nat :: Serves(s.items, j, fileid, request))
            && (forall j: nat :: rc == Done && Serves(s.items, j, fileid, request) ==>
                  OnlySlot(s.items, after, j, s.items[j].(state := if request == Pend then Standby else Transferring)))
            && (rc != Done ==> after == s.items)
  {
    Reached(role, file, es);
    AnswerInOrder(Run(Start(role, file), es), fileid, request, sent);
  }

  /** Why a request fails: no name, no such file, an offset behind its end, the wrong moment, or the stream. */
  lemma RefusalTells(role: Role, connected: bool, items: seq<Item>, fileid: string, request: Request, sent: bool)
    requires fileid != ""
    ensures var rc := Ask(role, connected, items, fileid, request, sent).1;
            && (rc == NotExist <==> !Remembered(items, fileid))
            && (rc == Failed ==> !sent)
            && (rc == InvalidArgs ==> request.PullFrom? && exists j :: 0 <= j < |items| && items[j].fileid == fileid && request.offset >= items[j].size)
            && Ask(role, connected, items, "", request, sent) == (items, InvalidArgs)
  {
    var i := FirstFile(items, fileid);
  }

  // ---------------------------------------------------------------- packets on a channel

  /** The file of slot j changes as said, or leaves with its channel; nothing else does. */
  predicate Becomes(s: System, t: System, j: nat, state: State)
    requires j < |s.items|
  {
    if state == Free then
      OnlySlot(s.items, t.items, j, s.items[j].(state := Free, filename := None)) && t.mux == s.mux - {s.items[j].channel}
    else
      OnlySlot(s.items, t.items, j, s.items[j].(state := state)) && t.mux == s.mux
  }

  /** What a packet makes of a live file. */
  function AfterPacket(role: Role, item: Item, packet: Packet, accept: bool): State {
    match role
    case Sender => if packet.Pull? && item.state == Standby then Transferring else Free
    case Receiver => if item.state == Transferring && !accept then Free else item.state
  }

  /** The packet finds slot j, and leaves all others alone. */
  lemma PacketFinds(s: System, j: nat, packet: Packet, accept: bool)
    requires Inv(s) && j < COUNT && Live(s.items[j])
    ensures var after := Data(s.role, s.items, s.items[j].channel, packet, accept).0;
            && FirstChannel(s.items, s.items[j].channel) == j && |after| == COUNT
            && OnlySlot(s.items, after, j, s.items[j].(state := after[j].state))
            && FirstChannel(after, s.items[j].channel) == j
  {
    LiveSlotIsFirst(s.items, j);
    var after := Data(s.role, s.items, s.items[j].channel, packet, accept).0;
    assert forall k :: 0 <= k < COUNT ==> after[k].channel == s.items[k].channel;
  }

  lemma DataInOrder(s: System, j: nat, packet: Packet, accept: bool)
    requires Inv(s) && j < COUNT && Live(s.items[j])
    ensures var (after, stays, _) := Data(s.role, s.items, s.items[j].channel, packet, accept);
            var state := AfterPacket(s.role, s.items[j], packet, accept);
            |after| == COUNT && (stays <==> state != Free) && (stays ==> after[j].state == state)
  {
    LiveSlotIsFirst(s.items, j);
  }

  lemma TellsInOrder(s: System, j: nat, packet: Packet, accept: bool)
    requires Inv(s) && j < COUNT && Live(s.items[j])
    ensures var item := s.items[j];
            Data(s.role, s.items, item.channel, packet, accept).2 ==
            if (if s.role == Sender then packet == Cancel || (packet.Pull? && item.state == Standby) else item.state == Transferring)
            then Some(item.fileid) else None
  {
    LiveSlotIsFirst(s.items, j);
  }

  lemma PacketInOrder(s: System, j: nat, packet: Packet, accept: bool)
    requires Inv(s) && j < COUNT && Live(s.items[j])
    ensures Becomes(s, Step(s, Arrives(s.items[j].channel, packet, accept)), j, AfterPacket(s.role, s.items[j], packet, accept))
  {
    PacketFinds(s, j, packet, accept);
    DataInOrder(s, j, packet, accept);
  }

  /**
   * In every run: at the sender a pull of a waiting file starts its transfer, and any other packet ends
   * it; at the receiver data end a transfer iff the application refuses them.  A file that ends leaves
   * its slot and its channel.  The application is told of a pull that starts a transfer, of a cancel, and
   * of data for a file that is being transferred.
   */
  lemma PacketEffect(role: Role, file: Option<Info>, es: seq<Event>, j: nat, packet: Packet, accept: bool)
    requires Reaches(Start(role, file), es) && j < COUNT
    requires Live(Run(Start(role, file), es).items[j])
    ensures var s := Run(Start(role, file), es);
            var item := s.items[j];
            var told := Data(role, s.items, item.channel, packet, accept).2;
            && Becomes(s, Step(s, Arrives(item.channel, packet, accept)), j, AfterPacket(role, item, packet, accept))
            && told == if (if role == Sender then packet == Cancel || (packet.Pull? && item.state == Standby) else item.state == Transferring)
                       then Some(item.fileid) else None
  {
    Reached(role, file, es);
    PacketInOrder(Run(Start(role, file), es), j, packet, accept);
    TellsInOrder(Run(Start(role, file), es), j, packet, accept);
    PacketInOrder(Run(Start(role, file), es), j, packet, accept);
  }

  /** In every run a pend of the peer stops a transfer at the sender, which is told of its file; it does nothing else. */
  lemma PendEffect(role: Role, file: Option<Info>, es: seq<Event>, j: nat)
    requires Reaches(Start(role, file), es) && j < COUNT && Live(Run(Start(role, file), es).items[j])
    ensures var s := Run(Start(role, file), es);
            var (after, told) := Pended(s.role, s.items, s.items[j].channel);
            if role == Sender && s.items[j].state == Transferring then
              OnlySlot(s.items, after, j, s.items[j].(state := Standby)) && told == Some(s.items[j].fileid)
            else after == s.items && told == None
  {
    Reached(role, file, es);
    LiveSlotIsFound(role, file, es, j);
  }

  // ---------------------------------------------------------------- files that come

  /** The first slot that is free. */
  predicate LowestFree(items: seq<Item>, i: nat) {
    i < |items| && !Live(items[i]) && forall j :: 0 <= j < i ==> Live(items[j])
  }

  /**
   * A file is added iff a slot is free and a channel can be opened: it waits in the lowest free slot.
   * Otherwise every slot that is in use stays as it is, and none comes into use.
   */
  lemma AddAnswer(items: seq<Item>, info: Info, rc: int)
    ensures var (after, result) := Add(items, info, rc);
            && (result == LimitExceeded <==> forall j :: 0 <= j < |items| ==> Live(items[j]))
            && (result == Done <==> HasRoom(items) && rc >= 0)
            && (result == Done || result == LimitExceeded || result == Failed)
            && (forall i: nat :: result == Done && LowestFree(items, i) ==>
                  OnlySlot(items, after, i, Item(info.fileid, Some(info.filename), info.size, Standby, rc)))
            && (result != Done ==> |after| == |items| && forall j :: 0 <= j < |items| ==>
                  (Live(items[j]) ==> after[j] == items[j]) && (!Live(items[j]) ==> !Live(after[j])))
  {
    var i := FirstFree(items);
    assert forall k: nat :: LowestFree(items, k) ==> k == i;
  }

  /** The first file gets its channel when the connection stands, or is given up. */
  lemma ConnectEffect(role: Role, file: Option<Info>, es: seq<Event>, rc: int)
    requires Reaches(Start(role, file), es) && Enabled(Run(Start(role, file), es), Connects(rc))
    ensures var s := Run(Start(role, file), es);
            var t := Step(s, Connects(rc));
            && t.connected && t.role == role
            && if role == Sender && Live(s.items[0]) then
                 && OnlySlot(s.items, t.items, 0, if rc > 0 then s.items[0].(channel := rc)
                                                  else s.items[0].(channel := rc, filename := None, state := Free))
                 && t.mux == (if rc > 0 then {rc} else {})
               else t.items == s.items && t.mux == s.mux
  {
    Reached(role, file, es);
  }

  lemma AnnouncementInOrder(s: System, channel: int, info: Info)
    requires Inv(s)
    ensures var (after, taken) := Open(Receiver, s.items, channel, Some(info));
            && (forall j: nat :: j < COUNT && taken && Live(s.items[j]) && s.items[j].fileid == info.fileid ==>
                  OnlySlot(s.items, after, j, s.items[j].(channel := channel)))
            && (forall i: nat :: taken && !Remembered(s.items, info.fileid) && LowestFree(s.items, i) ==>
                  OnlySlot(s.items, after, i, Item(info.fileid, Some(info.filename), info.size, Standby, channel)))
            && (!taken ==> after == s.items)
  {
    forall j: nat | j < COUNT && Live(s.items[j]) ensures FirstFile(s.items, s.items[j].fileid) == j {
      LiveSlotIsFirst(s.items, j);
    }
    assert forall i: nat :: LowestFree(s.items, i) ==> FirstFree(s.items) == i;
  }

  /**
   * In every run an announcement that is taken binds the file that waits for it to the channel, or puts
   * a new file into the lowest free slot; no other slot changes.  A sender takes none.
   */
  lemma AnnouncementEffect(file: Option<Info>, es: seq<Event>, channel: int, info: Info)
    requires Reaches(Start(Receiver, file), es)
    ensures var items := Run(Start(Receiver, file), es).items;
            var (after, taken) := Open(Receiver, items, channel, Some(info));
            && (forall j: nat :: j < COUNT && taken && Live(items[j]) && items[j].fileid == info.fileid ==>
                  OnlySlot(items, after, j, items[j].(channel := channel)))
            && (forall i: nat :: taken && !Remembered(items, info.fileid) && LowestFree(items, i) ==>
                  OnlySlot(items, after, i, Item(info.fileid, Some(info.filename), info.size, Standby, channel)))
            && (!taken ==> after == items)
            && Open(Sender, items, channel, Some(info)) == (items, false)
            && Open(Receiver, items, channel, None) == (items, false)
  {
    Reached(Receiver, file, es);
    AnnouncementInOrder(Run(Start(Receiver, file), es), channel, info);
  }

  /** A declared file waits in the first slot, and the others are free. */
  lemma StartEffect(role: Role, file: Option<Info>)
    ensures var items := Start(role, file).items;
            && |items| == COUNT && (forall j :: 0 < j < COUNT ==> !Live(items[j]))
            && if file.Some? then items[0] == Item(file.value.fileid, Some(file.value.filename), file.value.size, Standby, -1)
               else !Live(items[0])
  {
  }
}
