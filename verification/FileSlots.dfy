/**
 * The five file slots of a file transfer, searched by channel or by file id; a freed slot keeps its
 * old channel number and file id (src/filetransfer/filetransfer.h:119-153, src/filetransfer/filetransfer.c).
 */
module FileSlots {
  import opened Wrappers

  const COUNT := 5

  datatype State = Free | Standby | Transferring

  datatype Item = Item(fileid: string, filename: Option<string>, size: nat, state: State, channel: int)

  datatype Role = Sender | Receiver

  /** What a transfer is announced with. */
  datatype Info = Info(filename: string, fileid: string, size: nat)

  predicate Live(item: Item) { item.state != Free }

  // ---------------------------------------------------------------- the searches

  function FirstFree(items: seq<Item>): (i: nat)
    ensures i <= |items| && forall j :: 0 <= j < i ==> Live(items[j])
    ensures i < |items| ==> !Live(items[i])
  {
    if items == [] || !Live(items[0]) then 0 else 1 + FirstFree(items[1..])
  }

  function FirstChannel(items: seq<Item>, channel: int): (i: nat)
    ensures i <= |items| && forall j :: 0 <= j < i ==> items[j].channel != channel
    ensures i < |items| ==> items[i].channel == channel
  {
    if items == [] || items[0].channel == channel then 0 else 1 + FirstChannel(items[1..], channel)
  }

  function FirstFile(items: seq<Item>, fileid: string): (i: nat)
    ensures i <= |items| && forall j :: 0 <= j < i ==> items[j].fileid != fileid
    ensures i < |items| ==> items[i].fileid == fileid
  {
    if items == [] || items[0].fileid == fileid then 0 else 1 + FirstFile(items[1..], fileid)
  }

  // ---------------------------------------------------------------- the events, on values

  datatype Rc = Done | InvalidArgs | NotExist | WrongState | LimitExceeded | Failed

  datatype Packet = Pull(offset: nat) | Cancel | Other

  function Initial(file: Option<Info>): seq<Item> {
    var unused := Item("", None, 0, Free, 0);
    [if file.Some? then Item(file.value.fileid, Some(file.value.filename), file.value.size, Standby, -1) else unused,
     unused, unused, unused, unused]
  }

  /** The connection stands; `rc` is what opening a channel for the first file returns. */
  function Connect(items: seq<Item>, rc: int): seq<Item>
    requires |items| == COUNT
  {
    if items[0].state != Standby then items
    else if rc < 0 then items[0 := items[0].(channel := rc, filename := None, state := Free)]
    else items[0 := items[0].(channel := rc)]
  }

  function Add(items: seq<Item>, info: Info, rc: int): (seq<Item>, Rc) {
    var i := FirstFree(items);
    if i == |items| then (items, LimitExceeded)
    else if rc < 0 then (items[i := Item(info.fileid, None, info.size, Free, rc)], Failed)
    else (items[i := Item(info.fileid, Some(info.filename), info.size, Standby, rc)], Done)
  }

  /** The peer asks for a channel; a cookie of None stands for a missing or malformed one. */
  function Open(role: Role, items: seq<Item>, channel: int, cookie: Option<Info>): (seq<Item>, bool) {
    if role != Receiver || cookie == None then (items, false)
    else
      var info := cookie.value;
      var i := FirstFile(items, info.fileid);
      var j := FirstFree(items);
      if i < |items| then
        if items[i].state != Standby || items[i].size != info.size then (items, false)
        else (items[i := items[i].(channel := channel)], true)
      else if j == |items| then (items, false)
      else (items[j := Item(info.fileid, Some(info.filename), info.size, Standby, channel)], true)
  }

  function Close(items: seq<Item>, channel: int): seq<Item> {
    var i := FirstChannel(items, channel);
    if i == |items| then items else items[i := items[i].(state := Free, filename := None)]
  }

  /**
   * Data on a channel: the slots afterwards, whether the channel stays, and the file the application
   * is told about.  `accept` is the application's answer to file data.
   */
  function Data(role: Role, items: seq<Item>, channel: int, packet: Packet, accept: bool): (seq<Item>, bool, Option<string>) {
    var i := FirstChannel(items, channel);
    if i == |items| then (items, false, None)
    else
      var item := items[i];
      match role
      case Sender =>
        if packet.Pull? && item.state == Standby then (items[i := item.(state := Transferring)], true, Some(item.fileid))
        else if packet.Cancel? then (items[i := item.(state := Free)], false, Some(item.fileid))
        else (items, false, None)
      case Receiver =>
        if item.state != Transferring then (items, true, None) else (items, accept, Some(item.fileid))
  }

  /** The receiver has pended the channel. */
  function Pended(role: Role, items: seq<Item>, channel: int): (seq<Item>, Option<string>) {
    var i := FirstChannel(items, channel);
    if role != Sender || i == |items| || items[i].state != Transferring then (items, None)
    else (items[i := items[i].(state := Standby)], Some(items[i].fileid))
  }

  datatype Request = PullFrom(offset: nat) | Pend | Resume

  /** What the receiving application asks for; `sent` says whether the stream takes the request. */
  function Ask(role: Role, connected: bool, items: seq<Item>, fileid: string, request: Request, sent: bool): (seq<Item>, Rc) {
    var i := FirstFile(items, fileid);
    if fileid == "" then (items, InvalidArgs)
    else if i == |items| then (items, NotExist)
    else if request.PullFrom? && request.offset >= items[i].size then (items, InvalidArgs)
    else if role != Receiver || !connected then (items, WrongState)
    else if items[i].state != (if request.Pend? then Transferring else Standby) then (items, WrongState)
    else if !sent then (items, Failed)
    else (items[i := items[i].(state := if request.Pend? then Standby else Transferring)], Done)
  }

  // ---------------------------------------------------------------- together with the multiplexer

  /** `mux` are the channels in the multiplexer's table. */
  datatype System = System(role: Role, connected: bool, items: seq<Item>, mux: set<int>)

  datatype Event =
    | Connects(rc: int)
    | Adds(info: Info, rc: int)
    /** The peer opens a channel; `confirmed` says whether the confirmation can be sent. */
    | PeerOpens(channel: int, cookie: Option<Info>, confirmed: bool)
    | Closes(channel: int)
    | Arrives(channel: int, packet: Packet, accept: bool)
    | PeerPends(channel: int)
    | Asks(fileid: string, request: Request, sent: bool)

  function Start(role: Role, file: Option<Info>): System {
    System(role, false, Initial(file), {})
  }

  /** The multiplexer hands out positive ids that are not in its table, and reports on those that are. */
  predicate Enabled(s: System, e: Event) {
    match e
    case Connects(rc) => !s.connected && rc != 0 && rc !in s.mux
    case Adds(info, rc) => s.connected && s.role == Sender && info.fileid != "" && rc != 0 && rc !in s.mux
    case PeerOpens(channel, cookie, _) => s.connected && channel > 0 && channel !in s.mux && (cookie.Some? ==> cookie.value.fileid != "")
    case Closes(channel) => s.connected && channel in s.mux
    case Arrives(channel, _, _) => s.connected && channel in s.mux
    case PeerPends(channel) => s.connected && channel in s.mux
    case Asks(_, _, _) => true
  }

  function Opened(mux: set<int>, rc: int): set<int> {
    if rc > 0 then mux + {rc} else mux
  }

  function Step(s: System, e: Event): (t: System)
    requires |s.items| == COUNT
    ensures |t.items| == COUNT
  {
    match e
    case Connects(rc) =>
      if s.role == Receiver || s.items[0].state != Standby then s.(connected := true)
      else System(s.role, true, Connect(s.items, rc), Opened(s.mux, rc))
    case Adds(info, rc) =>
      if FirstFree(s.items) == COUNT then s
      else s.(items := Add(s.items, info, rc).0, mux := Opened(s.mux, rc))
    case PeerOpens(channel, cookie, confirmed) =>
      var (items, ok) := Open(s.role, s.items, channel, cookie);
      if ok && confirmed then s.(items := items, mux := s.mux + {channel})
      else s.(items := if ok then Close(items, channel) else items)
    case Closes(channel) => s.(items := Close(s.items, channel), mux := s.mux - {channel})
    case Arrives(channel, packet, accept) =>
      var (items, ok, _) := Data(s.role, s.items, channel, packet, accept);
      if ok then s.(items := items) else s.(items := Close(items, channel), mux := s.mux - {channel})
    case PeerPends(channel) => s.(items := Pended(s.role, s.items, channel).0)
    case Asks(fileid, request, sent) => s.(items := Ask(s.role, s.connected, s.items, fileid, request, sent).0)
  }

  /** The documented duty of both applications: no file id is announced while it is in use. */
  predicate Unique(s: System, e: Event) {
    match e
    case Adds(info, _) => forall item <- s.items :: Live(item) ==> item.fileid != info.fileid
    case PeerOpens(_, Some(info), _) => forall item <- s.items :: Live(item) && item.fileid == info.fileid ==> item.channel == -1
    case _ => true
  }

  /** A file that already has a channel waits under this id, with this size: it would get a second channel. */
  predicate Rebinds(s: System, info: Info) {
    var i := FirstFile(s.items, info.fileid);
    s.role == Receiver && i < |s.items| && s.items[i].state == Standby && s.items[i].size == info.size && s.items[i].channel != -1
  }

  /** A file id that is in use gets a second slot, or a second channel. */
  predicate Collides(s: System, e: Event) {
    match e
    case Adds(info, rc) =>
      var i := FirstFree(s.items);
      i < |s.items| && exists j :: (if rc > 0 then 0 else i) <= j < |s.items| && Live(s.items[j]) && s.items[j].fileid == info.fileid
    case PeerOpens(_, Some(info), _) => Rebinds(s, info)
    case _ => false
  }

  // ---------------------------------------------------------------- the invariant

  /** Nothing hides slot j: no slot before it has its channel or its file id. */
  predicate Visible(items: seq<Item>, j: nat)
    requires j < |items|
  {
    forall i :: 0 <= i < j ==> items[i].channel != items[j].channel && items[i].fileid != items[j].fileid
  }

  /** Slot j serves a channel the multiplexer knows, or is the first file, declared and not yet bound. */
  predicate Bound(s: System, j: nat)
    requires j < |s.items|
  {
    s.items[j].channel in s.mux || (j == 0 && s.items[j].channel == -1 && (s.role == Sender ==> !s.connected))
  }

  predicate Inv(s: System) {
    && |s.items| == COUNT
    && (forall c <- s.mux :: c > 0 && exists j :: 0 <= j < COUNT && Live(s.items[j]) && s.items[j].channel == c)
    && (forall j :: 0 <= j < COUNT && Live(s.items[j]) ==> Bound(s, j) && Visible(s.items, j))
    && (forall j :: 0 <= j < COUNT ==> (s.items[j].filename.Some? <==> Live(s.items[j])))
    && (!s.connected ==> s.mux == {} && s.items[0].state != Transferring)
  }

  predicate Reaches(s: System, es: seq<Event>)
    requires |s.items| == COUNT
    decreases es
  {
    es == [] || (Enabled(s, es[0]) && !Collides(s, es[0]) && Reaches(Step(s, es[0]), es[1..]))
  }

  function Run(s: System, es: seq<Event>): (t: System)
    requires |s.items| == COUNT
    ensures |t.items| == COUNT
    decreases es
  {
    if es == [] then s else Run(Step(s, es[0]), es[1..])
  }

  lemma LiveSlotIsFirst(items: seq<Item>, j: nat)
    requires j < |items| && Visible(items, j)
    ensures FirstChannel(items, items[j].channel) == j && FirstFile(items, items[j].fileid) == j
  {
  }

  /** Filling the lowest free slot with a new channel and a file id not in use. */
  lemma Fill(s: System, i: nat, item: Item)
    requires Inv(s) && i < COUNT && i == FirstFree(s.items)
    requires item.state == Standby && item.filename.Some? && item.channel > 0 && item.channel !in s.mux
    requires forall j :: 0 <= j < COUNT && Live(s.items[j]) ==> s.items[j].fileid != item.fileid
    requires s.connected
    ensures Inv(s.(items := s.items[i := item], mux := s.mux + {item.channel}))
  {
    var t := s.(items := s.items[i := item], mux := s.mux + {item.channel});
    assert Live(t.items[i]) && t.items[i].channel == item.channel;
    forall c | c in t.mux ensures c > 0 && exists j :: 0 <= j < COUNT && Live(t.items[j]) && t.items[j].channel == c {
      if c != item.channel {
        var j :| 0 <= j < COUNT && Live(s.items[j]) && s.items[j].channel == c;
        assert t.items[j] == s.items[j];
      }
    }
    forall j | 0 <= j < COUNT && Live(t.items[j]) ensures Bound(t, j) && Visible(t.items, j) {
      if j != i {
        assert Bound(s, j) && Visible(s.items, j);
      }
    }
  }

  /** The slot of a channel the multiplexer knows is live, and it is the one the search finds. */
  lemma ChannelHasItsSlot(s: System, channel: int)
    requires Inv(s) && channel in s.mux
    ensures var i := FirstChannel(s.items, channel);
            && i < COUNT && Live(s.items[i])
            && (forall j :: 0 <= j < COUNT && Live(s.items[j]) && s.items[j].channel == channel ==> j == i)
  {
    var k :| 0 <= k < COUNT && Live(s.items[k]) && s.items[k].channel == channel;
    forall j | 0 <= j < COUNT && Live(s.items[j]) && s.items[j].channel == channel ensures j == FirstChannel(s.items, channel) {
      LiveSlotIsFirst(s.items, j);
    }
  }

  /** Freeing the slot of a channel that goes. */
  lemma Drop(s: System, channel: int)
    requires Inv(s) && channel in s.mux
    ensures Inv(s.(items := Close(s.items, channel), mux := s.mux - {channel}))
  {
    var t := s.(items := Close(s.items, channel), mux := s.mux - {channel});
    ChannelHasItsSlot(s, channel);
    var i := FirstChannel(s.items, channel);
    assert forall j :: 0 <= j < COUNT && j != i ==> t.items[j] == s.items[j];
    assert forall j :: 0 <= j < COUNT ==> t.items[j].channel == s.items[j].channel && t.items[j].fileid == s.items[j].fileid;
    forall c | c in t.mux ensures c > 0 && exists j :: 0 <= j < COUNT && Live(t.items[j]) && t.items[j].channel == c {
      var j :| 0 <= j < COUNT && Live(s.items[j]) && s.items[j].channel == c;
      assert t.items[j] == s.items[j];
    }
    forall j | 0 <= j < COUNT && Live(t.items[j]) ensures Bound(t, j) && Visible(t.items, j) {
      assert Bound(s, j) && Visible(s.items, j);
    }
  }

  /** Between its two live states a slot may change as it likes. */
  lemma Switch(s: System, i: nat, state: State)
    requires Inv(s) && s.connected && i < COUNT && Live(s.items[i]) && state != Free
    ensures Inv(s.(items := s.items[i := s.items[i].(state := state)]))
  {
    var t := s.(items := s.items[i := s.items[i].(state := state)]);
    forall c | c in t.mux ensures c > 0 && exists j :: 0 <= j < COUNT && Live(t.items[j]) && t.items[j].channel == c {
      var j :| 0 <= j < COUNT && Live(s.items[j]) && s.items[j].channel == c;
      assert Live(t.items[j]) && t.items[j].channel == c;
    }
    forall j | 0 <= j < COUNT && Live(t.items[j]) ensures Bound(t, j) && Visible(t.items, j) {
      assert Bound(s, j) && Visible(s.items, j);
    }
  }

  /** Binding the first file, declared when the transfer was created. */
  lemma Bind(s: System, channel: int)
    requires Inv(s) && Live(s.items[0]) && s.items[0].channel == -1 && channel > 0 && channel !in s.mux
    ensures Inv(s.(connected := true, items := s.items[0 := s.items[0].(channel := channel)], mux := s.mux + {channel}))
  {
    var t := s.(connected := true, items := s.items[0 := s.items[0].(channel := channel)], mux := s.mux + {channel});
    assert Live(t.items[0]) && t.items[0].channel == channel;
    forall c | c in t.mux ensures c > 0 && exists j :: 0 <= j < COUNT && Live(t.items[j]) && t.items[j].channel == c {
      if c != channel {
        var j :| 0 <= j < COUNT && Live(s.items[j]) && s.items[j].channel == c;
        assert t.items[j] == s.items[j];
      }
    }
    forall j | 0 <= j < COUNT && Live(t.items[j]) ensures Bound(t, j) && Visible(t.items, j) {
      assert Bound(s, j) && Visible(s.items, j);
    }
  }

  lemma InvOpen(s: System, channel: int, info: Info, confirmed: bool)
    requires Inv(s) && Enabled(s, PeerOpens(channel, Some(info), confirmed)) && !Rebinds(s, info)
    ensures Inv(Step(s, PeerOpens(channel, Some(info), confirmed)))
  {
    var (items, ok) := Open(s.role, s.items, channel, Some(info));
    if ok {
      var t := s.(items := items, mux := s.mux + {channel});
      var i := FirstFile(s.items, info.fileid);
      if i < COUNT {
        assert Live(s.items[i]) && Bound(s, i);
        Bind(s, channel);
      } else {
        Fill(s, FirstFree(s.items), Item(info.fileid, Some(info.filename), info.size, Standby, channel));
      }
      assert t == System(t.role, s.connected, items, t.mux) && Inv(t);
      if !confirmed {
        Drop(t, channel);
        assert t.mux - {channel} == s.mux;
      }
    }
  }

  /** Which state a slot was in does not matter when it is freed. */
  lemma CloseForgetsState(items: seq<Item>, channel: int, state: State)
    requires FirstChannel(items, channel) < |items|
    ensures var i := FirstChannel(items, channel);
            Close(items[i := items[i].(state := state)], channel) == Close(items, channel)
  {
    var i := FirstChannel(items, channel);
    var t := items[i := items[i].(state := state)];
    assert forall j :: 0 <= j < |items| ==> t[j].channel == items[j].channel;
    assert FirstChannel(t, channel) == i;
  }

  lemma InvArrives(s: System, channel: int, packet: Packet, accept: bool)
    requires Inv(s) && Enabled(s, Arrives(channel, packet, accept))
    ensures Inv(Step(s, Arrives(channel, packet, accept)))
  {
    ChannelHasItsSlot(s, channel);
    var i := FirstChannel(s.items, channel);
    var (items, ok, _) := Data(s.role, s.items, channel, packet, accept);
    if ok {
      if s.role == Sender {
        Switch(s, i, Transferring);
      }
    } else {
      Drop(s, channel);
      if items != s.items {
        CloseForgetsState(s.items, channel, Free);
      }
    }
  }

  lemma InvAdds(s: System, info: Info, rc: int)
    requires Inv(s) && Enabled(s, Adds(info, rc)) && !Collides(s, Adds(info, rc))
    ensures Inv(Step(s, Adds(info, rc)))
  {
    var i := FirstFree(s.items);
    if i < COUNT {
      if rc > 0 {
        Fill(s, i, Item(info.fileid, Some(info.filename), info.size, Standby, rc));
      } else {
        Retire(s, i, Item(info.fileid, None, info.size, Free, rc));
      }
    }
  }

  /** A free slot may hold anything that does not hide a later one. */
  lemma Retire(s: System, i: nat, item: Item)
    requires Inv(s) && i < COUNT && !Live(item) && item.filename == None && item.channel < 0
    requires !Live(s.items[i]) && s.connected && s.role == Sender
    requires forall j :: i <= j < COUNT && Live(s.items[j]) ==> s.items[j].fileid != item.fileid
    ensures Inv(s.(items := s.items[i := item]))
  {
    var t := s.(items := s.items[i := item]);
    forall c | c in t.mux ensures c > 0 && exists j :: 0 <= j < COUNT && Live(t.items[j]) && t.items[j].channel == c {
      var j :| 0 <= j < COUNT && Live(s.items[j]) && s.items[j].channel == c;
      assert t.items[j] == s.items[j];
    }
    forall j | 0 <= j < COUNT && Live(t.items[j]) ensures Bound(t, j) && Visible(t.items, j) {
      assert Bound(s, j) && Visible(s.items, j);
    }
  }

  lemma InvConnects(s: System, rc: int)
    requires Inv(s) && Enabled(s, Connects(rc))
    ensures Inv(Step(s, Connects(rc)))
  {
    var t := Step(s, Connects(rc));
    if s.role == Sender && s.items[0].state == Standby {
      assert Bound(s, 0);
      if rc > 0 {
        Bind(s, rc);
      } else {
        assert forall j :: 0 < j < COUNT ==> !Live(s.items[j]);
      }
    } else {
      forall j | 0 <= j < COUNT && Live(t.items[j]) ensures Bound(t, j) && Visible(t.items, j) {
        assert Bound(s, j) && Visible(s.items, j);
      }
    }
  }

  lemma InvStep(s: System, e: Event)
    requires Inv(s) && Enabled(s, e) && !Collides(s, e)
    ensures Inv(Step(s, e))
  {
    match e
    case Connects(rc) => InvConnects(s, rc);
    case Adds(info, rc) => InvAdds(s, info, rc);
    case PeerOpens(channel, cookie, confirmed) =>
      if cookie.Some? {
        InvOpen(s, channel, cookie.value, confirmed);
      }
    case Closes(channel) => Drop(s, channel);
    case Arrives(channel, packet, accept) => InvArrives(s, channel, packet, accept);
    case PeerPends(channel) =>
      var i := FirstChannel(s.items, channel);
      if i < COUNT && Live(s.items[i]) {
        Switch(s, i, Standby);
      }
    case Asks(fileid, request, sent) =>
      var i := FirstFile(s.items, fileid);
      if Ask(s.role, s.connected, s.items, fileid, request, sent).1 == Done {
        Switch(s, i, if request.Pend? then Standby else Transferring);
      }
  }

  lemma {:induction false} InvRun(s: System, es: seq<Event>)
    requires Inv(s) && Reaches(s, es)
    ensures Inv(Run(s, es))
    decreases es
  {
    if es != [] {
      InvStep(s, es[0]);
      InvRun(Step(s, es[0]), es[1..]);
    }
  }

  lemma InvStart(role: Role, file: Option<Info>)
    ensures Inv(Start(role, file))
  {
  }

  // ---------------------------------------------------------------- what it is good for

  /** In every run the live slot of a channel and of a file id is exactly what the searches find. */
  lemma LiveSlotIsFound(role: Role, file: Option<Info>, es: seq<Event>, j: nat)
    requires Reaches(Start(role, file), es) && j < COUNT
    requires Live(Run(Start(role, file), es).items[j])
    ensures var items := Run(Start(role, file), es).items;
            FirstChannel(items, items[j].channel) == j && FirstFile(items, items[j].fileid) == j
  {
    InvStart(role, file);
    InvRun(Start(role, file), es);
    LiveSlotIsFirst(Run(Start(role, file), es).items, j);
  }

  /** In every run the multiplexer's channels and the bound live slots correspond one to one. */
  lemma ChannelsAreBoundSlots(role: Role, file: Option<Info>, es: seq<Event>, channel: int)
    requires Reaches(Start(role, file), es) && channel > 0
    ensures var s := Run(Start(role, file), es);
            channel in s.mux <==> exists j :: 0 <= j < COUNT && Live(s.items[j]) && s.items[j].channel == channel
    ensures var s := Run(Start(role, file), es);
            forall i, j :: 0 <= i < j < COUNT && Live(s.items[i]) && Live(s.items[j]) ==> s.items[i].channel != s.items[j].channel
  {
    InvStart(role, file);
    InvRun(Start(role, file), es);
  }

  /** In every run closing a channel frees its slot and no other. */
  lemma CloseFreesItsSlot(role: Role, file: Option<Info>, es: seq<Event>, j: nat)
    requires Reaches(Start(role, file), es) && j < COUNT
    requires Live(Run(Start(role, file), es).items[j])
    ensures var items := Run(Start(role, file), es).items;
            Close(items, items[j].channel) == items[j := items[j].(state := Free, filename := None)]
  {
    LiveSlotIsFound(role, file, es, j);
  }

  /** In every run what arrives on a channel is told of the file that was bound to it, or of none. */
  lemma DataReachesItsFile(role: Role, file: Option<Info>, es: seq<Event>, j: nat, packet: Packet, accept: bool)
    requires Reaches(Start(role, file), es) && j < COUNT
    requires Live(Run(Start(role, file), es).items[j])
    ensures var items := Run(Start(role, file), es).items;
            var (after, _, told) := Data(role, items, items[j].channel, packet, accept);
            && (told.Some? ==> told.value == items[j].fileid)
            && |after| == COUNT && (forall i :: 0 <= i < COUNT && i != j ==> after[i] == items[i])
            && (role == Receiver ==> (told.Some? <==> items[j].state == Transferring))
  {
    LiveSlotIsFound(role, file, es, j);
  }

  /** In every run the file name of a slot is kept as long as the slot is live, and no longer. */
  lemma NamesAreFreed(role: Role, file: Option<Info>, es: seq<Event>, j: nat)
    requires Reaches(Start(role, file), es) && j < COUNT
    ensures var item := Run(Start(role, file), es).items[j];
            item.filename.Some? <==> Live(item)
  {
    InvStart(role, file);
    InvRun(Start(role, file), es);
  }

  /** In every run, once a file is pulled its data reach the application; while it is pended they do not. */
  lemma PulledFileGetsItsData(role: Role, file: Option<Info>, es: seq<Event>, j: nat, request: Request, packet: Packet, accept: bool)
    requires Reaches(Start(role, file), es) && j < COUNT && Live(Run(Start(role, file), es).items[j])
    requires var s := Run(Start(role, file), es);
             Ask(s.role, s.connected, s.items, s.items[j].fileid, request, true).1 == Done
    ensures var s := Run(Start(role, file), es);
            var after := Ask(s.role, s.connected, s.items, s.items[j].fileid, request, true).0;
            Data(Receiver, after, s.items[j].channel, packet, accept).2
            == if request.Pend? then None else Some(s.items[j].fileid)
  {
    LiveSlotIsFound(role, file, es, j);
    var s := Run(Start(role, file), es);
    var after := Ask(s.role, s.connected, s.items, s.items[j].fileid, request, true).0;
    assert forall i :: 0 <= i < COUNT ==> after[i].channel == s.items[i].channel;
    assert FirstChannel(after, s.items[j].channel) == j;
  }

  /** Resuming undoes pending. */
  lemma ResumeUndoesPend(items: seq<Item>, fileid: string)
    requires Ask(Receiver, true, items, fileid, Pend, true).1 == Done
    ensures Ask(Receiver, true, Ask(Receiver, true, items, fileid, Pend, true).0, fileid, Resume, true) == (items, Done)
  {
    var i := FirstFile(items, fileid);
    var pended := Ask(Receiver, true, items, fileid, Pend, true).0;
    assert forall k :: 0 <= k < |items| ==> pended[k].fileid == items[k].fileid;
    assert FirstFile(pended, fileid) == i;
    assert pended[i := items[i]] == items;
  }

  /** At the sender a pend undoes the pull. */
  lemma PendUndoesPull(items: seq<Item>, channel: int, offset: nat, accept: bool)
    requires Data(Sender, items, channel, Pull(offset), accept).1
    ensures Pended(Sender, Data(Sender, items, channel, Pull(offset), accept).0, channel).0 == items
  {
    var i := FirstChannel(items, channel);
    var pulled := Data(Sender, items, channel, Pull(offset), accept).0;
    assert forall k :: 0 <= k < |items| ==> pulled[k].channel == items[k].channel;
    assert FirstChannel(pulled, channel) == i;
    assert pulled[i := items[i]] == items;
  }

  // ---------------------------------------------------------------- file ids announced twice

  /** The searches find every live slot. */
  predicate Found(s: System) {
    forall j :: 0 <= j < |s.items| && Live(s.items[j]) ==>
      FirstChannel(s.items, s.items[j].channel) == j && FirstFile(s.items, s.items[j].fileid) == j
  }

  /** A channel is open iff a live slot has it. */
  ghost predicate Corresponds(s: System) {
    forall c :: c > 0 ==> (c in s.mux <==> exists j :: 0 <= j < |s.items| && Live(s.items[j]) && s.items[j].channel == c)
  }

  lemma InvIsOrder(s: System)
    requires Inv(s)
    ensures Found(s) && Corresponds(s)
  {
    forall j | 0 <= j < |s.items| && Live(s.items[j])
      ensures FirstChannel(s.items, s.items[j].channel) == j && FirstFile(s.items, s.items[j].fileid) == j
    {
      LiveSlotIsFirst(s.items, j);
    }
    assert forall j :: 0 <= j < COUNT && Live(s.items[j]) ==> Bound(s, j);
  }

  /** Of two slots with the same file id the later one is not found. */
  lemma TwinsHide(s: System, i: nat, j: nat)
    requires i < j < |s.items| && s.items[i].fileid == s.items[j].fileid && Live(s.items[j])
    ensures !Found(s)
  {
  }

  lemma AddCollides(s: System, info: Info, rc: int)
    requires Inv(s) && Enabled(s, Adds(info, rc)) && Collides(s, Adds(info, rc))
    ensures !Found(Step(s, Adds(info, rc)))
  {
    var i := FirstFree(s.items);
    var t := Step(s, Adds(info, rc));
    var j :| (if rc > 0 then 0 else i) <= j < COUNT && Live(s.items[j]) && s.items[j].fileid == info.fileid;
    assert t.items[j] == s.items[j] && t.items[i].fileid == info.fileid;
    if i < j {
      TwinsHide(t, i, j);
    } else {
      TwinsHide(t, j, i);
    }
  }

  /** Slot i has moved to a new channel, and is live if that was confirmed; the other slots are as before. */
  predicate MovedTo(s: System, t: System, i: nat, channel: int)
    requires |s.items| == |t.items| == COUNT && i < COUNT
  {
    && t.items[i].channel == channel && t.items[i].fileid == s.items[i].fileid && Live(s.items[i])
    && (forall j :: 0 <= j < COUNT && j != i && Live(t.items[j]) ==> t.items[j] == s.items[j])
    && (forall j :: 0 <= j < COUNT && j != i ==> t.items[j].channel == s.items[j].channel && t.items[j].fileid == s.items[j].fileid)
  }

  /** What announcing a file again does to its slot, wherever it is and whatever the other slots hold. */
  lemma Rebound(s: System, channel: int, info: Info, confirmed: bool)
    requires Inv(s) && Enabled(s, PeerOpens(channel, Some(info), confirmed)) && Rebinds(s, info)
    ensures var i := FirstFile(s.items, info.fileid);
            var t := Step(s, PeerOpens(channel, Some(info), confirmed));
            && s.items[i].channel in s.mux && t.mux == (if confirmed then s.mux + {channel} else s.mux)
            && MovedTo(s, t, i, channel)
            && (Live(t.items[i]) <==> confirmed || FirstChannel(s.items[i := s.items[i].(channel := channel)], channel) != i)
  {
    var i := FirstFile(s.items, info.fileid);
    assert Live(s.items[i]) && Bound(s, i);
    var items := s.items[i := s.items[i].(channel := channel)];
    assert Open(s.role, s.items, channel, Some(info)) == (items, true);
  }

  /** The slot is found under its new channel iff no earlier slot kept the number. */
  lemma MovedFoundIff(s: System, t: System, i: nat, channel: int)
    requires Inv(s) && |t.items| == COUNT && i < COUNT && MovedTo(s, t, i, channel)
    requires channel > 0 && channel !in s.mux
    requires (exists j :: 0 <= j < i && s.items[j].channel == channel) ==> Live(t.items[i])
    ensures Found(t) <==> forall j :: 0 <= j < i ==> s.items[j].channel != channel
  {
    if forall j :: 0 <= j < i ==> s.items[j].channel != channel {
      forall j | 0 <= j < COUNT && Live(t.items[j])
        ensures FirstChannel(t.items, t.items[j].channel) == j && FirstFile(t.items, t.items[j].fileid) == j
      {
        assert Visible(s.items, j) && (j != i ==> Bound(s, j));
        LiveSlotIsFirst(t.items, j);
      }
    } else {
      var j :| 0 <= j < i && s.items[j].channel == channel;
      assert t.items[j].channel == channel;
    }
  }

  /**
   * Announcing a file again that already has a channel leaves that channel without a slot; and its
   * slot is still found under the new channel iff no earlier slot kept the number.
   */
  lemma AnnouncedAgain(s: System, channel: int, info: Info, confirmed: bool)
    requires Inv(s) && Enabled(s, PeerOpens(channel, Some(info), confirmed)) && Rebinds(s, info)
    ensures var t := Step(s, PeerOpens(channel, Some(info), confirmed));
            var i := FirstFile(s.items, info.fileid);
            && s.items[i].channel in t.mux && !Corresponds(t)
            && (forall j :: 0 <= j < COUNT && Live(t.items[j]) ==> t.items[j].channel != s.items[i].channel)
            && (Found(t) <==> forall j :: 0 <= j < i ==> s.items[j].channel != channel)
  {
    var t := Step(s, PeerOpens(channel, Some(info), confirmed));
    var i := FirstFile(s.items, info.fileid);
    Rebound(s, channel, info, confirmed);
    MovedFoundIff(s, t, i, channel);
    assert Visible(s.items, i) && s.items[i].channel > 0;
    forall j | 0 <= j < COUNT && Live(t.items[j]) ensures t.items[j].channel != s.items[i].channel {
      assert j != i ==> Visible(s.items, j);
    }
  }

  /** In good order, an event keeps the slots in order iff it gives no file id in use a second slot or channel. */
  lemma OrderIsKeptIff(s: System, e: Event)
    requires Inv(s) && Enabled(s, e)
    ensures Found(Step(s, e)) && Corresponds(Step(s, e)) <==> !Collides(s, e)
  {
    if !Collides(s, e) {
      InvStep(s, e);
      InvIsOrder(Step(s, e));
    } else if e.Adds? {
      AddCollides(s, e.info, e.rc);
    } else {
      AnnouncedAgain(s, e.channel, e.cookie.value, e.confirmed);
    }
  }

  /** The documented duty suffices: applications that announce no id in use never collide. */
  lemma UniqueNeverCollides(s: System, e: Event)
    requires Inv(s) && Unique(s, e)
    ensures !Collides(s, e)
  {
    if e.Adds? {
      assert forall j :: 0 <= j < COUNT ==> s.items[j] in s.items;
    } else if e.PeerOpens? && e.cookie.Some? && FirstFile(s.items, e.cookie.value.fileid) < COUNT {
      assert s.items[FirstFile(s.items, e.cookie.value.fileid)] in s.items;
    }
  }

  /** Two files, the first closes, the second is announced again on the same channel: its slot is not found. */
  lemma SecondAnnouncementHidesSlot(a: Info, b: Info)
    requires a.fileid != "" && b.fileid != "" && a.fileid != b.fileid
    ensures var s0 := Start(Receiver, None).(connected := true);
            var s1 := Step(s0, PeerOpens(1, Some(a), true));
            var s2 := Step(s1, PeerOpens(2, Some(b), true));
            var s3 := Step(s2, Closes(1));
            var s4 := Step(s3, PeerOpens(1, Some(b), true));
            && Enabled(s3, PeerOpens(1, Some(b), true)) && Collides(s3, PeerOpens(1, Some(b), true))
            && Live(s4.items[1]) && s4.items[1].channel == 1 && FirstChannel(s4.items, 1) == 0 && !Live(s4.items[0])
  {
    var s0 := Start(Receiver, None).(connected := true);
    var s1 := Step(s0, PeerOpens(1, Some(a), true));
    assert FirstFile(s0.items, a.fileid) == COUNT && FirstFree(s0.items) == 0;
    assert s1.items[0] == Item(a.fileid, Some(a.filename), a.size, Standby, 1);
    assert FirstFile(s1.items, b.fileid) == COUNT && FirstFree(s1.items) == 1;
    var s2 := Step(s1, PeerOpens(2, Some(b), true));
    var s3 := Step(s2, Closes(1));
    assert FirstChannel(s2.items, 1) == 0 && FirstFile(s3.items, b.fileid) == 1;
    var s4 := Step(s3, PeerOpens(1, Some(b), true));
    assert Live(s3.items[1]) && s3.items[1].fileid == b.fileid && s3.items[1] in s3.items;
    assert s4.items[0].channel == 1;
  }

  // ---------------------------------------------------------------- file ids of freed slots

  /** A live slot waits for this file to be announced. */
  predicate Waits(items: seq<Item>, info: Info) {
    exists j :: 0 <= j < |items| && items[j].fileid == info.fileid && items[j].state == Standby && items[j].size == info.size
  }

  /** Some slot, live or freed, has this file id. */
  predicate Remembered(items: seq<Item>, fileid: string) {
    exists j :: 0 <= j < |items| && items[j].fileid == fileid
  }

  predicate HasRoom(items: seq<Item>) {
    exists j :: 0 <= j < |items| && !Live(items[j])
  }

  lemma TakenInOrderIff(s: System, channel: int, info: Info)
    requires Inv(s)
    ensures Open(Receiver, s.items, channel, Some(info)).1 <==>
              Waits(s.items, info) || (!Remembered(s.items, info.fileid) && HasRoom(s.items))
  {
    var i := FirstFile(s.items, info.fileid);
    if j :| 0 <= j < COUNT && s.items[j].fileid == info.fileid && s.items[j].state == Standby && s.items[j].size == info.size {
      LiveSlotIsFirst(s.items, j);
    }
  }

  /**
   * In every run an announcement is taken iff a live slot waits for the file, or no slot has its id,
   * not even a freed one, and a slot is free.  One that is not taken changes nothing.
   */
  lemma AnnouncementTakenIff(file: Option<Info>, es: seq<Event>, channel: int, info: Info, confirmed: bool)
    requires Reaches(Start(Receiver, file), es)
    ensures var s := Run(Start(Receiver, file), es);
            var taken := Open(Receiver, s.items, channel, Some(info)).1;
            && (taken <==> Waits(s.items, info) || (!Remembered(s.items, info.fileid) && HasRoom(s.items)))
            && (!taken ==> Step(s, PeerOpens(channel, Some(info), confirmed)) == s)
  {
    InvStart(Receiver, file);
    InvRun(Start(Receiver, file), es);
    TakenInOrderIff(Run(Start(Receiver, file), es), channel, info);
  }

  /** The event gives slot i to a file that no slot remembers. */
  predicate Reuses(s: System, e: Event, i: nat) {
    e.PeerOpens? && e.cookie.Some? && !Remembered(s.items, e.cookie.value.fileid) && FirstFree(s.items) == i
  }

  /** Taking back a channel that was not confirmed leaves the freed slots as they are. */
  lemma CloseKeepsFreed(items: seq<Item>, channel: int, i: nat)
    requires i < |items| && !Live(items[i]) && items[i].filename == None
    ensures |Close(items, channel)| == |items| && Close(items, channel)[i] == items[i]
  {
  }

  lemma OpenForgetsIff(s: System, channel: int, info: Info, i: nat)
    requires Inv(s) && s.role == Receiver && i < COUNT && !Live(s.items[i])
    ensures var items := Open(s.role, s.items, channel, Some(info)).0;
            && |items| == COUNT
            && (items[i] != s.items[i] <==> !Remembered(s.items, info.fileid) && FirstFree(s.items) == i)
            && (items[i] != s.items[i] ==> items[i].fileid != s.items[i].fileid)
  {
    var k := FirstFile(s.items, info.fileid);
    assert Remembered(s.items, info.fileid) <==> k < COUNT;
  }

  lemma OpeningForgetsIff(s: System, e: Event, i: nat)
    requires Inv(s) && s.role == Receiver && e.PeerOpens? && i < COUNT && !Live(s.items[i])
    ensures Step(s, e).items[i] != s.items[i] <==> Reuses(s, e, i)
  {
    if e.cookie.Some? {
      OpenForgetsIff(s, e.channel, e.cookie.value, i);
      var items := Open(s.role, s.items, e.channel, e.cookie).0;
      if items[i] == s.items[i] {
        CloseKeepsFreed(items, e.channel, i);
      }
    }
  }

  /** A freed slot is as it was until a new file takes it, so the file it had is refused until then. */
  lemma ForgottenIff(s: System, e: Event, i: nat)
    requires Inv(s) && s.role == Receiver && Enabled(s, e) && i < COUNT && !Live(s.items[i])
    ensures Step(s, e).items[i] != s.items[i] <==> Reuses(s, e, i)
  {
    if e.PeerOpens? {
      OpeningForgetsIff(s, e, i);
    } else if e.Closes? || e.Arrives? {
      ChannelHasItsSlot(s, e.channel);
    }
  }

  /** A file comes, its channel closes, and it is announced once more: refused, though all slots are free. */
  lemma ClosedFileIsRefused(a: Info)
    requires a.fileid != ""
    ensures var es := [Connects(1), PeerOpens(1, Some(a), true), Closes(1)];
            var s, e := Run(Start(Receiver, None), es), PeerOpens(2, Some(a), true);
            && Reaches(Start(Receiver, None), es) && Enabled(s, e) && Unique(s, e) && !Collides(s, e)
            && (forall j :: 0 <= j < COUNT ==> !Live(s.items[j])) && Step(s, e) == s
  {
    var s0 := Start(Receiver, None);
    var es := [Connects(1), PeerOpens(1, Some(a), true), Closes(1)];
    var s1 := Step(s0, es[0]);
    assert FirstFile(s1.items, a.fileid) == COUNT && FirstFree(s1.items) == 0;
    var s2 := Step(s1, es[1]);
    assert s2.items[0] == Item(a.fileid, Some(a.filename), a.size, Standby, 1);
    var s3 := Step(s2, es[2]);
    assert s3.items[0].fileid == a.fileid && s3.items[0].state == Free;
    assert es[1..] == [es[1], es[2]] && es[1..][1..] == [es[2]] && es[1..][1..][1..] == [];
    assert Run(s0, es) == Run(s1, es[1..]) == Run(s2, es[1..][1..]) == Run(s3, es[1..][1..][1..]) == s3;
    assert Reaches(s2, [es[2]]) && Reaches(s1, es[1..]);
  }

  // ---------------------------------------------------------------- the code

  class FileTransfer {
    const files: array<Item>
    var role: Role
    var connected: bool

    ghost predicate Valid()
      reads this
    {
      files.Length == COUNT
    }

    constructor (role: Role, file: Option<Info>)
      ensures Valid() && fresh(files) && this.role == role && !connected && files[..] == Initial(file)
    {
      this.role, connected := role, false;
      files := new Item[COUNT](i => Item("", None, 0, Free, 0));
      new;
      if file.Some? {
        files[0] := Item(file.value.fileid, Some(file.value.filename), file.value.size, Standby, -1);
      }
    }

    method GetFree() returns (i: nat)
      requires Valid()
      ensures i == FirstFree(files[..])
    {
      for k := 0 to files.Length
        invariant FirstFree(files[..]) == k + FirstFree(files[k..])
      {
        if files[k].state == Free {
          return k;
        }
        assert files[k..][1..] == files[k + 1..];
      }
      i := files.Length;
    }

    method GetChannel(channel: int) returns (i: nat)
      requires Valid()
      ensures i == FirstChannel(files[..], channel)
    {
      for k := 0 to files.Length
        invariant FirstChannel(files[..], channel) == k + FirstChannel(files[k..], channel)
      {
        if channel == files[k].channel {
          return k;
        }
        assert files[k..][1..] == files[k + 1..];
      }
      i := files.Length;
    }

    method GetFile(fileid: string) returns (i: nat)
      requires Valid()
      ensures i == FirstFile(files[..], fileid)
    {
      for k := 0 to files.Length
        invariant FirstFile(files[..], fileid) == k + FirstFile(files[k..], fileid)
      {
        if fileid == files[k].fileid {
          return k;
        }
        assert files[k..][1..] == files[k + 1..];
      }
      i := files.Length;
    }

    /** stream_channel_open */
    method ChannelOpen(channel: int, cookie: Option<Info>) returns (ok: bool)
      requires Valid()
      modifies files
      ensures (files[..], ok) == Open(role, old(files[..]), channel, cookie)
    {
      if role != Receiver || cookie == None {
        return false;
      }
      var info := cookie.value;
      var i := GetFile(info.fileid);
      if i == files.Length {
        i := GetFree();
        if i == files.Length {
          return false;
        }
        files[i] := Item(info.fileid, Some(info.filename), info.size, Standby, channel);
      } else {
        if files[i].state != Standby || files[i].size != info.size {
          return false;
        }
        files[i] := files[i].(channel := channel);
      }
      ok := true;
    }

    /** stream_channel_close */
    method ChannelClose(channel: int)
      requires Valid()
      modifies files
      ensures files[..] == Close(old(files[..]), channel)
    {
      var i := GetChannel(channel);
      if i < files.Length {
        files[i] := files[i].(state := Free);
        files[i] := files[i].(filename := None);
      }
    }

    /** stream_channel_data */
    method ChannelData(channel: int, packet: Packet, accept: bool) returns (ok: bool, told: Option<string>)
      requires Valid()
      modifies files
      ensures (files[..], ok, told) == Data(role, old(files[..]), channel, packet, accept)
    {
      var i := GetChannel(channel);
      if i == files.Length {
        return false, None;
      }
      var fileid := files[i].fileid;
      if role == Sender {
        match packet
        case Pull(_) =>
          if files[i].state != Standby {
            return false, None;
          }
          files[i] := files[i].(state := Transferring);
          return true, Some(fileid);
        case Cancel =>
          files[i] := files[i].(state := Free);
          return false, Some(fileid);
        case Other =>
          return false, None;
      }
      if files[i].state != Transferring {
        return true, None;
      }
      ok, told := accept, Some(fileid);
    }

    /** stream_channel_pending */
    method ChannelPending(channel: int) returns (told: Option<string>)
      requires Valid()
      modifies files
      ensures (files[..], told) == Pended(role, old(files[..]), channel)
    {
      if role != Sender {
        return None;
      }
      var i := GetChannel(channel);
      if i == files.Length || files[i].state != Transferring {
        return None;
      }
      told := Some(files[i].fileid);
      files[i] := files[i].(state := Standby);
    }

    /** ela_filetransfer_add; `rc` is what opening the channel returns. */
    method AddFile(info: Info, rc: int) returns (result: Rc)
      requires Valid()
      modifies files
      ensures (files[..], result) == if info.filename == "" || info.size == 0 then (old(files[..]), InvalidArgs)
                                     else if role != Sender || !connected then (old(files[..]), WrongState)
                                     else Add(old(files[..]), info, rc)
    {
      if info.filename == "" || info.size == 0 {
        return InvalidArgs;
      }
      if role != Sender || !connected {
        return WrongState;
      }
      var i := GetFree();
      if i == files.Length {
        return LimitExceeded;
      }
      files[i] := Item(info.fileid, Some(info.filename), info.size, Free, files[i].channel);
      files[i] := files[i].(channel := rc);
      if rc < 0 {
        files[i] := files[i].(filename := None);
        assert files[..] == old(files[..])[i := Item(info.fileid, None, info.size, Free, rc)];
        return Failed;
      }
      files[i] := files[i].(state := Standby);
      assert files[..] == old(files[..])[i := Item(info.fileid, Some(info.filename), info.size, Standby, rc)];
      result := Done;
    }

    /** The connected branch of sender_state_changed; `rc` is what opening the channel returns. */
    method Connected(rc: int)
      requires Valid()
      modifies files, `connected
      ensures connected && files[..] == if role == Sender then Connect(old(files[..]), rc) else old(files[..])
    {
      connected := true;
      if role != Sender || files[0].state != Standby {
        return;
      }
      files[0] := files[0].(channel := rc);
      if rc < 0 {
        files[0] := files[0].(filename := None, state := Free);
      }
    }

    /** ela_filetransfer_pull, _pend and _resume. */
    method Request(fileid: string, request: Request, sent: bool) returns (rc: Rc)
      requires Valid()
      modifies files
      ensures (files[..], rc) == Ask(role, connected, old(files[..]), fileid, request, sent)
    {
      if fileid == "" {
        return InvalidArgs;
      }
      var i := GetFile(fileid);
      if i == files.Length {
        return NotExist;
      }
      if request.PullFrom? && request.offset >= files[i].size {
        return InvalidArgs;
      }
      if role != Receiver || !connected || files[i].state != (if request.Pend? then Transferring else Standby) {
        return WrongState;
      }
      if !sent {
        return Failed;
      }
      files[i] := files[i].(state := if request.Pend? then Standby else Transferring);
      rc := Done;
    }
  }
}
