/**
 * One multiplexer endpoint on values: what each API call and each received frame does to the
 * channel table, which frames it sends and which callbacks it makes
 * (src/session/multiplex_handler.c).  The class in Multiplexer.dfy is proved against these
 * functions; Protocol.dfy puts two endpoints together.
 */
module Endpoint {
  import opened Wrappers

  type Payload = seq<byte>

  datatype Kind = User | Udp | Tcp

  datatype Status = Opening | Open | Pending

  datatype Chan = Chan(kind: Kind, remote: nat, status: Status)

  type Table = map<nat, Chan>

  /** A frame as it stands on the wire: `local` is the channel id of the receiving side. */
  datatype Frame = Frame(ptype: nat, option: nat, local: nat, remote: nat, payload: Payload)

  const OPEN := 1
  const CONFIRMATION := 2
  const DATA := 3
  const KEEPALIVE := 4
  const PENDING := 5
  const RESUME := 6
  const CLOSE := 7

  datatype Reason = Normal | Timeout | Error

  datatype Event =
    | OpenRequest(id: nat, cookie: Option<Payload>)
    | Opened(id: nat)
    | Closed(id: nat, reason: Reason)
    | Delivered(id: nat, payload: Payload)
    | Pended(id: nat)
    | Resumed(id: nat)
    | RawData(payload: Payload)

  datatype Rc = Done(n: nat) | NotExist | WrongState | LimitExceeded | SendError

  datatype Outcome = Outcome(table: Table, sent: seq<Frame>, events: seq<Event>, rc: Rc)

  /** What the surroundings decide while one frame is handled. */
  datatype Env = Env(
    worker: bool,         // port forwarding is enabled on this stream
    alloc: Option<nat>,   // what the id heap hands out
    accept: bool,         // result of the channel_open or channel_data callback
    sendOk: bool,         // the handler below accepts what is written
    memory: bool)         // a channel record can be allocated

  /** The id heap hands out positive ids that are not in use. */
  predicate Allocates(table: Table, alloc: Option<nat>) {
    alloc.Some? ==> alloc.value > 0 && alloc.value !in table
  }

  function KindCode(kind: Kind): nat {
    match kind
    case User => 0
    case Udp => 1
    case Tcp => 2
  }

  /** The kinds a reliable stream accepts from its peer. */
  function KindOf(option: nat, worker: bool): Option<Kind> {
    if option == 1 && worker then Some(Udp)
    else if option == 2 && worker then Some(Tcp)
    else if option == 0 then Some(User)
    else None
  }

  function Cookie(payload: Payload): Option<Payload> {
    if payload == [] then None else Some(payload)
  }

  function Emit(f: Frame, sendOk: bool): seq<Frame> {
    if sendOk then [f] else []
  }

  predicate Writable(ch: Chan) {
    ch.status != Opening && ch.remote != 0
  }

  function OpenChannel(table: Table, kind: Kind, cookie: Payload, alloc: Option<nat>, sendOk: bool): Outcome
    requires Allocates(table, alloc)
  {
    if alloc.None? then Outcome(table, [], [], LimitExceeded)
    else if !sendOk then Outcome(table, [], [], SendError)
    else
      Outcome(table[alloc.value := Chan(kind, 0, Opening)],
              [Frame(OPEN, KindCode(kind), 0, alloc.value, cookie)], [], Done(alloc.value))
  }

  function CloseChannel(table: Table, id: nat, sendOk: bool): Outcome {
    if id !in table then Outcome(table, [], [], NotExist)
    else
      Outcome(table - {id},
              if table[id].remote != 0 then Emit(Frame(CLOSE, 0, table[id].remote, id, []), sendOk) else [],
              [Closed(id, Normal)], Done(0))
  }

  /** The callbacks of closing all channels, in the order the table hands them out. */
  function CloseEvents(order: seq<nat>, reason: Reason): seq<Event> {
    if order == [] then [] else CloseEvents(order[..|order| - 1], reason) + [Closed(order[|order| - 1], reason)]
  }

  /** Write, pend and resume share their checks; only the frame differs. */
  function SendOn(table: Table, id: nat, ptype: nat, payload: Payload, sendOk: bool): Outcome {
    if id !in table then Outcome(table, [], [], NotExist)
    else if !Writable(table[id]) then Outcome(table, [], [], WrongState)
    else
      Outcome(table, Emit(Frame(ptype, 0, table[id].remote, id, payload), sendOk), [],
              if sendOk then Done(|payload|) else SendError)
  }

  /** Channel 0 is the stream itself. */
  function WriteChannel(table: Table, id: nat, payload: Payload, sendOk: bool): Outcome {
    if id == 0 then
      Outcome(table, Emit(Frame(DATA, 0, 0, 0, payload), sendOk), [],
              if sendOk then Done(|payload|) else SendError)
    else
      SendOn(table, id, DATA, payload, sendOk)
  }

  function PendChannel(table: Table, id: nat, sendOk: bool): Outcome {
    SendOn(table, id, PENDING, [], sendOk)
  }

  function ResumeChannel(table: Table, id: nat, sendOk: bool): Outcome {
    SendOn(table, id, RESUME, [], sendOk)
  }

  function ReceiveOpen(table: Table, f: Frame, env: Env): Outcome
    requires Allocates(table, env.alloc)
  {
    var kind := KindOf(f.option, env.worker);
    if kind.None? || !env.memory then Outcome(table, [], [], Done(0))
    else if env.alloc.None? then
      // remote_id of the new channel is not yet set, so the refusal goes to channel 0
      Outcome(table, Emit(Frame(CONFIRMATION, 0, 0, 0, []), env.sendOk), [], Done(0))
    else
      var id := env.alloc.value;
      var request := OpenRequest(id, Cookie(f.payload));
      var reply := Emit(Frame(CONFIRMATION, 0, f.remote, if env.accept then id else 0, []), env.sendOk);
      if !env.accept then Outcome(table, reply, [request], Done(0))
      else if !env.sendOk then Outcome(table, reply, [request, Closed(id, Error)], Done(0))
      else
        Outcome(table[id := Chan(kind.value, f.remote, Open)], reply, [request, Opened(id)], Done(0))
  }

  function ReceiveKnown(table: Table, f: Frame, env: Env): Outcome
    requires f.local in table
  {
    var id := f.local;
    var ch := table[id];
    var ignored := Outcome(table, [], [], Done(0));
    if f.ptype == CONFIRMATION then
      if ch.status != Opening then ignored
      else if f.remote != 0 then
        Outcome(table[id := ch.(status := Open, remote := f.remote)], [], [Opened(id)], Done(0))
      else
        Outcome(table - {id}, [], [Closed(id, Error)], Done(0))
    else if f.ptype == DATA then
      if ch.status == Opening then ignored
      else if env.accept then Outcome(table, [], [Delivered(id, f.payload)], Done(0))
      else Outcome(table - {id}, [], [Delivered(id, f.payload), Closed(id, Error)], Done(0))
    else if f.ptype == PENDING then
      if ch.status != Open then ignored
      else Outcome(table[id := ch.(status := Pending)], [], [Pended(id)], Done(0))
    else if f.ptype == RESUME then
      if ch.status != Pending then ignored
      else Outcome(table[id := ch.(status := Open)], [], [Resumed(id)], Done(0))
    else if f.ptype == CLOSE then
      Outcome(table - {id}, [], [Closed(id, Normal)], Done(0))
    else
      ignored  // keep-alives and unknown packets
  }

  function Receive(table: Table, f: Frame, env: Env): Outcome
    requires Allocates(table, env.alloc)
  {
    if f.remote == 0 && f.local == 0 && f.ptype == DATA then
      Outcome(table, [], [RawData(f.payload)], Done(0))
    else if f.ptype == OPEN then ReceiveOpen(table, f, env)
    else if f.local !in table then Outcome(table, [], [], Done(0))
    else ReceiveKnown(table, f, env)
  }
}
