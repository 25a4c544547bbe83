/**
 * The multiplexer object of src/session/multiplex_handler.c together with the TCP callbacks and
 * the worker operations of src/session/portforwarding.c: reference-counted channels, the table
 * that finds them, channel ids taken from a heap, sockets and the set of watched descriptors.
 *
 * `Valid` is the state between two calls: the ids taken are the keys of the table, only the table
 * refers to a channel, every open socket has one owner, and the watched sockets are the listening
 * ones plus those of TCP channels in status Open.  Every method keeps it and does to the table,
 * the frames and the callbacks what the functions of `Endpoint` say.
 */
module Multiplexer {
  import opened Wrappers
  import opened Endpoint

  type Socket = nat

  /** A channel in memory; `sock` is the extra field of a TcpChannel. */
  datatype Channel = Channel(kind: Kind, remote: nat, status: Status, sock: Option<Socket>, refs: nat)

  type Memory = map<nat, Channel>

  /** The channels as the functions of `Endpoint` see them. */
  function Shown(memory: Memory): (t: Table) {
    map id | id in memory :: Chan(memory[id].kind, memory[id].remote, memory[id].status)
  }

  /** Each channel in memory is in the table and holds its id; `held` has one more reference. */
  ghost predicate Counted(memory: Memory, table: set<nat>, ids: set<nat>, held: nat) {
    && 0 !in ids
    && ids == memory.Keys == table
    && forall id :: id in memory ==> memory[id].refs == if id == held then 2 else 1
  }

  /** TCP channels and their sockets match one to one. */
  ghost predicate Owned(memory: Memory, owner: map<Socket, nat>) {
    && (forall s :: s in owner ==> owner[s] in memory && memory[owner[s]].sock == Some(s))
    && (forall id :: id in memory && memory[id].sock.Some? ==>
          && memory[id].kind == Tcp
          && memory[id].sock.value in owner
          && owner[memory[id].sock.value] == id)
  }

  /** So do port forwardings and their listening sockets. */
  ghost predicate Listening(listeners: map<nat, Socket>, listening: map<Socket, nat>) {
    && (forall s :: s in listening ==> listening[s] in listeners && listeners[listening[s]] == s)
    && (forall pf :: pf in listeners ==> listeners[pf] in listening && listening[listeners[pf]] == pf)
  }

  /** The open sockets are those with an owner and the `loose` ones, which are about to get theirs. */
  ghost predicate Accounted(sockets: set<Socket>, owner: map<Socket, nat>, listening: map<Socket, nat>, loose: set<Socket>) {
    && sockets == owner.Keys + listening.Keys + loose
    && owner.Keys !! listening.Keys !! loose
  }

  ghost predicate Watched(fds: set<Socket>, memory: Memory, owner: map<Socket, nat>, listening: map<Socket, nat>) {
    forall s :: s in fds <==>
      s in listening || (s in owner && owner[s] in memory && memory[owner[s]].status == Open)
  }

  /** TCP channels have a socket, except the one whose open callback has not succeeded yet. */
  ghost predicate Connected(memory: Memory, except: nat) {
    forall id :: id in memory && id != except && memory[id].kind == Tcp ==> memory[id].sock.Some?
  }

  lemma ShownPut(memory: Memory, id: nat, ch: Channel)
    ensures Shown(memory[id := ch]) == Shown(memory)[id := Chan(ch.kind, ch.remote, ch.status)]
  {
  }

  function Held(sock: Option<Socket>): set<Socket> {
    if sock.Some? then {sock.value} else {}
  }

  /** A channel that is still opening takes over a loose socket. */
  lemma NewOwner(memory: Memory, owner: map<Socket, nat>, listening: map<Socket, nat>, sockets: set<Socket>,
                 fds: set<Socket>, id: nat, kind: Kind, sock: Option<Socket>)
    requires Owned(memory, owner) && Connected(memory, 0) && Watched(fds, memory, owner, listening)
    requires Accounted(sockets, owner, listening, Held(sock))
    requires id !in memory && (kind == Tcp <==> sock.Some?)
    ensures var memory' := memory[id := Channel(kind, 0, Opening, sock, 1)];
            var owner' := if sock.Some? then owner[sock.value := id] else owner;
            && Owned(memory', owner') && Connected(memory', 0) && Watched(fds, memory', owner', listening)
            && Accounted(sockets, owner', listening, {})
  {
  }

  lemma StatusChange(fds: set<Socket>, memory: Memory, owner: map<Socket, nat>, listening: map<Socket, nat>,
                     id: nat, remote: nat, status: Status)
    requires Owned(memory, owner) && Watched(fds, memory, owner, listening)
    requires owner.Keys !! listening.Keys
    requires id in memory && (memory[id].kind == Tcp <==> memory[id].sock.Some?)
    ensures var ch := memory[id];
            var memory' := memory[id := ch.(status := status, remote := remote)];
            var fds' := if ch.kind != Tcp then fds
                        else if status == Open then fds + {ch.sock.value} else fds - {ch.sock.value};
            Owned(memory', owner) && Watched(fds', memory', owner, listening)
  {
    if memory[id].kind == Tcp {
      assert owner[memory[id].sock.value] == id;
    }
  }

  lemma CloseStep(order: seq<nat>, id: nat, table: set<nat>, all: multiset<nat>, reason: Reason)
    requires id in table && multiset(order) + multiset(table) == all
    ensures multiset(order + [id]) + multiset(table - {id}) == all
    ensures CloseEvents(order + [id], reason) == CloseEvents(order, reason) + [Closed(id, reason)]
  {
    assert (order + [id])[..|order|] == order;
    assert table == (table - {id}) + {id};
  }

  lemma Adopt(memory: Memory, owner: map<Socket, nat>, listening: map<Socket, nat>, sockets: set<Socket>,
              fds: set<Socket>, id: nat, conn: Socket)
    requires Owned(memory, owner) && Connected(memory, id) && Watched(fds, memory, owner, listening)
    requires Accounted(sockets, owner, listening, {}) && conn !in sockets
    requires id in memory && memory[id].kind == Tcp && memory[id].sock == None && memory[id].status == Opening
    ensures var memory' := memory[id := memory[id].(sock := Some(conn))];
            var owner' := owner[conn := id];
            && Owned(memory', owner') && Connected(memory', 0) && Watched(fds, memory', owner', listening)
            && Accounted(sockets + {conn}, owner', listening, {})
            && Shown(memory') == Shown(memory)
  {
  }

  class MultiplexHandler {
    const worker: bool
    var memory: map<nat, Channel>   // channels not yet destroyed, by the id they hold
    var table: set<nat>             // keys of the hash table
    var ids: set<nat>               // taken from the id heap
    var sent: seq<Frame>            // accepted by the handler below
    var events: seq<Event>          // callbacks made
    var listeners: map<nat, Socket> // port forwardings by id
    var fds: set<Socket>            // the descriptor set without its event descriptor
    var sockets: set<Socket>        // sockets that are open
    ghost var owner: map<Socket, nat>      // the channel that owns a socket
    ghost var listening: map<Socket, nat>  // the port forwarding that owns a socket

    constructor (worker: bool)
      ensures Valid() && View() == map[] && sent == [] && events == [] && this.worker == worker
      ensures listeners == map[] && fds == {} && sockets == {}
    {
      this.worker := worker;
      memory, table, ids, sent, events := map[], {}, {}, [], [];
      listeners, fds, sockets := map[], {}, {};
      owner, listening := map[], map[];
    }

    ghost function View(): Table
      reads this`memory
    {
      Shown(memory)
    }

    ghost predicate Consistent(held: nat, loose: set<Socket>)
      reads this
    {
      && Counted(memory, table, ids, held)
      && Owned(memory, owner)
      && Listening(listeners, listening)
      && Accounted(sockets, owner, listening, loose)
      && Watched(fds, memory, owner, listening)
    }

    ghost predicate Valid()
      reads this
    {
      Consistent(0, {}) && Connected(memory, 0)
    }

    /** Between two calls, except that the caller holds a reference to channel `id`. */
    ghost predicate Holding(id: nat)
      reads this
    {
      id in memory && Consistent(id, {}) && Connected(memory, 0)
    }

    // -------------------------------------------------------------- references, ids, sockets

    /** The last reference destroys the channel and gives its id back to the heap. */
    method Deref(id: nat)
      requires id in memory && memory[id].refs > 0
      requires memory[id].refs == 1 ==> id in ids && id !in table
      modifies this`memory, this`ids
      ensures memory == if old(memory)[id].refs == 1 then old(memory) - {id}
                        else old(memory)[id := old(memory)[id].(refs := old(memory)[id].refs - 1)]
      ensures ids == if old(memory)[id].refs == 1 then old(ids) - {id} else old(ids)
    {
      var ch := memory[id];
      if ch.refs == 1 {
        memory := memory - {id};
        ids := ids - {id};
      } else {
        memory := memory[id := ch.(refs := ch.refs - 1)];
      }
    }

    method SocketClose(s: Socket)
      requires s in sockets
      modifies this`sockets
      ensures sockets == old(sockets) - {s}
    {
      sockets := sockets - {s};
    }

    method SendPacket(ptype: nat, option: nat, local: nat, remote: nat, payload: Payload, sendOk: bool) returns (rc: Rc)
      modifies this`sent
      ensures sent == old(sent) + Emit(Frame(ptype, option, remote, local, payload), sendOk)
      ensures rc == if sendOk then Done(|payload|) else SendError
    {
      if !sendOk {
        return SendError;
      }
      sent := sent + [Frame(ptype, option, remote, local, payload)];
      return Done(|payload|);
    }

    /** channels_get: a reference to the channel, if there is one. */
    method Get(id: nat) returns (found: bool)
      requires Valid()
      modifies this`memory
      ensures found <==> id in table
      ensures found ==> Holding(id) && memory == old(memory)[id := old(memory)[id].(refs := 2)]
      ensures !found ==> memory == old(memory)
      ensures View() == old(View())
    {
      found := id in table;
      if found {
        memory := memory[id := memory[id].(refs := memory[id].refs + 1)];
      }
    }

    method Release(id: nat)
      requires Holding(id)
      modifies this`memory, this`ids
      ensures Valid() && View() == old(View())
      ensures memory == old(memory)[id := old(memory)[id].(refs := 1)]
    {
      Deref(id);
    }

    // -------------------------------------------------------------- removing a channel

    /** channels_remove, then the caller's own reference. */
    method Remove(id: nat)
      requires id in memory && Counted(memory, table, ids, id)
      modifies this`table, this`memory, this`ids
      ensures Counted(memory, table, ids, 0)
      ensures memory == old(memory) - {id} && table == old(table) - {id}
    {
      table := table - {id};
      Deref(id);
      Deref(id);
    }

    /** The close callback of a TCP channel stops watching its socket and closes it. */
    method NotifyClose(id: nat, reason: Reason)
      requires id in memory && id > 0 && Owned(memory, owner) && Connected(memory, 0)
      requires Accounted(sockets, owner, listening, {}) && Watched(fds, memory, owner, listening)
      modifies this`events, this`fds, this`sockets, this`owner
      ensures events == old(events) + [Closed(id, reason)]
      ensures Owned(memory - {id}, owner)
      ensures Accounted(sockets, owner, listening, {})
      ensures Watched(fds, memory - {id}, owner, listening)
    {
      events := events + [Closed(id, reason)];
      if memory[id].kind == Tcp {
        var s := memory[id].sock.value;
        fds := fds - {s};
        SocketClose(s);
        owner := owner - {s};
      }
    }

    method Drop(id: nat, reason: Reason)
      requires Holding(id)
      modifies this`events, this`fds, this`sockets, this`owner, this`table, this`memory, this`ids
      ensures Valid() && View() == old(View()) - {id}
      ensures events == old(events) + [Closed(id, reason)] && table == old(table) - {id}
    {
      NotifyClose(id, reason);
      Remove(id);
    }

    // -------------------------------------------------------------- API calls

    method CloseChannel(id: nat, sendOk: bool) returns (rc: Rc)
      requires Valid()
      modifies this
      ensures Valid()
      ensures var out := Endpoint.CloseChannel(old(View()), id, sendOk);
              View() == out.table && sent == old(sent) + out.sent && events == old(events) + out.events && rc == out.rc
      ensures listeners == old(listeners)
    {
      var found := Get(id);
      if !found {
        return NotExist;
      }
      if memory[id].remote != 0 {
        var _ := SendPacket(CLOSE, 0, id, memory[id].remote, [], sendOk);
      }
      Drop(id, Normal);
      return Done(0);
    }

    /** Write, pend and resume: only the packet differs. */
    method SendOn(id: nat, ptype: nat, payload: Payload, sendOk: bool) returns (rc: Rc)
      requires Valid()
      modifies this`memory, this`ids, this`sent
      ensures Valid()
      ensures var out := Endpoint.SendOn(old(View()), id, ptype, payload, sendOk);
              View() == out.table && sent == old(sent) + out.sent && events == old(events) && rc == out.rc
      ensures rc.Done? <==> sendOk && id in old(View()) && old(View())[id].remote != 0 && old(View())[id].status != Opening
      ensures sent == if rc.Done? then old(sent) + [Frame(ptype, 0, old(View())[id].remote, id, payload)] else old(sent)
    {
      var found := Get(id);
      if !found {
        return NotExist;
      }
      if memory[id].status == Opening || memory[id].remote == 0 {
        Release(id);
        return WrongState;
      }
      rc := SendPacket(ptype, 0, id, memory[id].remote, payload, sendOk);
      Release(id);
    }

    method WriteChannel(id: nat, payload: Payload, sendOk: bool) returns (rc: Rc)
      requires Valid()
      modifies this`memory, this`ids, this`sent
      ensures Valid()
      ensures var out := Endpoint.WriteChannel(old(View()), id, payload, sendOk);
              View() == out.table && sent == old(sent) + out.sent && events == old(events) && rc == out.rc
      ensures rc.Done? && id != 0 ==> id in old(View()) && sent == old(sent) + [Frame(DATA, 0, old(View())[id].remote, id, payload)]
      ensures rc.Done? && id == 0 ==> sent == old(sent) + [Frame(DATA, 0, 0, 0, payload)]
      ensures !rc.Done? ==> sent == old(sent)
    {
      if id == 0 {
        rc := SendPacket(DATA, 0, 0, 0, payload, sendOk);
      } else {
        rc := SendOn(id, DATA, payload, sendOk);
      }
    }

    /** A channel that just took its id, in the table and with the caller's reference. */
    method Create(id: nat, kind: Kind, remote: nat, sock: Option<Socket>)
      requires Counted(memory, table, ids, 0) && id > 0 && id !in ids
      modifies this`memory, this`table, this`ids
      ensures Counted(memory, table, ids, id)
      ensures memory == old(memory)[id := Channel(kind, remote, Opening, sock, 2)]
    {
      ids := ids + {id};
      memory := memory[id := Channel(kind, remote, Opening, sock, 1)];
      table := table + {id};
      memory := memory[id := memory[id].(refs := memory[id].refs + 1)];
    }

    /** Undoes `Create` after the caller's reference is gone. */
    method Abandon(id: nat)
      requires id in memory && memory[id].refs == 1 && Counted(memory, table, ids, 0)
      modifies this`memory, this`table, this`ids
      ensures Counted(memory, table, ids, 0)
      ensures memory == old(memory) - {id}
    {
      table := table - {id};
      Deref(id);
    }

    /** The channel is put into the table, asked for, and taken out again if the request cannot be sent. */
    method Request(id: nat, kind: Kind, cookie: Payload, sock: Option<Socket>, sendOk: bool) returns (rc: Rc)
      requires Counted(memory, table, ids, 0) && id > 0 && id !in memory
      modifies this`memory, this`table, this`ids, this`sent
      ensures Counted(memory, table, ids, 0)
      ensures memory == if sendOk then old(memory)[id := Channel(kind, 0, Opening, sock, 1)] else old(memory)
      ensures sent == old(sent) + Emit(Frame(OPEN, KindCode(kind), 0, id, cookie), sendOk)
      ensures rc == if sendOk then Done(id) else SendError
    {
      Create(id, kind, 0, sock);
      rc := SendPacket(OPEN, KindCode(kind), id, 0, cookie, sendOk);
      Deref(id);
      if !sendOk {
        Abandon(id);
      } else {
        rc := Done(id);
      }
    }

    /** A TCP channel is handed `sock`, which stays the caller's when the call fails. */
    method OpenChannel(kind: Kind, cookie: Payload, sock: Option<Socket>, alloc: Option<nat>, sendOk: bool) returns (rc: Rc)
      requires Consistent(0, Held(sock)) && Connected(memory, 0)
      requires kind == Tcp <==> sock.Some?
      requires Allocates(View(), alloc)
      modifies this`memory, this`table, this`ids, this`sent, this`owner
      ensures var out := Endpoint.OpenChannel(old(View()), kind, cookie, alloc, sendOk);
              View() == out.table && sent == old(sent) + out.sent && rc == out.rc
      ensures Consistent(0, if rc.Done? then {} else Held(sock)) && Connected(memory, 0)
    {
      if alloc == None {
        return LimitExceeded;
      }
      var id := alloc.value;
      NewOwner(memory, owner, listening, sockets, fds, id, kind, sock);
      ShownPut(memory, id, Channel(kind, 0, Opening, sock, 1));
      rc := Request(id, kind, cookie, sock, sendOk);
      if sendOk {
        owner := if sock.Some? then owner[sock.value := id] else owner;
      }
    }

    // -------------------------------------------------------------- received packets

    /** The open callback of a TCP channel connects to its service: `conn` is the new socket. */
    method NotifyOpen(id: nat, cookie: Option<Payload>, accept: bool, conn: Socket)
      requires id in memory && memory[id].status == Opening && memory[id].sock == None
      requires Consistent(id, {}) && Connected(memory, id) && conn !in sockets
      modifies this`events, this`memory, this`sockets, this`owner
      ensures events == old(events) + [OpenRequest(id, cookie)]
      ensures View() == old(View()) && (!accept ==> memory == old(memory))
      ensures Consistent(id, {}) && Connected(memory, if accept then 0 else id)
    {
      events := events + [OpenRequest(id, cookie)];
      if accept && memory[id].kind == Tcp {
        Adopt(memory, owner, listening, sockets, fds, id, conn);
        sockets := sockets + {conn};
        memory := memory[id := memory[id].(sock := Some(conn))];
        owner := owner[conn := id];
      }
    }

    /** The status changes to or from Open, and the TCP callbacks start or stop watching the socket. */
    method SetStatus(id: nat, remote: nat, status: Status)
      requires Holding(id)
      modifies this`memory, this`fds
      ensures Holding(id)
      ensures View() == old(View())[id := Chan(old(View())[id].kind, remote, status)]
    {
      var ch := memory[id];
      StatusChange(fds, memory, owner, listening, id, remote, status);
      ShownPut(memory, id, ch.(status := status, remote := remote));
      memory := memory[id := ch.(status := status, remote := remote)];
      if ch.kind == Tcp {
        fds := if status == Open then fds + {ch.sock.value} else fds - {ch.sock.value};
      }
    }

    /** A status change with its callback; the caller's reference goes. */
    method Switch(id: nat, remote: nat, status: Status, event: Event)
      requires Holding(id)
      modifies this`memory, this`fds, this`events, this`ids
      ensures Valid()
      ensures View() == old(View())[id := Chan(old(View())[id].kind, remote, status)]
      ensures events == old(events) + [event]
    {
      SetStatus(id, remote, status);
      events := events + [event];
      Release(id);
    }

    method Reject(id: nat, accepted: bool)
      requires Consistent(id, {}) && Connected(memory, if accepted then 0 else id) && id in memory
      requires !accepted ==> memory[id].sock == None
      modifies this`memory, this`table, this`ids, this`events, this`sockets, this`owner, this`fds
      ensures Valid() && memory == old(memory) - {id}
      ensures events == old(events) + if accepted then [Closed(id, Error)] else []
    {
      if accepted {
        NotifyClose(id, Error);
      }
      Remove(id);
    }

    /** A channel for the peer's request; a TCP channel has no socket yet. */
    method Begin(id: nat, kind: Kind, remote: nat)
      requires Valid() && id > 0 && id !in memory
      modifies this`memory, this`table, this`ids
      ensures Consistent(id, {}) && Connected(memory, id)
      ensures View() == old(View())[id := Chan(kind, remote, Opening)]
      ensures id in memory && memory[id].status == Opening && memory[id].sock == None
    {
      Create(id, kind, remote, None);
      ShownPut(old(memory), id, memory[id]);
    }

    /** After the confirmation was sent or lost, the new channel opens or goes away. */
    method Conclude(id: nat, remote: nat, accepted: bool, sendOk: bool)
      requires id in memory && Consistent(id, {}) && Connected(memory, if accepted then 0 else id)
      requires !accepted ==> memory[id].sock == None
      modifies this`memory, this`table, this`ids, this`events, this`sockets, this`owner, this`fds
      ensures Valid()
      ensures View() == if accepted && sendOk then old(View())[id := Chan(old(View())[id].kind, remote, Open)]
                        else old(View()) - {id}
      ensures events == old(events) + if accepted && sendOk then [Opened(id)] else if accepted then [Closed(id, Error)] else []
    {
      if accepted && sendOk {
        Switch(id, remote, Open, Opened(id));
      } else {
        Reject(id, accepted);
      }
    }

    /** The confirmation is sent, or lost; then the channel opens or goes away. */
    method Reply(id: nat, remote: nat, accepted: bool, sendOk: bool)
      requires id in memory && Consistent(id, {}) && Connected(memory, if accepted then 0 else id)
      requires !accepted ==> memory[id].sock == None
      modifies this`memory, this`table, this`ids, this`sent, this`events, this`sockets, this`owner, this`fds
      ensures Valid()
      ensures View() == if accepted && sendOk then old(View())[id := Chan(old(View())[id].kind, remote, Open)]
                        else old(View()) - {id}
      ensures sent == old(sent) + Emit(Frame(CONFIRMATION, 0, remote, if accepted then id else 0, []), sendOk)
      ensures events == old(events) + if accepted && sendOk then [Opened(id)] else if accepted then [Closed(id, Error)] else []
    {
      var rc := SendPacket(CONFIRMATION, 0, if accepted then id else 0, remote, [], sendOk);
      Conclude(id, remote, accepted, sendOk);
    }

    /** The open callback decides. */
    method Answer(id: nat, kind: Kind, f: Frame, env: Env, conn: Socket)
      requires Valid() && id > 0 && id !in View() && conn !in sockets
      modifies this`memory, this`table, this`ids, this`sent, this`events, this`sockets, this`owner, this`fds
      ensures Valid()
      ensures View() == if env.accept && env.sendOk then old(View())[id := Chan(kind, f.remote, Open)] else old(View())
      ensures sent == old(sent) + Emit(Frame(CONFIRMATION, 0, f.remote, if env.accept then id else 0, []), env.sendOk)
      ensures events == old(events) + [OpenRequest(id, Cookie(f.payload))] +
                        if env.accept && env.sendOk then [Opened(id)] else if env.accept then [Closed(id, Error)] else []
    {
      ghost var before: Table := View();
      Begin(id, kind, f.remote);
      assert before[id := Chan(kind, f.remote, Opening)] - {id} == before;
      assert before[id := Chan(kind, f.remote, Opening)][id := Chan(kind, f.remote, Open)] == before[id := Chan(kind, f.remote, Open)];
      NotifyOpen(id, Cookie(f.payload), env.accept, conn);
      Reply(id, f.remote, env.accept, env.sendOk);
    }

    method HandleOpen(f: Frame, env: Env, conn: Socket)
      requires Valid() && env.worker == worker && Allocates(View(), env.alloc) && conn !in sockets
      modifies this`memory, this`table, this`ids, this`sent, this`events, this`sockets, this`owner, this`fds
      ensures Valid()
      ensures var out := ReceiveOpen(old(View()), f, env);
              View() == out.table && sent == old(sent) + out.sent && events == old(events) + out.events
    {
      var kind := KindOf(f.option, worker);
      if kind == None {
        return;
      }
      if !env.memory {
        return;
      }
      if env.alloc == None {
        var _ := SendPacket(CONFIRMATION, 0, 0, 0, [], env.sendOk);
        return;
      }
      Answer(env.alloc.value, kind.value, f, env, conn);
    }

    method HandleConfirmation(id: nat, f: Frame, ghost env: Env)
      requires Holding(id) && f.local == id && f.ptype == CONFIRMATION
      modifies this`memory, this`table, this`ids, this`events, this`sockets, this`owner, this`fds
      ensures Valid()
      ensures var out := ReceiveKnown(old(View()), f, env);
              View() == out.table && [] == out.sent && events == old(events) + out.events
    {
      if memory[id].status != Opening {
        Release(id);
      } else if f.remote != 0 {
        Switch(id, f.remote, Open, Opened(id));
      } else {
        Drop(id, Error);
      }
    }

    method HandleData(id: nat, f: Frame, env: Env)
      requires Holding(id) && f.local == id && f.ptype == DATA
      modifies this`memory, this`table, this`ids, this`events, this`sockets, this`owner, this`fds
      ensures Valid()
      ensures var out := ReceiveKnown(old(View()), f, env);
              View() == out.table && [] == out.sent && events == old(events) + out.events
    {
      if memory[id].status == Opening {
        Release(id);
        return;
      }
      events := events + [Delivered(id, f.payload)];
      if env.accept {
        Release(id);
      } else {
        Drop(id, Error);
      }
    }

    /** Pending and Resume packets. */
    method HandleFlow(id: nat, f: Frame, ghost env: Env)
      requires Holding(id) && f.local == id && (f.ptype == PENDING || f.ptype == RESUME)
      modifies this`memory, this`ids, this`events, this`fds
      ensures Valid()
      ensures var out := ReceiveKnown(old(View()), f, env);
              View() == out.table && [] == out.sent && events == old(events) + out.events
    {
      if memory[id].status != (if f.ptype == PENDING then Open else Pending) {
        Release(id);
        return;
      }
      if f.ptype == PENDING {
        Switch(id, memory[id].remote, Pending, Pended(id));
      } else {
        Switch(id, memory[id].remote, Open, Resumed(id));
      }
    }

    /** `conn` is the socket that connecting to a local service would yield. */
    method NotifyPacket(f: Frame, env: Env, conn: Socket)
      requires Valid() && env.worker == worker && Allocates(View(), env.alloc) && conn !in sockets
      modifies this`memory, this`table, this`ids, this`sent, this`events, this`sockets, this`owner, this`fds
      ensures Valid()
      ensures var out := Receive(old(View()), f, env);
              View() == out.table && sent == old(sent) + out.sent && events == old(events) + out.events
    {
      if f.remote == 0 && f.local == 0 && f.ptype == DATA {
        events := events + [RawData(f.payload)];
        return;
      }
      if f.ptype == OPEN {
        HandleOpen(f, env, conn);
        return;
      }
      var found := Get(f.local);
      if !found {
        return;
      }
      if f.ptype == CONFIRMATION {
        HandleConfirmation(f.local, f, env);
      } else if f.ptype == DATA {
        HandleData(f.local, f, env);
      } else if f.ptype == PENDING || f.ptype == RESUME {
        HandleFlow(f.local, f, env);
      } else if f.ptype == CLOSE {
        Drop(f.local, Normal);
      } else {
        Release(f.local);
      }
    }

    // -------------------------------------------------------------- closing everything

    method CloseOne(id: nat, reason: Reason)
      requires Valid() && id in table
      modifies this`memory, this`table, this`ids, this`events, this`sockets, this`owner, this`fds
      ensures Valid() && table == old(table) - {id}
      ensures events == old(events) + [Closed(id, reason)]
    {
      var found := Get(id);
      Drop(id, reason);
    }

    /** Every channel is closed once, in the order the table hands them out; nothing is sent. */
    method CloseChannels(reason: Reason) returns (ghost order: seq<nat>)
      requires Valid()
      modifies this`memory, this`table, this`ids, this`events, this`sockets, this`owner, this`fds
      ensures Valid() && table == {}
      ensures multiset(order) == multiset(old(table))
      ensures events == old(events) + CloseEvents(order, reason)
    {
      order := [];
      ghost var left := multiset(table);
      while table != {}
        invariant Valid()
        invariant multiset(order) + multiset(table) == left
        invariant events == old(events) + CloseEvents(order, reason)
        decreases table
      {
        var id :| id in table;
        ghost var before := table;
        CloseOne(id, reason);
        CloseStep(order, id, before, left, reason);
        order := order + [id];
      }
    }

    // -------------------------------------------------------------- port forwarding

    /** A connection accepted on a listening socket: its socket `sock` gets a channel or is closed. */
    method HandleAccept(service: Payload, sock: Socket, alloc: Option<nat>, sendOk: bool) returns (rc: Rc)
      requires Valid() && sock !in sockets && Allocates(View(), alloc)
      modifies this`memory, this`table, this`ids, this`sent, this`owner, this`sockets
      ensures Valid()
      ensures var out := Endpoint.OpenChannel(old(View()), Tcp, service, alloc, sendOk);
              View() == out.table && sent == old(sent) + out.sent && rc == out.rc
      ensures sockets == old(sockets) + if rc.Done? then {sock} else {}
    {
      sockets := sockets + {sock};
      rc := OpenChannel(Tcp, service, Some(sock), alloc, sendOk);
      if !rc.Done? {
        SocketClose(sock);
      }
    }

    /** `sock` is the socket created for the given address, `alloc` the id handed out for it. */
    method OpenPortForwarding(sock: Option<Socket>, listens: bool, alloc: Option<nat>) returns (rc: Rc)
      requires Valid() && (sock.Some? ==> sock.value !in sockets)
      requires alloc.Some? ==> alloc.value > 0 && alloc.value !in listeners
      modifies this`sockets, this`listeners, this`listening, this`fds
      ensures Valid()
      ensures rc.Done? <==> sock.Some? && listens && alloc.Some?
      ensures listeners == if rc.Done? then old(listeners)[alloc.value := sock.value] else old(listeners)
      ensures sockets == old(sockets) + if rc.Done? then {sock.value} else {}
      ensures fds == old(fds) + if rc.Done? then {sock.value} else {}
      ensures rc.Done? ==> rc.n == alloc.value
    {
      if sock == None {
        return SendError;
      }
      var s := sock.value;
      sockets := sockets + {s};
      if !listens {
        SocketClose(s);
        return SendError;
      }
      if alloc == None {
        SocketClose(s);
        return LimitExceeded;
      }
      listeners := listeners[alloc.value := s];
      listening := listening[s := alloc.value];
      fds := fds + {s};
      return Done(alloc.value);
    }

    method ClosePortForwarding(pf: nat)
      requires Valid()
      modifies this`sockets, this`listeners, this`listening, this`fds
      ensures Valid()
      ensures listeners == old(listeners) - {pf}
      ensures sockets == old(sockets) - if pf in old(listeners) then {old(listeners)[pf]} else {}
      ensures fds == old(fds) - if pf in old(listeners) then {old(listeners)[pf]} else {}
    {
      if pf !in listeners {
        assert listeners == listeners - {pf};
        return;
      }
      var s := listeners[pf];
      listeners := listeners - {pf};
      listening := listening - {s};
      fds := fds - {s};
      SocketClose(s);
    }
  }

  ghost predicate ListensOn(m: MultiplexHandler, pf: nat, s: Socket)
    reads m
  {
    pf in m.listeners && m.listeners[pf] == s
  }

  ghost predicate HoldsSocket(m: MultiplexHandler, id: nat, s: Socket)
    reads m
  {
    id in m.memory && m.memory[id].sock == Some(s)
  }

  /**
   * What `Valid` means for a socket: it is open iff a port forwarding or a channel owns it, it has
   * no second owner, and it is watched iff it listens or its channel is Open.
   */
  lemma SocketOwnership(m: MultiplexHandler, s: Socket)
    requires m.Valid()
    ensures s in m.sockets <==> (exists pf :: ListensOn(m, pf, s)) || (exists id :: HoldsSocket(m, id, s))
    ensures forall pf, pf' :: ListensOn(m, pf, s) && ListensOn(m, pf', s) ==> pf == pf'
    ensures forall id, id' :: HoldsSocket(m, id, s) && HoldsSocket(m, id', s) ==> id == id' && m.memory[id].kind == Tcp
    ensures forall pf, id :: !(ListensOn(m, pf, s) && HoldsSocket(m, id, s))
    ensures s in m.fds <==> (exists pf :: ListensOn(m, pf, s)) || (exists id :: HoldsSocket(m, id, s) && m.memory[id].status == Open)
  {
    assert s in m.listening ==> ListensOn(m, m.listening[s], s);
    assert s in m.owner ==> HoldsSocket(m, m.owner[s], s);
  }

  /** An id is out of the heap exactly while a channel of the table carries it. */
  lemma IdsAreTableKeys(m: MultiplexHandler, id: nat)
    requires m.Valid()
    ensures id in m.ids <==> id in m.View()
    ensures id in m.ids ==> id in m.table && m.memory[id].refs == 1
  {
  }
}
