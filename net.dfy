/**
 * The presence server: the client registry of `server`/`basic_server`, the
 * per-client `network_handler`, and the process-wide render-client list and
 * companion catalog they share. Server and handler call into each other
 * (the handler sends and disconnects through the server, the server
 * dispatches to and tears down the handler), so both live in this module.
 *
 * Sockets are modelled by their descriptors: every ::send call is recorded in
 * `wire`, every close() in `closed`. Threads, poll() and accept() are not
 * modelled; one iteration of a receiving thread is `Server.ReceiveStep`.
 */
module Net {
  import opened Bytes
  import opened Wrappers
  import opened Packets
  import opened Seqs

  /** clientID is a C int. */
  type ClientId = int

  const IntMax: int := 0x7fff_ffff

  // ---------------------------------------------------------------------------
  // Pure rules

  /** The render-client list after a handler whose render client is rc cleans up. */
  function Departed(clients: seq<RenderClient>, rc: RenderClient?): (r: seq<RenderClient>)
  {
    if rc == null then clients else RemoveFirst<RenderClient>(clients, rc)
  }

  /**
   * The Disconnect reasons a Join triggers, in the order they are sent: the
   * two admission checks are independent, so both can fire.
   */
  function Rejections(clientCount: nat, maxClients: int, knownCompanion: bool): (r: seq<DisconnectReason>)
    ensures TooManyClients in r <==> clientCount >= maxClients
    ensures UnknownCompanion in r <==> !knownCompanion
    ensures forall reason :: reason in r ==> reason == TooManyClients || reason == UnknownCompanion
    ensures |r| <= 2 && (|r| == 2 ==> r == [TooManyClients, UnknownCompanion])
  {
    (if clientCount >= maxClients then [TooManyClients] else [])
    + (if !knownCompanion then [UnknownCompanion] else [])
  }

  const JoinCode: u32 := ServerboundCode(Join)

  /** The descriptor `m_clientSockets[id]` yields: operator[] gives 0 for an absent id. */
  function FdOf(sockets: map<ClientId, int>, id: ClientId): int
  {
    if id in sockets then sockets[id] else 0
  }

  function DisconnectWrites(fd: int, reason: DisconnectReason): seq<Write>
  {
    SendWrites(fd, ClientboundCode(Disconnect), EncodeDisconnect(reason))
  }

  /** What one poll()/recv() round of a receiving thread observed. */
  datatype Received =
    | PollError                                     // revents has POLLERR
    | FullHeader(raw: seq<byte>, payload: seq<byte>) // recv filled the header; payload: the second recv's bytes
    | PartialHeader(count: nat)                     // recv returned 0 < count < sizeof(header)
    | PeerClosed                                    // recv returned 0
    | RecvFailed                                    // recv returned -1
    | PollTimeout(exitSignalled: bool)              // poll timed out; the exit future may be ready

  predicate WellFormed(r: Received)
  {
    match r
    case FullHeader(raw, payload) => |raw| == HeaderSize && |payload| <= DecodeHeader(raw).size
    case PartialHeader(count) => 0 < count < HeaderSize
    case _ => true
  }

  /** What the receiving thread does with one observation. */
  datatype Step = Dispatch(kind: u32, payload: seq<byte>) | Ignore | Drop

  /**
   * A full header dispatches once (with the bytes actually received, which
   * may be fewer than declared, or with nothing when the size is 0); POLLERR,
   * a zero-byte read and the exit signal drop the client; a partial header,
   * an idle poll and a failed recv (-1 stored in a size_t is not <= 0) do nothing.
   */
  function Classify(r: Received): (s: Step)
    requires WellFormed(r)
    ensures s.Dispatch? <==> r.FullHeader?
    ensures s.Drop? <==> r.PollError? || r.PeerClosed? || r == PollTimeout(true)
    ensures s.Dispatch? ==> s.kind == DecodeHeader(r.raw).kind && s.payload == r.payload
    ensures s.Dispatch? && DecodeHeader(r.raw).size == 0 ==> s.payload == []
  {
    match r
    case PollError => Drop
    case FullHeader(raw, payload) =>
      var h := DecodeHeader(raw);
      if h.size > 0 then Dispatch(h.kind, payload) else Dispatch(h.kind, [])
    case PartialHeader(_) => Ignore
    case PeerClosed => Drop
    case RecvFailed => Ignore
    case PollTimeout(exitSignalled) => if exitSignalled then Drop else Ignore
  }

  // ---------------------------------------------------------------------------
  // Shared state

  /** render_client, as far as the protocol sees it: which companion it draws. */
  class RenderClient {
    const companion: seq<byte>

    constructor (companion: seq<byte>)
      ensures this.companion == companion
    {
      this.companion := companion;
    }
  }

  /** The globals of shared.hpp the handler uses. */
  class Shared {
    /** `clients`: the render clients drawn each frame. */
    var clients: seq<RenderClient>
    /** The keys of `companions`. */
    const companions: set<seq<byte>>
    /** mainConfig["maxClients"]. */
    const maxClients: int

    constructor (companions: set<seq<byte>>, maxClients: int)
      ensures clients == [] && this.companions == companions && this.maxClients == maxClients
    {
      clients := [];
      this.companions := companions;
      this.maxClients := maxClients;
    }
  }

  /** May the handler receive this packet without undefined behaviour? */
  predicate Admissible(kind: u32, data: seq<byte>, clientCount: nat, maxClients: int, companions: set<seq<byte>>)
  {
    kind == JoinCode ==>
      && JoinReadable(data)
      && |Rejections(clientCount, maxClients, JoinCompanion(data) in companions)| <= 1
  }

  /** Nothing observable changed for s, h and g. */
  twostate predicate Untouched(s: Server, h: NetworkHandler, g: Shared)
    reads s, h, g
  {
    && s.nextId == old(s.nextId) && s.handlers == old(s.handlers) && s.sockets == old(s.sockets)
    && s.wire == old(s.wire) && s.closed == old(s.closed)
    && h.renderClient == old(h.renderClient) && g.clients == old(g.clients)
  }

  /**
   * The effect of a Join on the server s, the handler h and the shared state
   * g: a Disconnect per failed check (which tears the client down), then a new
   * render client for the requested companion appended to `clients` regardless.
   */
  twostate predicate Joined(s: Server, h: NetworkHandler, data: seq<byte>, g: Shared)
    reads s, h, g
  {
    && JoinReadable(data)
    && var reasons := Rejections(|old(g.clients)|, g.maxClients, JoinCompanion(data) in g.companions);
       var fd := FdOf(old(s.sockets), h.clientId);
       && h.renderClient != null && fresh(h.renderClient)
       && h.renderClient.companion == JoinCompanion(data)
       && s.nextId == old(s.nextId)
       && (reasons == [] ==>
             && s.handlers == old(s.handlers) && s.sockets == old(s.sockets)
             && s.wire == old(s.wire) && s.closed == old(s.closed)
             && g.clients == old(g.clients) + [h.renderClient])
       && (|reasons| == 1 ==>
             && s.handlers == old(s.handlers) - {h.clientId}
             && s.sockets == old(s.sockets) - {h.clientId}
             && s.wire == old(s.wire) + DisconnectWrites(fd, reasons[0])
             && s.closed == old(s.closed) + [fd]
             && g.clients == Departed(old(g.clients), old(h.renderClient)) + [h.renderClient])
  }

  /** The effect of `handlePacket`: a Join is acted upon, every other type is ignored. */
  twostate predicate Handled(s: Server, h: NetworkHandler, kind: u32, data: seq<byte>, g: Shared)
    reads s, h, g
  {
    if kind == JoinCode then Joined(s, h, data, g) else Untouched(s, h, g)
  }

  // ---------------------------------------------------------------------------
  // network_handler

  class NetworkHandler {
    const clientId: ClientId
    const name: seq<byte>
    const server: Server
    /** m_renderClient: null until a Join arrives. */
    var renderClient: RenderClient?

    constructor (clientId: ClientId, name: seq<byte>, server: Server)
      ensures this.clientId == clientId && this.name == name && this.server == server
      ensures renderClient == null
    {
      this.clientId := clientId;
      this.name := name;
      this.server := server;
      renderClient := null;
    }

    /** This handler is the one the server holds for its id. */
    ghost predicate Registered()
      reads server
    {
      clientId in server.handlers && server.handlers[clientId] == this
    }

    /** `send`: forwards to the server for this client's id. */
    method Send(kind: u32, data: seq<byte>)
      requires |data| < 0x1_0000_0000_0000_0000
      modifies server
      ensures server.sockets == old(server.sockets)[clientId := FdOf(old(server.sockets), clientId)]
      ensures server.wire == old(server.wire) + SendWrites(FdOf(old(server.sockets), clientId), kind, data)
      ensures server.handlers == old(server.handlers) && server.nextId == old(server.nextId)
      ensures server.closed == old(server.closed)
    {
      server.Send(clientId, kind, data);
    }

    /** `disconnect`: a 4-byte Disconnect packet with the reason, then the server drops this client. */
    method Disconnect(reason: DisconnectReason, g: Shared)
      requires server.Valid() && Registered()
      modifies server, g
      ensures server.Valid()
      ensures server.wire == old(server.wire) + DisconnectWrites(FdOf(old(server.sockets), clientId), reason)
      ensures server.handlers == old(server.handlers) - {clientId}
      ensures server.sockets == old(server.sockets) - {clientId}
      ensures server.closed == old(server.closed) + [FdOf(old(server.sockets), clientId)]
      ensures server.nextId == old(server.nextId)
      ensures g.clients == Departed(old(g.clients), renderClient)
    {
      Send(ClientboundCode(Packets.Disconnect), EncodeDisconnect(reason));
      server.Disconnect(clientId, g);
    }

    /** `handleDisconnect`: take this client's render client out of `clients`. */
    method HandleDisconnect(g: Shared)
      modifies g
      ensures g.clients == Departed(old(g.clients), renderClient)
    {
      if renderClient != null {
        g.clients := RemoveFirst<RenderClient>(g.clients, renderClient);
      }
    }

    /**
     * The two admission checks of a Join, each independent of the other: too
     * many render clients, then an unknown companion. Each failed check
     * disconnects this client.
     */
    method CheckAdmission(companion: seq<byte>, g: Shared)
      requires server.Valid() && Registered()
      requires |Rejections(|g.clients|, g.maxClients, companion in g.companions)| <= 1
      modifies server, g
      ensures server.Valid() && server.nextId == old(server.nextId)
      ensures var reasons := Rejections(|old(g.clients)|, g.maxClients, companion in g.companions);
              var fd := FdOf(old(server.sockets), clientId);
              && (reasons == [] ==>
                    && server.handlers == old(server.handlers) && server.sockets == old(server.sockets)
                    && server.wire == old(server.wire) && server.closed == old(server.closed)
                    && g.clients == old(g.clients))
              && (|reasons| == 1 ==>
                    && server.handlers == old(server.handlers) - {clientId}
                    && server.sockets == old(server.sockets) - {clientId}
                    && server.wire == old(server.wire) + DisconnectWrites(fd, reasons[0])
                    && server.closed == old(server.closed) + [fd]
                    && g.clients == Departed(old(g.clients), renderClient))
    {
      if |g.clients| >= g.maxClients {
        Disconnect(TooManyClients, g);
      }
      if companion !in g.companions {
        Disconnect(UnknownCompanion, g);
      }
    }

    /** A new render client for companion becomes this handler's and is appended to `clients`. */
    method AddRenderClient(companion: seq<byte>, g: Shared)
      modifies this, g
      ensures renderClient != null && fresh(renderClient) && renderClient.companion == companion
      ensures g.clients == old(g.clients) + [renderClient]
    {
      var rc := new RenderClient(companion);
      renderClient := rc;
      g.clients := g.clients + [rc];
    }

    /** The Join branch of `handlePacket`: admission checks, then the render client. */
    method HandleJoin(data: seq<byte>, g: Shared)
      requires server.Valid() && Registered()
      requires Admissible(JoinCode, data, |g.clients|, g.maxClients, g.companions)
      modifies this, server, g
      ensures server.Valid()
      ensures Joined(server, this, data, g)
    {
      var companion := JoinCompanion(data);
      CheckAdmission(companion, g);
      AddRenderClient(companion, g);
    }

    /** `handlePacket`: only Join is acted upon. */
    method HandlePacket(kind: u32, data: seq<byte>, g: Shared)
      requires server.Valid() && Registered()
      requires Admissible(kind, data, |g.clients|, g.maxClients, g.companions)
      modifies this, server, g
      ensures server.Valid()
      ensures kind != JoinCode ==> Untouched(server, this, g)
      ensures kind == JoinCode ==> Joined(server, this, data, g)
    {
      if kind == JoinCode {
        HandleJoin(data, g);
      }
    }
  }

  // ---------------------------------------------------------------------------
  // server / basic_server

  class Server {
    /** nextClientID: the id the next accepted client gets. */
    var nextId: ClientId
    /** m_clientHandlers */
    var handlers: map<ClientId, NetworkHandler>
    /** m_clientSockets */
    var sockets: map<ClientId, int>
    /** Every ::send call made, in order. */
    var wire: seq<Write>
    /** Every close() call made, in order. */
    var closed: seq<int>

    /** Ids are handed out from 1 upwards and every handler knows its id and its server. */
    ghost predicate Valid()
      reads this
    {
      && nextId >= 1
      && forall id :: id in handlers ==>
           1 <= id < nextId && handlers[id].clientId == id && handlers[id].server == this
    }

    /** The registry part of the constructor; the listening socket and its thread are not modelled. */
    constructor ()
      ensures Valid() && nextId == 1
      ensures handlers == map[] && sockets == map[] && wire == [] && closed == []
    {
      nextId := 1;
      handlers := map[];
      sockets := map[];
      wire := [];
      closed := [];
    }

    /** `nextClient`: hand out the current id, then register a fresh handler under it. */
    method NextClient(name: seq<byte>) returns (id: ClientId)
      requires Valid() && nextId < IntMax
      modifies this
      ensures Valid()
      ensures id == old(nextId) && nextId == old(nextId) + 1
      ensures id !in old(handlers) && id in handlers
      ensures handlers == old(handlers)[id := handlers[id]]
      ensures fresh(handlers[id]) && handlers[id].name == name && handlers[id].renderClient == null
      ensures sockets == old(sockets) && wire == old(wire) && closed == old(closed)
    {
      id := nextId;
      nextId := nextId + 1;
      var h := new NetworkHandler(id, name, this);
      handlers := handlers[id := h];
    }

    /** `send`: the header {type, size}, then exactly the payload, on the client's descriptor. */
    method Send(id: ClientId, kind: u32, data: seq<byte>)
      requires |data| < 0x1_0000_0000_0000_0000
      modifies this
      ensures sockets == old(sockets)[id := FdOf(old(sockets), id)]
      ensures wire == old(wire) + SendWrites(FdOf(old(sockets), id), kind, data)
      ensures handlers == old(handlers) && nextId == old(nextId) && closed == old(closed)
    {
      var fd := FdOf(sockets, id);
      sockets := sockets[id := fd];
      wire := wire + [Write(fd, EncodeHeader(Header(kind, |data|)))];
      wire := wire + [Write(fd, data)];
    }

    /** `handleData`: hand the packet to the client's handler. */
    method HandleData(id: ClientId, kind: u32, data: seq<byte>, g: Shared)
      requires Valid() && id in handlers
      requires Admissible(kind, data, |g.clients|, g.maxClients, g.companions)
      modifies this, g, handlers[id]
      ensures Valid()
      ensures kind != JoinCode ==> Untouched(this, old(handlers[id]), g)
      ensures kind == JoinCode ==> Joined(this, old(handlers[id]), data, g)
    {
      handlers[id].HandlePacket(kind, data, g);
    }

    /** `handleDisconnect`: the handler cleans up, then exactly its entry leaves the registry. */
    method HandleDisconnect(id: ClientId, g: Shared)
      requires id in handlers
      modifies this, g
      ensures handlers == old(handlers) - {id}
      ensures g.clients == Departed(old(g.clients), old(handlers[id].renderClient))
      ensures nextId == old(nextId) && sockets == old(sockets)
      ensures wire == old(wire) && closed == old(closed)
    {
      handlers[id].HandleDisconnect(g);
      handlers := handlers - {id};
    }

    /** `disconnect`: tear the handler down, close the socket, forget it. */
    method Disconnect(id: ClientId, g: Shared)
      requires id in handlers
      modifies this, g
      ensures handlers == old(handlers) - {id}
      ensures sockets == old(sockets) - {id}
      ensures closed == old(closed) + [FdOf(old(sockets), id)]
      ensures g.clients == Departed(old(g.clients), old(handlers[id].renderClient))
      ensures nextId == old(nextId) && wire == old(wire)
    {
      HandleDisconnect(id, g);
      var fd := FdOf(sockets, id);
      closed := closed + [fd];
      sockets := sockets - {id};
    }

    /**
     * One iteration of `receivingThread` for client id reading descriptor fd;
     * stop is true when the thread returns.
     */
    method ReceiveStep(id: ClientId, fd: int, r: Received, g: Shared) returns (stop: bool)
      requires Valid() && WellFormed(r)
      requires !Classify(r).Ignore? ==> id in handlers
      requires Classify(r).Dispatch? ==>
                 Admissible(Classify(r).kind, Classify(r).payload, |g.clients|, g.maxClients, g.companions)
      modifies this, g, if id in handlers then {handlers[id]} else {}
      ensures Valid()
      ensures stop <==> Classify(r).Drop?
      ensures Classify(r).Ignore? ==>
                && nextId == old(nextId) && handlers == old(handlers) && sockets == old(sockets)
                && wire == old(wire) && closed == old(closed) && g.clients == old(g.clients)
                && unchanged(old(handlers.Values))
      ensures Classify(r).Drop? ==>
                && handlers == old(handlers) - {id} && sockets == old(sockets) - {id}
                && closed == old(closed) + [fd] && wire == old(wire) && nextId == old(nextId)
                && g.clients == Departed(old(g.clients), old(handlers[id].renderClient))
      ensures Classify(r).Dispatch? ==>
                Handled(this, old(handlers[id]), Classify(r).kind, Classify(r).payload, g)
    {
      var step := Classify(r);
      match step
      case Dispatch(kind, payload) =>
        HandleData(id, kind, payload, g);
        stop := false;
      case Drop =>
        HandleDisconnect(id, g);
        closed := closed + [fd];
        sockets := sockets - {id};
        stop := true;
      case Ignore =>
        stop := false;
    }
  }
}
