/**
 * The game-controller client (clients/basic): how it frames packets on its
 * socket, packs its Join packet, picks a controller among the attached
 * joysticks, folds axis events into its raw stick state, and which packets a
 * tick of its sending thread and a button press put on the wire.
 *
 * The socket is modelled by the record of ::send calls made on it. SDL is
 * modelled by what it reports (the joystick list, the events); the float
 * payloads of Move and Rotate are computed with trigonometry the model does
 * not cover, so they enter as opaque 32-bit patterns.
 */
module Controller {
  import opened Bytes
  import opened Wrappers
  import opened Packets

  // ---------------------------------------------------------------------------
  // Packets a client emits

  /** The two ::send calls of `sendPacket` for packet p. */
  function PacketWrites(fd: int, p: ServerPacket): (w: seq<Write>)
    ensures |w| == 2
  {
    SendWrites(fd, ServerboundCode(KindOf(p)), EncodePayload(p))
  }

  /** The ::send calls that put the packets ps on descriptor fd, one framed packet after another. */
  function Emit(fd: int, ps: seq<ServerPacket>): (w: seq<Write>)
    ensures |w| == 2 * |ps|
  {
    if ps == [] then [] else PacketWrites(fd, ps[0]) + Emit(fd, ps[1..])
  }

  /** Sending ps then qs puts on the wire the writes of ps followed by those of qs. */
  lemma {:induction false} EmitAppend(fd: int, ps: seq<ServerPacket>, qs: seq<ServerPacket>)
    ensures Emit(fd, ps + qs) == Emit(fd, ps) + Emit(fd, qs)
    decreases |ps|
  {
    if ps == [] {
      assert ps + qs == qs;
    } else {
      assert (ps + qs)[0] == ps[0] && (ps + qs)[1..] == ps[1..] + qs;
      EmitAppend(fd, ps[1..], qs);
      var head := PacketWrites(fd, ps[0]);
      assert head + (Emit(fd, ps[1..]) + Emit(fd, qs)) == (head + Emit(fd, ps[1..])) + Emit(fd, qs);
    }
  }

  /** Sending one packet makes exactly its two framed writes. */
  lemma EmitOne(fd: int, p: ServerPacket)
    ensures Emit(fd, [p]) == SendWrites(fd, ServerboundCode(KindOf(p)), EncodePayload(p))
  {
    assert [p][1..] == [];
  }

  /** The client's TCP connection to the server. */
  class Connection {
    const socket: int
    /** Every ::send call made on the socket, in order. */
    var wire: seq<Write>

    constructor (socket: int)
      ensures this.socket == socket && wire == []
    {
      this.socket := socket;
      wire := [];
    }

    /** `sendPacket`: the header {type, size}, then exactly size payload bytes. */
    method SendPacket(kind: ServerboundType, data: seq<byte>)
      requires |data| < 0x1_0000_0000_0000_0000
      modifies this
      ensures wire == old(wire) + SendWrites(socket, ServerboundCode(kind), data)
    {
      wire := wire + [Write(socket, EncodeHeader(Header(ServerboundCode(kind), |data|)))];
      wire := wire + [Write(socket, data)];
    }

    /** Send one packet of the protocol, framed as `sendPacket` frames it. */
    method Send(p: ServerPacket)
      modifies this
      ensures wire == old(wire) + Emit(socket, [p])
    {
      SendPacket(KindOf(p), EncodePayload(p));
    }

    /** Send the Join packet built from the player and companion names. */
    method SendJoin(playerName: seq<byte>, companion: seq<byte>)
      modifies this
      ensures wire == old(wire) + Emit(socket, [JoinP(PackJoin(playerName, companion))])
    {
      Send(JoinP(PackJoin(playerName, companion)));
    }

    /**
     * One pass of the sending thread over the raw stick state. move is the
     * Move payload and yaw the accumulated yaw the pass computes in floating
     * point; only whether and in which order packets go out is modelled.
     */
    method Tick(raw: Raw, move: MovePacket, yaw: F32)
      modifies this
      ensures wire == old(wire) + Emit(socket, TickPackets(raw, move, yaw))
    {
      if raw.dx != 0 || raw.dy != 0 || raw.dz != 0 {
        Send(MoveP(move));
      }
      if raw.rx != 0 || raw.ry != 0 {
        Send(RotateP(RotatePacket(yaw)));
      }
      assert Emit(socket, TickPackets(raw, move, yaw)) ==
             (if Moving(raw) then Emit(socket, [MoveP(move)]) else [])
             + (if Rotating(raw) then Emit(socket, [RotateP(RotatePacket(yaw))]) else []);
    }

    /** SDL_CONTROLLERBUTTONDOWN: originCode is the byte the client sends as TeleportTarget::Origin. */
    method ButtonDown(button: u8, originCode: byte)
      modifies this
      ensures wire == old(wire) + Emit(socket, ButtonPackets(button, originCode))
    {
      if button == ButtonBack {
        Send(TeleportP(TeleportPacket(originCode)));
      }
    }
  }

  // ---------------------------------------------------------------------------
  // The Join packet

  /** `JoinPacket join{}` followed by strncpy of both names into the 64-byte fields. */
  function PackJoin(playerName: seq<byte>, companion: seq<byte>): JoinPacket
  {
    JoinPacket(Strncpy(playerName, FieldSize), Strncpy(companion, FieldSize))
  }

  /** Names shorter than a field arrive NUL-terminated and the server reads them back unchanged. */
  lemma PackJoinRoundTrip(playerName: seq<byte>, companion: seq<byte>)
    requires 0 !in playerName && |playerName| < FieldSize
    requires 0 !in companion && |companion| < FieldSize
    ensures var data := EncodeJoin(PackJoin(playerName, companion));
            && |data| == PayloadSize(Join)
            && JoinReadable(data)
            && JoinName(data) == playerName
            && JoinCompanion(data) == companion
  {
    var p := PackJoin(playerName, companion);
    var data := EncodeJoin(p);
    StrncpyRoundTrip(playerName, FieldSize);
    StrncpyRoundTrip(companion, FieldSize);
    CStringOfPlain(playerName);
    CStringOfPlain(companion);
    assert data[..FieldSize] == p.name && data[FieldSize..128] == p.companion;
    assert p.name[|playerName|] == 0;
    assert p.companion[|companion|] == 0;
  }

  /**
   * A name of 64 characters or more fills its field with no terminator: the
   * field holds its first 64 characters, and the server's C-string read of
   * that field runs past it, which is undefined.
   */
  lemma PackJoinTruncates(playerName: seq<byte>, companion: seq<byte>)
    requires |CString(playerName)| >= FieldSize || |CString(companion)| >= FieldSize
    ensures var data := EncodeJoin(PackJoin(playerName, companion));
            && (|CString(playerName)| >= FieldSize ==> data[..FieldSize] == CString(playerName)[..FieldSize])
            && (|CString(companion)| >= FieldSize ==> data[FieldSize..] == CString(companion)[..FieldSize])
            && !JoinReadable(data)
  {
    var p := PackJoin(playerName, companion);
    var data := EncodeJoin(p);
    assert data[FieldSize..128] == data[FieldSize..];
  }

  // ---------------------------------------------------------------------------
  // Controller selection

  /** What SDL reports for one attached joystick. */
  datatype Joystick = Joystick(isGameController: bool, controllerName: string, joystickName: string)

  /** The name the selection compares: the game-controller name when SDL knows it as one. */
  function NameOf(j: Joystick): string
  {
    if j.isGameController then j.controllerName else j.joystickName
  }

  /** Does j pass the `--controller` filter (none given: every joystick passes)? */
  predicate Matches(j: Joystick, filter: Option<string>)
  {
    filter.None? || NameOf(j) == filter.value
  }

  /** Does j pass the filter and, when gameOnly, is it a game controller? */
  predicate Candidate(j: Joystick, filter: Option<string>, gameOnly: bool)
  {
    Matches(j, filter) && (gameOnly ==> j.isGameController)
  }

  /** The index of the first candidate, or -1 when there is none. */
  function FirstCandidate(js: seq<Joystick>, filter: Option<string>, gameOnly: bool): (r: int)
    ensures -1 <= r < |js|
  {
    if js == [] then -1
    else
      var r := FirstCandidate(js[..|js| - 1], filter, gameOnly);
      if r != -1 then r
      else if Candidate(js[|js| - 1], filter, gameOnly) then |js| - 1
      else -1
  }

  lemma FirstCandidateStep(js: seq<Joystick>, filter: Option<string>, gameOnly: bool, i: nat)
    requires i < |js|
    ensures var r := FirstCandidate(js[..i], filter, gameOnly);
            FirstCandidate(js[..i + 1], filter, gameOnly) ==
              if r != -1 then r else if Candidate(js[i], filter, gameOnly) then i else -1
  {
    assert js[..i + 1][..i] == js[..i];
  }

  /** FirstCandidate is the least index holding a candidate, and -1 exactly when none does. */
  lemma {:induction false} FirstCandidateLeast(js: seq<Joystick>, filter: Option<string>, gameOnly: bool)
    ensures var r := FirstCandidate(js, filter, gameOnly);
            && (r != -1 ==> Candidate(js[r], filter, gameOnly))
            && (forall k :: 0 <= k < |js| && (r == -1 || k < r) ==> !Candidate(js[k], filter, gameOnly))
  {
    if js != [] {
      var init := js[..|js| - 1];
      FirstCandidateLeast(init, filter, gameOnly);
      forall k | 0 <= k < |init|
        ensures init[k] == js[k]
      {
      }
    }
  }

  /**
   * The pick the selection loop was evidently meant to make: the first
   * matching game controller, and only when there is none the first matching
   * joystick.
   */
  function IntendedPick(js: seq<Joystick>, filter: Option<string>): (r: int)
    ensures -1 <= r < |js|
  {
    var g := FirstCandidate(js, filter, true);
    if g != -1 then g else FirstCandidate(js, filter, false)
  }

  /**
   * The selection loop as written. `gameController` is set on every pick, so
   * a later game controller never displaces a plain joystick picked first,
   * and the flag only says whether anything was picked: the "only game
   * controllers are supported" error can never be reached.
   */
  method SelectController(js: seq<Joystick>, filter: Option<string>) returns (index: int, gameController: bool)
    ensures index == FirstCandidate(js, filter, false)
    ensures gameController <==> index != -1
  {
    index := -1;
    gameController := false;
    for i := 0 to |js|
      invariant index == FirstCandidate(js[..i], filter, false)
      invariant gameController <==> index != -1
    {
      FirstCandidateStep(js, filter, false, i);
      var controller := js[i].isGameController;
      if Matches(js[i], filter) {
        if (controller && !gameController) || index == -1 {
          index := i;
          gameController := true;
        }
      }
    }
    assert js[..|js|] == js;
  }

  /** The selection loop with the flag recording what was picked, as the preference clause needs. */
  method SelectControllerIntended(js: seq<Joystick>, filter: Option<string>) returns (index: int, gameController: bool)
    ensures index == IntendedPick(js, filter)
    ensures gameController <==> index != -1 && js[index].isGameController
  {
    index := -1;
    gameController := false;
    for i := 0 to |js|
      invariant index == IntendedPick(js[..i], filter)
      invariant gameController <==> FirstCandidate(js[..i], filter, true) != -1
    {
      FirstCandidateStep(js, filter, false, i);
      FirstCandidateStep(js, filter, true, i);
      var controller := js[i].isGameController;
      if Matches(js[i], filter) {
        if (controller && !gameController) || index == -1 {
          index := i;
          gameController := controller;
        }
      }
    }
    assert js[..|js|] == js;
    FirstCandidateLeast(js, filter, true);
    FirstCandidateLeast(js, filter, false);
  }

  /** With no filter the first joystick is picked; with one, -1 exactly when no name matches. */
  lemma SelectionRule(js: seq<Joystick>, filter: Option<string>)
    ensures filter.None? && |js| > 0 ==> FirstCandidate(js, filter, false) == 0
    ensures FirstCandidate(js, filter, false) == -1 <==> forall k :: 0 <= k < |js| ==> !Matches(js[k], filter)
  {
    FirstCandidateLeast(js, filter, false);
    if filter.None? && |js| > 0 {
      assert Candidate(js[0], filter, false);
    }
  }

  /**
   * Whenever the first match is a plain joystick and a game controller also
   * matches, the loop as written keeps the plain joystick and reports it as a
   * game controller, while the intended rule picks a game controller.
   */
  lemma SelectionIgnoresGameControllers(js: seq<Joystick>, filter: Option<string>, g: nat)
    requires g < |js| && Matches(js[g], filter) && js[g].isGameController
    requires FirstCandidate(js, filter, false) != -1
    requires !js[FirstCandidate(js, filter, false)].isGameController
    ensures IntendedPick(js, filter) != FirstCandidate(js, filter, false)
    ensures js[IntendedPick(js, filter)].isGameController
  {
    FirstCandidateLeast(js, filter, true);
    assert Candidate(js[g], filter, true);
  }

  /** One joystick then one game controller, no `--controller`: as written picks index 0, intended index 1. */
  lemma SelectionCounterexample()
    ensures var js := [Joystick(false, "", "stick"), Joystick(true, "pad", "")];
            && FirstCandidate(js, None, false) == 0 && !js[0].isGameController
            && IntendedPick(js, None) == 1
  {
    var js := [Joystick(false, "", "stick"), Joystick(true, "pad", "")];
    SelectionRule(js, None);
    SelectionIgnoresGameControllers(js, None, 1);
  }

  // ---------------------------------------------------------------------------
  // Raw stick state

  /** int16_t */
  type i16 = x: int | -0x8000 <= x < 0x8000

  /** The SDL_GameControllerAxis codes. */
  const AxisLeftX: u8 := 0
  const AxisLeftY: u8 := 1
  const AxisRightX: u8 := 2
  const AxisRightY: u8 := 3
  const AxisTriggerLeft: u8 := 4
  const AxisTriggerRight: u8 := 5

  /** SDL_CONTROLLER_BUTTON_BACK */
  const ButtonBack: u8 := 4

  /** `-value` stored back into an int16_t: -32768 has no positive counterpart and wraps to itself. */
  function Negate16(v: i16): (r: i16)
    ensures v != -0x8000 ==> r == -v
    ensures v == -0x8000 ==> r == v
    ensures (r as int + v as int) % 0x1_0000 == 0
  {
    if v == -0x8000 then v else -v
  }

  /** The fields of rawData. */
  datatype RawField = DX | DY | DZ | RX | RY

  /** A snapshot of rawData. */
  datatype Raw = Raw(dx: i16, dy: i16, dz: i16, rx: i16, ry: i16)

  function Get(r: Raw, f: RawField): i16
  {
    match f
    case DX => r.dx
    case DY => r.dy
    case DZ => r.dz
    case RX => r.rx
    case RY => r.ry
  }

  /** The field an axis event writes, if any. */
  function AxisTarget(axis: u8): (f: Option<RawField>)
    ensures f.Some? <==> axis <= AxisTriggerRight
  {
    if axis == AxisLeftX then Some(DX)
    else if axis == AxisLeftY then Some(DY)
    else if axis == AxisTriggerLeft || axis == AxisTriggerRight then Some(DZ)
    else if axis == AxisRightX then Some(RX)
    else if axis == AxisRightY then Some(RY)
    else None
  }

  /** The value an axis event writes: the left trigger pushes dz the other way. */
  function AxisValue(axis: u8, value: i16): i16
  {
    if axis == AxisTriggerLeft then Negate16(value) else value
  }

  /** The stick state after one SDL_CONTROLLERAXISMOTION event. */
  function AxisUpdate(r: Raw, axis: u8, value: i16): Raw
  {
    match AxisTarget(axis)
    case None => r
    case Some(DX) => r.(dx := AxisValue(axis, value))
    case Some(DY) => r.(dy := AxisValue(axis, value))
    case Some(DZ) => r.(dz := AxisValue(axis, value))
    case Some(RX) => r.(rx := AxisValue(axis, value))
    case Some(RY) => r.(ry := AxisValue(axis, value))
  }

  /** An axis event sets exactly its own field and leaves every other field as it was. */
  lemma AxisUpdateFrame(r: Raw, axis: u8, value: i16, f: RawField)
    ensures Get(AxisUpdate(r, axis, value), f) ==
              if AxisTarget(axis) == Some(f) then AxisValue(axis, value) else Get(r, f)
  {
  }

  /** The axis-to-field table: sticks to dx, dy, rx, ry; both triggers to dz; other axes to nothing. */
  lemma AxisTable(value: i16)
    ensures AxisTarget(AxisLeftX) == Some(DX) && AxisTarget(AxisLeftY) == Some(DY)
    ensures AxisTarget(AxisRightX) == Some(RX) && AxisTarget(AxisRightY) == Some(RY)
    ensures AxisTarget(AxisTriggerLeft) == Some(DZ) && AxisTarget(AxisTriggerRight) == Some(DZ)
    ensures AxisValue(AxisTriggerLeft, value) == Negate16(value)
    ensures forall axis: u8 :: axis != AxisTriggerLeft ==> AxisValue(axis, value) == value
  {
  }

  /** A later event on an axis overwrites an earlier one: only the latest value counts. */
  lemma AxisLastWins(r: Raw, axis: u8, v: i16, w: i16)
    ensures AxisUpdate(AxisUpdate(r, axis, v), axis, w) == AxisUpdate(r, axis, w)
  {
  }

  /** rawData, the stick state the event loop writes and the sending thread reads. */
  class RawData {
    var dx: i16
    var dy: i16
    var dz: i16
    var rx: i16
    var ry: i16

    function State(): Raw
      reads this
    {
      Raw(dx, dy, dz, rx, ry)
    }

    constructor ()
      ensures State() == Raw(0, 0, 0, 0, 0)
    {
      dx, dy, dz, rx, ry := 0, 0, 0, 0, 0;
    }

    /** The SDL_CONTROLLERAXISMOTION case of the event loop. */
    method ApplyAxis(axis: u8, value: i16)
      modifies this
      ensures State() == AxisUpdate(old(State()), axis, value)
    {
      if axis == AxisLeftX {
        dx := value;
      }
      if axis == AxisLeftY {
        dy := value;
      }
      if axis == AxisTriggerLeft {
        dz := Negate16(value);
      }
      if axis == AxisTriggerRight {
        dz := value;
      }
      if axis == AxisRightX {
        rx := value;
      }
      if axis == AxisRightY {
        ry := value;
      }
    }
  }

  // ---------------------------------------------------------------------------
  // What a tick and a button send

  predicate Moving(r: Raw)
  {
    r.dx != 0 || r.dy != 0 || r.dz != 0
  }

  predicate Rotating(r: Raw)
  {
    r.rx != 0 || r.ry != 0
  }

  /** The packets one pass of the sending thread emits: Move while a stick is off-centre, then Rotate while the right stick is. */
  function TickPackets(r: Raw, move: MovePacket, yaw: F32): (ps: seq<ServerPacket>)
    ensures |ps| == (if Moving(r) then 1 else 0) + (if Rotating(r) then 1 else 0)
    ensures Moving(r) ==> ps[0] == MoveP(move)
    ensures Rotating(r) ==> ps[|ps| - 1] == RotateP(RotatePacket(yaw))
    ensures forall p <- ps :: p.MoveP? || p.RotateP?
  {
    (if Moving(r) then [MoveP(move)] else []) + (if Rotating(r) then [RotateP(RotatePacket(yaw))] else [])
  }

  /** A centred controller sends nothing. */
  lemma IdleTick(move: MovePacket, yaw: F32)
    ensures TickPackets(Raw(0, 0, 0, 0, 0), move, yaw) == []
  {
  }

  /** The packets a button press emits: a Teleport for BACK, nothing for any other button. */
  function ButtonPackets(button: u8, originCode: byte): (ps: seq<ServerPacket>)
    ensures |ps| == 1 <==> button == ButtonBack
    ensures |ps| <= 1
    ensures |ps| == 1 ==> ps[0] == TeleportP(TeleportPacket(originCode))
  {
    if button == ButtonBack then [TeleportP(TeleportPacket(originCode))] else []
  }

  /** The Teleport a BACK press sends is a header announcing 1 byte, then the target byte. */
  lemma BackSendsTeleport(fd: int, originCode: byte)
    ensures var w := Emit(fd, ButtonPackets(ButtonBack, originCode));
            && |w| == 2
            && w[0].bytes + w[1].bytes == Frame(ServerboundCode(Teleport), [originCode])
            && DecodeHeader(w[0].bytes).size == PayloadSize(Teleport) == 1
  {
    assert PacketWrites(fd, TeleportP(TeleportPacket(originCode))) == SendWrites(fd, ServerboundCode(Teleport), [originCode]);
    SendWritesFrame(fd, ServerboundCode(Teleport), [originCode]);
    HeaderRoundTrip(Header(ServerboundCode(Teleport), 1), EncodeHeader(Header(ServerboundCode(Teleport), 1)));
  }

  // ---------------------------------------------------------------------------
  // The event loop

  /** The SDL events the loop distinguishes. */
  datatype Event =
    | ButtonDownEvent(button: u8)
    | ButtonUpEvent(button: u8)
    | AxisMotion(axis: u8, value: i16)
    | QuitEvent
    | OtherEvent

  /**
   * One iteration of the event loop; done is true when the loop ends. Rumble
   * and console output are not modelled.
   */
  method HandleEvent(conn: Connection, raw: RawData, e: Event, originCode: byte) returns (done: bool)
    modifies conn, raw
    ensures done <==> e.QuitEvent?
    ensures conn.wire == old(conn.wire) + (if e.ButtonDownEvent? then Emit(conn.socket, ButtonPackets(e.button, originCode)) else [])
    ensures raw.State() == if e.AxisMotion? then AxisUpdate(old(raw.State()), e.axis, e.value) else old(raw.State())
  {
    done := false;
    match e
    case ButtonDownEvent(button) =>
      conn.ButtonDown(button, originCode);
    case ButtonUpEvent(_) =>
    case AxisMotion(axis, value) =>
      raw.ApplyAxis(axis, value);
    case QuitEvent =>
      done := true;
    case OtherEvent =>
  }
}
