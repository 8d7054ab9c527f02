# cheeky-companion: the presence protocol, modelled in Dafny

cheeky-companion draws other players' "companions" into a game through a
Vulkan layer. A small TCP protocol carries their presence. Clients such as the
basic game-controller client send a Join, then movement. The layer's server
keeps a registry of connected clients. A per-client handler admits or rejects
each Join and registers a render client for the requested companion. Each
companion is built from a JSON catalog entry and loads its mesh from a
Wavefront OBJ file.

This project models the sequential logic of that protocol:

- `Packets` (packets.dfy): the packed wire format. It covers the header
  `{uint32 type; size_t size}`, every serverbound payload, and the clientbound
  Disconnect. It has byte encoders and decoders with round-trip and size
  lemmas. `Bytes` (bytes.dfy) supplies the little-endian integers, C strings
  and `strncpy`.
- `Net` (net.dfy): the server's client registry (`server`/`basic_server`),
  one iteration of a receiving thread, and `network_handler`. The handler
  covers Join admission and render-client registration. The shared
  `clients` list and the companion catalog are fields of a `Shared` object.
  Sockets are descriptors, and every `::send` and `close` call is recorded.
- `Companion` (companion.dfy): the constructor's mapping from a catalog entry
  to the model and texture types and file paths, and `hasTexture`.
- `ObjLoader` (objloader.dfy): `load_obj`. The line loop collects attributes
  and reads `f` tokens `v/vt/vn` with the semantics of `operator>>` and
  `ignore`. The de-duplication loop then builds the vertex list, the table of
  distinct index triples, and the 16-bit index buffer. `Seqs` (seqs.dfy)
  holds `std::find`, first-occurrence erase, and the distinct-in-order list
  the loop builds.
- `Controller` (controller.dfy): the basic client. It covers `sendPacket`,
  Join packing, controller selection, the axis-to-raw-state mapping, and
  which packets a tick or a button press sends.

The model fixes two things the code leaves open:

- Host byte order is little-endian and `size_t` is 8 bytes.
- Floats are opaque 32-bit patterns. Vertex attributes are a type parameter.

Where the code's behaviour is undefined, the model makes that a
precondition or an explicit "indeterminate" value. Each such case is listed
below.

## Model

| member | source | states |
|---|---|---|
| Bytes.DecodeEncodeLE | include/net/packets.hpp:22-26 | decoding the n-byte little-endian encoding of x gives back x |
| Bytes.EncodeDecodeLE | include/net/packets.hpp:22-26 | every byte string is the encoding of the number it decodes to |
| Bytes.U32RoundTrip | include/net/packets.hpp:12 | a uint32 encodes to 4 bytes and back, and 4 bytes decode and re-encode unchanged |
| Bytes.U64RoundTrip | include/net/packets.hpp:25 | a size_t encodes to 8 bytes and back, and 8 bytes decode and re-encode unchanged |
| Bytes.CString | src/net/handler.cpp:45-46 | a char array read as a C string gives its prefix before the first NUL; the prefix holds no NUL and is followed by NUL when shorter than the array |
| Bytes.Strncpy | clients/basic/src/main.cpp:170-171 | strncpy gives exactly n bytes: the first n characters of the string's C string when it has n or more (then with no NUL), otherwise the string followed by NULs up to n |
| Bytes.StrncpyRoundTrip | clients/basic/src/main.cpp:170-171 | a NUL-free string shorter than the buffer reads back unchanged as a C string |
| Bytes.CStringOfPlain | src/net/handler.cpp:45-46 | a NUL-free string is its own C string |
| Bytes.CStringOfTerminated | src/net/handler.cpp:45-46 | a buffer holding c then a NUL reads as c |
| Packets.EncodeHeader | include/net/packets.hpp:22-26 | the packed header is 4 + 8 = 12 bytes: the type in bytes 0..3, the size in bytes 4..11, no padding |
| Packets.EncodeMove | include/net/packets.hpp:39-44 | the packed Move is 12 bytes: dx in bytes 0..3, dy in 4..7, dz in 8..11 |
| Packets.EncodeLook | include/net/packets.hpp:51-55 | the packed Look is 8 bytes: yaw in bytes 0..3, pitch in 4..7 |
| Packets.HeaderRoundTrip | include/net/packets.hpp:22-26 | header encode/decode is a bijection: decoding an encoded header gives it back, and every 12-byte string re-encodes to itself |
| Packets.Frame | include/net/packets.hpp:22-26 | a framed packet is 12 + size bytes; its first 12 decode to {type, size} and the rest is exactly the payload |
| Packets.SendWritesFrame | src/net/server.cpp:80-87 | the two ::send calls go to the same descriptor and together carry exactly one frame: the header, then the payload |
| Packets.ServerboundCode | include/net/packets.hpp:12-20 | the serverbound type codes are below 6 (Join=0 … Teleport=5 in declaration order) |
| Packets.ServerboundFromCode | include/net/packets.hpp:12-20 | a type word names a declared packet type exactly when it is below 6, and then names the type with that code |
| Packets.ServerboundCodeInjective | include/net/packets.hpp:12-20 | the codes are distinct and decode back to their type |
| Packets.TeleportTargetCode | include/net/packets.hpp:57-60 | the only declared teleport target, Player, is 0 |
| Packets.EncodeJoin | include/net/packets.hpp:28-32 | a Join payload is 128 bytes: name in bytes 0..63, companion in bytes 64..127 |
| Packets.EncodePayload | include/net/packets.hpp:28-65 | each payload is exactly sizeof its packed struct: Join 128, Move 12, Rotate 4, Look 8, Teleport 1; Leave has no fields and carries no bytes |
| Packets.DecodePayload | include/net/packets.hpp:28-65 | bytes decode as a payload of a type exactly when their length is that struct's size (none for Leave), and the result has that type |
| Packets.MoveRoundTrip | include/net/packets.hpp:39-44 | dx, dy and dz are each read back from their own offset (0, 4, 8) of the encoding, and Move decodes to itself |
| Packets.LookRoundTrip | include/net/packets.hpp:51-55 | yaw and pitch are each read back from their own offset (0, 4) of the encoding, and Look decodes to itself |
| Packets.PayloadRoundTrip | include/net/packets.hpp:28-65 | every serverbound payload decodes back to itself |
| Packets.PayloadBytesRoundTrip | include/net/packets.hpp:28-65 | every byte string of a payload's size re-encodes to itself |
| Packets.ServerFrameRoundTrip | include/net/packets.hpp:12-65 | a framed serverbound packet's header names its type and exact payload size, and the payload decodes back to the packet |
| Packets.ClientboundCode | include/net/packets.hpp:70-73 | the only clientbound code, Disconnect, is 0 |
| Packets.ReasonCode | include/net/packets.hpp:81-88 | disconnect reasons are coded below 5 (Generic=0 … Kicked=4 in declaration order) |
| Packets.ReasonFromCode | include/net/packets.hpp:81-88 | a reason word names a declared reason exactly when it is below 5, and then names the reason with that code |
| Packets.EncodeDisconnect | include/net/packets.hpp:90-93 | a DisconnectPacket is 4 bytes |
| Packets.DisconnectRoundTrip | include/net/packets.hpp:81-93 | every reason decodes back from its encoding |
| Net.Rejections | src/net/handler.cpp:50-53 | a Join gets TooManyClients iff the list already holds maxClients or more, and UnknownCompanion iff the companion is not in the catalog; the checks are independent and each sends at most one Disconnect, so there are at most two, and when both fire they come as TooManyClients then UnknownCompanion |
| Net.Classify | src/net/server.cpp:129-173 | a full header dispatches once with its type and the bytes received (none when the size is 0); POLLERR, a zero-byte read and the exit signal drop the client; a partial header, an idle poll and a failed recv do nothing |
| Net.Server.constructor | include/net/server.hpp:35 | the id counter starts at 1 with an empty registry |
| Net.Server.NextClient | src/net/server.cpp:24-30 | returns the current counter and increments it; the id was not registered before and now maps to a fresh handler named as given, with no render client; no other entry changes |
| Net.Server.Send | src/net/server.cpp:80-87 | the header {type, size}, then exactly the payload, go to the client's descriptor; operator[] inserts descriptor 0 for an unknown id |
| Net.Server.HandleData | src/net/server.cpp:32-35 | a registered client's handler handles the packet: only a Join changes anything |
| Net.Server.HandleDisconnect | src/net/server.cpp:37-42 | the handler removes its render client from `clients`, then exactly that id leaves the handler map |
| Net.Server.Disconnect | src/net/server.cpp:89-94 | handleDisconnect, then the socket is closed and exactly that id leaves the socket map |
| Net.Server.ReceiveStep | src/net/server.cpp:123-175 | one receive iteration dispatches, drops (handler cleanup, close, erase, thread returns) or leaves everything unchanged, every handler included, as Classify says. Only this client's handler may change, so no other handler's render client is touched |
| Net.NetworkHandler.Send | src/net/handler.cpp:17-20 | forwards to the server under this client's id |
| Net.NetworkHandler.Disconnect | src/net/handler.cpp:22-27 | a Disconnect packet with the reason and a 4-byte payload is sent before the server drops this client |
| Net.NetworkHandler.HandleDisconnect | src/net/handler.cpp:29-37 | the first occurrence of this handler's render client leaves `clients`; the list is unchanged when it is absent or was never created |
| Net.NetworkHandler.CheckAdmission | src/net/handler.cpp:50-53 | each failed admission check sends its Disconnect and tears the client down; with none failing nothing changes |
| Net.NetworkHandler.AddRenderClient | src/net/handler.cpp:55-58 | exactly one new render client for the companion is appended at the end of `clients` |
| Net.NetworkHandler.HandleJoin | src/net/handler.cpp:42-58 | the checks, then a render client for the requested companion appended whether or not a check failed |
| Net.NetworkHandler.HandlePacket | src/net/handler.cpp:39-60 | only a Join is acted upon; any other type leaves the server, the handler and `clients` unchanged |
| Seqs.Find | src/net/handler.cpp:31 | std::find: the index of x, or the length when x is absent |
| Seqs.FindFirst | src/net/handler.cpp:31 | no element before the found index equals x |
| Seqs.RemoveFirstSplices | src/net/handler.cpp:31-33 | erasing the found element keeps the rest in order: the elements before it, then those after it |
| Seqs.RemoveFirstMultiset | src/net/handler.cpp:31-33 | the erase removes exactly one copy of x, if there is one |
| Seqs.DistinctElements | src/companion.cpp:109-116 | the combo table holds exactly the triples that occur |
| Seqs.DistinctNoDuplicates | src/companion.cpp:109-116 | the combo table holds no triple twice |
| Seqs.DistinctInOrder | src/companion.cpp:109-116 | the combo table lists the triples in the order of their first occurrence |
| Companion.TextureTypeNames | src/companion.cpp:30-32 | "none", "png" and "color" select None, Png and Color, and no other string selects any of them |
| Companion.ParseModelType | src/companion.cpp:27 | the model type is Obj exactly when the entry says "obj" |
| Companion.UnderBase | src/companion.cpp:28 | a path under the base is the base, "/", then the name |
| Companion.FromConfig | src/companion.cpp:23-39 | a missing id or model file is an error; otherwise the entry yields the id, the model type, the model file under the base, the texture type, and the matching texture argument |
| Companion.HasTextureFromConfig | src/companion.cpp:442-445 | hasTexture is true iff the texture type is not None, i.e. the entry asks for a png or a colour; a png entry carries its file under the base and a colour entry its colour |
| ObjLoader.ExtractInt | src/companion.cpp:92-96 | `>>` into an int leaves it unwritten exactly when the stream has failed or is at its end |
| ObjLoader.ReadNumber | src/companion.cpp:92-96 | once the sentry passes, `>>` always writes a number and leaves the stream over the same text |
| ObjLoader.ReadNumberNoDigits | src/companion.cpp:92-96 | exactly when no digit follows the optional sign, the number is 0 and the stream fails where the digits would start |
| ObjLoader.ReadNumberValue | src/companion.cpp:92-96 | when a digit follows the optional sign, the whole run of digits is consumed, up to a non-digit or the end. The number is their decimal value, negated after '-', and the stream stays good only before the end |
| ObjLoader.Ignore | src/companion.cpp:93-95 | `ignore(1)` on a good stream before the end skips exactly one character and stays good; at the end of the text it sets eofbit, and a failed stream stays failed, so the next extraction leaves its int unwritten (ExtractInt) |
| ObjLoader.ScanOver | src/companion.cpp:92-96 | the digit loop reads exactly a run of digits and accumulates their decimal value |
| ObjLoader.ExtractAt | src/companion.cpp:92-96 | reading where the digits of p stand gives their value and stops after them, at the end of the text or before a non-digit |
| ObjLoader.ReadCornerSteps | src/companion.cpp:89-98 | when all three ints are written, the corner is each value minus one |
| ObjLoader.CornerOfNumbers | src/companion.cpp:89-98 | a token a/b/c of decimal numbers becomes (a-1, b-1, c-1) |
| ObjLoader.CornerWithoutTexCoord | src/companion.cpp:89-98 | a token a//c leaves the normal unwritten, so the corner holds an indeterminate value |
| ObjLoader.CornerWithBadNormal | src/companion.cpp:89-98 | a token a/b/x whose normal starts with neither a digit nor a sign reads the normal as 0, giving the corner (a-1, b-1, -1) |
| ObjLoader.Corners | src/companion.cpp:83-99 | an f line contributes exactly three corners, one per argument in order |
| ObjLoader.AttrsAppend | src/companion.cpp:60-82 | one more line adds its attribute to the list its keyword names, and to no other list |
| ObjLoader.ParsedCollects | src/companion.cpp:60-101 | positions, texture coordinates and normals are the v, vt and vn attributes in file order, and there are three corners per f line |
| ObjLoader.IgnoredLine | src/companion.cpp:60-101 | a line whose keyword is not v, vt, vn or f changes nothing |
| ObjLoader.ReadFace | src/companion.cpp:87-99 | the corner loop reads the three arguments in order |
| ObjLoader.ParseObj | src/companion.cpp:59-101 | the getline loop yields what parsing the whole file line by line gives |
| ObjLoader.VerticesOfEntries | src/companion.cpp:113-114 | vertex k is (positions[p], normals[n], texCoords[t]) for combo k = (p, t, n) |
| ObjLoader.IndexBufferAt | src/companion.cpp:112-119 | new index i is the position of indices[i] in the combo table, truncated to 16 bits |
| ObjLoader.Deduplicate | src/companion.cpp:103-121 | the loop builds the distinct-in-order combo table, one vertex per combo, and the 16-bit index buffer |
| ObjLoader.IndexBufferStep | src/companion.cpp:109-120 | an unseen triple is appended and indexed by the old table size; a seen one is indexed where std::find finds it |
| ObjLoader.IndexBufferSound | src/companion.cpp:105-121 | with at most 65536 distinct triples, every new index is below the table size and names the triple it replaces |
| ObjLoader.IndexBufferWraps | src/companion.cpp:105-121 | with more than 65536 distinct triples, some new index names a different triple than the one it replaces |
| ObjLoader.LoadObj | src/companion.cpp:48-124 | as many vertices as distinct triples, vertex k built from combo k; with at most 65536 combos each index is in range and names the vertex of its own corner |
| Controller.Emit | clients/basic/src/main.cpp:32-37 | sending n packets makes 2n ::send calls |
| Controller.EmitOne | clients/basic/src/main.cpp:32-37 | one `sendPacket` makes exactly two ::send calls: the packet's framed header, then its payload |
| Controller.EmitAppend | clients/basic/src/main.cpp:32-37 | sending two runs of packets one after the other puts the first run's writes on the wire, then the second's |
| Controller.Connection.SendPacket | clients/basic/src/main.cpp:32-37 | the header {type, size}, then exactly size payload bytes, on the socket |
| Controller.Connection.SendJoin | clients/basic/src/main.cpp:169-172 | the packed Join goes out as one framed packet |
| Controller.PackJoinRoundTrip | clients/basic/src/main.cpp:169-172 | names shorter than 64 bytes are NUL-padded, and the server reads back both names unchanged from the 128-byte payload |
| Controller.PackJoinTruncates | clients/basic/src/main.cpp:169-172 | a name of 64 bytes or more is cut to its first 64 with no terminator, so the server's C-string read of that field runs past it and is undefined (the packet is not readable) |
| Controller.FirstCandidateLeast | clients/basic/src/main.cpp:105-116 | the first candidate is a candidate with none before it, and -1 means there is none |
| Controller.SelectController | clients/basic/src/main.cpp:103-116 | the loop picks the first joystick whose name matches the filter (-1 if none), and gameController holds exactly when something was picked |
| Controller.SelectionRule | clients/basic/src/main.cpp:103-120 | with no filter joystick 0 is picked, and -1 ("no useable joystick") happens exactly when no name matches |
| Controller.SelectControllerIntended | clients/basic/src/main.cpp:111-115 | the corrected loop picks the first matching game controller, else the first match, and gameController says whether the pick is a game controller |
| Controller.SelectionIgnoresGameControllers | clients/basic/src/main.cpp:111-126 | when the first match is a plain joystick and a game controller also matches, the corrected rule picks a game controller and the loop as written does not |
| Controller.SelectionCounterexample | clients/basic/src/main.cpp:111-115 | [plain joystick, game controller] with no filter: as written picks 0, which is not a game controller; corrected picks 1 |
| Controller.Negate16 | clients/basic/src/main.cpp:246 | `-value` stored in an int16 is -value except for -32768, which wraps to itself |
| Controller.AxisTarget | clients/basic/src/main.cpp:241-253 | an axis event writes a raw field exactly for the six axes LEFTX … TRIGGERRIGHT |
| Controller.AxisUpdateFrame | clients/basic/src/main.cpp:239-254 | an axis event sets exactly its own field (negated for the left trigger) and leaves every other field unchanged |
| Controller.AxisTable | clients/basic/src/main.cpp:241-253 | LEFTX→dx, LEFTY→dy, RIGHTX→rx, RIGHTY→ry, both triggers→dz, with only the left trigger negated |
| Controller.AxisLastWins | clients/basic/src/main.cpp:239-254 | a later event on an axis overwrites the earlier one |
| Controller.RawData.ApplyAxis | clients/basic/src/main.cpp:239-254 | rawData after an axis event is the axis update of rawData before it |
| Controller.TickPackets | clients/basic/src/main.cpp:192-212 | a tick sends Move iff dx, dy or dz is nonzero, and Rotate iff rx or ry is nonzero, Move first, and nothing else |
| Controller.IdleTick | clients/basic/src/main.cpp:192-212 | a centred controller sends nothing |
| Controller.Connection.Tick | clients/basic/src/main.cpp:189-212 | one pass of the sending thread puts the tick's packets on the socket in order |
| Controller.ButtonPackets | clients/basic/src/main.cpp:225-230 | a button press sends one Teleport, with the origin target, exactly for BACK, and nothing for other buttons |
| Controller.BackSendsTeleport | clients/basic/src/main.cpp:225-230 | BACK puts one frame on the wire: a header announcing 1 byte, then the target byte |
| Controller.Connection.ButtonDown | clients/basic/src/main.cpp:225-230 | the button's packets go out on the socket |
| Controller.HandleEvent | clients/basic/src/main.cpp:219-259 | a quit event ends the loop, a button press sends its packets, an axis event updates rawData, and nothing else changes |

## Findings

| source | as written | input that shows it | evidently intended | confidence | as-written member | corrected member |
|---|---|---|---|---|---|---|
| clients/basic/src/main.cpp:111-115 | `gameController = true` on every pick, so `controller && !gameController` never holds after the first pick: the first matching joystick wins even when it is not a game controller, and the "only game controllers" error at lines 122-126 is unreachable | one plain joystick at index 0, one game controller at index 1, no `--controller`: index 0 is picked and reported as a game controller | prefer the first matching game controller over a plain joystick, and record whether the pick is a game controller (`gameController = controller`) | not executed | Controller.SelectController, Controller.SelectionCounterexample | Controller.SelectControllerIntended, Controller.SelectionIgnoresGameControllers |

## Left out

- Vulkan: mesh, texture and descriptor upload and drawing (src/companion.cpp:126-440, 447-465) call a foreign GPU API; `render_client::init` is not modelled.
- Sockets, `poll`, `accept`, threads, promises and shutdown (src/net/server.cpp:44-78, 96-121): these are I/O and concurrency. Each `::send` and `close` is recorded instead, and one receiving-thread iteration is `Net.Server.ReceiveStep`.
- Floating point: the controller's rotated move vector and yaw accumulation (clients/basic/src/main.cpp:194-211), the float fields of OBJ lines and the `vt` v-negation. They enter as opaque values.
- JSON access: a catalog entry is its string members plus an optional colour. `nlohmann::json` conversions and the float reads of "textureColor" are not modelled.
- Program options, SDL and haptic setup, console output and rumble (clients/basic/src/main.cpp:48-167, 232-237). The joystick list and the events are inputs.
- File opening in `load_obj` and its "file not found" throw (src/companion.cpp:55-57). The file is given as its lines, already split into a keyword, three argument tokens and an opaque attribute.
- Net.NetworkHandler.HandlePacket: requires that a Join does not fail both checks. After the first Disconnect the server has erased the handler, and the second `disconnect` goes through `m_clientHandlers[id]` and dereferences a null handler.
- Net.NetworkHandler.HandleJoin: after a rejection the handler has been destroyed, yet the code goes on to create and append a render client (a use-after-free). The model appends it as the code does, so it does not claim that a rejected client is absent from `clients`.
- Net.NetworkHandler.HandlePacket: requires a readable Join (at least 128 bytes, with a NUL in each field). The code reads both fields as C strings straight from the buffer, which is undefined for a short or unterminated payload.
- Net.NetworkHandler.constructor: `m_renderClient` is left uninitialised until a Join arrives. The model makes it null, so a disconnect before any Join removes nothing.
- Net.Classify: recv returning -1 is stored in a `size_t`, so `len <= 0` is false. The failed read is ignored rather than treated as a disconnect, as written.
- Net.Classify: the payload recv (src/net/server.cpp:147) can also return -1. Stored in `size_t n`, it reaches `handleData` as SIZE_MAX, and the handler then reads a buffer that was never filled. The model's FullHeader only carries the bytes actually received.
- Net.Classify: `new uint8_t[header.size]` (src/net/server.cpp:146) takes its size from the peer and can throw `std::bad_alloc`. Nothing catches it, so the whole process terminates; the model has no case for this.
- Packets.EncodePayload: Leave is given 0 payload bytes, while `sizeof(LeavePacket)` is 1 (an empty struct, even packed). No code path sends or decodes a Leave, and the extra byte carries no value.
- Net.Server.NextClient: requires the counter to be below INT_MAX. The signed `clientID` counter would overflow after that.
- Net.Server.HandleData: requires the id to be registered. `operator[]` on an absent id yields a null handler that is then dereferenced.
- Net.Server.HandleDisconnect: requires the id to be registered. `m_clientHandlers[client]` on an erased id inserts a null handler and dereferences it.
- Net.Server.Disconnect: requires the id to be registered, for the same reason. After a rejected Join it closes the descriptor while that client's receiving thread keeps polling it (src/net/server.cpp:125-173). The model does not capture what follows:
  - `poll` then reports POLLNVAL rather than POLLERR;
  - `recv` returns -1, which as a `size_t` is not `<= 0`;
  - so the loop never reaches its exit branch, and `~basic_server` waits forever in `thread.join()` (src/net/server.cpp:72);
  - if a later `accept` reuses the descriptor number, the thread reads the new peer's bytes and calls `handleData` on the erased id, dereferencing a null handler.
- Net.Server.ReceiveStep: requires the id to be registered unless the step is ignored. It models one iteration on a live descriptor; the endless loop on a descriptor closed by `disconnect`, described under Net.Server.Disconnect, is not modelled.
- Net.NetworkHandler.Disconnect: requires the handler to be the one registered under its id. A second `disconnect` after the first has erased it is the double rejection listed under Net.NetworkHandler.HandlePacket.
- Net.NetworkHandler.HandleJoin: the catalog of companion names is a constant. After a rejection for UnknownCompanion the code still runs `render_client::init` (src/client.cpp:58), and the draw loop does the same lookup (src/draw.cpp:112). That lookup's `companions[name]` inserts a null entry for the unknown name, so a later Join naming it passes the `companions.contains` check (src/net/handler.cpp:52). The model does not capture this growth of the catalog.
- The controller's sending thread (clients/basic/src/main.cpp:189-217): its loop, the 1 ms wait on the exit future, and its unsynchronised reads of `rawData` while the event loop writes it are not modelled. One iteration is `Controller.Connection.Tick` over a snapshot of `rawData`.
- Companion.FromConfig: requires a "textureType" of "none", "png" or "color" only when "id" and "modelFile" are both present. With both present and any other value, `m_textureType` stays uninitialised and is then read; without either, the constructor throws before that read, which the model returns as an error.
- ObjLoader.ExtractInt: digits are accumulated without bound. The 32-bit overflow behaviour of `num_get` (clamp and fail) is not modelled, so faces with indices above INT_MAX are out of scope.
- ObjLoader.LoadObj: requires every corner to be fully read and every index in range. The code indexes `positions`, `normals` and `texCoords` unchecked, and pushes uninitialised ints for tokens such as `a//c` (see `ObjLoader.CornerWithoutTexCoord`).
- Controller.Connection.ButtonDown: `TeleportTarget::Origin` is not declared in include/net/packets.hpp:57-60, so the byte it denotes is a parameter.
- Packets.Frame: host byte order and an 8-byte `size_t` are fixed to a little-endian 64-bit platform.
