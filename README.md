# Chord ring geometry, host enumeration and message dispatch in Dafny

This project models two files of a Chord distributed hash table node written
in Go.

- `src/chord/util.go`:
  - the three interval predicates on the identifier ring (`Between`,
    `BetweenRightIncl`, `BetweenLeftIncl`);
  - the identifier hash (`Hash`);
  - the IPv4 host enumeration of a CIDR block (`Hosts` and its in-place
    address increment `inc`).
- `src/chord/chord_api.go`:
  - the `Packet` message;
  - the `Listener.Receive` dispatcher, which answers `ping`, `query`,
    `getSuccesorList`, `getPredecessesor` and `notify` requests from the
    node's state;
  - the `handle*` accessors;
  - the requests the client functions build.

Modules, one per file:

| file | module | models |
|---|---|---|
| `wrappers.dfy` | `Wrappers` | `Option` and `Result` |
| `arith.dfy` | `Arithmetic` | small facts about `/` and `%` used by the other proofs |
| `ring.dfy` | `RingGeometry` | the ring of `RingSize` identifiers and the three interval predicates |
| `bytes.dfy` | `Bytes` | big-endian byte strings, and `inc` as a method on an array |
| `hash.dfy` | `Hashing` | `binary.BigEndian.Uint64` and `Hash` |
| `hosts.dfy` | `Cidr` | IPv4 blocks and `Hosts` |
| `strconv.dfy` | `GoStrconv` | `strconv.Atoi`, `strconv.Itoa` and Go's `string(int)` conversion |
| `chord_api.dfy` | `ChordApi` | packets, the node state, `Receive`, the handlers and the client requests |

## How the model works

- **Ring size.** `ringSize` is a constant whose value is declared outside the
  modelled files. `RingSize` is therefore an unspecified positive constant
  below 2^63. Go needs that bound, because the value is added to an `int`
  and used as a `uint64` divisor. Every property is proved for every such
  size, not only for powers of two.
- **Interval predicates.** Each predicate keeps the Go code's bound-shifting
  logic. It is proved equal to an independent reference definition based on
  clockwise distance.
- **`Hash`.** SHA-1 is a parameter of type `string -> Digest`.
- **`Hosts`.**
  - It is an imperative method.
  - It enumerates from the network address with a loop that calls the array
    method `Bytes.Inc`.
  - It is proved to return exactly the addresses of the block other than the
    network and broadcast addresses.
  - A block whose text does not parse is `None`.
  - The `/32` slice-bounds panic is an error outcome.
- **`Receive`.**
  - It is a method of a `Listener` class that holds the node.
  - The global `ChordNode` is a `Node` class whose fields (`IP`,
    `successorList`, `predecessor`) the notify case may update.
  - `ChordNode.findSuccessor` and `ChordNode.notify` live in a file that is
    not part of this model. They are parameters over a value snapshot of the
    node state.
  - A nil `*RemoteNode` is `None`.
  - A runtime panic (nil dereference, index out of range) is a `Status`
    outcome. In both panic cases the reply is left as it was.

## Model

| member | source | states |
|---|---|---|
| RingGeometry.Between | src/chord/util.go:14-21 | for identifiers on the ring, true exactly when x lies strictly inside the clockwise arc from a to b |
| RingGeometry.BetweenLeftIncl | src/chord/util.go:34-41 | for identifiers on the ring, true exactly when x lies on the clockwise arc [a, b) |
| RingGeometry.BetweenRightIncl | src/chord/util.go:24-31 | for identifiers on the ring, true exactly when x lies on the clockwise arc (a, b], except that the endpoint b is rejected when the arc wraps (b < a) |
| RingGeometry.BetweenRightInclCorrected | src/chord/util.go:23-31 | true exactly when x lies on the clockwise arc (a, b], as the doc comment describes |
| RingGeometry.BetweenNonWrapping | src/chord/util.go:14-21 | when a < b no bound is shifted: (a, b) is the integer interval a < x < b |
| RingGeometry.BetweenWrapping | src/chord/util.go:15-20 | when b < a the arc wraps: x is inside exactly when x > a or x < b |
| RingGeometry.DegenerateArcIsEmpty | src/chord/util.go:14-41 | the arc from a point to itself contains nothing, for all three predicates |
| RingGeometry.OpenArcsPartitionRing | src/chord/util.go:14-21 | for a ≠ b, each identifier is in exactly one of (a, b), {a}, {b} and (b, a) |
| RingGeometry.InteriorAgreement | src/chord/util.go:14-41 | a point strictly inside the arc is accepted by all three variants |
| RingGeometry.LeftEndpointIncluded | src/chord/util.go:34-41 | a belongs to [a, b) whenever a ≠ b |
| RingGeometry.RightEndpoint | src/chord/util.go:24-31 | BetweenRightIncl(b, a, b) holds exactly when a < b |
| RingGeometry.RightInclMissesWrappedEndpoint | src/chord/util.go:24-31 | on the arc (RingSize-1, 0], the endpoint 0 lies on the arc but BetweenRightIncl rejects it |
| RingGeometry.CorrectedAgreesOffEndpoint | src/chord/util.go:24-31 | the code and the corrected predicate differ only when the arc wraps and x is its right endpoint |
| Hashing.Uint64 | src/chord/util.go:48 | the value of the first 8 digest bytes read most significant first, below 2^64 |
| Hashing.Hash | src/chord/util.go:44-49 | every key hashes to an identifier on the ring |
| Hashing.HashUsesDigestPrefix | src/chord/util.go:47-48 | keys whose digests share their first 8 bytes get the same identifier |
| Bytes.Inc | src/chord/util.go:116-123 | the array afterwards holds the increment of its old contents, computed in place from the last byte with carry |
| Bytes.IncrementedValue | src/chord/util.go:116-123 | the increment adds one to the big-endian value, modulo 256^length |
| Bytes.IncrementedShape | src/chord/util.go:117-122 | the bytes before the first byte below 255 (searching from the end) are unchanged, that byte goes up by one, and the 255s after it become 0 |
| Bytes.IncrementedWraps | src/chord/util.go:117-122 | an all-255 address wraps to all zeros |
| Cidr.Network | src/chord/util.go:108 | the masked address is a multiple of the block size, is at most the given address and is within one block size of it, and the block fits in the 32-bit address space |
| Cidr.Contains | src/chord/util.go:108 | `ipnet.Contains`: an address is in the block exactly when it has 4 bytes and its value lies in the range of Size addresses starting at the network address |
| Cidr.SizeAtLeastTwo | src/chord/util.go:112 | a block has fewer than two addresses exactly when its prefix is 32 |
| Cidr.EnumerateIsBlock | src/chord/util.go:108-110 | the loop's address list holds exactly the addresses the block contains, one apart, from the network address to the broadcast address |
| Cidr.EnumerateComplete | src/chord/util.go:108-110 | every address the block contains is listed |
| Cidr.HostsAreInnerAddresses | src/chord/util.go:111-112 | the returned slice has 2^(32-prefix) - 2 entries: the contained addresses other than the network and broadcast addresses |
| Cidr.Hosts | src/chord/util.go:101-113 | a parse failure returns the error; a /32 block panics on the slice bounds; otherwise the result is the enumerated block without its first and last address |
| GoStrconv.Atoi | src/chord/chord_api.go:67 | the parsed value is always within int64, and the empty string gives 0 |
| GoStrconv.AtoiOfItoa | src/chord/chord_api.go:67 | parsing the decimal form of any int64 gives it back |
| GoStrconv.RuneString | src/chord/chord_api.go:71 | string(int) yields a single character |
| ChordApi.QueryKey | src/chord/chord_api.go:67 | the key is parsed from the reply; an empty reply message gives key 0 |
| ChordApi.Node.HandleQuery | src/chord/chord_api.go:165-169 | returns the node's findSuccessor result for the identifier |
| ChordApi.Node.HandleQuerySuccessorList | src/chord/chord_api.go:205-208 | returns the node's successor list unchanged |
| ChordApi.Node.HandleQueryPredecessor | src/chord/chord_api.go:236-239 | returns the node's predecessor, possibly nil |
| ChordApi.Node.HandleQueryNotify | src/chord/chord_api.go:266-269 | the node state becomes the notify handler's result for the sender |
| ChordApi.Listener.Receive | src/chord/chord_api.go:52-95 | the reply and outcome for every packet type: ping → pong; query → answer or a nil-dereference panic; successor list and predecessor replies; notify updates the node or panics on an empty list; pong, answer and unknown types change nothing; only notify changes the node |
| ChordApi.PingRequest | src/chord/chord_api.go:114 | the ping request names the ping case of Receive and carries the sender's IP |
| ChordApi.QueryRequest | src/chord/chord_api.go:153 | the query request names the query case, but its message is the single character `string(id)`, not the decimal identifier |
| ChordApi.SuccessorListRequest | src/chord/chord_api.go:194 | the successor-list request names the getSuccesorList case of Receive |
| ChordApi.NotifyRequest | src/chord/chord_api.go:254-255 | the notify request names the notify case, and its list is non-empty with the sender's identity first, so the notify case cannot panic on it |
| ChordApi.PredecessorRequest | src/chord/chord_api.go:225 | the predecessor request's type "getPredecessor" is none of Receive's cases |
| ChordApi.QueryIgnoresRequestedKey | src/chord/chord_api.go:153 | with the zero reply, the server resolves key 0 for every query; the rune encoding of 100 parses as 0, and that of 55 as 7 |
| ChordApi.QueryExchange | src/chord/chord_api.go:144-162 | a query for any identifier returns the server's successor of 0, or the server panics when it has none |
| ChordApi.QueryPredecessorExchange | src/chord/chord_api.go:217-233 | the predecessor query always returns an empty list and leaves the server unchanged |
| ChordApi.PredecessorRequestCorrected | src/chord/chord_api.go:225 | the corrected request's type is the server's getPredecessesor case |
| ChordApi.QueryPredecessorExchangeCorrected | src/chord/chord_api.go:217-233 | with the matching tag, the caller receives exactly the server's predecessor |
| ChordApi.QueryRequestCorrected | src/chord/chord_api.go:153 | the corrected query request, with the identifier in decimal, still names the query case |
| ChordApi.QueryKeyCorrected | src/chord/chord_api.go:67 | the corrected key is parsed from the request's message and lies within int64 |
| ChordApi.QueryKeyCorrectedRoundTrip | src/chord/chord_api.go:153 | when the identifier is sent in decimal and read from the request, the server resolves exactly the identifier asked for |

## Left out

- Network and RPC: `rpc.Dial`, `client.Call`, gob encoding and `log.Fatal` on transport errors are not modelled. The exchange methods call `Receive` directly, with a fresh zero reply, as the net/rpc server provides.
- ChordApi.QueryPredecessorExchangeCorrected: when the predecessor is nil, the reply list holds a nil entry. Go's gob encoder refuses to encode a nil element in a slice, so a real caller gets a transport error, not the `[None]` the contract promises.
- ChordApi.Listener.Receive: treats every call as atomic. net/rpc serves each call in its own goroutine, and `Receive` reads and writes the global `ChordNode` without a lock. Interleavings of concurrent calls, and of the node's own background maintenance, are not modelled.
- ChordApi.Listener.Receive: the promise that only the notify case changes the node rests on `findSuccessor` being a pure function of a snapshot of the node state. The real `ChordNode.findSuccessor` lives in node.go, which is not part of this model. Any write it makes to the node is not captured.
- Logging: the `fmt.Println` output of `Receive` is not modelled.
- SHA-1 internals: the digest is a parameter.
- `findSuccessor` and `notify` of the node: node.go is not part of this model. They are parameters.
- Pointer identity: `*RemoteNode` values are compared as values. Aliasing between list entries and the node's own pointers is not modelled.
- Address parsing in `net.ParseCIDR`: the text is not parsed. A block is an IPv4 address and a prefix length, and a parse error is `None`.
- IPv6 blocks and non-contiguous masks are not modelled.
- Address formatting: `ip.String()` is not modelled. Addresses are returned as 4-byte values.
- Cidr.Hosts: requires a prefix of at least 1. For a /0 block the Go loop never ends, because `inc` wraps to 0.0.0.0, which the block contains.
- RingGeometry.Between: `nodeB + ringSize` is computed without int64 wrap-around. It stays exact while ringSize ≤ 2^62. The same holds for BetweenRightIncl and BetweenLeftIncl.
- ChordApi.Listener.Receive: a panic is returned as a status. In Go it would abort the RPC call and end the server process.
- Out of scope: `PrintNode`, `GetOutboundIP`, `ping`, `receivePong`, `NetworkIP` (external commands, goroutines and channels), the empty `pong` and `answer` stubs, rpc.go and the Go test files.

## Findings

| source | as written | input that shows it | evidently intended | confidence | as-written member | corrected member |
|---|---|---|---|---|---|---|
| src/chord/util.go:24-31 | when the arc wraps (b < a) and x == b, neither shift applies, so x > a fails and the right endpoint is rejected | BetweenRightIncl(0, RingSize-1, 0) is false | (a, b] includes b on every arc, as the doc comment says | high (not executed) | RingGeometry.RightInclMissesWrappedEndpoint | RingGeometry.BetweenRightInclCorrected |
| src/chord/chord_api.go:67 | the query key is parsed from `reply.Msg`, which is always empty on the server. The client also encodes the identifier with `string(id)`, a rune, not decimal | query(100, ip) resolves identifier 0 on the server | parse `payload.Msg`, with the client sending `strconv.Itoa(id)` | high (not executed) | ChordApi.QueryIgnoresRequestedKey | ChordApi.QueryKeyCorrectedRoundTrip |
| src/chord/chord_api.go:225 | the client sends type "getPredecessor", but the server's case is "getPredecessesor" (line 82), so the request falls to the default case | queryPredecessor(ip) returns an empty list even when the server has a predecessor | the two tags match | high (not executed) | ChordApi.QueryPredecessorExchange | ChordApi.QueryPredecessorExchangeCorrected |
