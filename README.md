# Ontology SDK client manager, in Dafny

This project models `ClientMgr` and `Layer2ClientMgr` of the Ontology Go SDK
(`client/client.go`), and proves what they promise.

`ClientMgr` holds four optional transport slots: a user-supplied default client, an RPC
client, a REST client and a web-socket client. It also holds a `uint64` correlation
counter, `qid`.

Every public query follows the same template:
- resolve the active transport, in priority order default, RPC, REST, web socket;
- if there is none, fail with "no available client" before an id is taken;
- otherwise increment the counter, render it in decimal as the request id, call the
  transport once, pass a transport error through, and decode the reply.

Transaction submission (`SendTransaction`, `PreExecTransaction`) finalises the
transaction between resolving the transport and taking the id.

`GetSmartContractEventByBlock` reads an empty reply, or the two characters `""`, as "no
events" and does not decode it.

`WaitForGenerateBlock` works as follows:
- it reads a baseline height;
- it then polls the height once per second, for the timeout in whole seconds (at least
  one poll);
- polls that fail are skipped;
- it succeeds at the first poll whose uint32 difference from the baseline reaches the
  target count, which is 2 unless a positive count is given.

On the layer-2 side there are three parts:
- layer-2 queries reuse the wrapped manager;
- a contract-scoped storage key is the tag byte `0x05`, the hex-decoded contract address
  reversed, then the key;
- store-proof verification deserialises a proof, checks it against a state root, then
  checks one key/value item, stopping at the first failure.

Modules:
- `Types` holds the integer widths, `Option`, `Result` and the error variants.
- `Decimal` is the `%d` rendering of the counter and its inverse.
- `Hex` is `encoding/hex` decoding, including its partial output on bad input, and
  encoding.
- `Client` holds `ClientMgr` and the query template. It also holds the block wait: a
  function of the sequence of height-query results (`WaitSpec`), and the imperative loop
  proved against it.
- `Layer2` holds `Layer2ClientMgr`, the storage key and proof verification.

The transports are opaque `Handle`s. What a transport answers to a call tagged with a
given id is a function parameter `network`. The decoders (`utils.Get*`,
`json.Unmarshal`) and the IAVL proof library are function parameters too.

`ClientMgr` keeps a ghost log `sent` of every request it put on a transport. `Valid()`
states that the counter has been incremented once per logged request, and that each
request carries the id of its own increment. From this, `SentQidsUnique` derives that all
ids issued are distinct and increasing.

Two behaviours follow the code where a plain reading might expect otherwise:
- The key construction discards the hex decoding error (client/client.go:414). A
  malformed address gives a key built from the bytes decoded before the error, and a nil
  error, rather than a failure.
- In the block wait, a poll that reports a height below the baseline wraps around in
  uint32 subtraction and counts as progress (client/client.go:457).

## Model

| member | source | states |
|---|---|---|
| Client.FirstSet | client/client.go:464-478 | the result is none exactly when every slot is empty; otherwise it is the first occupied slot, with every slot before it empty |
| Client.ClientMgr.GetClient | client/client.go:464-478 | the active transport is none exactly when all four slots are empty; its priority order is stated by GetClientPriority |
| Client.ClientMgr.GetClientPriority | client/client.go:464-478 | the active transport is the first occupied slot in the order default, RPC, REST, web socket, so it depends only on which slots are set |
| Client.ClientMgr.constructor | client/client.go:36-42 | a zero-valued manager has no transport, the counter at 0, an empty request log, and satisfies the invariant |
| Client.ClientMgr.NewRpcClient | client/client.go:55-58 | the RPC slot holds the new transport, which is returned; the invariant is kept |
| Client.ClientMgr.NewRestClient | client/client.go:64-67 | the REST slot holds the new transport, which is returned; the invariant is kept |
| Client.ClientMgr.NewWebSocketClient | client/client.go:73-77 | the web-socket slot holds the new transport, which is returned; the invariant is kept |
| Client.ClientMgr.SetDefaultClient | client/client.go:83-85 | the default slot holds the given transport (or none); the invariant is kept |
| Client.ClientMgr.GetNextQid | client/client.go:480-482 | the counter goes up by exactly one, wrapping to 0 after 2^64-1; the id is the decimal rendering of the new value and parses back to it; a fresh counter yields "1" |
| Decimal.DecimalStringDigits | client/client.go:481 | `%d` of a natural number is a non-empty string of digits, with a leading '0' only for zero |
| Decimal.ParseDecimalString | client/client.go:481 | parsing the decimal rendering of n gives n back |
| Decimal.DecimalStringInjective | client/client.go:481 | two numbers have the same decimal rendering if and only if they are equal |
| Client.QidAfterWraps | client/client.go:480-482 | k increments of the uint64 counter from q leave it at q + k modulo 2^64, so one increment wraps 2^64-1 to 0 |
| Client.QidAfterZero | client/client.go:480-482 | before the counter wraps, k increments from zero leave it at k |
| Client.NumberedAt | client/client.go:480-482 | in a log kept by the manager, the i-th request (from 0) carries the id of increment i+1 |
| Client.SentQidsUnique | client/client.go:480-482 | while fewer than 2^64 requests have been sent, request i carries the id i+1, so ids are strictly increasing and pairwise distinct |
| Client.ClientMgr.Send | client/client.go:93-97 | one id is consumed and one request is logged with it; a transport error is returned as is, otherwise the reply is decoded |
| Client.ClientMgr.Query | client/client.go:87-97 | with no transport the result is the no-client error and neither counter nor log changes; otherwise exactly one id is consumed, exactly one request goes to the active transport, and the result is its reply or error, decoded |
| Client.ClientMgr.GetCurrentBlockHeight | client/client.go:87-97 | the height query follows the template: one request on the active transport, the reply decoded as a uint32 |
| Client.ClientMgr.GetBlockInfoByHeight | client/client.go:135-145 | follows the template, and a successful transport reply is returned undecoded |
| Client.ClientMgr.GetSmartContractEventByBlock | client/client.go:255-268 | follows the template; an empty or `""` reply gives an empty event list without decoding, any other reply is decoded |
| Client.NoEventsExactly | client/client.go:264-266 | the "no events" test holds exactly for the empty reply and for the two bytes `""` |
| Client.ClientMgr.SendTransaction | client/client.go:354-368 | no transport gives the no-client error first, then a finalisation error is returned; in both cases no id is consumed; otherwise one send request (pre-exec false) is dispatched and the reply decoded as a hash |
| Client.ClientMgr.PreExecTransaction | client/client.go:370-389 | the same ordering as SendTransaction with pre-exec true; a reply that does not unmarshal is an error carrying the raw reply and the cause |
| Client.TargetCount | client/client.go:439-442 | the target is the first given count when positive, 2 otherwise, and always at least 1 |
| Client.WaitSeconds | client/client.go:447-450 | the number of polls is the timeout in whole seconds when at least one second, 1 otherwise |
| Client.Sub32 | client/client.go:457 | uint32 subtraction: the plain difference when no underflow, the difference plus 2^32 otherwise |
| Client.WaitFrom | client/client.go:451-461 | a loop outcome is successful exactly when it carries no error, and never counts more than all polls |
| Client.WaitFromResult | client/client.go:451-461 | from any iteration on, the loop succeeds if and only if a later poll reaches the target; it stops at the first such poll; otherwise it times out after every poll |
| Client.WaitSpecResult | client/client.go:438-461 | a failed baseline fails at once after one query; otherwise the wait succeeds exactly at the first poll that reads the baseline plus the target count or more (uint32 arithmetic), and times out naming the seconds after all polls when none does |
| Client.WaitScenarioAdvance | client/client.go:438-461 | baseline 100, default target, polls 100, 101, 102: success at the third poll, before the timeout |
| Client.WaitScenarioTimeout | client/client.go:438-461 | baseline 100, two seconds, no progress: a timeout naming 2 seconds |
| Client.WaitScenarioRegressedHeight | client/client.go:457 | a poll below the baseline wraps around in uint32 and counts as progress |
| Client.HeightRequestsStep | client/client.go:451-454 | one more height query extends the log of the wait's requests by the request with the next id |
| Client.ClientMgr.WaitForGenerateBlock | client/client.go:438-461 | the result is the outcome WaitSpec assigns to the heights the queries return; with no transport nothing is sent; otherwise exactly one height query is logged per query counted, with consecutive ids |
| Client.ClientMgr.PollHeight | client/client.go:451-461 | the polling loop returns the outcome WaitFrom assigns to the poll results, having sent exactly the polls that outcome counts |
| Hex.DecodeString | client/client.go:414 | decoding fails exactly on a string that is not even-length hex; it never yields more than half as many bytes as characters, and exactly half on success; every byte it yields, before an error too, is the value of the digit pair at twice its index, high nibble first, upper or lower case |
| Hex.DecodeStopsAtBadPair | client/client.go:414 | decoding stops only at the first bad pair: when it reports an error, the pair following the bytes it returned lacks a second digit or holds a non-hex character, so with the per-byte contract of DecodeString the bytes returned are exactly those decoded before the error |
| Hex.DecodeEncode | client/client.go:414 | decoding the hex encoding of any byte string gives it back without error |
| Layer2.Reverse | client/client.go:415 | the reversal has the same length, and byte i is byte len-1-i of the input |
| Layer2.ReverseReverse | client/client.go:415 | reversing twice is the identity |
| Layer2.GetLayer2StoreKey | client/client.go:410-422 | the error result is always nil; an empty address gives the key unchanged; otherwise the key is the tag 0x05, then the bytes hex decoding yields for the address (those before an error, if any) in reverse order, then the given key |
| Layer2.StoreKeyScenario | client/client.go:410-422 | the address "0A0b", with an upper- and a lower-case digit, and key [7] give the key 0x05, 0x0b, 0x0a, 7: the address bytes reversed |
| Layer2.StoreKeyLength | client/client.go:410-422 | for a valid hex address the key is 1 + len(address)/2 + len(key) bytes long |
| Layer2.StoreKeyOfEncodedAddress | client/client.go:410-422 | for a hex-encoded address the key is exactly the tag, the address bytes reversed, then the key |
| Layer2.StoreKeyRecoverable | client/client.go:410-422 | the address bytes and the key can be read back from such a storage key |
| Layer2.VerifyLayer2StoreProof | client/client.go:391-408 | the result is true exactly when deserialisation, the state-root check and the item check all pass; false always carries an error, namely that of the first failing step: deserialisation's, else the state-root check's, else the item check's |
| Layer2.VerifyShortCircuits | client/client.go:391-408 | once deserialisation or the state-root check fails, later steps have no influence on the result |
| Layer2.Layer2ClientMgr.constructor | client/client.go:48-53 | the layer-2 manager wraps the given client manager |
| Layer2.Layer2ClientMgr.GetLayer2BlockByHeight | client/client.go:123-133 | the query template on the wrapped manager, with the block-by-height call |
| Layer2.Layer2ClientMgr.GetLayer2BlockByHash | client/client.go:159-169 | the query template on the wrapped manager, with the block-by-hash call |
| Layer2.Layer2ClientMgr.GetLayer2StoreProof | client/client.go:424-434 | the query template on the wrapped manager, with the layer-2 store-proof call |

## Left out

- The RPC, REST and web-socket wire protocols and their constructors. A transport is an opaque `Handle` passed to the `New*Client` setters, and its replies are the `network` parameter.
- The `utils.Get*` decoders and `json.Unmarshal` of the pre-execution result. They are abstract partial functions (`Decoder<T>`).
- The IAVL range-proof library and `Layer2StoreProof.Deserialization`. They are the three function fields of `ProofLibrary`, so nothing about tamper detection is proved.
- `time.Sleep` and wall-clock time. One loop iteration stands for one second.
- Concurrency. The atomic increment is modelled as a sequential update, and replacing a transport while a call is in flight is not modelled.
- `GetRpcClient`, `GetRestClient` and `GetWebSocketClient`. They are plain reads of a field.
- The remaining queries (block hash, block by height and by hash, transaction, block hash by height, height by transaction hash, block transaction hashes, storage, contract, contract event, Merkle proof, cross-state proof, cross-chain message, mem-pool state and count, version, network id). Each is `ClientMgr.Query` with its own `Call` variant and decoder. The template is proved once, for `Query`.
- Error message text from `fmt.Errorf`. Errors are tagged variants of `Error`.
- The difference between a nil and an empty Go slice (for example the `nil, nil` events result). Both are the empty sequence.
- Hex.DecodeString: on malformed input it returns the bytes decoded before the error, as current Go releases do. Older releases returned none.
- Client.SentQidsUnique: distinctness is stated for fewer than 2^64 requests. The counter wraps modulo 2^64 (`Next`), and after that ids repeat.
