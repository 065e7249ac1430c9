/**
 * The client manager of client/client.go: four optional transport slots, a request
 * counter, and the query template every public operation follows.
 */
module Client {
  import opened Types
  import opened Decimal

  /** An opaque transport instance (an RPC, REST, web-socket or user-supplied client). */
  datatype Handle = Handle(id: nat)

  /** A mutable (unsigned) transaction, and the immutable form `IntoImmutable` produces. */
  datatype MutableTx = MutableTx(fields: Bytes)
  datatype Tx = Tx(raw: Bytes)

  /** The transport call an operation issues, with its operation-specific parameters. */
  datatype Call =
    | CurrentBlockHeight
    | CurrentBlockHash
    | BlockByHeight(height: uint32)
    | BlockInfoByHeight(height: uint32)
    | BlockByHash(blockHash: string)
    | RawTransaction(txHash: string)
    | BlockHash(height: uint32)
    | BlockHeightByTxHash(txHash: string)
    | BlockTxHashesByHeight(height: uint32)
    | Storage(contractAddress: string, key: Bytes)
    | SmartContract(contractAddress: string)
    | SmartContractEvent(txHash: string)
    | SmartContractEventByBlock(height: uint32)
    | MerkleProof(txHash: string)
    | CrossStatesProof(height: uint32, key: Bytes)
    | CrossChainMsg(height: uint32)
    | MemPoolTxState(txHash: string)
    | MemPoolTxCount
    | Version
    | NetworkId
    | SendRawTransaction(tx: Tx, preExec: bool)
    | Layer2StoreProof(key: Bytes)

  /** One call put on the wire: the transport used, the call and its correlation id. */
  datatype Request = Request(transport: Handle, call: Call, qid: string)

  /** What a transport answers to a call tagged with a correlation id: raw bytes or an error. */
  type Network = (Handle, Call, string) -> Result<Bytes>

  /** A `utils.Get*` helper turning raw bytes into a typed result. */
  type Decoder<T> = Bytes -> Result<T>

  function Raw(data: Bytes): Result<Bytes> {
    Ok(data)
  }

  /** First occupied slot of a list ordered by priority. */
  function FirstSet(slots: seq<Option<Handle>>): (r: Option<Handle>)
    ensures r.None? <==> forall i | 0 <= i < |slots| :: slots[i].None?
    ensures r.Some? ==> exists i | 0 <= i < |slots| :: slots[i] == r && forall j | 0 <= j < i :: slots[j].None?
  {
    if slots == [] then None
    else if slots[0].Some? then slots[0]
    else
      var r := FirstSet(slots[1..]);
      assert forall i | 1 <= i < |slots| :: slots[i] == slots[1..][i - 1];
      r
  }

  // ---------------------------------------------------------------------------
  // Correlation ids

  /** `atomic.AddUint64(&qid, 1)`: the counter after one increment, wrapping modulo 2^64. */
  function Next(q: uint64): uint64 {
    if q == TWO_64 - 1 then 0 else q + 1
  }

  /** The counter after `k` increments from `q`. */
  function QidAfter(q: uint64, k: nat): uint64 {
    if k == 0 then q else Next(QidAfter(q, k - 1))
  }

  /** One more modulo 2^64: the residue of `a + 1` follows from that of `a`. */
  lemma ModSuccessor(a: nat)
    ensures (a + 1) % TWO_64 == if a % TWO_64 == TWO_64 - 1 then 0 else a % TWO_64 + 1
  {
    var d := a / TWO_64;
    assert a == d * TWO_64 + a % TWO_64;
    if a % TWO_64 == TWO_64 - 1 {
      assert a + 1 == (d + 1) * TWO_64;
    } else {
      assert a + 1 == d * TWO_64 + (a % TWO_64 + 1);
    }
  }

  /**
   * `k` increments from `q` leave the counter at `q + k` modulo 2^64: the counter is a
   * uint64 that wraps, and the single increment `Next` is the case `k == 1`.
   */
  lemma {:induction false} QidAfterWraps(q: uint64, k: nat)
    ensures QidAfter(q, k) == (q + k) % TWO_64
  {
    if k > 0 {
      QidAfterWraps(q, k - 1);
      ModSuccessor(q + k - 1);
    }
  }

  /** Before the counter wraps, `k` increments from zero leave it at `k`. */
  lemma {:induction false} QidAfterZero(k: nat)
    requires k < TWO_64
    ensures QidAfter(0, k) == k
  {
    if k > 0 {
      QidAfterZero(k - 1);
    }
  }

  /** Each request of the log carries the id of its own increment: the `n`-th request the `n`-th id. */
  ghost predicate NumberedInOrder(sent: seq<Request>) {
    sent == [] || (NumberedInOrder(sent[..|sent| - 1]) && sent[|sent| - 1].qid == DecimalString(QidAfter(0, |sent|)))
  }

  /** In a log numbered in order, request `i` carries the id of increment `i+1`. */
  lemma {:induction false} NumberedAt(sent: seq<Request>, i: nat)
    requires NumberedInOrder(sent) && i < |sent|
    ensures sent[i].qid == DecimalString(QidAfter(0, i + 1))
    decreases |sent|
  {
    if i < |sent| - 1 {
      NumberedAt(sent[..|sent| - 1], i);
    }
  }

  /** Requests numbered in order carry pairwise distinct, strictly increasing ids. */
  lemma SentQidsUnique(sent: seq<Request>)
    requires NumberedInOrder(sent) && |sent| < TWO_64
    ensures forall i | 0 <= i < |sent| :: ParseDecimal(sent[i].qid) == i + 1
    ensures forall i, j | 0 <= i < j < |sent| :: sent[i].qid != sent[j].qid
  {
    forall i | 0 <= i < |sent| ensures ParseDecimal(sent[i].qid) == i + 1 {
      NumberedAt(sent, i);
      QidAfterZero(i + 1);
      ParseDecimalString(i + 1);
    }
  }

  // ---------------------------------------------------------------------------
  // The query template

  /**
   * The result of one query issued while the counter stands at `q` and `c` is the
   * resolved transport: no transport is a local error; otherwise the call is tagged
   * with the next id and a transport error is passed on verbatim, raw bytes decoded.
   */
  function Exchange<T>(c: Option<Handle>, network: Network, call: Call, decode: Decoder<T>, q: uint64): Result<T> {
    match c
    case None => Err(NoClient)
    case Some(h) =>
      match network(h, call, DecimalString(Next(q)))
      case Err(e) => Err(e)
      case Ok(data) => decode(data)
  }

  /** The result of a submission: no transport first, then a failed finalisation, then the exchange. */
  function Submit<T>(c: Option<Handle>, network: Network, intoImmutable: MutableTx -> Result<Tx>,
                     mutTx: MutableTx, preExec: bool, decode: Decoder<T>, q: uint64): Result<T> {
    if c.None? then Err(NoClient)
    else match intoImmutable(mutTx)
      case Err(e) => Err(e)
      case Ok(tx) => Exchange(c, network, SendRawTransaction(tx, preExec), decode, q)
  }

  /** The decoder `PreExecTransaction` applies: a JSON failure is reported with the raw payload. */
  function PreExecDecoder<R>(unmarshal: Decoder<R>): Decoder<R> {
    data => match unmarshal(data)
            case Ok(v) => Ok(v)
            case Err(e) => Err(PreExecUnmarshal(data, e))
  }

  // ---------------------------------------------------------------------------
  // The empty-events sentinel of GetSmartContractEventByBlock

  /** Go's `string(data)`: one character per byte. */
  function AsString(data: Bytes): (s: string)
    ensures |s| == |data|
  {
    seq(|data|, i requires 0 <= i < |data| => data[i] as char)
  }

  /** A response that stands for "no events": nil, "" or the two characters `""`. */
  predicate NoEvents(data: Bytes) {
    AsString(data) == "" || AsString(data) == "\"\""
  }

  const QUOTE: byte := 0x22

  /** Exactly two byte strings are the sentinel. */
  lemma NoEventsExactly(data: Bytes)
    ensures NoEvents(data) <==> data == [] || data == [QUOTE, QUOTE]
  {
    if AsString(data) == "\"\"" {
      assert AsString(data)[0] == data[0] as char && AsString(data)[1] == data[1] as char;
    }
  }

  /** The events decoder `GetSmartContractEventByBlock` applies: the sentinel is an empty list, the rest is decoded. */
  function EventsDecoder<E>(decode: Decoder<seq<E>>): Decoder<seq<E>> {
    data => if NoEvents(data) then Ok([]) else decode(data)
  }

  // ---------------------------------------------------------------------------
  // WaitForGenerateBlock, as a function of the results of its height queries

  const SECOND: int := 1_000_000_000

  /** Go's integer division, which truncates toward zero. */
  function GoQuotient(a: int, b: int): int
    requires b > 0
  {
    if a >= 0 then a / b else -((-a) / b)
  }

  /** The number of polls: the timeout in whole seconds, at least one. */
  function WaitSeconds(timeout: int64): (secs: int)
    ensures secs >= 1
    ensures timeout >= SECOND ==> secs == timeout / SECOND
    ensures timeout < SECOND ==> secs == 1
  {
    var s := GoQuotient(timeout, SECOND);
    if s <= 0 then 1 else s
  }

  /** The number of blocks to wait for: the first variadic argument when positive, 2 otherwise. */
  function TargetCount(blockCount: seq<uint32>): (count: uint32)
    ensures count >= 1
    ensures |blockCount| > 0 && blockCount[0] > 0 ==> count == blockCount[0]
    ensures !(|blockCount| > 0 && blockCount[0] > 0) ==> count == 2
  {
    if |blockCount| > 0 && blockCount[0] > 0 then blockCount[0] else 2
  }

  /** Go's `uint32` subtraction. */
  function Sub32(a: uint32, b: uint32): (d: uint32)
    ensures a >= b ==> d == a - b
    ensures a < b ==> d == a - b + TWO_32
  {
    (a - b) % TWO_32
  }

  /** How a wait ended, and how many height queries (baseline included) it issued. */
  datatype WaitOutcome = WaitOutcome(done: bool, err: Option<Error>, queries: nat)

  /** Poll `j` read a height at least `count` past the baseline. */
  ghost predicate Reached(base: uint32, count: uint32, hs: seq<Result<uint32>>, j: int) {
    1 <= j < |hs| && hs[j].Ok? && Sub32(hs[j].value, base) >= count
  }

  /** The loop from iteration `i` on: poll `i+1` is `hs[i+1]`; failed polls are skipped. */
  function WaitFrom(base: uint32, count: uint32, hs: seq<Result<uint32>>, i: nat, secs: nat): (o: WaitOutcome)
    requires i <= secs < |hs|
    ensures o.done <==> o.err.None?
    ensures o.queries <= secs + 1
    decreases secs - i
  {
    if i == secs then WaitOutcome(false, Some(Timeout(secs)), secs + 1)
    else match hs[i + 1]
      case Err(_) => WaitFrom(base, count, hs, i + 1, secs)
      case Ok(h) =>
        if Sub32(h, base) >= count then WaitOutcome(true, None, i + 2)
        else WaitFrom(base, count, hs, i + 1, secs)
  }

  /** The outcome of a wait whose `k`-th height query (0 = baseline) returns `hs[k]`. */
  function WaitSpec(count: uint32, secs: nat, hs: seq<Result<uint32>>): WaitOutcome
    requires secs < |hs|
  {
    match hs[0]
    case Err(e) => WaitOutcome(false, Some(BaselineHeight(e)), 1)
    case Ok(base) => WaitFrom(base, count, hs, 0, secs)
  }

  /** From iteration `i`, the loop succeeds exactly at the first poll that reaches the target, else times out. */
  lemma {:induction false} WaitFromResult(base: uint32, count: uint32, hs: seq<Result<uint32>>, i: nat, secs: nat)
    requires i <= secs < |hs|
    ensures var o := WaitFrom(base, count, hs, i, secs);
      && (o.done <==> exists j :: i < j <= secs && Reached(base, count, hs, j))
      && (o.done ==> i + 2 <= o.queries && Reached(base, count, hs, o.queries - 1))
      && (o.done ==> forall j :: i < j < o.queries - 1 ==> !Reached(base, count, hs, j))
      && (!o.done ==> o.err == Some(Timeout(secs)) && o.queries == secs + 1)
    decreases secs - i
  {
    if i < secs {
      WaitFromResult(base, count, hs, i + 1, secs);
      if Reached(base, count, hs, i + 1) {
        assert WaitFrom(base, count, hs, i, secs).queries == i + 2;
      }
    }
  }

  /**
   * A failed baseline ends the wait at once; otherwise it succeeds, with no error, at
   * the first of the `secs` polls that reads a height at least `count` past the baseline
   * (in uint32 arithmetic), and times out after all `secs` polls when none does.
   */
  lemma WaitSpecResult(count: uint32, secs: nat, hs: seq<Result<uint32>>)
    requires secs < |hs|
    ensures var o := WaitSpec(count, secs, hs);
      && (hs[0].Err? ==> o == WaitOutcome(false, Some(BaselineHeight(hs[0].error)), 1))
      && (hs[0].Ok? ==> (o.done <==> exists j :: 0 < j <= secs && Reached(hs[0].value, count, hs, j)))
      && (hs[0].Ok? && o.done ==>
            && o.err.None? && Reached(hs[0].value, count, hs, o.queries - 1)
            && forall j :: 0 < j < o.queries - 1 ==> !Reached(hs[0].value, count, hs, j))
      && (hs[0].Ok? && !o.done ==> o.err == Some(Timeout(secs)) && o.queries == secs + 1)
  {
    if hs[0].Ok? {
      WaitFromResult(hs[0].value, count, hs, 0, secs);
    }
  }

  /** Baseline 100, default target, heights 100, 101, 102: success at the third poll. */
  lemma WaitScenarioAdvance()
    ensures WaitSpec(2, 5, [Ok(100), Ok(100), Ok(101), Ok(102), Ok(102), Ok(102)]) == WaitOutcome(true, None, 4)
  {
  }

  /** Baseline 100, two seconds, no progress: a timeout naming 2 seconds. */
  lemma WaitScenarioTimeout()
    ensures WaitSpec(2, 2, [Ok(100), Ok(100), Ok(100)]) == WaitOutcome(false, Some(Timeout(2)), 3)
  {
  }

  /** A poll below the baseline wraps around in uint32 and counts as progress. */
  lemma WaitScenarioRegressedHeight()
    ensures WaitSpec(2, 1, [Ok(100), Ok(99)]) == WaitOutcome(true, None, 2)
  {
  }

  /** The results of `n` height queries issued from counter value `q` on transport `c`. */
  ghost function Heights(c: Option<Handle>, network: Network, decode: Decoder<uint32>, q: uint64, n: nat): (hs: seq<Result<uint32>>)
    ensures |hs| == n
  {
    seq(n, k requires 0 <= k < n => Exchange(c, network, CurrentBlockHeight, decode, QidAfter(q, k)))
  }

  /** The outcome of WaitForGenerateBlock on transport `c` with the counter at `q`. */
  ghost function WaitResult(c: Option<Handle>, network: Network, decode: Decoder<uint32>, q: uint64,
                            timeout: int64, blockCount: seq<uint32>): WaitOutcome
  {
    WaitSpec(TargetCount(blockCount), WaitSeconds(timeout), Heights(c, network, decode, q, WaitSeconds(timeout) + 1))
  }

  /** The requests `n` height queries issued from counter value `q` on transport `h` put on the wire. */
  ghost function HeightRequests(h: Handle, q: uint64, n: nat): (rs: seq<Request>)
    ensures |rs| == n
  {
    seq(n, k requires 0 <= k < n => Request(h, CurrentBlockHeight, DecimalString(QidAfter(q, k + 1))))
  }

  /** One more height query on `h` extends a log of `n` such queries by the request carrying the next id. */
  lemma HeightRequestsStep(log0: seq<Request>, before: seq<Request>, h: Handle, q: uint64, n: nat)
    requires before == log0 + HeightRequests(h, q, n)
    ensures before + [Request(h, CurrentBlockHeight, DecimalString(QidAfter(q, n + 1)))] == log0 + HeightRequests(h, q, n + 1)
  {
    assert HeightRequests(h, q, n + 1) == HeightRequests(h, q, n) + [Request(h, CurrentBlockHeight, DecimalString(QidAfter(q, n + 1)))];
  }

  // ---------------------------------------------------------------------------
  // The manager

  class ClientMgr {
    var rpc: Option<Handle>
    var rest: Option<Handle>
    var ws: Option<Handle>
    var defClient: Option<Handle>
    var qid: uint64
    /** Every request this manager has put on a transport, in order. */
    ghost var sent: seq<Request>

    /** The counter has been incremented once per request sent, and each request carries the id of its increment. */
    ghost predicate Valid()
      reads this
    {
      qid == QidAfter(0, |sent|) && NumberedInOrder(sent)
    }

    /** A zero-valued manager: no transport, counter at zero. */
    constructor ()
      ensures Valid()
      ensures rpc.None? && rest.None? && ws.None? && defClient.None?
      ensures qid == 0 && sent == []
    {
      rpc, rest, ws, defClient := None, None, None, None;
      qid := 0;
      sent := [];
    }

    method NewRpcClient(h: Handle) returns (c: Handle)
      requires Valid()
      modifies this`rpc
      ensures Valid() && rpc == Some(h) && c == h
    {
      rpc := Some(h);
      c := h;
    }

    method NewRestClient(h: Handle) returns (c: Handle)
      requires Valid()
      modifies this`rest
      ensures Valid() && rest == Some(h) && c == h
    {
      rest := Some(h);
      c := h;
    }

    method NewWebSocketClient(h: Handle) returns (c: Handle)
      requires Valid()
      modifies this`ws
      ensures Valid() && ws == Some(h) && c == h
    {
      ws := Some(h);
      c := h;
    }

    method SetDefaultClient(c: Option<Handle>)
      requires Valid()
      modifies this`defClient
      ensures Valid() && defClient == c
    {
      defClient := c;
    }

    /** The active transport: the default, else RPC, else REST, else web socket, else none. */
    function GetClient(): (r: Option<Handle>)
      reads this`defClient, this`rpc, this`rest, this`ws
      ensures r.None? <==> defClient.None? && rpc.None? && rest.None? && ws.None?
    {
      if defClient.Some? then defClient
      else if rpc.Some? then rpc
      else if rest.Some? then rest
      else if ws.Some? then ws
      else None
    }

    /** The active transport is the first occupied slot in priority order default, RPC, REST, web socket. */
    lemma GetClientPriority()
      ensures GetClient() == FirstSet([defClient, rpc, rest, ws])
    {
      var slots := [defClient, rpc, rest, ws];
      assert slots[1..] == [rpc, rest, ws] && slots[1..][1..] == [rest, ws] && slots[1..][1..][1..] == [ws];
      assert FirstSet([ws]) == ws by { assert [ws][1..] == []; }
      assert FirstSet([rest, ws]) == if rest.Some? then rest else ws;
      assert FirstSet([rpc, rest, ws]) == if rpc.Some? then rpc else FirstSet([rest, ws]);
    }

    /**
     * Increments the counter and renders the new value in decimal. Only Send calls it,
     * and Send logs the request that restores Valid(); on its own it breaks Valid().
     */
    method GetNextQid() returns (id: string)
      modifies this`qid
      ensures qid == Next(old(qid))
      ensures old(qid) < TWO_64 - 1 ==> qid == old(qid) + 1
      ensures id == DecimalString(qid) && ParseDecimal(id) == qid
      ensures old(qid) == 0 ==> id == "1"
    {
      qid := Next(qid);
      id := DecimalString(qid);
      ParseDecimalString(qid);
    }

    /** One request was sent on the active transport with the next id, or, with no transport, nothing happened. */
    twostate predicate Dispatched(call: Call)
      reads this
    {
      if GetClient().None? then qid == old(qid) && sent == old(sent)
      else qid == Next(old(qid)) && sent == old(sent) + [Request(GetClient().value, call, DecimalString(qid))]
    }

    /** `client.<call>(this.getNextQid(), ...)` followed by the error check and the decoder. */
    method Send<T>(h: Handle, network: Network, call: Call, decode: Decoder<T>) returns (r: Result<T>)
      requires Valid()
      modifies this`qid, this`sent
      ensures Valid()
      ensures qid == Next(old(qid)) && sent == old(sent) + [Request(h, call, DecimalString(qid))]
      ensures r == Exchange(Some(h), network, call, decode, old(qid))
    {
      var id := GetNextQid();
      sent := sent + [Request(h, call, id)];
      assert sent[..|sent| - 1] == old(sent);
      var data := network(h, call, id);
      if data.Err? {
        return Err(data.error);
      }
      r := decode(data.value);
    }

    /** The template of every query: resolve a transport, fail before taking an id if none, else send once. */
    method Query<T>(network: Network, call: Call, decode: Decoder<T>) returns (r: Result<T>)
      requires Valid()
      modifies this`qid, this`sent
      ensures Valid() && Dispatched(call)
      ensures r == Exchange(GetClient(), network, call, decode, old(qid))
      ensures GetClient().None? ==> r == Err(NoClient)
    {
      var client := GetClient();
      if client.None? {
        return Err(NoClient);
      }
      r := Send(client.value, network, call, decode);
    }

    method GetCurrentBlockHeight(network: Network, decodeHeight: Decoder<uint32>) returns (r: Result<uint32>)
      requires Valid()
      modifies this`qid, this`sent
      ensures Valid() && Dispatched(CurrentBlockHeight)
      ensures r == Exchange(GetClient(), network, CurrentBlockHeight, decodeHeight, old(qid))
    {
      r := Query(network, CurrentBlockHeight, decodeHeight);
    }

    /** Returns the transport's bytes undecoded. */
    method GetBlockInfoByHeight(network: Network, height: uint32) returns (r: Result<Bytes>)
      requires Valid()
      modifies this`qid, this`sent
      ensures Valid() && Dispatched(BlockInfoByHeight(height))
      ensures r == Exchange(GetClient(), network, BlockInfoByHeight(height), Raw, old(qid))
      ensures GetClient().Some? && network(GetClient().value, BlockInfoByHeight(height), DecimalString(qid)).Ok?
              ==> r == network(GetClient().value, BlockInfoByHeight(height), DecimalString(qid))
    {
      r := Query(network, BlockInfoByHeight(height), Raw);
    }

    /** Like every query, except that an empty or `""` response is an empty event list and is not decoded. */
    method GetSmartContractEventByBlock<E>(network: Network, height: uint32, decodeEvents: Decoder<seq<E>>)
      returns (r: Result<seq<E>>)
      requires Valid()
      modifies this`qid, this`sent
      ensures Valid() && Dispatched(SmartContractEventByBlock(height))
      ensures r == Exchange(GetClient(), network, SmartContractEventByBlock(height), EventsDecoder(decodeEvents), old(qid))
      ensures GetClient().Some? ==>
                var reply := network(GetClient().value, SmartContractEventByBlock(height), DecimalString(qid));
                reply.Ok? && NoEvents(reply.value) ==> r == Ok([])
    {
      var client := GetClient();
      if client.None? {
        return Err(NoClient);
      }
      var data := Send(client.value, network, SmartContractEventByBlock(height), Raw);
      if data.Err? {
        return Err(data.error);
      }
      if NoEvents(data.value) {
        return Ok([]);
      }
      r := decodeEvents(data.value);
    }

    /** Resolves a transport, finalises the transaction, then sends it for broadcast. */
    method SendTransaction<H>(network: Network, mutTx: MutableTx, intoImmutable: MutableTx -> Result<Tx>,
                              decodeHash: Decoder<H>) returns (r: Result<H>)
      requires Valid()
      modifies this`qid, this`sent
      ensures Valid()
      ensures r == Submit(GetClient(), network, intoImmutable, mutTx, false, decodeHash, old(qid))
      ensures GetClient().None? || intoImmutable(mutTx).Err? ==> qid == old(qid) && sent == old(sent)
      ensures GetClient().Some? && intoImmutable(mutTx).Ok? ==>
                Dispatched(SendRawTransaction(intoImmutable(mutTx).value, false))
    {
      var client := GetClient();
      if client.None? {
        return Err(NoClient);
      }
      var tx := intoImmutable(mutTx);
      if tx.Err? {
        return Err(tx.error);
      }
      r := Send(client.value, network, SendRawTransaction(tx.value, false), decodeHash);
    }

    /** As SendTransaction, but for simulation, and the reply must unmarshal into a pre-execution result. */
    method PreExecTransaction<R>(network: Network, mutTx: MutableTx, intoImmutable: MutableTx -> Result<Tx>,
                                 unmarshal: Decoder<R>) returns (r: Result<R>)
      requires Valid()
      modifies this`qid, this`sent
      ensures Valid()
      ensures r == Submit(GetClient(), network, intoImmutable, mutTx, true, PreExecDecoder(unmarshal), old(qid))
      ensures GetClient().None? || intoImmutable(mutTx).Err? ==> qid == old(qid) && sent == old(sent)
      ensures GetClient().Some? && intoImmutable(mutTx).Ok? ==>
                Dispatched(SendRawTransaction(intoImmutable(mutTx).value, true))
    {
      var client := GetClient();
      if client.None? {
        return Err(NoClient);
      }
      var tx := intoImmutable(mutTx);
      if tx.Err? {
        return Err(tx.error);
      }
      var data := Send(client.value, network, SendRawTransaction(tx.value, true), Raw);
      if data.Err? {
        return Err(data.error);
      }
      var pre := unmarshal(data.value);
      if pre.Err? {
        return Err(PreExecUnmarshal(data.value, pre.error));
      }
      r := Ok(pre.value);
    }

    /**
     * Polls the height once per second until it has advanced by the target count or
     * the timeout elapses; each height query is a full query of the manager.
     */
    method WaitForGenerateBlock(network: Network, decodeHeight: Decoder<uint32>, timeout: int64, blockCount: seq<uint32>)
      returns (ok: bool, err: Option<Error>)
      requires Valid()
      modifies this`qid, this`sent
      ensures Valid()
      ensures var o := WaitResult(old(GetClient()), network, decodeHeight, old(qid), timeout, blockCount);
        && ok == o.done && err == o.err
        && (old(GetClient()).None? ==> qid == old(qid) && sent == old(sent))
        && (old(GetClient()).Some? ==>
              && qid == QidAfter(old(qid), o.queries)
              && sent == old(sent) + HeightRequests(old(GetClient()).value, old(qid), o.queries))
    {
      ghost var c, q0, log0 := GetClient(), qid, sent;
      ghost var hs := Heights(c, network, decodeHeight, q0, WaitSeconds(timeout) + 1);
      ghost var spec := WaitResult(c, network, decodeHeight, q0, timeout, blockCount);
      var count: uint32 := 2;
      if |blockCount| > 0 && blockCount[0] > 0 {
        count := blockCount[0];
      }
      var blockHeight := GetCurrentBlockHeight(network, decodeHeight);
      assert blockHeight == hs[0];
      if blockHeight.Err? {
        if c.Some? {
          HeightRequestsStep(log0, log0, c.value, q0, 0);
        }
        assert spec == WaitOutcome(false, Some(BaselineHeight(blockHeight.error)), 1);
        return false, Some(BaselineHeight(blockHeight.error));
      }
      var secs := GoQuotient(timeout, SECOND);
      if secs <= 0 {
        secs := 1;
      }
      HeightRequestsStep(log0, log0, c.value, q0, 0);
      assert spec == WaitFrom(blockHeight.value, count, hs, 0, secs);
      ok, err := PollHeight(network, decodeHeight, count, secs, blockHeight.value, c.value, log0, q0, hs);
    }

    /**
     * The polling loop of WaitForGenerateBlock, entered after the baseline query: up to
     * `secs` height queries, skipping failed ones, until one is `count` past `base`.
     */
    method PollHeight(network: Network, decodeHeight: Decoder<uint32>, count: uint32, secs: nat, base: uint32,
                      ghost h: Handle, ghost log0: seq<Request>, ghost q0: uint64, ghost hs: seq<Result<uint32>>)
      returns (ok: bool, err: Option<Error>)
      requires Valid() && GetClient() == Some(h) && |hs| == secs + 1
      requires forall k | 1 <= k <= secs :: hs[k] == Exchange(Some(h), network, CurrentBlockHeight, decodeHeight, QidAfter(q0, k))
      requires qid == QidAfter(q0, 1) && sent == log0 + HeightRequests(h, q0, 1)
      modifies this`qid, this`sent
      ensures Valid()
      ensures var o := WaitFrom(base, count, hs, 0, secs);
        && ok == o.done && err == o.err
        && qid == QidAfter(q0, o.queries)
        && sent == log0 + HeightRequests(h, q0, o.queries)
    {
      ghost var spec := WaitFrom(base, count, hs, 0, secs);
      for i := 0 to secs
        invariant Valid() && GetClient() == Some(h)
        invariant qid == QidAfter(q0, i + 1)
        invariant sent == log0 + HeightRequests(h, q0, i + 1)
        invariant spec == WaitFrom(base, count, hs, i, secs)
      {
        ghost var before := sent;
        var curBlockHeigh := GetCurrentBlockHeight(network, decodeHeight);
        assert curBlockHeigh == hs[i + 1];
        assert qid == QidAfter(q0, i + 2);
        HeightRequestsStep(log0, before, h, q0, i + 1);
        if curBlockHeigh.Err? {
          continue;
        }
        if Sub32(curBlockHeigh.value, base) >= count {
          assert spec == WaitOutcome(true, None, i + 2);
          return true, None;
        }
      }
      assert spec == WaitOutcome(false, Some(Timeout(secs)), secs + 1);
      return false, Some(Timeout(secs));
    }
  }
}
