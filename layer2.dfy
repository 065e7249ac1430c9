/**
 * The layer-2 extension of client/client.go: queries to a side-chain node through a
 * wrapped client manager, storage-key construction, and store-proof verification.
 */
module Layer2 {
  import opened Types
  import Hex
  import opened Client

  /** The tag byte that prefixes a contract-scoped storage key. */
  const STORE_KEY_TAG: byte := 0x05

  /** `common.ToArrayReverse`: the bytes in reverse order. */
  function Reverse(s: Bytes): (r: Bytes)
    ensures |r| == |s|
    ensures forall i | 0 <= i < |s| :: r[i] == s[|s| - 1 - i]
  {
    if s == [] then [] else Reverse(s[1..]) + [s[0]]
  }

  lemma ReverseReverse(s: Bytes)
    ensures Reverse(Reverse(s)) == s
  {
    assert forall i | 0 <= i < |s| :: Reverse(Reverse(s))[i] == s[i];
  }

  /**
   * The storage key of `key` in the contract whose address is the hex string
   * `contractAddress`: the tag, the address bytes reversed, then the key; an empty
   * address leaves the key as it is. A hex decoding error is discarded, so the
   * address part is whatever was decoded before it, and the error result is always nil.
   */
  function GetLayer2StoreKey(contractAddress: string, key: Bytes): (r: (Bytes, Option<Error>))
    ensures r.1.None?
    ensures |contractAddress| == 0 ==> r.0 == key
    ensures |contractAddress| > 0 ==>
              && |r.0| == 1 + |Hex.DecodeString(contractAddress).0| + |key|
              && r.0[0] == STORE_KEY_TAG
              && r.0[1..|r.0| - |key|] == Reverse(Hex.DecodeString(contractAddress).0)
              && r.0[|r.0| - |key|..] == key
  {
    if |contractAddress| > 0 then
      var (contractAddrBytes, _) := Hex.DecodeString(contractAddress);
      var newKey := [STORE_KEY_TAG] + Reverse(contractAddrBytes) + key;
      assert newKey[1..|newKey| - |key|] == Reverse(contractAddrBytes);
      assert newKey[|newKey| - |key|..] == key;
      (newKey, None)
    else
      (key, None)
  }

  /** Address "0A0b" decodes, in either case, to bytes 10 and 11, which the key holds reversed. */
  lemma StoreKeyScenario()
    ensures GetLayer2StoreKey("0A0b", [7]).0 == [STORE_KEY_TAG, 11, 10, 7]
  {
    var s := "0A0b";
    assert s[0] == '0' && s[1] == 'A' && s[2..] == "0b";
    assert s[2..][0] == '0' && s[2..][1] == 'b' && s[2..][2..] == "";
    assert Hex.HexValue('0') == 0 && Hex.HexValue('A') == 10 && Hex.HexValue('b') == 11;
    assert Hex.DecodeString(s[2..]).0 == [11];
    assert Hex.DecodeString(s).0 == [10, 11];
    assert Reverse([10, 11]) == [11, 10];
  }

  /** For a well-formed hex address the key is `1 + |address|/2 + |key|` bytes long. */
  lemma StoreKeyLength(contractAddress: string, key: Bytes)
    requires |contractAddress| > 0 && Hex.IsHex(contractAddress)
    ensures |GetLayer2StoreKey(contractAddress, key).0| == 1 + |contractAddress| / 2 + |key|
  {
  }

  /** The key for the hex encoding of address bytes `addr` is tag, reversed `addr`, key. */
  lemma StoreKeyOfEncodedAddress(addr: Bytes, key: Bytes)
    requires |addr| > 0
    ensures GetLayer2StoreKey(Hex.EncodeToString(addr), key).0 == [STORE_KEY_TAG] + Reverse(addr) + key
  {
    Hex.DecodeEncode(addr);
  }

  /** Address bytes and key can be read back from a contract-scoped storage key. */
  lemma StoreKeyRecoverable(addr: Bytes, key: Bytes)
    requires |addr| > 0
    ensures var k := GetLayer2StoreKey(Hex.EncodeToString(addr), key).0;
      && |k| == 1 + |addr| + |key|
      && Reverse(k[1..1 + |addr|]) == addr
      && k[1 + |addr|..] == key
  {
    StoreKeyOfEncodedAddress(addr, key);
    var k := [STORE_KEY_TAG] + Reverse(addr) + key;
    assert k[1..1 + |addr|] == Reverse(addr);
    assert k[1 + |addr|..] == key;
    ReverseReverse(addr);
  }

  /**
   * The external IAVL library over a proof representation `P`: deserialisation of a
   * store proof, the check against a state root, and the check of one key/value pair.
   * A check returns None for nil (pass) or the error it reports.
   */
  datatype ProofLibrary<!P> = ProofLibrary(
    deserialize: Bytes -> Result<P>,
    verify: (P, Bytes) -> Option<Error>,
    verifyItem: (P, Bytes, Bytes) -> Option<Error>)

  /**
   * Deserialise the proof, verify it against the state root, then verify the key/value
   * item, stopping at the first failure and returning its error.
   */
  function VerifyLayer2StoreProof<P>(lib: ProofLibrary<P>, key: Bytes, value: Bytes, proof: Bytes, stateRoot: Bytes)
    : (r: (bool, Option<Error>))
    ensures r.0 <==> r.1.None?
    ensures r.0 <==> && lib.deserialize(proof).Ok?
                     && lib.verify(lib.deserialize(proof).value, stateRoot).None?
                     && lib.verifyItem(lib.deserialize(proof).value, key, value).None?
    ensures lib.deserialize(proof).Err? ==> r.1 == Some(lib.deserialize(proof).error)
    ensures lib.deserialize(proof).Ok? && lib.verify(lib.deserialize(proof).value, stateRoot).Some? ==>
              r.1 == lib.verify(lib.deserialize(proof).value, stateRoot)
    ensures lib.deserialize(proof).Ok? && lib.verify(lib.deserialize(proof).value, stateRoot).None? ==>
              r.1 == lib.verifyItem(lib.deserialize(proof).value, key, value)
  {
    match lib.deserialize(proof)
    case Err(e) => (false, Some(e))
    case Ok(storeProof) =>
      match lib.verify(storeProof, stateRoot)
      case Some(e) => (false, Some(e))
      case None =>
        match lib.verifyItem(storeProof, key, value)
        case Some(e) => (false, Some(e))
        case None => (true, None)
  }

  /**
   * Short-circuit: once a step fails, the later steps do not matter. Two libraries that
   * agree up to the failing step give the same result.
   */
  lemma VerifyShortCircuits<P>(lib1: ProofLibrary<P>, lib2: ProofLibrary<P>, key: Bytes, value: Bytes, proof: Bytes, stateRoot: Bytes)
    requires lib1.deserialize(proof) == lib2.deserialize(proof)
    requires lib1.deserialize(proof).Ok? ==>
               lib1.verify(lib1.deserialize(proof).value, stateRoot) == lib2.verify(lib1.deserialize(proof).value, stateRoot)
    requires lib1.deserialize(proof).Err? || lib1.verify(lib1.deserialize(proof).value, stateRoot).Some?
    ensures VerifyLayer2StoreProof(lib1, key, value, proof, stateRoot) == VerifyLayer2StoreProof(lib2, key, value, proof, stateRoot)
  {
  }

  /** A client manager used to reach a layer-2 node. */
  class Layer2ClientMgr {
    var client: ClientMgr

    constructor (c: ClientMgr)
      ensures client == c
    {
      client := c;
    }

    method GetLayer2BlockByHeight<B>(network: Network, height: uint32, decodeBlock: Decoder<B>) returns (r: Result<B>)
      requires client.Valid()
      modifies client`qid, client`sent
      ensures client.Valid() && client.Dispatched(BlockByHeight(height))
      ensures r == Exchange(client.GetClient(), network, BlockByHeight(height), decodeBlock, old(client.qid))
    {
      r := client.Query(network, BlockByHeight(height), decodeBlock);
    }

    method GetLayer2BlockByHash<B>(network: Network, blockHash: string, decodeBlock: Decoder<B>) returns (r: Result<B>)
      requires client.Valid()
      modifies client`qid, client`sent
      ensures client.Valid() && client.Dispatched(BlockByHash(blockHash))
      ensures r == Exchange(client.GetClient(), network, BlockByHash(blockHash), decodeBlock, old(client.qid))
    {
      r := client.Query(network, BlockByHash(blockHash), decodeBlock);
    }

    method GetLayer2StoreProof<S>(network: Network, key: Bytes, decodeProof: Decoder<S>) returns (r: Result<S>)
      requires client.Valid()
      modifies client`qid, client`sent
      ensures client.Valid() && client.Dispatched(Layer2StoreProof(key))
      ensures r == Exchange(client.GetClient(), network, Layer2StoreProof(key), decodeProof, old(client.qid))
    {
      r := client.Query(network, Layer2StoreProof(key), decodeProof);
    }
  }
}
