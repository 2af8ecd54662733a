/** The protocol client of the coordination chain (Paloma), chain/paloma/client.go:
    queries of the signing queue and the validator registry, and the messages the
    client submits through its MessageSender.

    The remote side is an input: a query is a function from the request to the
    chain's answer, `UnpackAny` is a partial function from an envelope to a
    message, and the answer the chain gives to a submitted message is a
    parameter of `SendMsg`. */
module PalomaClient {
  import opened Wrappers

  newtype u64 = x: int | 0 <= x < 0x1_0000_0000_0000_0000
  newtype byte = x: int | 0 <= x < 0x100
  type Bytes = seq<byte>

  /** A Go error, seen through the text its Error() method returns. */
  datatype Error = Error(text: string)

  /** The text by which the validator registry reports an unknown validator. */
  const NotFoundMarker := "item not found in store"

  /** A protobuf Any envelope: the type URL and the encoded message. */
  datatype Any = Any(typeUrl: string, value: Bytes)

  // ---------------------------------------------------------------------------
  // The query surface

  datatype QueuedMessagesForSigningRequest = QueuedMessagesForSigningRequest(valAddress: Bytes, queueTypeName: string)

  /** One entry of the messageToSign list of the answer. */
  datatype MessageToSign = MessageToSign(id: u64, nonce: u64, bytesToSign: Bytes, msg: Any)

  datatype MessagesInQueueRequest = MessagesInQueueRequest(queueTypeName: string)

  /** One validator's signature as the chain stores it. */
  datatype SignData = SignData(valAddress: Bytes, signature: Bytes)

  /** One entry of the messages list of the answer. */
  datatype MessageInQueue = MessageInQueue(id: u64, nonce: u64, msg: Any, signData: seq<SignData>)

  datatype ValidatorInfoRequest = ValidatorInfoRequest(valAddr: string)

  /** The answer's validator field, which protobuf may leave unset. */
  datatype ValidatorInfoResponse<V> = ValidatorInfoResponse(validator: Option<V>)

  // ---------------------------------------------------------------------------
  // What the client hands to its callers and receives from them

  /** chain.QueuedMessage, with the unpacked domain message of type M. */
  datatype QueuedMessage<M> = QueuedMessage(id: u64, nonce: u64, bytesToSign: Bytes, msg: M)

  datatype ValidatorSignature = ValidatorSignature(valAddress: Bytes, signature: Bytes)

  datatype MessageWithSignatures<M> = MessageWithSignatures(queuedMessage: QueuedMessage<M>, signatures: seq<ValidatorSignature>)

  datatype BroadcastMessageSignatureIn = BroadcastMessageSignatureIn(id: u64, queueTypeName: string, signature: Bytes, extraData: Bytes)

  datatype ChainInfoIn = ChainInfoIn(chainID: string, accAddress: string)

  // ---------------------------------------------------------------------------
  // The mutation surface: the messages the client submits

  datatype SignedMessage = SignedMessage(id: u64, queueTypeName: string, signature: Bytes, extraData: Bytes)

  datatype ChainInfo = ChainInfo(chainID: string, address: string)

  datatype Msg =
    | MsgAddMessagesSignatures(signedMessages: seq<SignedMessage>)
    | MsgRegisterConductor(creator: string, valAddr: string, pubKey: Bytes, signedPubKey: Bytes)
    | MsgDeleteJob(creator: string, queueTypeName: string, messageID: u64)
    | MsgAddExternalChainInfoForValidator(chainInfos: seq<ChainInfo>)

  /** The MessageSender seam. `sent` records every message submitted, in order; the
      chain's answer to a submission is given as `reply`. */
  class MessageSender {
    ghost var sent: seq<Msg>

    constructor ()
      ensures sent == []
    {
      sent := [];
    }

    method SendMsg(msg: Msg, reply: Option<Error>) returns (err: Option<Error>)
      modifies this
      ensures sent == old(sent) + [msg]
      ensures err == reply
    {
      sent := sent + [msg];
      err := reply;
    }
  }

  // ---------------------------------------------------------------------------
  // Decoding the signing queue

  /** `q` is what queryMessagesForSigning makes of the entry `e`: the envelope unpacked,
      ID, Nonce and BytesToSign carried over. */
  predicate DecodedForSigning<M(==)>(e: MessageToSign, q: QueuedMessage<M>, unpack: Any -> Result<M, Error>) {
    && unpack(e.msg) == Ok(q.msg)
    && q.id == e.id && q.nonce == e.nonce && q.bytesToSign == e.bytesToSign
  }

  /** `m` is what QueryMessagesInQueue makes of the entry `e`: the envelope unpacked, ID and
      Nonce carried over, BytesToSign left empty, every SignData copied in order. */
  predicate DecodedInQueue<M(==)>(e: MessageInQueue, m: MessageWithSignatures<M>, unpack: Any -> Result<M, Error>) {
    && unpack(e.msg) == Ok(m.queuedMessage.msg)
    && m.queuedMessage.id == e.id && m.queuedMessage.nonce == e.nonce && m.queuedMessage.bytesToSign == []
    && CopiedSignatures(e.signData, m.signatures)
  }

  predicate CopiedSignatures(signData: seq<SignData>, sigs: seq<ValidatorSignature>) {
    && |sigs| == |signData|
    && forall k | 0 <= k < |signData| :: sigs[k] == ValidatorSignature(signData[k].valAddress, signData[k].signature)
  }

  /** queryMessagesForSigning: ask for the messages of a queue that still need this
      validator's signature and unpack each of them; one unpack failure aborts the call. */
  method QueryMessagesForSigning<M(==)>(
    query: QueuedMessagesForSigningRequest -> Result<seq<MessageToSign>, Error>,
    unpack: Any -> Result<M, Error>,
    valAddress: Bytes,
    queueTypeName: string)
    returns (r: Result<seq<QueuedMessage<M>>, Error>)
    // a failed query is returned unchanged
    ensures var resp := query(QueuedMessagesForSigningRequest(valAddress, queueTypeName));
      resp.Err? ==> r == Err(resp.error)
    // the call succeeds exactly when the query does and every envelope unpacks
    ensures var resp := query(QueuedMessagesForSigningRequest(valAddress, queueTypeName));
      r.Ok? <==> resp.Ok? && forall i | 0 <= i < |resp.value| :: unpack(resp.value[i].msg).Ok?
    // on success: one message per entry, in order
    ensures var resp := query(QueuedMessagesForSigningRequest(valAddress, queueTypeName));
      r.Ok? ==> && |r.value| == |resp.value|
                && forall i | 0 <= i < |resp.value| :: DecodedForSigning(resp.value[i], r.value[i], unpack)
    // an unpack failure is the error of the first entry that does not unpack
    ensures var resp := query(QueuedMessagesForSigningRequest(valAddress, queueTypeName));
      resp.Ok? && r.Err? ==>
        exists k | 0 <= k < |resp.value| :: && unpack(resp.value[k].msg) == Err(r.error)
                                            && forall i | 0 <= i < k :: unpack(resp.value[i].msg).Ok?
  {
    var msgs := query(QueuedMessagesForSigningRequest(valAddress, queueTypeName));
    if msgs.Err? {
      return Err(msgs.error);
    }
    var entries := msgs.value;
    var res: seq<QueuedMessage<M>> := [];
    var i := 0;
    while i < |entries|
      invariant 0 <= i <= |entries|
      invariant |res| == i
      invariant forall j | 0 <= j < i :: DecodedForSigning(entries[j], res[j], unpack)
    {
      var ptr := unpack(entries[i].msg);
      if ptr.Err? {
        return Err(ptr.error);
      }
      res := res + [QueuedMessage(entries[i].id, entries[i].nonce, entries[i].bytesToSign, ptr.value)];
      i := i + 1;
    }
    return Ok(res);
  }

  /** QueryMessagesInQueue: fetch every message of a queue with the signatures collected so
      far; one unpack failure aborts the call. */
  method QueryMessagesInQueue<M(==)>(
    query: MessagesInQueueRequest -> Result<seq<MessageInQueue>, Error>,
    unpack: Any -> Result<M, Error>,
    queueTypeName: string)
    returns (r: Result<seq<MessageWithSignatures<M>>, Error>)
    ensures var resp := query(MessagesInQueueRequest(queueTypeName));
      resp.Err? ==> r == Err(resp.error)
    ensures var resp := query(MessagesInQueueRequest(queueTypeName));
      r.Ok? <==> resp.Ok? && forall i | 0 <= i < |resp.value| :: unpack(resp.value[i].msg).Ok?
    ensures var resp := query(MessagesInQueueRequest(queueTypeName));
      r.Ok? ==> && |r.value| == |resp.value|
                && forall i | 0 <= i < |resp.value| :: DecodedInQueue(resp.value[i], r.value[i], unpack)
    ensures var resp := query(MessagesInQueueRequest(queueTypeName));
      resp.Ok? && r.Err? ==>
        exists k | 0 <= k < |resp.value| :: && unpack(resp.value[k].msg) == Err(r.error)
                                            && forall i | 0 <= i < k :: unpack(resp.value[i].msg).Ok?
  {
    var msgs := query(MessagesInQueueRequest(queueTypeName));
    if msgs.Err? {
      return Err(msgs.error);
    }
    var entries := msgs.value;
    var msgsWithSig: seq<MessageWithSignatures<M>> := [];
    var i := 0;
    while i < |entries|
      invariant 0 <= i <= |entries|
      invariant |msgsWithSig| == i
      invariant forall j | 0 <= j < i :: DecodedInQueue(entries[j], msgsWithSig[j], unpack)
    {
      var msg := entries[i];
      var valSigs: seq<ValidatorSignature> := [];
      var k := 0;
      while k < |msg.signData|
        invariant 0 <= k <= |msg.signData|
        invariant CopiedSignatures(msg.signData[..k], valSigs)
      {
        valSigs := valSigs + [ValidatorSignature(msg.signData[k].valAddress, msg.signData[k].signature)];
        k := k + 1;
      }
      assert msg.signData[..k] == msg.signData;
      var ptr := unpack(msg.msg);
      if ptr.Err? {
        return Err(ptr.error);
      }
      msgsWithSig := msgsWithSig + [MessageWithSignatures(QueuedMessage(msg.id, msg.nonce, [], ptr.value), valSigs)];
      i := i + 1;
    }
    return Ok(msgsWithSig);
  }

  // ---------------------------------------------------------------------------
  // Validator lookup and strings.Contains

  /** `sub` occurs in `s` starting at index i. */
  predicate OccursAt(s: string, sub: string, i: int) {
    0 <= i && i + |sub| <= |s| && s[i..i + |sub|] == sub
  }

  /** strings.Contains. */
  predicate Contains(s: string, sub: string)
    decreases |s|
  {
    (|sub| <= |s| && s[..|sub|] == sub) || (|s| > 0 && Contains(s[1..], sub))
  }

  /** An occurrence anywhere makes Contains hold. */
  lemma {:induction false} OccurrenceIsContained(s: string, sub: string, i: int)
    requires OccursAt(s, sub, i)
    ensures Contains(s, sub)
    decreases i
  {
    if i == 0 {
      assert s[..|sub|] == s[0..0 + |sub|];
    } else {
      assert s[1..][i - 1..i - 1 + |sub|] == sub by {
        forall k | 0 <= k < |sub| ensures s[1..][i - 1..i - 1 + |sub|][k] == sub[k] {
          assert s[i..i + |sub|][k] == sub[k];
        }
      }
      assert OccursAt(s[1..], sub, i - 1);
      OccurrenceIsContained(s[1..], sub, i - 1);
    }
  }

  /** Contains holds only where there is an occurrence. */
  lemma {:induction false} ContainedOccurs(s: string, sub: string) returns (i: int)
    requires Contains(s, sub)
    ensures OccursAt(s, sub, i)
    decreases |s|
  {
    if |sub| <= |s| && s[..|sub|] == sub {
      i := 0;
      assert s[0..0 + |sub|] == s[..|sub|];
    } else {
      var j := ContainedOccurs(s[1..], sub);
      assert s[j + 1..j + 1 + |sub|] == sub by {
        forall k | 0 <= k < |sub| ensures s[j + 1..j + 1 + |sub|][k] == sub[k] {
          assert s[1..][j..j + |sub|][k] == sub[k];
        }
      }
      i := j + 1;
    }
  }

  /** Contains agrees with the reference reading of strings.Contains. */
  lemma ContainsIffOccurs(s: string, sub: string)
    ensures Contains(s, sub) <==> exists i :: OccursAt(s, sub, i)
  {
    if Contains(s, sub) {
      var i := ContainedOccurs(s, sub);
    }
    forall i | OccursAt(s, sub, i)
      ensures Contains(s, sub)
    {
      OccurrenceIsContained(s, sub, i);
    }
  }

  /** QueryValidatorInfo: a remote error whose text contains the not-found marker becomes an
      absent validator with no error; every other error comes back unchanged. */
  function QueryValidatorInfo<V(==)>(query: ValidatorInfoRequest -> Result<ValidatorInfoResponse<V>, Error>, valAddr: string): (r: Result<Option<V>, Error>)
    ensures var resp := query(ValidatorInfoRequest(valAddr));
      r.Err? <==> resp.Err? && !(exists i :: OccursAt(resp.error.text, NotFoundMarker, i))
    ensures var resp := query(ValidatorInfoRequest(valAddr));
      r.Err? ==> r.error == resp.error
    ensures var resp := query(ValidatorInfoRequest(valAddr));
      resp.Err? ==> (r == Ok(None) <==> exists i :: OccursAt(resp.error.text, NotFoundMarker, i))
    ensures var resp := query(ValidatorInfoRequest(valAddr));
      resp.Ok? ==> r == Ok(resp.value.validator)
  {
    match query(ValidatorInfoRequest(valAddr))
    case Err(err) =>
      ContainsIffOccurs(err.text, NotFoundMarker);
      if Contains(err.text, NotFoundMarker) then Ok(None) else Err(err)
    case Ok(valInfoRes) => Ok(valInfoRes.validator)
  }

  // ---------------------------------------------------------------------------
  // Submissions

  /** `m` batches the signatures, in order, with every field carried over. */
  predicate BatchesSignatures(m: Msg, signatures: seq<BroadcastMessageSignatureIn>) {
    && m.MsgAddMessagesSignatures?
    && |m.signedMessages| == |signatures|
    && forall i | 0 <= i < |signatures| ::
         m.signedMessages[i] == SignedMessage(signatures[i].id, signatures[i].queueTypeName,
                                              signatures[i].signature, signatures[i].extraData)
  }

  /** broadcastMessageSignatures: nothing to send is a success without a submission;
      otherwise every signature goes, in order, into one submission whose error is returned. */
  method BroadcastMessageSignatures(ms: MessageSender, signatures: seq<BroadcastMessageSignatureIn>, reply: Option<Error>)
    returns (err: Option<Error>)
    modifies ms
    ensures |signatures| == 0 ==> err == None && ms.sent == old(ms.sent)
    ensures |signatures| > 0 ==> err == reply
    ensures |signatures| > 0 ==> exists m :: ms.sent == old(ms.sent) + [m] && BatchesSignatures(m, signatures)
  {
    if |signatures| == 0 {
      return None;
    }
    var signedMessages: seq<SignedMessage> := [];
    var i := 0;
    while i < |signatures|
      invariant 0 <= i <= |signatures|
      invariant BatchesSignatures(MsgAddMessagesSignatures(signedMessages), signatures[..i])
    {
      var sig := signatures[i];
      signedMessages := signedMessages + [SignedMessage(sig.id, sig.queueTypeName, sig.signature, sig.extraData)];
      i := i + 1;
    }
    assert signatures[..i] == signatures;
    var msg := MsgAddMessagesSignatures(signedMessages);
    err := ms.SendMsg(msg, reply);
  }

  /** `m` registers the chain infos, in order, AccAddress becoming Address. */
  predicate BatchesChainInfos(m: Msg, chainInfos: seq<ChainInfoIn>) {
    && m.MsgAddExternalChainInfoForValidator?
    && |m.chainInfos| == |chainInfos|
    && forall i | 0 <= i < |chainInfos| ::
         m.chainInfos[i] == ChainInfo(chainInfos[i].chainID, chainInfos[i].accAddress)
  }

  /** AddExternalChainInfo: nothing to register is a success without a submission;
      otherwise every pair goes, in order, into one submission whose error is returned. */
  method AddExternalChainInfo(ms: MessageSender, chainInfos: seq<ChainInfoIn>, reply: Option<Error>)
    returns (err: Option<Error>)
    modifies ms
    ensures |chainInfos| == 0 ==> err == None && ms.sent == old(ms.sent)
    ensures |chainInfos| > 0 ==> err == reply
    ensures |chainInfos| > 0 ==> exists m :: ms.sent == old(ms.sent) + [m] && BatchesChainInfos(m, chainInfos)
  {
    if |chainInfos| == 0 {
      return None;
    }
    var msg := MsgAddExternalChainInfoForValidator([]);
    var i := 0;
    while i < |chainInfos|
      invariant 0 <= i <= |chainInfos|
      invariant BatchesChainInfos(msg, chainInfos[..i])
    {
      var ci := chainInfos[i];
      msg := msg.(chainInfos := msg.chainInfos + [ChainInfo(ci.chainID, ci.accAddress)]);
      i := i + 1;
    }
    assert chainInfos[..i] == chainInfos;
    err := ms.SendMsg(msg, reply);
  }

  /** RegisterValidator: one submission of the identity registration, arguments copied as
      given, its error returned. */
  method RegisterValidator(ms: MessageSender, signerAddr: string, valAddr: string, pubKey: Bytes, signedPubKey: Bytes, reply: Option<Error>)
    returns (err: Option<Error>)
    modifies ms
    ensures ms.sent == old(ms.sent) + [MsgRegisterConductor(signerAddr, valAddr, pubKey, signedPubKey)]
    ensures err == reply
  {
    err := ms.SendMsg(MsgRegisterConductor(signerAddr, valAddr, pubKey, signedPubKey), reply);
  }

  /** DeleteJob: look up the configured key (`key` is its address, or the keyring's error);
      if that fails, return the error without a submission, otherwise submit the deletion
      once, as that address. */
  method DeleteJob(ms: MessageSender, key: Result<string, Error>, queueTypeName: string, id: u64, reply: Option<Error>)
    returns (err: Option<Error>)
    modifies ms
    ensures key.Err? ==> err == Some(key.error) && ms.sent == old(ms.sent)
    ensures key.Ok? ==> ms.sent == old(ms.sent) + [MsgDeleteJob(key.value, queueTypeName, id)] && err == reply
  {
    if key.Err? {
      return Some(key.error);
    }
    var addr := key.value;
    err := ms.SendMsg(MsgDeleteJob(addr, queueTypeName, id), reply);
  }
}
