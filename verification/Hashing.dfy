/** Ideal hashing and signing for the compute ledger.

    A digest is a free term: the constructor says what was hashed, so two digests are equal exactly
    when the hashed values are.  A leaf preimage is a JSON object and a pair preimage is 128 hex
    digits, so the constructors really are disjoint.  A key stands for a whole Ed25519 key pair and a
    signature records which key signed which message. */
module Hashing {
  datatype Option<+T> = None | Some(value: T)

  datatype Result<+T, +E> = Ok(value: T) | Err(error: E)

  type Key = string
  type Account = string  // "" is the absent account

  /** One row of the credit table. */
  datatype Row = Row(account: Account, credit: real, debit: real)

  datatype Position = Left | Right | Unknown(text: string)

  datatype Step = Step(hash: Digest, position: Position)

  datatype Proof = Proof(leaf: Digest, index: int, root: Digest, steps: seq<Step>)

  datatype Digest =
    | ZeroHash
    | TxHash(body: TxBody)
    | PairHash(left: Digest, right: Digest)
    | StateHash(rows: seq<Row>)
    | HeaderHash(height: int, previous: Digest, timestamp: string,
                 transactionsRoot: Digest, stateRoot: Digest, validator: Key)
    | ReceiptHash(sourceChain: string, burnTxHash: Digest, account: Account, amount: real)

  /** A payload number: what float() makes of the field, 0 when the field is absent. */
  datatype Seconds = Amount(value: real) | NotANumber

  datatype Payload =
    | JobSubmitted(note: string)
    | JobAssigned(note: string)
    | ValidatorRegistered(role: string)
    | JobCompleted(provider: Account, consumer: Account, gpuSeconds: Seconds)
    | CreditSettled(fromAccount: Account, toAccount: Account, settled: Seconds)
    | BridgeBurn(burnAccount: Account, burned: Seconds, destChain: string, bridgeId: string)
    | BridgeMint(mintAccount: Account, minted: Seconds, receipt: Option<Digest>, sourceChain: string,
                 burnTxHash: Digest, burnBlockHash: Digest, burnBlockHeight: int, inclusion: Proof)

  /** The signed and hashed part of a transaction. */
  datatype TxBody = TxBody(id: string, sender: Key, nonce: int, timestamp: string, payload: Payload)

  datatype Message = BlockMessage(hash: Digest) | TxMessage(body: TxBody)

  datatype Signature = NoSignature | Signed(key: Key, message: Message)

  datatype Transaction = Transaction(body: TxBody, signature: Signature)

  function Hash(tx: Transaction): Digest { TxHash(tx.body) }

  function Sign(key: Key, message: Message): Signature { Signed(key, message) }

  predicate VerifySignature(key: Key, message: Message, signature: Signature) {
    signature == Signed(key, message)
  }
}
