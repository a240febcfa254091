/** The client's view of its collaborators: the ledger contract's records, the
    outcome of a read or of a transaction, and the calls the client issues to
    the contract and to the wallet. */
module Ledger {
  import opened Codec

  datatype Option<+T> = None | Some(value: T)

  /** The outcome of one read call to the contract: its value, or a thrown error
      (a reverted call, a missing contract, a network failure). */
  datatype Fetch<+T> = Fetched(value: T) | Failed

  /** The outcome of one state-changing call: the wallet or the node refused to
      submit it (no transaction exists), it was submitted and `tx.wait()` threw,
      or it was confirmed. */
  datatype TxOutcome = Rejected | Reverted | Confirmed

  /** A note record as `getNote(i)` returns it. */
  datatype Note = Note(sender: string, recipient: string, encryptedContent: string,
                       isRead: bool, timestamp: int, isDeleted: bool)

  /** An icon listing as `getIcon(i)` returns it; `iconType` is the enum value. */
  datatype Icon = Icon(iconType: nat, price: nat, available: bool)

  /** The state-changing contract calls the client makes. */
  datatype Write =
    | RegisterPublicKey(key: string)
    | BuyAndSendIcon(iconId: int, recipient: string, value: nat)
    | SendEncryptedNote(noteRecipient: string, payload: Envelope)
    | ReadEncryptedNote(noteId: nat)
    | DeleteNote(deletedId: nat)

  /** One external call issued by the client, in the order issued. */
  datatype Call =
    | EncryptionKeys(owner: Option<string>)                   // contract read
    | GetNote(noteId: nat)                                    // contract read
    | EthGetEncryptionPublicKey(account: Option<string>)      // wallet
    | EthDecrypt(content: string, account: Option<string>)    // wallet
    | Submit(write: Write)                                    // contract write
    | Wait(waited: Write)                                     // tx.wait()

  /** No contract write is among the calls. */
  predicate NoWrites(calls: seq<Call>) {
    forall k :: 0 <= k < |calls| ==> !calls[k].Submit?
  }

  predicate AllFetched<T>(s: seq<Fetch<T>>) {
    forall k :: 0 <= k < |s| ==> s[k].Fetched?
  }

  function Values<T>(s: seq<Fetch<T>>): (r: seq<T>)
    requires AllFetched(s)
    ensures |r| == |s| && forall k :: 0 <= k < |s| ==> s[k] == Fetched(r[k])
  {
    seq(|s|, k requires 0 <= k < |s| => s[k].value)
  }

  /** The values of a prefix are the prefix of the values. */
  lemma ValuesPrefix<T>(s: seq<Fetch<T>>, n: nat)
    requires n <= |s| && AllFetched(s[..n])
    ensures n < |s| && s[n].Fetched? ==> AllFetched(s[..n + 1]) && Values(s[..n + 1]) == Values(s[..n]) + [s[n].value]
  {
    if n < |s| && s[n].Fetched? {
      assert forall k :: 0 <= k < n ==> s[..n + 1][k] == s[..n][k];
      assert Values(s[..n + 1])[..n] == Values(s[..n]);
    }
  }
}
