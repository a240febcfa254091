/** The rules of the messaging path that do not depend on the session: when a
    registered key counts as present, which action the send button runs, and
    the checks that must pass before a note is encrypted and sent. */
module Messaging {
  import opened Ledger

  /** `encryptionKeys(addr)` found a key: the value is neither missing nor empty. */
  predicate KeyPresent(key: Option<string>) {
    key.Some? && key.value != []
  }

  /** The handler of the send button: none (while disconnected), the key
      registration ("Enable Secure Notes"), or the encrypted send. */
  datatype SendButton = NoHandler | EnableSecureNotes | SendEncrypted

  /** The handler chosen from the user's own registered key: registration when
      the key is missing or empty, sending when it is present. */
  function ButtonFor(ownKey: Option<string>): (b: SendButton)
    ensures b != NoHandler
    ensures b == EnableSecureNotes <==> !KeyPresent(ownKey)
    ensures b == SendEncrypted <==> KeyPresent(ownKey)
  {
    if !KeyPresent(ownKey) then EnableSecureNotes else SendEncrypted
  }

  /** Why a send stops before anything is encrypted. */
  datatype SendBlock = InvalidAddress | EmptyMessage | KeyLookupFailed | RecipientNotRegistered

  /** The first check of the send path that fails, in the order they run: the
      recipient address, the message, the lookup of the recipient's key, and
      the key itself. `keyLookup` is only consulted once the first two pass. */
  function SendGate(validRecipient: bool, content: string, keyLookup: Fetch<Option<string>>): Option<SendBlock> {
    if !validRecipient then Some(InvalidAddress)
    else if content == [] then Some(EmptyMessage)
    else if keyLookup.Failed? then Some(KeyLookupFailed)
    else if !KeyPresent(keyLookup.value) then Some(RecipientNotRegistered)
    else None
  }

  /** A send gets through the checks exactly when the address is valid, the
      message is non-empty and the recipient has a non-empty registered key. */
  lemma SendGatePasses(validRecipient: bool, content: string, keyLookup: Fetch<Option<string>>)
    ensures SendGate(validRecipient, content, keyLookup) == None <==>
      validRecipient && content != [] && keyLookup.Fetched? && KeyPresent(keyLookup.value)
  {
  }

  /** The checks run in a fixed order: an invalid address is reported whatever
      the message and the key; an empty message whatever the key; a missing
      key only for a valid address and a non-empty message. */
  lemma SendGateOrder(validRecipient: bool, content: string, keyLookup: Fetch<Option<string>>)
    ensures !validRecipient ==> SendGate(validRecipient, content, keyLookup) == Some(InvalidAddress)
    ensures validRecipient && content == [] ==> SendGate(validRecipient, content, keyLookup) == Some(EmptyMessage)
    ensures SendGate(validRecipient, content, keyLookup) == Some(RecipientNotRegistered) ==>
      validRecipient && content != [] && keyLookup.Fetched? && !KeyPresent(keyLookup.value)
  {
  }
}
