/** The encrypted-note envelope: the record that the sender builds around the
    output of NaCl `box` and that the wallet's `eth_decrypt` unwraps. */
module Codec {

  newtype byte = x: int | 0 <= x < 256

  /** The one scheme tag the wallet accepts for `eth_decrypt`. */
  const Version: string := "x25519-xsalsa20-poly1305"

  /** nacl.box.nonceLength: the nonce of an envelope is 24 random bytes. */
  const NonceLength: nat := 24

  /** The four fields of the record, in the order the sender writes them. */
  datatype Envelope = Envelope(version: string, nonce: seq<byte>, ephemPublicKey: seq<byte>, ciphertext: seq<byte>)

  /** What the encryption step yields besides the nonce: the public half of the
      fresh ephemeral key pair and the authenticated ciphertext. */
  datatype Boxed = Boxed(ephemPublicKey: seq<byte>, ciphertext: seq<byte>)

  /** The shape every envelope sent by the client has. */
  predicate WellFormed(e: Envelope) {
    e.version == Version && |e.nonce| == NonceLength
  }

  /** Builds the envelope from the nonce and the encryption output: the tag is
      the fixed scheme, and nonce, key and ciphertext are carried unchanged. */
  function Seal(nonce: seq<byte>, boxed: Boxed): (e: Envelope)
    requires |nonce| == NonceLength
    ensures WellFormed(e)
    ensures Open(e) == (nonce, boxed)
  {
    Envelope(Version, nonce, boxed.ephemPublicKey, boxed.ciphertext)
  }

  /** The parts the wallet reads back out of an envelope. */
  function Open(e: Envelope): (seq<byte>, Boxed) {
    (e.nonce, Boxed(e.ephemPublicKey, e.ciphertext))
  }
}
