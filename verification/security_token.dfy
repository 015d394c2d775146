/**
 The WS-Security token a client attaches to its requests: the device's clock
 reading and a nonce, fixed at construction (both properties are get-only).
 */
module SecurityTokens {
  import opened Clock

  newtype byte = x: int | 0 <= x < 256

  /** Every creator of a token in the library fills a fresh 20-byte buffer. */
  const NonceLength: nat := 20

  type Nonce = s: seq<byte> | |s| == NonceLength witness seq(20, i => 0 as byte)

  /** The constructor stores both arguments as given: no copy of the nonce and no
      check of its length. */
  datatype SecurityToken = SecurityToken(serverTime: DateTime, nonceBytes: seq<byte>)
}
