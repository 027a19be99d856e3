/**
 * Algorithm identifiers of the SSH transport layer, as the client
 * configuration lists them. Each category has its own type; an identifier
 * is its assigned name, compared character by character, so the defaults of
 * the SSH library (which may hold algorithms this program never names) are
 * representable too.
 */
module Algorithms {

  datatype KexAlgo = KexAlgo(name: string)
  datatype PubkeyAlgo = PubkeyAlgo(name: string)
  datatype CipherAlgo = CipherAlgo(name: string)
  datatype MacAlgo = MacAlgo(name: string)

  // Key exchange (kex::DIFFIE_HELLMAN_*)
  const DiffieHellmanGroup14Sha256 := KexAlgo("diffie-hellman-group14-sha256")
  const DiffieHellmanGroup16Sha512 := KexAlgo("diffie-hellman-group16-sha512")
  const DiffieHellmanGroup18Sha512 := KexAlgo("diffie-hellman-group18-sha512")
  const DiffieHellmanGroup14Sha1 := KexAlgo("diffie-hellman-group14-sha1")

  // Server host keys (pubkey::*)
  const SshEd25519 := PubkeyAlgo("ssh-ed25519")
  const RsaSha2_256 := PubkeyAlgo("rsa-sha2-256")
  const RsaSha2_512 := PubkeyAlgo("rsa-sha2-512")
  const EcdsaSha2Nistp256 := PubkeyAlgo("ecdsa-sha2-nistp256")
  const EcdsaSha2Nistp384 := PubkeyAlgo("ecdsa-sha2-nistp384")
  const SshRsaSha1 := PubkeyAlgo("ssh-rsa")

  // Ciphers (cipher::AES*_CBC)
  const Aes128Cbc := CipherAlgo("aes128-cbc")
  const Aes192Cbc := CipherAlgo("aes192-cbc")
  const Aes256Cbc := CipherAlgo("aes256-cbc")

  // MACs (mac::HMAC_SHA1*)
  const HmacSha1Etm := MacAlgo("hmac-sha1-etm@openssh.com")
  const HmacSha1 := MacAlgo("hmac-sha1")

  /** No identifier occurs twice. */
  predicate NoDuplicates<T(==)>(s: seq<T>) {
    forall i, j :: 0 <= i < j < |s| ==> s[i] != s[j]
  }
}
