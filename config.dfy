/**
 * The client configuration that the probe hands to the SSH library
 * (get_client_config in src/main.rs): the library's default configuration
 * with extra legacy key-exchange, cipher and MAC algorithms appended, and the
 * host-key preference list replaced by the list for the requested key type.
 */
module Config {
  import opened Algorithms

  /**
   * The part of the library's ClientConfig that the probe edits. Every other
   * setting of the library's record is carried unchanged in `rest`.
   */
  datatype ClientConfig<Rest> = ClientConfig(
    kexAlgos: seq<KexAlgo>,
    serverPubkeyAlgos: seq<PubkeyAlgo>,
    cipherAlgos: seq<CipherAlgo>,
    macAlgos: seq<MacAlgo>,
    rest: Rest)

  /** Appended to the default key-exchange list, in this order. */
  const ExtraKexAlgos: seq<KexAlgo> :=
    [DiffieHellmanGroup14Sha256, DiffieHellmanGroup16Sha512,
     DiffieHellmanGroup18Sha512, DiffieHellmanGroup14Sha1]

  /** Appended to the default cipher list, in this order. */
  const ExtraCipherAlgos: seq<CipherAlgo> := [Aes128Cbc, Aes192Cbc, Aes256Cbc]

  /** Appended to the default MAC list, in this order. */
  const ExtraMacAlgos: seq<MacAlgo> := [HmacSha1Etm, HmacSha1]

  /** The key-type tags the probe recognises. */
  const KeyTypes: set<string> := {"ed25519", "rsa_sha2", "ecdsa", "rsa"}

  /** The host-key preference list requested for each recognised tag. */
  const HostKeyTable: map<string, seq<PubkeyAlgo>> := map[
    "ed25519" := [SshEd25519],
    "rsa_sha2" := [RsaSha2_256, RsaSha2_512],
    "ecdsa" := [EcdsaSha2Nistp256, EcdsaSha2Nistp384],
    "rsa" := [SshRsaSha1]]

  /**
   * The host-key preference list for a tag: the table entry for a recognised
   * tag, and the empty list (so that negotiation cannot pick a host key) for
   * any other string.
   */
  function HostKeyPrefs(keyType: string): (prefs: seq<PubkeyAlgo>)
    ensures |prefs| <= 2
    ensures prefs == [] <==> keyType !in KeyTypes
    ensures NoDuplicates(prefs)
  {
    if keyType in HostKeyTable then HostKeyTable[keyType] else []
  }

  /**
   * The configuration get_client_config returns for the given library
   * defaults and key-type tag.
   */
  function ConfigFor<Rest>(defaults: ClientConfig<Rest>, keyType: string): (c: ClientConfig<Rest>)
    // the three appended lists grow at the end only, by a fixed amount
    ensures |c.kexAlgos| == |defaults.kexAlgos| + 4 && c.kexAlgos[..|defaults.kexAlgos|] == defaults.kexAlgos
    ensures |c.cipherAlgos| == |defaults.cipherAlgos| + 3 && c.cipherAlgos[..|defaults.cipherAlgos|] == defaults.cipherAlgos
    ensures |c.macAlgos| == |defaults.macAlgos| + 2 && c.macAlgos[..|defaults.macAlgos|] == defaults.macAlgos
    // and the appended tails are exactly the source's, in its order
    ensures c.cipherAlgos[|defaults.cipherAlgos|..] == [Aes128Cbc, Aes192Cbc, Aes256Cbc]
    ensures c.macAlgos[|defaults.macAlgos|..] == [HmacSha1Etm, HmacSha1]
    // the host-key list is at most two entries, and empty exactly for an unknown tag
    ensures |c.serverPubkeyAlgos| <= 2
    ensures c.serverPubkeyAlgos == [] <==> keyType !in KeyTypes
    // every other setting is the default
    ensures c.rest == defaults.rest
  {
    ClientConfig(
      defaults.kexAlgos + ExtraKexAlgos,
      HostKeyPrefs(keyType),
      defaults.cipherAlgos + ExtraCipherAlgos,
      defaults.macAlgos + ExtraMacAlgos,
      defaults.rest)
  }

  /**
   * get_client_config: start from the defaults and edit the lists in place,
   * in the order the source does. `splice(0.., xs)` replaces the elements
   * from index 0 to the end by xs; `clear()` empties the list.
   */
  method GetClientConfig<Rest>(defaults: ClientConfig<Rest>, keyType: string) returns (c: ClientConfig<Rest>)
    ensures c == ConfigFor(defaults, keyType)
  {
    c := defaults;
    c := c.(kexAlgos := c.kexAlgos + ExtraKexAlgos);

    if keyType == "ed25519" {
      c := c.(serverPubkeyAlgos := c.serverPubkeyAlgos[..0] + [SshEd25519]);
    } else if keyType == "rsa_sha2" {
      c := c.(serverPubkeyAlgos := c.serverPubkeyAlgos[..0] + [RsaSha2_256, RsaSha2_512]);
    } else if keyType == "ecdsa" {
      c := c.(serverPubkeyAlgos := c.serverPubkeyAlgos[..0] + [EcdsaSha2Nistp256, EcdsaSha2Nistp384]);
    } else if keyType == "rsa" {
      c := c.(serverPubkeyAlgos := c.serverPubkeyAlgos[..0] + [SshRsaSha1]);
    } else {
      c := c.(serverPubkeyAlgos := []);
    }

    c := c.(cipherAlgos := c.cipherAlgos + ExtraCipherAlgos);
    c := c.(macAlgos := c.macAlgos + ExtraMacAlgos);
  }

  /** The exact host-key list of each tag; matching is exact, so case variants are unknown tags. */
  lemma HostKeyPrefsByTag()
    ensures HostKeyPrefs("ed25519") == [SshEd25519]
    ensures HostKeyPrefs("rsa_sha2") == [RsaSha2_256, RsaSha2_512]
    ensures HostKeyPrefs("ecdsa") == [EcdsaSha2Nistp256, EcdsaSha2Nistp384]
    ensures HostKeyPrefs("rsa") == [SshRsaSha1]
    ensures HostKeyPrefs("ED25519") == [] && HostKeyPrefs("RSA") == [] && HostKeyPrefs("") == []
  {
  }

  /** The key-exchange, cipher and MAC lists do not depend on the key type. */
  lemma AppendedListsIgnoreKeyType<Rest>(defaults: ClientConfig<Rest>, t1: string, t2: string)
    ensures ConfigFor(defaults, t1).kexAlgos == ConfigFor(defaults, t2).kexAlgos
    ensures ConfigFor(defaults, t1).cipherAlgos == ConfigFor(defaults, t2).cipherAlgos
    ensures ConfigFor(defaults, t1).macAlgos == ConfigFor(defaults, t2).macAlgos
  {
  }

  /** The host-key list does not depend on the default host-key list (or on any other default). */
  lemma HostKeyListIgnoresDefaults<Rest>(d1: ClientConfig<Rest>, d2: ClientConfig<Rest>, keyType: string)
    ensures ConfigFor(d1, keyType).serverPubkeyAlgos == ConfigFor(d2, keyType).serverPubkeyAlgos
  {
  }

  /**
   * The appended key-exchange algorithms follow the defaults in order, and no
   * duplicate check is made: an appended algorithm the defaults already hold
   * occurs once more than in the defaults.
   */
  lemma KexAppendedWithoutDedup<Rest>(defaults: ClientConfig<Rest>, keyType: string, a: KexAlgo)
    ensures var k := ConfigFor(defaults, keyType).kexAlgos; var n := |defaults.kexAlgos|;
      k[n] == DiffieHellmanGroup14Sha256 && k[n + 1] == DiffieHellmanGroup16Sha512 &&
      k[n + 2] == DiffieHellmanGroup18Sha512 && k[n + 3] == DiffieHellmanGroup14Sha1
    ensures multiset(ConfigFor(defaults, keyType).kexAlgos)[a] ==
      multiset(defaults.kexAlgos)[a] + (if a in ExtraKexAlgos then 1 else 0)
  {
  }
}
