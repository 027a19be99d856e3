# ssh-keyget-rs: a Dafny model of the client configuration and the key-printing loop

`ssh-keyget-rs` is a command-line probe. It connects to an SSH server, lets the
`makiko` SSH library run the transport handshake until the server's host key
arrives, prints that key as one line (`<base64 blob> <type name> <fingerprint>`),
accepts it and exits. This project models the two parts of `src/main.rs` that
are the program's own logic:

- `get_client_config` (module `Config`). It takes the library's default client
  configuration (an input here, since its contents belong to the library). It
  appends four Diffie–Hellman key-exchange algorithms, three AES-CBC ciphers and
  two HMAC-SHA1 MACs, and replaces the whole host-key preference list with the
  list for the requested key-type tag. An unrecognised tag clears that list.
  The configuration is a value record whose four edited lists are
  `seq` fields. All other library settings sit, unchanged, in a generic `rest`
  component. `GetClientConfig` edits a local copy field by field, in the
  source's order. `ConfigFor` is the function that specifies it, and the lemmas
  are stated about `ConfigFor`. For the host-key table, the source's `if` chain
  is checked against a separate table, `HostKeyTable`, and a separate tag set,
  `KeyTypes`.
- The event loop at the end of `main` (module `EventLoop`). The receiver is
  given as the sequence of values its receives return. Running out of values
  counts as a closed channel. The key type and the library calls that render a
  key (`encode`, base64, `type_str`, `fingerprint`) are parameters. The source's
  loop always leaves after its first event. The model proves that at most one
  value is consumed. It also proves that the key line is printed, and the key
  accepted, exactly when that first value is a `ServerPubkey` event.
- The printed line (module `KeyLine`). `Render` gives the text that the two
  writes put on standard output. `Parse` is its inverse. It is proved in both
  directions, so the three fields can be read back from what was printed.

Algorithm identifiers (module `Algorithms`) are records holding their
assigned SSH names, one type per category.

The loop leaves after its first event, whatever it is. A first event other
than the key ends the program with no output, and the model does the same.
The key line is written in two parts (`print!`, then `println!`), and the
model appends both parts to standard output in that order.

## Model

| member | source | states |
|---|---|---|
| `Config.HostKeyPrefs` | src/main.rs:77-103 | the host-key list for a tag has at most two entries, is empty exactly when the tag is not one of `ed25519`, `rsa_sha2`, `ecdsa`, `rsa`, and holds no duplicates |
| `Config.HostKeyPrefsByTag` | src/main.rs:77-103 | the exact list for each tag: `[ssh-ed25519]`, `[rsa-sha2-256, rsa-sha2-512]`, `[ecdsa-sha2-nistp256, ecdsa-sha2-nistp384]`, `[ssh-rsa]`; case variants such as `ED25519` and the empty string give the empty list |
| `Config.ConfigFor` | src/main.rs:68-112 | the key-exchange, cipher and MAC lists keep the defaults as a prefix and grow by exactly 4, 3 and 2, the cipher tail being `aes128-cbc, aes192-cbc, aes256-cbc` and the MAC tail `hmac-sha1-etm@openssh.com, hmac-sha1`; the host-key list has at most two entries and is empty exactly for an unknown tag; every other setting equals its default |
| `Config.GetClientConfig` | src/main.rs:68-112 | the in-place edits (three appends, `splice(0.., …)` or `clear()` on the host-key list) produce exactly `ConfigFor(defaults, keyType)` |
| `Config.AppendedListsIgnoreKeyType` | src/main.rs:70-75 | the key-exchange, cipher and MAC lists are the same for every key type |
| `Config.HostKeyListIgnoresDefaults` | src/main.rs:77-103 | the host-key list does not depend on the default host-key list or on any other default, because the whole list is replaced |
| `Config.KexAppendedWithoutDedup` | src/main.rs:70-75 | the defaults are followed by group14-sha256, group16-sha512, group18-sha512, group14-sha1 in that order, and no duplicate check is made: each appended algorithm occurs once more than in the defaults |
| `EventLoop.RunEventLoop` | src/main.rs:41-63 | at most one receiver value is consumed (none if the receiver is already exhausted); if the first value is a `ServerPubkey` event, exactly the key line of that key is written and that key alone is accepted; a closed channel or any other first event gives no output and no acceptance |
| `KeyLine.ParseRender` | src/main.rs:54-55 | the printed line of three fields without spaces or line breaks parses back to exactly those fields |
| `KeyLine.RenderParse` | src/main.rs:54-55 | any text that parses as a key line is exactly the printed line of its three fields, and those fields hold no space or line break |

## Left out

- TCP connect, the `tokio` runtime, the spawned task that polls the client future, and the call to `makiko::Client::open` (src/main.rs:22-39): these are I/O and asynchronous concurrency.
- Everything inside the `makiko` library: version exchange, binary packet codec, KEXINIT negotiation (section 7.1 of RFC 4253), the Diffie–Hellman exchange, the exchange hash and host-key signature verification. That library is not part of this model.
- The contents of `makiko::ClientConfig::default()`: the library's defaults are an input, and its settings other than the four edited lists are an opaque `rest` value.
- Key-blob encoding, base64, `type_str` and `fingerprint` (src/main.rs:54-55): these are library calls, modelled as function parameters rather than re-implemented. The round-trip lemmas assume the rendered fields contain no space or line break. The standard base64 alphabet, SSH type names and `SHA256:` fingerprints satisfy this.
- Argument parsing with `clap` (src/main.rs:13-20, 24): this is the command-line shell. The host and the key-type tag are plain inputs.
- The `expect` panics on a failed connect, on a failed client open and on a receive error (src/main.rs:27, 34, 44): this is process-exit policy. A receive is modelled only as returning an event or `None`.
- The `expect` panic in the client future (src/main.rs:38) ends only the task spawned at src/main.rs:37, not the process. The loop in `main` then sees the receiver close, which `RunEventLoop` covers as a `None` value or an exhausted receiver.
- `EventLoop.RunEventLoop`: the `ClientEvent` variants other than `ServerPubkey` are collapsed into one `OtherEvent`, because the loop ignores them all. The `accept` handle is modelled as a record of accepted keys.
