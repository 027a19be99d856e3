/**
 * The event loop at the end of main: wait for the next client event, print
 * and accept the server's public key if that is what arrived, and leave the
 * loop after that one event whatever it was.
 *
 * The receiver is the sequence of values its successive receives return; a
 * closed channel returns None, and so does a receive past the end of the
 * sequence. The key type K and the library calls that render a key are
 * parameters.
 */
module EventLoop {
  import opened Wrappers
  import opened KeyLine

  /** A client event: the server's public key, or any event the probe ignores. */
  datatype ClientEvent<K> = ServerPubkey(pubkey: K) | OtherEvent(kind: string)

  /** The library calls the key line is made of. */
  datatype KeyRendering<-K> = KeyRendering(
    encode: K -> seq<bv8>,          // the key's wire blob
    base64: seq<bv8> -> string,     // standard base64 with padding
    typeStr: K -> string,           // the key's type name
    fingerprint: K -> string)       // the key's fingerprint

  function LineFields<K>(r: KeyRendering<K>, key: K): KeyLineFields {
    KeyLineFields(r.base64(r.encode(key)), r.typeStr(key), r.fingerprint(key))
  }

  /** What the first receive returns. */
  function FirstReceived<K>(rx: seq<Option<ClientEvent<K>>>): Option<ClientEvent<K>> {
    if rx == [] then None else rx[0]
  }

  predicate StartsWithPubkey<K>(rx: seq<Option<ClientEvent<K>>>) {
    FirstReceived(rx).Some? && FirstReceived(rx).value.ServerPubkey?
  }

  /**
   * Runs the loop over the receiver's values. `stdout` is everything written
   * to standard output, `accepted` the keys passed to `accept`, `consumed`
   * how many values were taken from the receiver.
   */
  method RunEventLoop<K>(rx: seq<Option<ClientEvent<K>>>, r: KeyRendering<K>)
    returns (stdout: string, accepted: seq<K>, consumed: nat)
    // at most one value is ever taken from the receiver
    ensures consumed == if rx == [] then 0 else 1
    // the key line is printed and the key accepted, once, iff the first event is the key
    ensures StartsWithPubkey(rx) ==>
      var key := FirstReceived(rx).value.pubkey;
      stdout == Render(LineFields(r, key)) && accepted == [key]
    // a closed channel or any other first event ends the loop with no output
    ensures !StartsWithPubkey(rx) ==> stdout == [] && accepted == []
  {
    stdout, accepted, consumed := [], [], 0;
    // The source's loop ends its body with an unconditional `break`; here
    // that break is `exited := true`, so the loop runs its body at most once.
    var exited := false;
    while !exited
      invariant !exited ==> consumed == 0 && stdout == [] && accepted == []
      invariant exited ==> rx != [] && consumed == 1 && rx[0].Some?
      invariant exited && rx[0].value.ServerPubkey? ==>
        stdout == Render(LineFields(r, rx[0].value.pubkey)) && accepted == [rx[0].value.pubkey]
      invariant exited && rx[0].value.OtherEvent? ==> stdout == [] && accepted == []
      decreases if exited then 0 else 1
    {
      // take the receiver's next value, if any
      var event: Option<ClientEvent<K>>;
      if consumed < |rx| {
        event := rx[consumed];
        consumed := consumed + 1;
      } else {
        event := None;
      }

      // a closed channel ends the loop
      if event.None? {
        break;
      }

      match event.value {
        case ServerPubkey(key) =>
          stdout := stdout + r.base64(r.encode(key));
          stdout := stdout + " " + r.typeStr(key) + " " + r.fingerprint(key) + "\n";
          accepted := accepted + [key];
        case OtherEvent(_) =>
      }
      exited := true;
    }
  }
}
