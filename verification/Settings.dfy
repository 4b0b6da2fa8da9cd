/** The configuration records every component reads (`src/config/config.rs`). */
module Settings {

  type Key = string
  type Address = string

  datatype PeerConfig = PeerConfig(
    address: Address,
    publicKey: Key,
    clipboardSource: bool,
    clipboardDestination: bool,
    scrollSource: bool,
    scrollDestination: bool)

  datatype Config = Config(
    publicKey: Key,
    scrollSource: bool,
    clipboardDestination: bool,
    peers: seq<PeerConfig>)

  ghost predicate DistinctKeys(peers: seq<PeerConfig>) {
    forall i, j :: 0 <= i < j < |peers| ==> peers[i].publicKey != peers[j].publicKey
  }

  ghost predicate DistinctAddresses(peers: seq<PeerConfig>) {
    forall i, j :: 0 <= i < j < |peers| ==> peers[i].address != peers[j].address
  }
}
