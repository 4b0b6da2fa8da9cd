/** Adding hosts in `synq configure` and merging them with the configured ones
    (`src/configure/configure.rs:171-188,234-403`). User answers, fetched keys and the order in
    which hosts turn up are inputs; an interrupt ends the input early. */
module HostMerge {
  import opened Wrappers
  import opened Settings
  import opened Addresses

  // The answers to the settings questions about one peer.
  datatype Answers = Answers(
    clipboardSource: bool, clipboardDestination: bool, scrollSource: bool, scrollDestination: bool)

  datatype Input =
    // A host announced itself; `add` answers whether to add it.
    | Discovered(address: string, key: string, add: bool, answers: Answers)
    // The user typed a line; `fetched` is what the host answered, `entered` the lines typed at
    // the key prompt if that is needed.
    | Typed(line: string, fetched: Option<string>, entered: seq<string>, answers: Answers)

  // What one run of the tool holds fixed; `valid` is the public key check.
  datatype Setup = Setup(ownKey: string, bindPort: nat, scrollAllowed: bool, valid: string -> bool)

  // `seen` mixes addresses and keys, as the program does.
  datatype Hosts = Hosts(seen: set<string>, peers: seq<PeerConfig>)

  function NewPeer(address: string, key: string): PeerConfig {
    PeerConfig(address, key, true, true, false, false)
  }

  function WithAnswers(s: Setup, peer: PeerConfig, a: Answers): PeerConfig {
    var p := peer.(clipboardSource := a.clipboardSource, clipboardDestination := a.clipboardDestination);
    if !s.scrollAllowed then p
    else p.(scrollSource := a.scrollSource,
            scrollDestination := if a.scrollSource then false else a.scrollDestination)
  }

  // The key prompt asks again until a line is empty or a valid key; empty or no line is None.
  function PromptedKey(s: Setup, entered: seq<string>): Option<string> {
    if entered == [] || entered[0] == "" then None
    else if s.valid(entered[0]) then Some(entered[0])
    else PromptedKey(s, entered[1..])
  }

  function KeyFor(s: Setup, input: Input): Option<string>
    requires input.Typed?
  {
    if input.fetched.Some? && s.valid(input.fetched.value) then input.fetched
    else PromptedKey(s, input.entered)
  }

  function Add(s: Setup, h: Hosts, input: Input): Hosts {
    match input
    case Discovered(address, key, add, answers) =>
      if key == s.ownKey || address in h.seen || key in h.seen then h
      else
        var seen := h.seen + {address, key};
        if !s.valid(key) || !add then Hosts(seen, h.peers)
        else Hosts(seen, h.peers + [WithAnswers(s, NewPeer(address, key), answers)])
    case Typed(line, _, _, answers) =>
      var address := EnsurePort(line, s.bindPort);
      var key := KeyFor(s, input);
      if line == "" || address in h.seen || key == None || key == Some(s.ownKey) then h
      else Hosts(h.seen + {address, key.value}, h.peers + [WithAnswers(s, NewPeer(address, key.value), answers)])
  }

  function AddAll(s: Setup, inputs: seq<Input>): Hosts {
    if inputs == [] then Hosts({}, [])
    else Add(s, AddAll(s, inputs[..|inputs| - 1]), inputs[|inputs| - 1])
  }

  // What the settings questions make of a peer: the answers go to the fields they ask about, a
  // scroll source is not asked whether it is a scroll destination, and nothing else changes.
  ghost predicate Answered(s: Setup, before: PeerConfig, a: Answers, p: PeerConfig) {
    && p.address == before.address && p.publicKey == before.publicKey
    && p.clipboardSource == a.clipboardSource && p.clipboardDestination == a.clipboardDestination
    && (s.scrollAllowed ==>
          && p.scrollSource == a.scrollSource
          && (p.scrollDestination <==> !a.scrollSource && a.scrollDestination))
    && (!s.scrollAllowed ==> p.scrollSource == before.scrollSource && p.scrollDestination == before.scrollDestination)
  }

  method PromptPeerSettings(s: Setup, peer: PeerConfig, a: Answers) returns (p: PeerConfig)
    ensures p == WithAnswers(s, peer, a)
    ensures Answered(s, peer, a, p)
    ensures s.scrollAllowed ==> !(p.scrollSource && p.scrollDestination)
  {
    p := peer;
    p := p.(clipboardSource := a.clipboardSource);
    p := p.(clipboardDestination := a.clipboardDestination);
    if s.scrollAllowed {
      p := p.(scrollSource := a.scrollSource);
      p := p.(scrollDestination := if p.scrollSource then false else a.scrollDestination);
    }
  }

  method AddHosts(s: Setup, inputs: seq<Input>) returns (peers: seq<PeerConfig>)
    ensures peers == AddAll(s, inputs).peers
  {
    var seen := {};
    peers := [];
    var i := 0;
    while i < |inputs|
      invariant 0 <= i <= |inputs|
      invariant Hosts(seen, peers) == AddAll(s, inputs[..i])
    {
      var input := inputs[i];
      assert inputs[..i + 1][..i] == inputs[..i];
      i := i + 1;
      match input
      case Discovered(address, key, add, answers) =>
        if key == s.ownKey || address in seen || key in seen {
          continue;
        }
        seen := seen + {address};
        seen := seen + {key};
        assert seen == AddAll(s, inputs[..i - 1]).seen + {address, key};
        if !s.valid(key) {
          continue;
        }
        if add {
          var peer := PromptPeerSettings(s, NewPeer(address, key), answers);
          peers := peers + [peer];
        }
      case Typed(line, fetched, entered, answers) =>
        if line == "" {
          continue;
        }
        var address := EnsurePort(line, s.bindPort);
        if address in seen {
          continue;
        }
        var known: Option<string>;
        if fetched.Some? && s.valid(fetched.value) {
          known := fetched;
        } else {
          known := PromptedKey(s, entered);
        }
        if known.None? {
          continue;
        }
        var publicKey := known.value;
        if publicKey == s.ownKey {
          continue;
        }
        seen := seen + {address};
        seen := seen + {publicKey};
        assert seen == AddAll(s, inputs[..i - 1]).seen + {address, publicKey};
        var peer := PromptPeerSettings(s, NewPeer(address, publicKey), answers);
        peers := peers + [peer];
    }
    assert inputs[..|inputs|] == inputs;
  }

  // --- Who is added -------------------------------------------------------------------------

  // Line i is the first that ends the key prompt, and it is a key.
  ghost predicate FirstValid(s: Setup, entered: seq<string>, i: int) {
    && 0 <= i < |entered| && entered[i] != "" && s.valid(entered[i])
    && forall j :: 0 <= j < i ==> entered[j] != "" && !s.valid(entered[j])
  }

  /** The key prompt yields the first valid line that no empty line comes before, and nothing if
      there is no such line. */
  lemma {:induction false} PromptedKeyIs(s: Setup, entered: seq<string>)
    ensures forall i :: FirstValid(s, entered, i) ==> PromptedKey(s, entered) == Some(entered[i])
    ensures PromptedKey(s, entered).Some? ==> exists i :: FirstValid(s, entered, i)
  {
    if entered != [] {
      var rest := entered[1..];
      PromptedKeyIs(s, rest);
      forall i | FirstValid(s, entered, i) ensures PromptedKey(s, entered) == Some(entered[i]) {
        if i > 0 {
          assert entered[0] != "" && !s.valid(entered[0]);
          assert forall j :: 0 <= j < i - 1 ==> rest[j] == entered[j + 1];
          assert FirstValid(s, rest, i - 1);
        }
      }
      if PromptedKey(s, entered).Some? {
        if s.valid(entered[0]) {
          assert FirstValid(s, entered, 0);
        } else {
          var i :| FirstValid(s, rest, i);
          assert forall j :: 0 < j <= i + 1 ==> entered[j] == rest[j - 1];
          assert FirstValid(s, entered, i + 1);
        }
      }
    }
  }

  ghost function AddressOf(s: Setup, input: Input): string {
    if input.Discovered? then input.address else EnsurePort(input.line, s.bindPort)
  }

  // The key an input brings: the announced one; or the fetched one if it is valid, or else the
  // one typed at the prompt.
  ghost function KeyOf(s: Setup, input: Input): Option<string> {
    if input.Discovered? then Some(input.key)
    else if input.fetched.Some? && s.valid(input.fetched.value) then input.fetched
    else PromptedKey(s, input.entered)
  }

  // x is neither address nor key of a host remembered from the inputs before i.
  ghost predicate New(s: Setup, inputs: seq<Input>, i: nat, x: string)
    requires i <= |inputs|
    decreases i, 0
  {
    forall j :: 0 <= j < i && Remembered(s, inputs, j) ==> x != AddressOf(s, inputs[j]) && Some(x) != KeyOf(s, inputs[j])
  }

  // Input i brings a host that is looked at: not the own one, and not seen before. Only for
  // announced hosts does that include the key.
  ghost predicate Remembered(s: Setup, inputs: seq<Input>, i: nat)
    requires i < |inputs|
    decreases i, 1
  {
    && KeyOf(s, inputs[i]).Some?
    && KeyOf(s, inputs[i]).value != s.ownKey
    && New(s, inputs, i, AddressOf(s, inputs[i]))
    && (inputs[i].Discovered? ==> New(s, inputs, i, inputs[i].key))
    && (inputs[i].Typed? ==> inputs[i].line != "")
  }

  // An announced host is added if it has a valid key and the user agrees, a typed one always.
  ghost predicate Accepted(s: Setup, inputs: seq<Input>, i: nat)
    requires i < |inputs|
  {
    Remembered(s, inputs, i) && (inputs[i].Discovered? ==> s.valid(inputs[i].key) && inputs[i].add)
  }

  // The peer made from an input: shared clipboard and no scrolling, until the answers come.
  ghost predicate MadeFrom(s: Setup, input: Input, p: PeerConfig) {
    KeyOf(s, input).Some?
    && Answered(s, PeerConfig(AddressOf(s, input), KeyOf(s, input).value, true, true, false, false), input.answers, p)
  }

  // One peer for each position in `ix`, in order.
  ghost predicate OneForEach(s: Setup, inputs: seq<Input>, peers: seq<PeerConfig>, ix: seq<nat>) {
    && |peers| == |ix|
    && (forall j, k :: 0 <= j < k < |ix| ==> ix[j] < ix[k])
    && (forall k :: 0 <= k < |ix| ==> ix[k] < |inputs| && MadeFrom(s, inputs[ix[k]], peers[k]))
  }

  ghost predicate SeenIs(s: Setup, inputs: seq<Input>, n: nat, seen: set<string>)
    requires n <= |inputs|
  {
    forall x :: x in seen <==> !New(s, inputs, n, x)
  }

  // The positions of the accepted inputs among the first n.
  ghost predicate AcceptedOf(s: Setup, inputs: seq<Input>, n: nat, ix: seq<nat>)
    requires n <= |inputs|
  {
    forall i :: i in ix <==> 0 <= i < n && Accepted(s, inputs, i)
  }

  lemma {:induction false} AddedUpTo(s: Setup, inputs: seq<Input>, n: nat) returns (ix: seq<nat>)
    requires n <= |inputs|
    ensures SeenIs(s, inputs, n, AddAll(s, inputs[..n]).seen)
    ensures OneForEach(s, inputs, AddAll(s, inputs[..n]).peers, ix) && AcceptedOf(s, inputs, n, ix)
  {
    if n == 0 {
      ix := [];
    } else {
      ix := AddedUpTo(s, inputs, n - 1);
      AddAllSnoc(s, inputs, n);
      ix := AddedStep(s, inputs, n, AddAll(s, inputs[..n - 1]), ix);
    }
  }

  lemma AddAllSnoc(s: Setup, inputs: seq<Input>, n: nat)
    requires 0 < n <= |inputs|
    ensures AddAll(s, inputs[..n]) == Add(s, AddAll(s, inputs[..n - 1]), inputs[n - 1])
  {
    assert inputs[..n][..n - 1] == inputs[..n - 1];
  }

  lemma AddedStep(s: Setup, inputs: seq<Input>, n: nat, before: Hosts, ix: seq<nat>) returns (ix': seq<nat>)
    requires 0 < n <= |inputs| && SeenIs(s, inputs, n - 1, before.seen)
    requires OneForEach(s, inputs, before.peers, ix) && AcceptedOf(s, inputs, n - 1, ix)
    ensures SeenIs(s, inputs, n, Add(s, before, inputs[n - 1]).seen)
    ensures OneForEach(s, inputs, Add(s, before, inputs[n - 1]).peers, ix') && AcceptedOf(s, inputs, n, ix')
  {
    SeenAfter(s, inputs, n, before);
    if Accepted(s, inputs, n - 1) {
      ix' := OneMore(s, inputs, n, before.peers, ix, Add(s, before, inputs[n - 1]).peers);
    } else {
      ix' := ix;
    }
  }

  lemma OneMore(
      s: Setup, inputs: seq<Input>, n: nat, peers: seq<PeerConfig>, ix: seq<nat>, peers': seq<PeerConfig>)
      returns (ix': seq<nat>)
    requires 0 < n <= |inputs| && Accepted(s, inputs, n - 1)
    requires OneForEach(s, inputs, peers, ix) && AcceptedOf(s, inputs, n - 1, ix)
    requires |peers'| == |peers| + 1 && peers'[..|peers|] == peers
    requires MadeFrom(s, inputs[n - 1], peers'[|peers|])
    ensures OneForEach(s, inputs, peers', ix') && AcceptedOf(s, inputs, n, ix')
  {
    ix' := ix + [n - 1];
    assert forall k :: 0 <= k < |ix| ==> ix[k] in ix;
    assert forall k :: 0 <= k < |peers| ==> peers'[k] == peers'[..|peers|][k];
    forall i ensures i in ix' <==> 0 <= i < n && Accepted(s, inputs, i) {
      assert i in ix' <==> i in ix || i == n - 1;
    }
  }

  lemma SeenAfter(s: Setup, inputs: seq<Input>, n: nat, before: Hosts)
    requires 0 < n <= |inputs| && SeenIs(s, inputs, n - 1, before.seen)
    ensures SeenIs(s, inputs, n, Add(s, before, inputs[n - 1]).seen)
  {
    var input := inputs[n - 1];
    var after := Add(s, before, input);
    assert after.seen ==
      if Remembered(s, inputs, n - 1) then before.seen + {AddressOf(s, input), KeyOf(s, input).value}
      else before.seen;
    forall x ensures x in after.seen <==> !New(s, inputs, n, x) {
    }
  }

  /** Exactly who is added, in the order of the inputs: an announced host if neither its address
      nor its key has come up before, its key is valid and not the own one, and the user agrees; a
      typed host if its line is not empty, its address has not come up before, and a valid key
      other than the own one is fetched or typed for it. Each with the answers given for it. */
  lemma AddedAre(s: Setup, inputs: seq<Input>) returns (ix: seq<nat>)
    ensures OneForEach(s, inputs, AddAll(s, inputs).peers, ix)
    ensures forall i :: i in ix <==> 0 <= i < |inputs| && Accepted(s, inputs, i)
  {
    ix := AddedUpTo(s, inputs, |inputs|);
    assert inputs[..|inputs|] == inputs;
  }

  // --- What the loop guarantees -------------------------------------------------------------

  ghost predicate Sound(s: Setup, h: Hosts) {
    && (forall p :: p in h.peers ==>
          && p.address in h.seen && p.publicKey in h.seen
          && p.publicKey != s.ownKey && s.valid(p.publicKey)
          && !(p.scrollSource && p.scrollDestination))
    && DistinctAddresses(h.peers)
  }

  lemma {:induction false} PromptedKeyIsValid(s: Setup, entered: seq<string>)
    ensures PromptedKey(s, entered).Some? ==> s.valid(PromptedKey(s, entered).value)
  {
    if entered != [] {
      PromptedKeyIsValid(s, entered[1..]);
    }
  }

  /** For any sequence of discoveries and typed lines, the added peers have valid keys other than
      the host's own and pairwise distinct addresses, and none is both a scroll source and a
      scroll destination. */
  lemma {:induction false} AddedPeersAreSound(s: Setup, inputs: seq<Input>)
    ensures Sound(s, AddAll(s, inputs))
  {
    if inputs != [] {
      var n := |inputs| - 1;
      AddedPeersAreSound(s, inputs[..n]);
      if inputs[n].Typed? {
        PromptedKeyIsValid(s, inputs[n].entered);
      }
    }
  }

  ghost predicate HasKey(peers: seq<PeerConfig>, key: string) {
    exists p :: p in peers && p.publicKey == key
  }

  // Typed line i passes the checks the program makes, and an earlier added peer has its key.
  ghost predicate ReusesKey(s: Setup, inputs: seq<Input>, i: nat)
    requires i < |inputs|
  {
    var before := AddAll(s, inputs[..i]);
    && inputs[i].Typed?
    && inputs[i].line != ""
    && EnsurePort(inputs[i].line, s.bindPort) !in before.seen
    && KeyFor(s, inputs[i]).Some?
    && KeyFor(s, inputs[i]).value != s.ownKey
    && HasKey(before.peers, KeyFor(s, inputs[i]).value)
  }

  /** Keys are not checked for typed lines: the added peers have distinct keys if and only if no
      typed line that was accepted carries the key of a peer added before it. */
  lemma {:induction false} DistinctKeysIff(s: Setup, inputs: seq<Input>)
    ensures DistinctKeys(AddAll(s, inputs).peers)
            <==> forall i :: 0 <= i < |inputs| ==> !ReusesKey(s, inputs, i)
  {
    if inputs != [] {
      var n := |inputs| - 1;
      var front := inputs[..n];
      DistinctKeysIff(s, front);
      AddedPeersAreSound(s, front);
      forall i | 0 <= i < n ensures ReusesKey(s, inputs, i) <==> ReusesKey(s, front, i) {
        assert inputs[..i] == front[..i];
      }
      var h, h' := AddAll(s, front), AddAll(s, inputs);
      if h'.peers != h.peers {
        var peer := h'.peers[|h.peers|];
        assert h'.peers == h.peers + [peer];
        DistinctSnoc(h.peers, peer);
      }
      assert ReusesKey(s, inputs, n) ==> h'.peers != h.peers;
    }
  }

  lemma DistinctSnoc(peers: seq<PeerConfig>, p: PeerConfig)
    ensures DistinctKeys(peers + [p]) <==> DistinctKeys(peers) && !HasKey(peers, p.publicKey)
    ensures DistinctAddresses(peers + [p]) <==>
            DistinctAddresses(peers) && forall q :: q in peers ==> q.address != p.address
  {
    var all := peers + [p];
    if DistinctKeys(all) {
      forall i, j | 0 <= i < j < |peers| ensures peers[i].publicKey != peers[j].publicKey {
        assert all[i] == peers[i] && all[j] == peers[j];
      }
      forall q | q in peers ensures q.publicKey != p.publicKey {
        var i :| 0 <= i < |peers| && peers[i] == q;
        assert all[i].publicKey != all[|peers|].publicKey;
      }
    }
    if DistinctAddresses(all) {
      forall i, j | 0 <= i < j < |peers| ensures peers[i].address != peers[j].address {
        assert all[i] == peers[i] && all[j] == peers[j];
      }
      forall q | q in peers ensures q.address != p.address {
        var i :| 0 <= i < |peers| && peers[i] == q;
        assert all[i].address != all[|peers|].address;
      }
    }
  }

  // --- Merging with the configured peers ----------------------------------------------------

  // The answer to "Keep host", and to the settings questions if it is kept.
  datatype KeepAnswer = KeepAnswer(keep: bool, answers: Answers)

  predicate Replaced(newPeers: seq<PeerConfig>, peer: PeerConfig) {
    exists i :: 0 <= i < |newPeers| && (newPeers[i].address == peer.address || newPeers[i].publicKey == peer.publicKey)
  }

  function Kept(s: Setup, existing: seq<PeerConfig>, newPeers: seq<PeerConfig>, ask: seq<KeepAnswer>): seq<PeerConfig>
    requires |ask| == |existing|
  {
    if existing == [] then []
    else
      var n := |existing| - 1;
      Kept(s, existing[..n], newPeers, ask[..n])
      + if Replaced(newPeers, existing[n]) || !ask[n].keep then []
        else [WithAnswers(s, existing[n], ask[n].answers)]
  }

  method Merge(s: Setup, existing: seq<PeerConfig>, newPeers: seq<PeerConfig>, ask: seq<KeepAnswer>)
      returns (peers: seq<PeerConfig>)
    requires |ask| == |existing|
    ensures peers == Kept(s, existing, newPeers, ask) + newPeers
  {
    peers := [];
    var i := 0;
    while i < |existing|
      invariant 0 <= i <= |existing|
      invariant peers == Kept(s, existing[..i], newPeers, ask[..i])
    {
      assert existing[..i + 1][..i] == existing[..i] && ask[..i + 1][..i] == ask[..i];
      var peer := existing[i];
      var added := exists k :: 0 <= k < |newPeers| && (newPeers[k].address == peer.address || newPeers[k].publicKey == peer.publicKey);
      if !added && ask[i].keep {
        var p := PromptPeerSettings(s, peer, ask[i].answers);
        peers := peers + [p];
      }
      i := i + 1;
    }
    assert existing[..|existing|] == existing && ask[..|ask|] == ask;
    peers := peers + newPeers;
  }

  ghost predicate Apart(newPeers: seq<PeerConfig>, peer: PeerConfig) {
    forall p :: p in newPeers ==> p.address != peer.address && p.publicKey != peer.publicKey
  }

  // One kept peer for each position in `ix`, in order.
  ghost predicate OneForEachKept(
      s: Setup, existing: seq<PeerConfig>, ask: seq<KeepAnswer>, kept: seq<PeerConfig>, ix: seq<nat>)
    requires |ask| == |existing|
  {
    && |kept| == |ix|
    && (forall j, k :: 0 <= j < k < |ix| ==> ix[j] < ix[k])
    && (forall k :: 0 <= k < |ix| ==>
          ix[k] < |existing| && Answered(s, existing[ix[k]], ask[ix[k]].answers, kept[k]))
  }

  // The positions of the peers to keep among the first n.
  ghost predicate KeptOf(
      existing: seq<PeerConfig>, newPeers: seq<PeerConfig>, ask: seq<KeepAnswer>, n: nat, ix: seq<nat>)
    requires n <= |existing| == |ask|
  {
    forall i :: i in ix <==> 0 <= i < n && ask[i].keep && Apart(newPeers, existing[i])
  }

  lemma KeepAfter(
      s: Setup, existing: seq<PeerConfig>, newPeers: seq<PeerConfig>, ask: seq<KeepAnswer>, n: nat,
      kept: seq<PeerConfig>, ix: seq<nat>, p: PeerConfig) returns (ix': seq<nat>)
    requires n < |existing| == |ask|
    requires OneForEachKept(s, existing, ask, kept, ix) && KeptOf(existing, newPeers, ask, n, ix)
    requires ask[n].keep && Apart(newPeers, existing[n]) && Answered(s, existing[n], ask[n].answers, p)
    ensures OneForEachKept(s, existing, ask, kept + [p], ix') && KeptOf(existing, newPeers, ask, n + 1, ix')
  {
    ix' := ix + [n];
    assert forall k :: 0 <= k < |ix| ==> ix[k] in ix;
    forall i ensures i in ix' <==> 0 <= i < n + 1 && ask[i].keep && Apart(newPeers, existing[i]) {
      assert i in ix' <==> i in ix || i == n;
    }
  }

  lemma {:induction false} KeptUpTo(
      s: Setup, existing: seq<PeerConfig>, newPeers: seq<PeerConfig>, ask: seq<KeepAnswer>, n: nat)
      returns (ix: seq<nat>)
    requires n <= |existing| == |ask|
    ensures OneForEachKept(s, existing, ask, Kept(s, existing[..n], newPeers, ask[..n]), ix)
    ensures KeptOf(existing, newPeers, ask, n, ix)
  {
    if n == 0 {
      ix := [];
    } else {
      ix := KeptUpTo(s, existing, newPeers, ask, n - 1);
      var kept := Kept(s, existing[..n - 1], newPeers, ask[..n - 1]);
      var p := WithAnswers(s, existing[n - 1], ask[n - 1].answers);
      assert existing[..n][..n - 1] == existing[..n - 1] && ask[..n][..n - 1] == ask[..n - 1];
      if !Replaced(newPeers, existing[n - 1]) && ask[n - 1].keep {
        assert Kept(s, existing[..n], newPeers, ask[..n]) == kept + [p];
        ix := KeepAfter(s, existing, newPeers, ask, n - 1, kept, ix, p);
      } else {
        assert Kept(s, existing[..n], newPeers, ask[..n]) == kept;
      }
    }
  }

  /** Exactly who is kept, in order: the configured peers whose address and key no new peer has
      and that the user keeps, each with the answers given for it. */
  lemma KeptAre(s: Setup, existing: seq<PeerConfig>, newPeers: seq<PeerConfig>, ask: seq<KeepAnswer>)
      returns (ix: seq<nat>)
    requires |ask| == |existing|
    ensures OneForEachKept(s, existing, ask, Kept(s, existing, newPeers, ask), ix)
    ensures forall i :: i in ix <==> 0 <= i < |existing| && ask[i].keep && Apart(newPeers, existing[i])
  {
    ix := KeptUpTo(s, existing, newPeers, ask, |existing|);
    assert existing[..|existing|] == existing && ask[..|ask|] == ask;
  }

  ghost predicate Keeps(existing: seq<PeerConfig>, p: PeerConfig) {
    exists q :: q in existing && q.address == p.address && q.publicKey == p.publicKey
  }

  lemma {:induction false} KeptComeFrom(s: Setup, existing: seq<PeerConfig>, newPeers: seq<PeerConfig>, ask: seq<KeepAnswer>)
    requires |ask| == |existing|
    ensures forall p :: p in Kept(s, existing, newPeers, ask) ==> !Replaced(newPeers, p) && Keeps(existing, p)
  {
    if existing != [] {
      var n := |existing| - 1;
      KeptComeFrom(s, existing[..n], newPeers, ask[..n]);
      forall p | p in Kept(s, existing, newPeers, ask) ensures !Replaced(newPeers, p) && Keeps(existing, p) {
        if p in Kept(s, existing[..n], newPeers, ask[..n]) {
          assert Keeps(existing[..n], p);
        } else {
          assert p.address == existing[n].address && p.publicKey == existing[n].publicKey;
          assert existing[n] in existing;
        }
      }
    }
  }

  lemma {:induction false} KeptStayDistinct(s: Setup, existing: seq<PeerConfig>, newPeers: seq<PeerConfig>, ask: seq<KeepAnswer>)
    requires |ask| == |existing|
    ensures DistinctAddresses(existing) ==> DistinctAddresses(Kept(s, existing, newPeers, ask))
    ensures DistinctKeys(existing) ==> DistinctKeys(Kept(s, existing, newPeers, ask))
  {
    if existing != [] {
      var n := |existing| - 1;
      var front, last := existing[..n], existing[n];
      KeptStayDistinct(s, front, newPeers, ask[..n]);
      KeptComeFrom(s, front, newPeers, ask[..n]);
      var kept := Kept(s, front, newPeers, ask[..n]);
      assert existing == front + [last];
      DistinctSnoc(front, last);
      KeepOneMore(front, last, kept, WithAnswers(s, last, ask[n].answers));
    }
  }

  lemma KeepOneMore(front: seq<PeerConfig>, last: PeerConfig, kept: seq<PeerConfig>, p: PeerConfig)
    requires p.address == last.address && p.publicKey == last.publicKey
    requires forall q :: q in kept ==> Keeps(front, q)
    ensures DistinctAddresses(front + [last]) && DistinctAddresses(kept) ==> DistinctAddresses(kept + [p])
    ensures DistinctKeys(front + [last]) && DistinctKeys(kept) ==> DistinctKeys(kept + [p])
  {
    DistinctSnoc(front, last);
    DistinctSnoc(kept, p);
    forall q | q in kept
      ensures DistinctAddresses(front + [last]) ==> q.address != p.address
      ensures DistinctKeys(front + [last]) ==> q.publicKey != p.publicKey
    {
      assert Keeps(front, q);
    }
  }

  lemma DistinctConcat(ps: seq<PeerConfig>, qs: seq<PeerConfig>)
    requires forall p, q :: p in ps && q in qs ==> p.address != q.address && p.publicKey != q.publicKey
    ensures DistinctAddresses(ps) && DistinctAddresses(qs) ==> DistinctAddresses(ps + qs)
    ensures DistinctKeys(ps) && DistinctKeys(qs) ==> DistinctKeys(ps + qs)
  {
  }

  /** The merged list: no kept peer shares an address or a key with a new one, so addresses stay
      distinct if they were, and keys stay distinct if both lists had distinct keys. */
  lemma MergedPeersAreSound(
      s: Setup, existing: seq<PeerConfig>, inputs: seq<Input>, ask: seq<KeepAnswer>)
    requires |ask| == |existing|
    ensures var added := AddAll(s, inputs).peers;
            var kept := Kept(s, existing, added, ask);
            && (forall p, q :: p in kept && q in added ==> p.address != q.address && p.publicKey != q.publicKey)
            && (DistinctAddresses(existing) ==> DistinctAddresses(kept + added))
            && (DistinctKeys(existing) && DistinctKeys(added) ==> DistinctKeys(kept + added))
  {
    var added := AddAll(s, inputs).peers;
    var kept := Kept(s, existing, added, ask);
    AddedPeersAreSound(s, inputs);
    KeptComeFrom(s, existing, added, ask);
    KeptStayDistinct(s, existing, added, ask);
    forall p, q | p in kept && q in added ensures p.address != q.address && p.publicKey != q.publicKey {
      assert !Replaced(added, p);
    }
    DistinctConcat(kept, added);
  }

  /** A concrete way to get two peers with one key: typing two addresses of the same host. */
  lemma TypingTwoAddressesRepeatsAKey(s: Setup, key: string, a: Answers)
    requires s.valid(key) && key != s.ownKey
    requires key != EnsurePort("b", s.bindPort)
    ensures var peers := AddAll(s, [Typed("a", Some(key), [], a), Typed("b", Some(key), [], a)]).peers;
            |peers| == 2 && peers[0].publicKey == peers[1].publicKey == key
  {
    var one, two := Typed("a", Some(key), [], a), Typed("b", Some(key), [], a);
    var inputs := [one, two];
    assert inputs[..1] == [one] && [one][..0] == [];
    assert EnsurePort("a", s.bindPort)[0] == 'a' && EnsurePort("b", s.bindPort)[0] == 'b';
    assert AddAll(s, []) == Hosts({}, []);
    assert AddAll(s, [one]) == Add(s, AddAll(s, []), one);
  }
}
