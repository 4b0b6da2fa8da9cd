/** Clipboard sharing between mutually connected hosts, and the debounce window that keeps a
    received clipboard from being sent on (`src/daemon/clipboard.rs:29-67`,
    `src/transport/server.rs:84-102,205-243`). Times are milliseconds of each host's own clock. */
module Clipboard {
  import opened Settings
  import opened Active

  const CLIPBOARD_TTL: nat := 1000
  const SEND_CAPACITY: nat := 16

  datatype Message = Message(to: Address, client: Key)

  function SaturatingSub(a: nat, b: nat): nat {
    if a >= b then a - b else 0
  }

  predicate InWindow(lastSet: nat, now: nat) {
    SaturatingSub(now, lastSet) < CLIPBOARD_TTL
  }

  // One message to each clipboard destination, in the order of the peer list.
  function Batch(c: Config, peers: seq<PeerConfig>): seq<Message> {
    if peers == [] then []
    else
      (if peers[0].clipboardDestination then [Message(peers[0].address, c.publicKey)] else [])
      + Batch(c, peers[1..])
  }

  // One message to the address of each clipboard destination, in the order of the peer list, and
  // none to anybody else; `ix` are the positions of the destinations.
  ghost predicate OnePerDestination(c: Config, sent: seq<Message>, ix: seq<nat>) {
    && |sent| == |ix|
    && (forall j, k :: 0 <= j < k < |ix| ==> ix[j] < ix[k])
    && (forall i :: i in ix <==> 0 <= i < |c.peers| && c.peers[i].clipboardDestination)
    && (forall k :: 0 <= k < |ix| ==> ix[k] < |c.peers| && sent[k] == Message(c.peers[ix[k]].address, c.publicKey))
  }

  // The same for the peers from position i on.
  ghost predicate OneFrom(c: Config, i: nat, sent: seq<Message>, ix: seq<nat>) {
    && |sent| == |ix|
    && (forall j, k :: 0 <= j < k < |ix| ==> ix[j] < ix[k])
    && (forall p :: p in ix <==> i <= p < |c.peers| && c.peers[p].clipboardDestination)
    && (forall k :: 0 <= k < |ix| ==> ix[k] < |c.peers| && sent[k] == Message(c.peers[ix[k]].address, c.publicKey))
  }

  lemma OneMore(c: Config, i: nat, sent: seq<Message>, ix: seq<nat>)
    requires i < |c.peers| && c.peers[i].clipboardDestination && OneFrom(c, i + 1, sent, ix)
    ensures OneFrom(c, i, [Message(c.peers[i].address, c.publicKey)] + sent, [i] + ix)
  {
    assert forall k :: 0 <= k < |ix| ==> ix[k] in ix;
    forall p ensures p in [i] + ix <==> i <= p < |c.peers| && c.peers[p].clipboardDestination {
      assert p in [i] + ix <==> p == i || p in ix;
    }
  }

  lemma {:induction false} BatchFrom(c: Config, i: nat) returns (ix: seq<nat>)
    requires i <= |c.peers|
    ensures OneFrom(c, i, Batch(c, c.peers[i..]), ix)
    decreases |c.peers| - i
  {
    if i == |c.peers| {
      ix := [];
    } else {
      ix := BatchFrom(c, i + 1);
      assert c.peers[i..][1..] == c.peers[i + 1..] && c.peers[i..][0] == c.peers[i];
      if c.peers[i].clipboardDestination {
        OneMore(c, i, Batch(c, c.peers[i + 1..]), ix);
        ix := [i] + ix;
      } else {
        assert Batch(c, c.peers[i..]) == Batch(c, c.peers[i + 1..]);
      }
    }
  }

  /** Who gets a copied text: one message goes to each peer marked as a clipboard destination, in
      list order, and none to any other peer. */
  lemma BatchIs(c: Config) returns (ix: seq<nat>)
    ensures OnePerDestination(c, Batch(c, c.peers), ix)
  {
    ix := BatchFrom(c, 0);
    assert c.peers[0..] == c.peers;
    assert forall k :: 0 <= k < |ix| ==> ix[k] in ix;
  }

  // The bounded queue drops what does not fit.
  function Offer(queue: seq<Message>, ms: seq<Message>): seq<Message>
    decreases |ms|
  {
    if ms == [] then queue
    else Offer(if |queue| < SEND_CAPACITY then queue + [ms[0]] else queue, ms[1..])
  }

  lemma {:induction false} OfferWhenFull(queue: seq<Message>, ms: seq<Message>)
    requires |queue| >= 16
    ensures Offer(queue, ms) == queue
    decreases |ms|
  {
    if ms != [] {
      OfferWhenFull(queue, ms[1..]);
    }
  }

  lemma {:induction false} OfferFits(queue: seq<Message>, ms: seq<Message>, rest: seq<Message>)
    requires |queue| + |ms| <= 16
    ensures Offer(queue, ms + rest) == Offer(queue + ms, rest)
    decreases |ms|
  {
    if ms == [] {
      assert ms + rest == rest && queue + ms == queue;
    } else {
      OfferFits(queue + [ms[0]], ms[1..], rest);
      assert (ms + rest)[1..] == ms[1..] + rest;
      assert queue + [ms[0]] + ms[1..] == queue + ms;
    }
  }

  /** The queue takes the first messages offered, until 16 wait. */
  lemma OfferTakesTheFirst(queue: seq<Message>, ms: seq<Message>)
    ensures |queue| >= 16 ==> Offer(queue, ms) == queue
    ensures |queue| < 16 ==> Offer(queue, ms) == queue + if |queue| + |ms| <= 16 then ms else ms[..16 - |queue|]
  {
    if |queue| >= 16 {
      OfferWhenFull(queue, ms);
    } else {
      var n := if |queue| + |ms| <= 16 then |ms| else 16 - |queue|;
      assert ms == ms[..n] + ms[n..];
      OfferFits(queue, ms[..n], ms[n..]);
      if n < |ms| {
        OfferWhenFull(queue + ms[..n], ms[n..]);
      }
    }
  }

  // Whether a received message is put on the clipboard.
  predicate Accepts(c: Config, client: Key) {
    c.clipboardDestination && var p := FindPeer(c.peers, client); p.Some? && p.value.clipboardSource
  }

  // The first peer with this key is at i.
  ghost predicate FirstWith(peers: seq<PeerConfig>, key: Key, i: int) {
    0 <= i < |peers| && peers[i].publicKey == key && forall j :: 0 <= j < i ==> peers[j].publicKey != key
  }

  ghost predicate FromASource(peers: seq<PeerConfig>, key: Key) {
    exists i :: FirstWith(peers, key, i) && peers[i].clipboardSource
  }

  /** A message is put on the clipboard exactly when this host is a clipboard destination and the
      peer it names, the first one with that key, is a clipboard source. */
  lemma {:induction false} AcceptsIff(c: Config, client: Key)
    ensures Accepts(c, client) <==> c.clipboardDestination && FromASource(c.peers, client)
    decreases |c.peers|
  {
    if c.peers != [] {
      var rest := c.(peers := c.peers[1..]);
      AcceptsIff(rest, client);
      assert forall i :: 0 <= i < |rest.peers| ==> rest.peers[i] == c.peers[i + 1];
      if c.peers[0].publicKey == client {
        assert c.peers[0].clipboardSource ==> FromASource(c.peers, client);
      } else if FromASource(rest.peers, client) {
        var i :| FirstWith(rest.peers, client, i) && rest.peers[i].clipboardSource;
        assert FirstWith(c.peers, client, i + 1);
      } else if FromASource(c.peers, client) {
        var i :| FirstWith(c.peers, client, i) && c.peers[i].clipboardSource;
        assert FirstWith(rest.peers, client, i - 1);
      }
    }
  }

  /** The clipboard side of one host. */
  class ClipboardHost {
    const config: Config
    var lastSet: nat
    var queue: seq<Message>
    var pendingSets: nat

    constructor (config: Config)
      ensures this.config == config && lastSet == 0 && queue == [] && pendingSets == 0
    {
      this.config, lastSet, queue, pendingSets := config, 0, [], 0;
    }

    // One notification taken by the loop of `run_clipboard_source`; `readable` is false when
    // the clipboard text cannot be read.
    method OnChange(now: nat, readable: bool) returns (ghost sent: seq<Message>, ghost ix: seq<nat>)
      modifies this`queue
      ensures queue == if InWindow(lastSet, now) || !readable then old(queue)
                       else Offer(old(queue), Batch(config, config.peers))
      ensures OnePerDestination(config, sent, ix)
      ensures now < lastSet + 1000 || !readable || |old(queue)| >= 16 ==> queue == old(queue)
      ensures now >= lastSet + 1000 && readable && |old(queue)| < 16 ==>
                queue == old(queue) + if |old(queue)| + |sent| <= 16 then sent else sent[..16 - |old(queue)|]
    {
      sent := Batch(config, config.peers);
      ix := BatchIs(config);
      OfferTakesTheFirst(queue, sent);
      if SaturatingSub(now, lastSet) < CLIPBOARD_TTL {
        return;
      }
      if !readable {
        return;
      }
      var i := 0;
      while i < |config.peers|
        invariant 0 <= i <= |config.peers|
        invariant Offer(queue, Batch(config, config.peers[i..]))
                  == Offer(old(queue), Batch(config, config.peers))
      {
        var peer := config.peers[i];
        ghost var rest := Batch(config, config.peers[i + 1..]);
        assert config.peers[i..][1..] == config.peers[i + 1..];
        if peer.clipboardDestination {
          var m := Message(peer.address, config.publicKey);
          assert Batch(config, config.peers[i..]) == [m] + rest && ([m] + rest)[1..] == rest;
          if |queue| < SEND_CAPACITY {
            queue := queue + [m];
          }
        } else {
          assert Batch(config, config.peers[i..]) == rest;
        }
        i := i + 1;
      }
    }

    // One received message; `valid` is false when it does not decrypt to text.
    method OnMessage(client: Key, valid: bool, now: nat)
      modifies this`lastSet, this`pendingSets
      ensures if config.clipboardDestination && FromASource(config.peers, client) && valid
              then lastSet == now && pendingSets == old(pendingSets) + 1
              else lastSet == old(lastSet) && pendingSets == old(pendingSets)
    {
      AcceptsIff(config, client);
      if !config.clipboardDestination {
        return;
      }
      var peer := FindPeer(config.peers, client);
      if peer.None? || !peer.value.clipboardSource || !valid {
        return;
      }
      lastSet := now;
      pendingSets := pendingSets + 1;
    }
  }

  // --- All hosts together -------------------------------------------------------------------

  // Why the clipboard of a host changed: its user copied something, or a message set it and the
  // store of `last_set` happened at `storedAt`.
  datatype Cause = User | Remote(storedAt: nat)
  datatype Note = Note(at: Address, cause: Cause)

  datatype Host = Host(now: nat, lastSet: nat)

  // `copied` and `echoes` are the notifications still coming: those a user's copy at a host
  // causes, and those a remote set causes. The last three fields count what has happened: the
  // copies made at each host, the batches sent at each host, the messages sent altogether.
  datatype Sys = Sys(
    hosts: map<Address, Host>,
    copied: multiset<Address>,
    echoes: multiset<Note>,
    net: multiset<Message>,
    copies: multiset<Address>,
    batches: multiset<Address>,
    sent: nat)

  type Net = map<Address, Config>

  datatype Step =
    | Copy(h: Address)
    | Notify(n: Note, now: nat)       // the loop at n.at takes the notification
    | Receive(m: Message, now: nat)
    | LoseNote(n: Note)               // never raised, or the text could not be read
    | LoseMessage(m: Message)         // dropped by a queue, lost, or not decryptable

  ghost predicate Coming(s: Sys, n: Note) {
    if n.cause.User? then n.at in s.copied else n in s.echoes
  }

  ghost function Taken(s: Sys, n: Note): Sys {
    if n.cause.User? then s.(copied := s.copied - multiset{n.at}) else s.(echoes := s.echoes - multiset{n})
  }

  ghost predicate Enabled(c: Net, s: Sys, step: Step) {
    match step
    case Copy(h) => h in s.hosts && h in c
    case Notify(n, now) => Coming(s, n) && n.at in s.hosts && n.at in c && s.hosts[n.at].now <= now
    case Receive(m, now) => m in s.net && m.to in s.hosts && m.to in c && s.hosts[m.to].now <= now
    case LoseNote(n) => Coming(s, n)
    case LoseMessage(m) => m in s.net
  }

  ghost function Next(c: Net, s: Sys, step: Step): Sys
    requires Enabled(c, s, step)
  {
    match step
    case Copy(h) => s.(copied := s.copied + multiset{h}, copies := s.copies + multiset{h})
    case Notify(n, now) =>
      var s' := Taken(s, n).(hosts := s.hosts[n.at := s.hosts[n.at].(now := now)]);
      if InWindow(s.hosts[n.at].lastSet, now) then s'
      else
        var batch := Batch(c[n.at], c[n.at].peers);
        s'.(net := s.net + multiset(batch), batches := s.batches + multiset{n.at}, sent := s.sent + |batch|)
    case Receive(m, now) =>
      if Accepts(c[m.to], m.client)
      then s.(hosts := s.hosts[m.to := Host(now, now)],
              echoes := s.echoes + multiset{Note(m.to, Remote(now))}, net := s.net - multiset{m})
      else s.(hosts := s.hosts[m.to := s.hosts[m.to].(now := now)], net := s.net - multiset{m})
    case LoseNote(n) => Taken(s, n)
    case LoseMessage(m) => s.(net := s.net - multiset{m})
  }

  ghost predicate Quiet(s: Sys) {
    && s.copied == multiset{} && s.echoes == multiset{} && s.net == multiset{}
    && s.copies == multiset{} && s.batches == multiset{} && s.sent == 0
    && forall h :: h in s.hosts ==> s.hosts[h].lastSet <= s.hosts[h].now
  }

  ghost predicate Takes(c: Net, s: Sys, step: Step, s': Sys) {
    Enabled(c, s, step) && s' == Next(c, s, step)
  }

  ghost predicate StepAt(c: Net, run: seq<Sys>, steps: seq<Step>, i: nat)
    requires |run| == |steps| + 1 && i < |steps|
  {
    Takes(c, run[i], steps[i], run[i + 1])
  }

  ghost predicate IsRun(c: Net, run: seq<Sys>, steps: seq<Step>) {
    && |run| == |steps| + 1
    && Quiet(run[0])
    && forall i :: 0 <= i < |steps| ==> StepAt(c, run, steps, i)
  }

  // A host remembers a store at least as late as any that still has a notification coming.
  ghost predicate Inv(s: Sys) {
    && (forall h :: h in s.hosts ==> s.hosts[h].lastSet <= s.hosts[h].now)
    && (forall n :: n in s.echoes && n.at in s.hosts ==>
          n.cause.Remote? && n.cause.storedAt <= s.hosts[n.at].lastSet)
  }

  lemma {:induction false} RunKeepsInv(c: Net, run: seq<Sys>, steps: seq<Step>, n: nat)
    requires IsRun(c, run, steps) && n < |run|
    ensures Inv(run[n])
  {
    if n > 0 {
      RunKeepsInv(c, run, steps, n - 1);
      assert StepAt(c, run, steps, n - 1);
      InvStep(c, run[n - 1], steps[n - 1], run[n]);
    }
  }

  lemma InvStep(c: Net, s: Sys, step: Step, s': Sys)
    requires Inv(s) && Takes(c, s, step, s')
    ensures Inv(s')
  {
    match step
    case Notify(n, now) => InvNotify(c, s, n, now, s');
    case Receive(m, now) => InvReceive(c, s, m, now, s');
    case _ => assert s'.echoes <= s.echoes && s'.hosts == s.hosts;
  }

  lemma InvNotify(c: Net, s: Sys, n: Note, now: nat, s': Sys)
    requires Inv(s) && Takes(c, s, Notify(n, now), s')
    ensures Inv(s')
  {
    assert s'.hosts == s.hosts[n.at := s.hosts[n.at].(now := now)];
    assert s'.echoes <= s.echoes;
    forall e | e in s'.echoes && e.at in s'.hosts
      ensures e.cause.Remote? && e.cause.storedAt <= s'.hosts[e.at].lastSet
    {
      assert e in s.echoes;
    }
  }

  lemma InvReceive(c: Net, s: Sys, m: Message, now: nat, s': Sys)
    requires Inv(s) && Takes(c, s, Receive(m, now), s')
    ensures Inv(s')
  {
  }

  // --- What counts, seen from outside -------------------------------------------------------

  // A message that is accepted stores its time at the host it was sent to.
  ghost predicate Stores(c: Net, step: Step, h: Address) {
    step.Receive? && step.m.to == h && h in c && Accepts(c[h], step.m.client)
  }

  ghost function Held(s: Sys, h: Address): nat {
    if h in s.hosts then s.hosts[h].lastSet else 0
  }

  // The time of the latest store at h among the first n steps of a run that began in s0.
  ghost function LatestStore(c: Net, s0: Sys, steps: seq<Step>, n: nat, h: Address): nat
    requires n <= |steps|
  {
    if n == 0 then Held(s0, h)
    else if Stores(c, steps[n - 1], h) then steps[n - 1].now
    else LatestStore(c, s0, steps, n - 1, h)
  }

  // Step i takes a notification 1000 ms or more after the latest store at its host.
  ghost predicate Outside(c: Net, s0: Sys, steps: seq<Step>, i: nat)
    requires i < |steps|
  {
    steps[i].Notify? && steps[i].now >= LatestStore(c, s0, steps, i, steps[i].n.at) + 1000
  }

  // A remote set is noticed late.
  ghost predicate IsLate(step: Step, outside: bool) {
    step.Notify? && step.n.cause.Remote? && outside
  }

  // A user's copy at h is never sent: its notification is lost, or taken inside the window.
  ghost predicate IsSwallowed(step: Step, outside: bool, h: Address) {
    step == LoseNote(Note(h, User)) || (step.Notify? && step.n == Note(h, User) && !outside)
  }

  ghost function LateAt(c: Net, s0: Sys, steps: seq<Step>, n: nat, h: Address): nat
    requires n <= |steps|
  {
    if n == 0 then 0
    else LateAt(c, s0, steps, n - 1, h)
         + if IsLate(steps[n - 1], Outside(c, s0, steps, n - 1)) && steps[n - 1].n.at == h then 1 else 0
  }

  ghost function AllLate(c: Net, s0: Sys, steps: seq<Step>, n: nat): nat
    requires n <= |steps|
  {
    if n == 0 then 0
    else AllLate(c, s0, steps, n - 1) + if IsLate(steps[n - 1], Outside(c, s0, steps, n - 1)) then 1 else 0
  }

  ghost function SwallowedAt(c: Net, s0: Sys, steps: seq<Step>, n: nat, h: Address): nat
    requires n <= |steps|
  {
    if n == 0 then 0
    else SwallowedAt(c, s0, steps, n - 1, h)
         + if IsSwallowed(steps[n - 1], Outside(c, s0, steps, n - 1), h) then 1 else 0
  }

  lemma HeldStep(c: Net, s: Sys, step: Step, s': Sys, h: Address)
    requires Takes(c, s, step, s')
    ensures Held(s', h) == if Stores(c, step, h) then step.now else Held(s, h)
  {
  }

  // What a host remembers is the time of the latest store.
  lemma {:induction false} StoreIs(c: Net, run: seq<Sys>, steps: seq<Step>, n: nat, h: Address)
    requires IsRun(c, run, steps) && n < |run|
    ensures Held(run[n], h) == LatestStore(c, run[0], steps, n, h)
  {
    if n > 0 {
      StoreIs(c, run, steps, n - 1, h);
      assert StepAt(c, run, steps, n - 1);
      HeldStep(c, run[n - 1], steps[n - 1], run[n], h);
    }
  }

  // The window the host goes by is the one of the latest store.
  ghost predicate Goes(s: Sys, step: Step, outside: bool) {
    step.Notify? ==> (outside <==> step.now >= Held(s, step.n.at) + 1000)
  }

  lemma StepGoes(c: Net, run: seq<Sys>, steps: seq<Step>, i: nat)
    requires IsRun(c, run, steps) && i < |steps|
    ensures Takes(c, run[i], steps[i], run[i + 1])
    ensures Goes(run[i], steps[i], Outside(c, run[0], steps, i))
  {
    assert StepAt(c, run, steps, i);
    if steps[i].Notify? {
      StoreIs(c, run, steps, i, steps[i].n.at);
    }
  }

  // --- What goes where ----------------------------------------------------------------------

  /** What a notification puts into the network, in every run: taken 1000 ms or more after the
      latest store, one message to each clipboard destination of its host and to nobody else;
      any other step adds nothing. */
  lemma OutsideSends(c: Net, run: seq<Sys>, steps: seq<Step>, i: nat) returns (sent: seq<Message>, ix: seq<nat>)
    requires IsRun(c, run, steps) && i < |steps|
    ensures Outside(c, run[0], steps, i) ==>
              var h := steps[i].n.at;
              h in c && OnePerDestination(c[h], sent, ix) && run[i + 1].net == run[i].net + multiset(sent)
    ensures !Outside(c, run[0], steps, i) ==> run[i + 1].net <= run[i].net
  {
    sent, ix := [], [];
    StepGoes(c, run, steps, i);
    if Outside(c, run[0], steps, i) {
      var h := steps[i].n.at;
      sent := Batch(c[h], c[h].peers);
      ix := BatchIs(c[h]);
    }
  }

  // Step i is a notification taken outside the window at a host with m's key, which has a
  // clipboard destination at m's address.
  ghost predicate SentAt(c: Net, s0: Sys, steps: seq<Step>, i: nat, m: Message)
    requires i < |steps|
  {
    && Outside(c, s0, steps, i)
    && steps[i].n.at in c
    && var config := c[steps[i].n.at];
       m.client == config.publicKey
       && exists p :: p in config.peers && p.clipboardDestination && p.address == m.to
  }

  /** Nobody gets a clipboard he is not a destination for: in every run, each message on its way
      was sent by such a step. */
  lemma {:induction false} OnlyToDestinations(c: Net, run: seq<Sys>, steps: seq<Step>, n: nat, m: Message)
      returns (i: nat)
    requires IsRun(c, run, steps) && n < |run| && m in run[n].net
    ensures i < n && SentAt(c, run[0], steps, i, m)
  {
    if n > 0 {
      var sent, ix := OutsideSends(c, run, steps, n - 1);
      if m in run[n - 1].net {
        i := OnlyToDestinations(c, run, steps, n - 1, m);
      } else {
        i := n - 1;
        assert m in sent;
        var k :| 0 <= k < |sent| && sent[k] == m;
        assert ix[k] in ix;
      }
    }
  }

  // --- Balance ------------------------------------------------------------------------------

  lemma BalanceNotify(c: Net, s: Sys, n: Note, now: nat, s': Sys, h: Address, outside: bool)
    requires Takes(c, s, Notify(n, now), s') && Goes(s, Notify(n, now), outside)
    ensures s'.copies == s.copies
    ensures s'.batches == if outside then s.batches + multiset{n.at} else s.batches
    ensures s'.batches[h] + s'.copied[h] + (if IsSwallowed(Notify(n, now), outside, h) then 1 else 0)
            == s.batches[h] + s.copied[h] + (if IsLate(Notify(n, now), outside) && n.at == h then 1 else 0)
  {
    assert s'.copied == if n.cause.User? then s.copied - multiset{n.at} else s.copied;
  }

  lemma BalanceStep(c: Net, s: Sys, step: Step, s': Sys, h: Address, outside: bool)
    requires Takes(c, s, step, s') && Goes(s, step, outside)
    ensures s'.batches[h] + s'.copied[h] + (if IsSwallowed(step, outside, h) then 1 else 0) + s.copies[h]
            == s.batches[h] + s.copied[h] + (if IsLate(step, outside) && step.n.at == h then 1 else 0) + s'.copies[h]
  {
    if step.Notify? {
      BalanceNotify(c, s, step.n, step.now, s', h, outside);
    }
  }

  /** What becomes of the copies. In every run, at every host, the batches sent and the copies
      still to be noticed and the copies swallowed are together the copies made plus the remote
      sets noticed too late: nothing else is ever sent, and nothing is sent twice. */
  lemma {:induction false} BatchesBalance(c: Net, run: seq<Sys>, steps: seq<Step>, n: nat, h: Address)
    requires IsRun(c, run, steps) && n < |run|
    ensures run[n].batches[h] + run[n].copied[h] + SwallowedAt(c, run[0], steps, n, h)
            == run[n].copies[h] + LateAt(c, run[0], steps, n, h)
  {
    if n > 0 {
      BatchesBalance(c, run, steps, n - 1, h);
      StepGoes(c, run, steps, n - 1);
      BalanceStep(c, run[n - 1], steps[n - 1], run[n], h, Outside(c, run[0], steps, n - 1));
    }
  }

  ghost predicate FewDestinations(c: Net, d: nat) {
    forall h :: h in c ==> |Batch(c[h], c[h].peers)| <= d
  }

  // n * d, by repeated addition.
  ghost function Times(n: nat, d: nat): nat {
    if n == 0 then 0 else Times(n - 1, d) + d
  }

  lemma {:induction false} TimesIsProduct(n: nat, d: nat)
    ensures Times(n, d) == n * d
  {
    if n > 0 {
      TimesIsProduct(n - 1, d);
      assert n * d == (n - 1) * d + d;
    }
  }

  lemma {:induction false} TimesGrows(m: nat, n: nat, d: nat)
    requires m <= n
    ensures Times(m, d) <= Times(n, d)
    decreases n - m
  {
    if m < n {
      TimesGrows(m, n - 1, d);
    }
  }

  // Batches and copies still to come are paid for by copies and by late notifications.
  ghost predicate Paid(s: Sys, late: nat, d: nat) {
    |s.batches| + |s.copied| <= |s.copies| + late && s.sent <= Times(|s.batches|, d)
  }

  lemma PaidNotify(c: Net, s: Sys, n: Note, now: nat, s': Sys, late: nat, d: nat, outside: bool)
    requires Takes(c, s, Notify(n, now), s') && Goes(s, Notify(n, now), outside)
    requires FewDestinations(c, d) && Paid(s, late, d)
    ensures Paid(s', late + if IsLate(Notify(n, now), outside) then 1 else 0, d)
  {
    assert s'.copies == s.copies;
    assert n.cause.User? ==> |s'.copied| == |s.copied| - 1;
    assert n.cause.Remote? ==> s'.copied == s.copied;
    if outside {
      assert |s'.batches| == |s.batches| + 1;
      assert s'.sent == s.sent + |Batch(c[n.at], c[n.at].peers)|;
    } else {
      assert s'.batches == s.batches && s'.sent == s.sent;
    }
  }

  lemma PaidStep(c: Net, s: Sys, step: Step, s': Sys, late: nat, d: nat, outside: bool)
    requires Takes(c, s, step, s') && Goes(s, step, outside)
    requires FewDestinations(c, d) && Paid(s, late, d)
    ensures Paid(s', late + if IsLate(step, outside) then 1 else 0, d)
  {
    if step.Notify? {
      PaidNotify(c, s, step.n, step.now, s', late, d, outside);
    } else {
      assert s'.batches == s.batches && s'.sent == s.sent;
    }
  }

  lemma {:induction false} RunIsPaid(c: Net, run: seq<Sys>, steps: seq<Step>, n: nat, d: nat)
    requires IsRun(c, run, steps) && n < |run| && FewDestinations(c, d)
    ensures Paid(run[n], AllLate(c, run[0], steps, n), d)
  {
    if n > 0 {
      var outside := Outside(c, run[0], steps, n - 1);
      RunIsPaid(c, run, steps, n - 1, d);
      StepGoes(c, run, steps, n - 1);
      PaidStep(c, run[n - 1], steps[n - 1], run[n], AllLate(c, run[0], steps, n - 1), d, outside);
    }
  }

  /** The traffic of every run is bounded by the copies its users make and the remote sets its
      hosts notice late: a host sends at most one batch for each of its own, and there are never
      more messages than all of them times destinations. */
  lemma TrafficBound(c: Net, run: seq<Sys>, steps: seq<Step>, n: nat, d: nat)
    requires IsRun(c, run, steps) && n < |run| && FewDestinations(c, d)
    ensures forall h :: run[n].batches[h] <= run[n].copies[h] + LateAt(c, run[0], steps, n, h)
    ensures run[n].sent <= (|run[n].copies| + AllLate(c, run[0], steps, n)) * d
  {
    var s, late := run[n], AllLate(c, run[0], steps, n);
    forall h ensures s.batches[h] <= s.copies[h] + LateAt(c, run[0], steps, n, h) {
      BatchesBalance(c, run, steps, n, h);
    }
    RunIsPaid(c, run, steps, n, d);
    TimesGrows(|s.batches|, |s.copies| + late, d);
    TimesIsProduct(|s.copies| + late, d);
  }

  // Every notification of a remote set is taken before 1000 ms have passed since the latest
  // store at its host.
  ghost predicate OnTime(c: Net, s0: Sys, steps: seq<Step>) {
    forall i :: 0 <= i < |steps| ==> !IsLate(steps[i], Outside(c, s0, steps, i))
  }

  ghost predicate SendsBatch(run: seq<Sys>, i: nat)
    requires i + 1 < |run|
  {
    run[i + 1].batches != run[i].batches
  }

  // Every batch that is sent answers a copy.
  ghost predicate NoEchoes(run: seq<Sys>, steps: seq<Step>)
    requires |run| == |steps| + 1
  {
    forall i :: 0 <= i < |steps| && SendsBatch(run, i) ==> steps[i].Notify? && steps[i].n.cause.User?
  }

  lemma WhoSends(c: Net, run: seq<Sys>, steps: seq<Step>, i: nat)
    requires IsRun(c, run, steps) && i < |steps|
    ensures SendsBatch(run, i) <==> Outside(c, run[0], steps, i)
  {
    StepGoes(c, run, steps, i);
    if steps[i].Notify? {
      var n := steps[i].n;
      BalanceNotify(c, run[i], n, steps[i].now, run[i + 1], n.at, Outside(c, run[0], steps, i));
      assert (run[i].batches + multiset{n.at})[n.at] == run[i].batches[n.at] + 1;
    }
  }

  /** No echo, exactly: in a run every batch answers a copy its own user made if and only if every
      notification of a remote set is taken before 1000 ms have passed since the latest store. */
  lemma NoEchoIff(c: Net, run: seq<Sys>, steps: seq<Step>)
    requires IsRun(c, run, steps)
    ensures NoEchoes(run, steps) <==> OnTime(c, run[0], steps)
  {
    forall i | 0 <= i < |steps| ensures SendsBatch(run, i) <==> Outside(c, run[0], steps, i) {
      WhoSends(c, run, steps, i);
    }
  }

  // Every notification a remote set causes is taken less than 1000 ms after its own store.
  ghost predicate Prompt(steps: seq<Step>) {
    forall i :: 0 <= i < |steps| && steps[i].Notify? && steps[i].n.cause.Remote? ==>
      SaturatingSub(steps[i].now, steps[i].n.cause.storedAt) < 1000
  }

  // No store a notification is still coming for is later than the latest one at its host.
  lemma PromptIsOnTime(c: Net, run: seq<Sys>, steps: seq<Step>)
    requires IsRun(c, run, steps) && Prompt(steps)
    ensures OnTime(c, run[0], steps)
  {
    forall i | 0 <= i < |steps| ensures !IsLate(steps[i], Outside(c, run[0], steps, i)) {
      StepGoes(c, run, steps, i);
      RunKeepsInv(c, run, steps, i);
    }
  }

  lemma {:induction false} NoneLate(c: Net, s0: Sys, steps: seq<Step>, n: nat)
    requires n <= |steps| && OnTime(c, s0, steps)
    ensures AllLate(c, s0, steps, n) == 0
    ensures forall h :: LateAt(c, s0, steps, n, h) == 0
  {
    if n > 0 {
      NoneLate(c, s0, steps, n - 1);
    }
  }

  /** In particular there is no ping-pong if each notification is taken within 1000 ms of the
      store that belongs to it: that is in time, so no host ever sends more batches than its user
      made copies, and there are never more messages than copies times destinations. */
  lemma NoPingPong(c: Net, run: seq<Sys>, steps: seq<Step>, n: nat, d: nat)
    requires IsRun(c, run, steps) && (Prompt(steps) || OnTime(c, run[0], steps))
    requires n < |run| && FewDestinations(c, d)
    ensures NoEchoes(run, steps)
    ensures forall h :: run[n].batches[h] <= run[n].copies[h]
    ensures run[n].sent <= |run[n].copies| * d
  {
    if Prompt(steps) {
      PromptIsOnTime(c, run, steps);
    }
    NoEchoIff(c, run, steps);
    NoneLate(c, run[0], steps, n);
    TrafficBound(c, run, steps, n, d);
  }

  // --- Why promptness is needed -------------------------------------------------------------

  // Two hosts, each the clipboard source and destination of the other.
  datatype Pair = Pair(a: Address, ka: Key, b: Address, kb: Key) {
    ghost function ConfigOf(key: Key, other: Address, otherKey: Key): Config {
      Config(key, false, true, [PeerConfig(other, otherKey, true, true, false, false)])
    }

    ghost function Wiring(): Net {
      map[a := ConfigOf(ka, b, kb), b := ConfigOf(kb, a, ka)]
    }

    ghost predicate Started(s: Sys) {
      && s.hosts.Keys == {a, b}
      && forall h :: h in s.hosts ==> s.hosts[h].lastSet <= s.hosts[h].now
    }

    // Nothing is pending but one message to the host at `to`.
    ghost predicate OnItsWay(s: Sys, to: Address) {
      && Started(s)
      && s.copied == multiset{} && s.echoes == multiset{}
      && s.net == multiset{Message(to, if to == a then kb else ka)}
    }
  }

  lemma PairFacts(p: Pair, h: Address)
    requires p.a != p.b && (h == p.a || h == p.b)
    ensures var other := if h == p.a then p.b else p.a;
            var key := if h == p.a then p.ka else p.kb;
            var otherKey := if h == p.a then p.kb else p.ka;
            && h in p.Wiring()
            && Batch(p.Wiring()[h], p.Wiring()[h].peers) == [Message(other, key)]
            && Accepts(p.Wiring()[h], otherKey)
  {
  }

  // The late notification of the remote set at `to` sends the clipboard back.
  lemma BounceBack(p: Pair, mid: Sys, to: Address, t: nat) returns (next: Sys)
    requires p.a != p.b && (to == p.a || to == p.b) && p.Started(mid)
    requires mid.hosts[to] == Host(t, t)
    requires mid.copied == multiset{} && mid.net == multiset{}
    requires mid.echoes == multiset{Note(to, Remote(t))}
    ensures Takes(p.Wiring(), mid, Notify(Note(to, Remote(t)), t + CLIPBOARD_TTL), next)
    ensures next.sent == mid.sent + 1 && next.copies == mid.copies
    ensures p.OnItsWay(next, if to == p.a then p.b else p.a)
  {
    PairFacts(p, to);
    var n := Note(to, Remote(t));
    var c := p.Wiring();
    var batch := Batch(c[to], c[to].peers);
    next := mid.(
      hosts := mid.hosts[to := Host(t + CLIPBOARD_TTL, t)], echoes := mid.echoes - multiset{n},
      net := mid.net + multiset(batch), batches := mid.batches + multiset{to}, sent := mid.sent + 1);
    assert !InWindow(t, t + CLIPBOARD_TTL);
    assert next.echoes == multiset{} && next.net == multiset(batch);
  }

  // A host that takes the notification of its own remote set a second late sends it back.
  lemma Bounce(p: Pair, s: Sys, to: Address) returns (mid: Sys, next: Sys, steps: seq<Step>)
    requires p.a != p.b && (to == p.a || to == p.b) && p.OnItsWay(s, to)
    ensures |steps| == 2
    ensures Takes(p.Wiring(), s, steps[0], mid) && Takes(p.Wiring(), mid, steps[1], next)
    ensures next.sent == s.sent + 1 && next.copies == s.copies
    ensures p.OnItsWay(next, if to == p.a then p.b else p.a)
  {
    PairFacts(p, to);
    var t := s.hosts[to].now;
    var m := Message(to, if to == p.a then p.kb else p.ka);
    mid := s.(hosts := s.hosts[to := Host(t, t)],
              echoes := s.echoes + multiset{Note(to, Remote(t))}, net := s.net - multiset{m});
    assert s.net - multiset{m} == multiset{};
    next := BounceBack(p, mid, to, t);
    steps := [Receive(m, t), Notify(Note(to, Remote(t)), t + CLIPBOARD_TTL)];
  }

  lemma FirstSend(p: Pair) returns (run: seq<Sys>, steps: seq<Step>)
    requires p.a != p.b
    ensures IsRun(p.Wiring(), run, steps)
    ensures |run[|steps|].copies| == 1 && run[|steps|].sent == 1
    ensures p.OnItsWay(run[|steps|], p.b)
  {
    var c := p.Wiring();
    PairFacts(p, p.a);
    var none: multiset<Address> := multiset{};
    var s0 := Sys(map[p.a := Host(0, 0), p.b := Host(0, 0)], none, multiset{}, multiset{}, none, none, 0);
    steps := [Copy(p.a), Notify(Note(p.a, User), CLIPBOARD_TTL)];
    var s1 := Next(c, s0, steps[0]);
    assert s1.copied == multiset{p.a};
    var s2 := Next(c, s1, steps[1]);
    run := [s0] + [s1] + [s2];
    Extend(c, [s0], [], steps[0], s1);
    Extend(c, [s0] + [s1], [] + [steps[0]], steps[1], s2);
    assert [] + [steps[0]] + [steps[1]] == steps;
    assert s2.copied == multiset{} && s2.net == multiset{Message(p.b, p.ka)};
  }

  lemma Extend(c: Net, run: seq<Sys>, steps: seq<Step>, step: Step, s: Sys)
    requires IsRun(c, run, steps) && Takes(c, run[|steps|], step, s)
    ensures IsRun(c, run + [s], steps + [step])
  {
    forall i | 0 <= i < |steps + [step]| ensures StepAt(c, run + [s], steps + [step], i) {
      if i < |steps| {
        assert StepAt(c, run, steps, i);
      }
    }
  }

  /** Without promptness one copy can be sent to and fro for ever: for every n there is a run of
      two hosts with a single user copy and n + 1 messages. */
  lemma {:induction false} SlowNotificationsPingPong(p: Pair, n: nat)
      returns (run: seq<Sys>, steps: seq<Step>, to: Address)
    requires p.a != p.b
    ensures IsRun(p.Wiring(), run, steps)
    ensures |run[|steps|].copies| == 1 && run[|steps|].sent == n + 1
    ensures (to == p.a || to == p.b) && p.OnItsWay(run[|steps|], to)
  {
    if n == 0 {
      run, steps := FirstSend(p);
      to := p.b;
    } else {
      run, steps, to := SlowNotificationsPingPong(p, n - 1);
      var mid, next, more := Bounce(p, run[|steps|], to);
      Extend(p.Wiring(), run, steps, more[0], mid);
      Extend(p.Wiring(), run + [mid], steps + [more[0]], more[1], next);
      run, steps := run + [mid] + [next], steps + [more[0]] + [more[1]];
      to := if to == p.a then p.b else p.a;
    }
  }
}
