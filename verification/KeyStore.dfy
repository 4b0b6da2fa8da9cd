/** The double-checked cache of derived key boxes (`src/crypto/store.rs`). `get_box` takes the
    lock twice, so other calls may run between its read section and its write section. */
module KeyStore {
  import opened Wrappers

  // Key decoding and box derivation are parameters: `decode` is None for an invalid key.
  datatype Crypto<!PublicKey, !Box> = Crypto(
    decode: string -> Option<PublicKey>,
    derive: PublicKey -> Box)

  // A shared box: `id` tells one allocation from another, as pointer equality of an `Arc` does.
  datatype Shared<Box> = Shared(box: Box, id: nat)

  // The map under the lock, and how many boxes have been allocated so far.
  datatype Cache<Box> = Cache(boxes: map<string, Shared<Box>>, minted: nat)

  // Second section of `get_box`, under the write lock: look again, then derive and insert.
  function WriteSection<PK, Box>(cr: Crypto<PK, Box>, c: Cache<Box>, key: string, pk: PK): Cache<Box> {
    if key in c.boxes then c
    else Cache(c.boxes[key := Shared(cr.derive(pk), c.minted)], c.minted + 1)
  }

  // What a cache-less `get_box` would compute.
  function Direct<PK, Box>(cr: Crypto<PK, Box>, key: string): Option<Box> {
    match cr.decode(key)
    case None => None
    case Some(pk) => Some(cr.derive(pk))
  }

  // Everything cached is what its key derives to, and no two entries share an allocation.
  ghost predicate CacheOk<PK, Box>(cr: Crypto<PK, Box>, c: Cache<Box>) {
    && (forall k :: k in c.boxes ==> Direct(cr, k) == Some(c.boxes[k].box) && c.boxes[k].id < c.minted)
    && (forall k, l :: k in c.boxes && l in c.boxes && k != l ==> c.boxes[k].id != c.boxes[l].id)
  }

  /** A key store used by one thread at a time. */
  class Store<PK, Box> {
    const crypto: Crypto<PK, Box>
    var boxes: map<string, Shared<Box>>
    var minted: nat

    ghost function Value(): Cache<Box>
      reads this
    {
      Cache(boxes, minted)
    }

    constructor (crypto: Crypto<PK, Box>)
      ensures this.crypto == crypto && Value() == Cache(map[], 0)
    {
      this.crypto, boxes, minted := crypto, map[], 0;
    }

    method LookUp(key: string) returns (r: Option<Shared<Box>>)
      ensures r == if key in boxes then Some(boxes[key]) else None
    {
      return if key in boxes then Some(boxes[key]) else None;
    }

    method LookUpOrInsert(key: string, pk: PK) returns (b: Shared<Box>)
      modifies this`boxes, this`minted
      ensures Value() == WriteSection(crypto, old(Value()), key, pk)
      ensures key in boxes && boxes[key] == b
    {
      if key in boxes {
        return boxes[key];
      }
      b := Shared(crypto.derive(pk), minted);
      minted := minted + 1;
      boxes := boxes[key := b];
    }

    method GetBox(key: string) returns (r: Option<Shared<Box>>)
      requires CacheOk(crypto, Value())
      modifies this`boxes, this`minted
      ensures CacheOk(crypto, Value())
      ensures r.None? <==> Direct(crypto, key).None?
      ensures r.None? ==> Value() == old(Value())
      ensures r.Some? ==>
                && Direct(crypto, key) == Some(r.value.box)
                && Value() == WriteSection(crypto, old(Value()), key, crypto.decode(key).value)
                && key in boxes && boxes[key] == r.value
    {
      r := LookUp(key);
      if r.Some? {
        return;
      }
      var pk := crypto.decode(key);
      if pk.None? {
        return None;
      }
      var b := LookUpOrInsert(key, pk.value);
      return Some(b);
    }

    method Remove(key: string) returns (removed: bool)
      modifies this`boxes
      ensures removed <==> key in old(boxes)
      ensures boxes == old(boxes) - {key}
    {
      removed := key in boxes;
      boxes := boxes - {key};
    }

    method Clear()
      modifies this`boxes
      ensures boxes == map[]
    {
      boxes := map[];
    }
  }

  // --- Interleavings ------------------------------------------------------------------------

  // A call between its two sections, with the key it is after and what that decoded to.
  datatype Pending<PK> = Pending(key: string, pk: PK)

  datatype Sys<PK, Box> = Sys(cache: Cache<Box>, waiting: map<nat, Pending<PK>>)

  datatype Step =
    | Look(call: nat, key: string)  // read section, then decoding
    | Insert(call: nat)             // write section
    | Remove(key: string)
    | Clear

  datatype Answer<Box> = Answer(key: string, result: Option<Shared<Box>>)

  ghost predicate Enabled<PK, Box>(s: Sys<PK, Box>, step: Step) {
    match step
    case Look(call, _) => call !in s.waiting
    case Insert(call) => call in s.waiting
    case _ => true
  }

  // The next state, and the answer if the step completes a call.
  ghost function Next<PK, Box>(cr: Crypto<PK, Box>, s: Sys<PK, Box>, step: Step): (Sys<PK, Box>, Option<Answer<Box>>)
    requires Enabled(s, step)
  {
    match step
    case Look(call, key) =>
      if key in s.cache.boxes then (s, Some(Answer(key, Some(s.cache.boxes[key]))))
      else
        (match cr.decode(key)
         case None => (s, Some(Answer(key, None)))
         case Some(pk) => (s.(waiting := s.waiting[call := Pending(key, pk)]), None))
    case Insert(call) =>
      var p := s.waiting[call];
      var c := WriteSection(cr, s.cache, p.key, p.pk);
      (Sys(c, s.waiting - {call}), Some(Answer(p.key, Some(c.boxes[p.key]))))
    case Remove(key) => (s.(cache := s.cache.(boxes := s.cache.boxes - {key})), None)
    case Clear => (s.(cache := s.cache.(boxes := map[])), None)
  }

  ghost predicate StepAt<PK, Box>(cr: Crypto<PK, Box>, run: seq<Sys<PK, Box>>, steps: seq<Step>, i: nat)
    requires |run| == |steps| + 1 && i < |steps|
  {
    Enabled(run[i], steps[i]) && run[i + 1] == Next(cr, run[i], steps[i]).0
  }

  ghost predicate IsRun<PK, Box>(cr: Crypto<PK, Box>, run: seq<Sys<PK, Box>>, steps: seq<Step>) {
    && |run| == |steps| + 1
    && run[0] == Sys(Cache(map[], 0), map[])
    && forall i :: 0 <= i < |steps| ==> StepAt(cr, run, steps, i)
  }

  ghost function AnswerAt<PK, Box>(cr: Crypto<PK, Box>, run: seq<Sys<PK, Box>>, steps: seq<Step>, i: nat): Option<Answer<Box>>
    requires IsRun(cr, run, steps) && i < |steps|
  {
    assert StepAt(cr, run, steps, i);
    Next(cr, run[i], steps[i]).1
  }

  ghost predicate SysOk<PK, Box>(cr: Crypto<PK, Box>, s: Sys<PK, Box>) {
    CacheOk(cr, s.cache) && forall t :: t in s.waiting ==> cr.decode(s.waiting[t].key) == Some(s.waiting[t].pk)
  }

  lemma {:induction false} RunIsOk<PK, Box>(cr: Crypto<PK, Box>, run: seq<Sys<PK, Box>>, steps: seq<Step>, n: nat)
    requires IsRun(cr, run, steps) && n < |run|
    ensures SysOk(cr, run[n])
  {
    if n > 0 {
      RunIsOk(cr, run, steps, n - 1);
      assert StepAt(cr, run, steps, n - 1);
    }
  }

  /** Whatever calls overlap, every answer is what deriving the box from the key would give, and
      a key that does not decode is never cached. */
  lemma CacheIsTransparent<PK, Box>(cr: Crypto<PK, Box>, run: seq<Sys<PK, Box>>, steps: seq<Step>, i: nat)
    requires IsRun(cr, run, steps) && i < |steps|
    ensures AnswerAt(cr, run, steps, i).Some? ==>
              var a := AnswerAt(cr, run, steps, i).value;
              match a.result
              case None => Direct(cr, a.key) == None
              case Some(b) => Direct(cr, a.key) == Some(b.box)
    ensures forall k :: k in run[i].cache.boxes ==> cr.decode(k).Some?
  {
    RunIsOk(cr, run, steps, i);
    assert StepAt(cr, run, steps, i);
  }

  // Steps i to n - 1 drop the entry of key k at least once.
  ghost predicate Dropped(steps: seq<Step>, i: nat, n: nat, k: string)
    requires n <= |steps|
  {
    exists j :: i <= j < n && (steps[j] == Remove(k) || steps[j] == Clear)
  }

  // From an entry of key k at state i on: until it is dropped the entry stays as it is, and
  // after that any entry of k was allocated later.
  lemma {:induction false} EntryHistory<PK, Box>(
      cr: Crypto<PK, Box>, run: seq<Sys<PK, Box>>, steps: seq<Step>, i: nat, n: nat, k: string)
    requires IsRun(cr, run, steps) && i <= n < |run|
    requires k in run[i].cache.boxes
    ensures run[i].cache.minted <= run[n].cache.minted
    ensures !Dropped(steps, i, n, k) ==>
              k in run[n].cache.boxes && run[n].cache.boxes[k] == run[i].cache.boxes[k]
    ensures Dropped(steps, i, n, k) && k in run[n].cache.boxes ==>
              run[n].cache.boxes[k].id >= run[i].cache.minted
    decreases n - i
  {
    if i < n {
      var m := n - 1;
      EntryHistory(cr, run, steps, i, m, k);
      assert StepAt(cr, run, steps, m);
      if Dropped(steps, i, n, k) && steps[m] != Remove(k) && steps[m] != Clear {
        assert Dropped(steps, i, m, k);
      }
      if !Dropped(steps, i, n, k) {
        assert steps[m] != Remove(k) && steps[m] != Clear;
        assert !Dropped(steps, i, m, k);
      }
    }
  }

  lemma AnswerIsCached<PK, Box>(cr: Crypto<PK, Box>, run: seq<Sys<PK, Box>>, steps: seq<Step>, i: nat)
    requires IsRun(cr, run, steps) && i < |steps|
    requires AnswerAt(cr, run, steps, i).Some? && AnswerAt(cr, run, steps, i).value.result.Some?
    ensures var a := AnswerAt(cr, run, steps, i).value;
            && a.key in run[i + 1].cache.boxes && run[i + 1].cache.boxes[a.key] == a.result.value
            && steps[i] != Remove(a.key) && steps[i] != Clear
            && (a.key in run[i].cache.boxes ==> run[i + 1].cache == run[i].cache)
            && (a.key !in run[i].cache.boxes ==> a.result.value.id == run[i].cache.minted)
  {
    assert StepAt(cr, run, steps, i);
  }

  /** Two callers that got a box for the same key got the same one if and only if the key was
      neither removed nor cleared between their answers. */
  lemma SameBoxIff<PK, Box>(cr: Crypto<PK, Box>, run: seq<Sys<PK, Box>>, steps: seq<Step>, i: nat, j: nat)
    requires IsRun(cr, run, steps) && i < j < |steps|
    requires AnswerAt(cr, run, steps, i).Some? && AnswerAt(cr, run, steps, j).Some?
    requires var a, b := AnswerAt(cr, run, steps, i).value, AnswerAt(cr, run, steps, j).value;
             a.key == b.key && a.result.Some? && b.result.Some?
    ensures var a, b := AnswerAt(cr, run, steps, i).value, AnswerAt(cr, run, steps, j).value;
            a.result.value.id == b.result.value.id <==> !Dropped(steps, i, j, a.key)
    ensures var a, b := AnswerAt(cr, run, steps, i).value, AnswerAt(cr, run, steps, j).value;
            a.result.value.id == b.result.value.id ==> a == b
  {
    var a, b := AnswerAt(cr, run, steps, i).value, AnswerAt(cr, run, steps, j).value;
    AnswerIsCached(cr, run, steps, i);
    AnswerIsCached(cr, run, steps, j);
    EntryHistory(cr, run, steps, i + 1, j, a.key);
    RunIsOk(cr, run, steps, i + 1);
    assert Dropped(steps, i, j, a.key) <==> Dropped(steps, i + 1, j, a.key);
  }
}
