/** Open addressing with linear probing over unique string keys, and the hash of the device that looks keys up. */
module ProbeTable {
  import opened Wrappers
  import opened Names
  import opened SetSums

  // ---- the hash

  const OFFSET_BASIS: bv64 := 0xCBF29CE484222325
  const PRIME: bv64 := 0x100000001B3

  function CodePoint(c: char): bv64 { c as int as bv64 }

  function Mix(h: bv64, c: char): bv64 { (h ^ CodePoint(c)) * PRIME }

  /** FNV-1a over the code points of a string: 64 bits, wrapping. */
  function Fnv(s: string): bv64 { if s == "" then OFFSET_BASIS else Mix(Fnv(s[..|s| - 1]), s[|s| - 1]) }

  /** The hash FNV-1a publishes for one letter. */
  lemma LetterHash(s: string)
    requires s == "a"
    ensures Fnv(s) == 0xAF63DC4C8601EC8C
  {
    assert s[..0] == "" && CodePoint(s[0]) == 97;
  }

  function Longest(keys: seq<string>): (r: nat)
    ensures forall k :: 0 <= k < |keys| ==> |keys[k]| <= r
  {
    if keys == [] then 0
    else
      var before := Longest(keys[..|keys| - 1]);
      if |keys[|keys| - 1]| > before then |keys[|keys| - 1]| else before
  }

  function Front(s: string, n: nat): string { if n <= |s| then s[..n] else s }

  lemma FrontStep(s: string, p: nat)
    ensures Fnv(Front(s, p + 1)) == if p < |s| then Mix(Fnv(Front(s, p)), s[p]) else Fnv(Front(s, p))
  {
    if p < |s| {
      assert Front(s, p + 1)[..p] == Front(s, p);
    } else {
      assert Front(s, p) == s && Front(s, p + 1) == s;
    }
  }

  ghost predicate HashedTo(keys: seq<string>, hashes: seq<bv64>, p: nat) {
    |hashes| == |keys| && forall k :: 0 <= k < |keys| ==> hashes[k] == Fnv(Front(keys[k], p))
  }

  /** One more code point of every string that has one. */
  method Column(keys: seq<string>, hashes: seq<bv64>, p: nat) returns (r: seq<bv64>)
    requires HashedTo(keys, hashes, p)
    ensures HashedTo(keys, r, p + 1)
  {
    r := [];
    hide Fnv, Front, Mix;
    for k := 0 to |keys|
      invariant |r| == k && forall m :: 0 <= m < k ==> r[m] == Fnv(Front(keys[m], p + 1))
    {
      FrontStep(keys[k], p);
      r := r + [if p < |keys[k]| then Mix(hashes[k], keys[k][p]) else hashes[k]];
    }
  }

  /** All strings' hashes at once, a column of code points at a time. */
  lemma NothingHashed(keys: seq<string>, hashes: seq<bv64>)
    requires |hashes| == |keys| && forall k :: 0 <= k < |keys| ==> hashes[k] == OFFSET_BASIS
    ensures HashedTo(keys, hashes, 0)
  {
    assert forall k :: 0 <= k < |keys| ==> Front(keys[k], 0) == "";
  }

  lemma {:induction false} AllHashed(keys: seq<string>, hashes: seq<bv64>)
    requires HashedTo(keys, hashes, Longest(keys))
    ensures |hashes| == |keys| && forall k :: 0 <= k < |keys| ==> hashes[k] == Fnv(keys[k])
  {
    var longest := Longest(keys);
    hide Fnv, Longest;
    forall k | 0 <= k < |keys| ensures hashes[k] == Fnv(keys[k]) { FrontIsAll(keys[k], longest); }
  }

  lemma FrontIsAll(s: string, n: nat)
    requires |s| <= n
    ensures Front(s, n) == s
  {}

  method FnvCodePoints(keys: seq<string>) returns (hashes: seq<bv64>)
    ensures |hashes| == |keys| && forall k :: 0 <= k < |keys| ==> hashes[k] == Fnv(keys[k])
  {
    hashes := seq(|keys|, k => OFFSET_BASIS);
    NothingHashed(keys, hashes);
    hide HashedTo, Fnv, Front, Longest;
    for p := 0 to Longest(keys)
      invariant HashedTo(keys, hashes, p)
    {
      hashes := Column(keys, hashes, p);
    }
    AllHashed(keys, hashes);
  }

  // ---- the capacity

  function Pow2(n: nat): nat { if n == 0 then 1 else 2 * Pow2(n - 1) }

  function BitLength(n: nat): nat { if n == 0 then 0 else 1 + BitLength(n / 2) }

  lemma {:induction false} BitLengthCovers(n: nat)
    ensures n < Pow2(BitLength(n))
  {
    if n > 0 { BitLengthCovers(n / 2); }
  }

  lemma {:induction false} Pow2Rises(a: nat, b: nat)
    requires a <= b
    ensures Pow2(a) <= Pow2(b)
  {
    if a < b { Pow2Rises(a, b - 1); }
  }

  /** A power of two, at least sixteen and at least twice the keys. */
  function Capacity(count: nat): nat
    requires count > 0
  {
    Pow2(if BitLength(2 * count - 1) < 4 then 4 else BitLength(2 * count - 1))
  }

  lemma CapacityFits(count: nat)
    requires count > 0
    ensures Capacity(count) >= 2 * count && Capacity(count) >= 16
  {
    BitLengthCovers(2 * count - 1);
    assert Pow2(4) == 16;
    Pow2Rises(4, if BitLength(2 * count - 1) < 4 then 4 else BitLength(2 * count - 1));
  }

  // ---- slots

  /** The slot some steps past another, round the end. */
  function Walk(capacity: nat, home: nat, steps: nat): (r: nat)
    requires home < capacity && steps < capacity
    ensures r < capacity
  {
    if home + steps < capacity then home + steps else home + steps - capacity
  }

  /** How far a slot lies ahead of another. */
  function Ahead(capacity: nat, from_: nat, to_: nat): (r: nat)
    requires from_ < capacity && to_ < capacity
    ensures r < capacity && Walk(capacity, from_, r) == to_
  {
    if from_ <= to_ then to_ - from_ else to_ - from_ + capacity
  }

  function Home(hash: string -> nat, key: string, capacity: nat): (r: nat)
    requires capacity > 0
    ensures r < capacity
  {
    hash(key) % capacity
  }

  /** A key lies its distance past its home, and every slot on the way is occupied. */
  ghost predicate LiesAt(keys: seq<string>, hash: string -> nat, slots: seq<int>, far: seq<nat>, j: nat)
    requires j < |far| <= |keys| && |slots| > 0
  {
    var home := Home(hash, keys[j], |slots|);
    far[j] < |slots| && slots[Walk(|slots|, home, far[j])] == j
    && forall e: nat :: e < far[j] ==> slots[Walk(|slots|, home, e)] >= 0
  }

  ghost predicate Holds(keys: seq<string>, hash: string -> nat, slots: seq<int>, far: seq<nat>, s: nat)
    requires s < |slots| && |far| <= |keys|
  {
    slots[s] == -1
    || (0 <= slots[s] < |far| && far[slots[s]] < |slots| && Walk(|slots|, Home(hash, keys[slots[s]], |slots|), far[slots[s]]) == s)
  }

  /** The first `|far|` keys, each stored once with its own index, and nothing else. */
  ghost predicate Filled(keys: seq<string>, hash: string -> nat, slots: seq<int>, far: seq<nat>) {
    |slots| > 0 && |far| <= |keys|
    && (forall j: nat :: j < |far| ==> LiesAt(keys, hash, slots, far, j))
    && forall s: nat :: s < |slots| ==> Holds(keys, hash, slots, far, s)
  }

  lemma {:induction false} Pigeons(values: seq<int>, n: nat)
    requires forall i :: 0 <= i < |values| ==> 0 <= values[i] < n
    requires forall i, j :: 0 <= i < j < |values| ==> values[i] != values[j]
    ensures |values| <= n
    decreases |values|
  {
    var range := Below(n);
    var taken := set i | 0 <= i < |values| :: values[i];
    DistinctSize(values);
    SubsetSize(taken, range);
  }

  function Below(n: nat): (r: set<int>)
    ensures |r| == n && forall k :: k in r <==> 0 <= k < n
  {
    if n == 0 then {} else Below(n - 1) + {n - 1}
  }

  lemma {:induction false} DistinctSize(values: seq<int>)
    requires forall i, j :: 0 <= i < j < |values| ==> values[i] != values[j]
    ensures |set i | 0 <= i < |values| :: values[i]| == |values|
    decreases |values|
  {
    if values != [] {
      var last := |values| - 1;
      DistinctSize(values[..last]);
      var before := set i | 0 <= i < last :: values[..last][i];
      assert (set i | 0 <= i < |values| :: values[i]) == before + {values[last]};
    }
  }

  /** With fewer keys than slots some slot is free. */
  lemma FreeSlot(keys: seq<string>, hash: string -> nat, slots: seq<int>, far: seq<nat>) returns (f: nat)
    requires Filled(keys, hash, slots, far) && |far| < |slots|
    ensures f < |slots| && slots[f] == -1
  {
    if !(exists s: nat :: s < |slots| && slots[s] == -1) {
      forall i: nat | i < |slots| ensures 0 <= slots[i] < |far| {
        assert Holds(keys, hash, slots, far, i);
      }
      forall i, j | 0 <= i < j < |slots| ensures slots[i] != slots[j] {
        assert Holds(keys, hash, slots, far, i) && Holds(keys, hash, slots, far, j);
      }
      Pigeons(slots, |far|);
      assert false;
    }
    f :| f < |slots| && slots[f] == -1;
  }

  datatype TableError = KeysNotUnique

  class Table {
    const keys: seq<string>
    const hash: string -> nat
    var slots: array<int>
    ghost var far: seq<nat>

    ghost predicate Valid()
      reads this, slots
    {
      Distinct(keys) && if keys == [] then slots.Length == 0
      else Filled(keys, hash, slots[..], far) && |far| == |keys| && slots.Length >= 2 * |keys|
    }

    /** Puts every key at the first free slot from its home on; no more than half the slots fill, so there is one. */
    constructor (keys: seq<string>, hash: string -> nat)
      requires Distinct(keys)
      ensures Valid() && this.keys == keys && this.hash == hash && fresh(slots)
    {
      this.keys := keys;
      this.hash := hash;
      far := [];
      slots := new int[if keys == [] then 0 else Capacity(|keys|)](s => -1);
      new;
      if keys != [] {
        CapacityFits(|keys|);
        for key := 0 to |keys|
          invariant fresh(slots) && slots.Length == Capacity(|keys|)
          invariant |far| == key && Filled(keys, hash, slots[..], far)
        {
          Insert(key);
        }
      }
    }

    method Insert(key: nat)
      requires key < |keys| && |far| == key && slots.Length >= 2 * |keys| && Filled(keys, hash, slots[..], far)
      modifies slots, this`far
      ensures |far| == key + 1 && Filled(keys, hash, slots[..], far)
    {
      ghost var free := FreeSlot(keys, hash, slots[..], far);
      var home := Home(hash, keys[key], slots.Length);
      var slot := home;
      ghost var steps: nat := 0;
      while slots[slot] >= 0
        invariant slot < slots.Length && steps < slots.Length && slot == Walk(slots.Length, home, steps)
        invariant steps <= Ahead(slots.Length, home, free)
        invariant forall e: nat :: e < steps ==> slots[Walk(slots.Length, home, e)] >= 0
        decreases slots.Length - steps
      {
        slot := if slot + 1 < slots.Length then slot + 1 else 0;
        steps := steps + 1;
      }
      assert Holds(keys, hash, slots[..], far, slot);
      Inserted(keys, hash, slots[..], far, key, slot, steps);
      slots[slot] := key;
      far := far + [steps];
    }

    /** Probing from a key's home: its index if it was stored, -1 if not. */
    method Find(s: string) returns (r: int)
      requires Valid()
      ensures s !in keys ==> r == -1
      ensures s in keys ==> 0 <= r < |keys| && keys[r] == s
    {
      if slots.Length == 0 { return -1; }
      ghost var free := FreeSlot(keys, hash, slots[..], far);
      var home := Home(hash, s, slots.Length);
      var slot := home;
      ghost var steps: nat := 0;
      while true
        invariant slot < slots.Length && steps < slots.Length && slot == Walk(slots.Length, home, steps)
        invariant steps <= Ahead(slots.Length, home, free)
        invariant forall j: nat :: j < |keys| && keys[j] == s ==> steps <= far[j]
        decreases slots.Length - steps
      {
        assert Holds(keys, hash, slots[..], far, slot);
        if slots[slot] < 0 {
          forall j: nat | j < |keys| ensures keys[j] != s {
            assert LiesAt(keys, hash, slots[..], far, j);
          }
          return -1;
        }
        if hash(keys[slots[slot]]) == hash(s) && keys[slots[slot]] == s { return slots[slot]; }
        forall j: nat | j < |keys| && keys[j] == s ensures steps < far[j] {
          assert LiesAt(keys, hash, slots[..], far, j);
        }
        slot := if slot + 1 < slots.Length then slot + 1 else 0;
        steps := steps + 1;
      }
    }
  }

  lemma Inserted(keys: seq<string>, hash: string -> nat, slots: seq<int>, far: seq<nat>, key: nat, slot: nat, steps: nat)
    requires Filled(keys, hash, slots, far) && |far| == key < |keys| && slot < |slots| && steps < |slots|
    requires slot == Walk(|slots|, Home(hash, keys[key], |slots|), steps) && slots[slot] == -1
    requires forall e: nat :: e < steps ==> slots[Walk(|slots|, Home(hash, keys[key], |slots|), e)] >= 0
    ensures Filled(keys, hash, slots[slot := key], far + [steps])
  {
    var after, more := slots[slot := key], far + [steps];
    forall j: nat | j < |more| ensures LiesAt(keys, hash, after, more, j) {
      if j < key { assert LiesAt(keys, hash, slots, far, j); }
    }
    forall s: nat | s < |after| ensures Holds(keys, hash, after, more, s) {
      assert Holds(keys, hash, slots, far, s);
    }
  }

  /** `Table(keys)`: repeated keys are refused. */
  method MakeTable(keys: seq<string>, hash: string -> nat) returns (r: Result<Table, TableError>)
    ensures r.Err? <==> !Distinct(keys)
    ensures r.Ok? ==> fresh(r.value) && r.value.Valid() && r.value.keys == keys && r.value.hash == hash
  {
    var seen := set k | k in keys;
    RepeatedOrNot(keys);
    if |seen| != |keys| { return Err(KeysNotUnique); }
    var table := new Table(keys, hash);
    return Ok(table);
  }

  /** As many different keys as keys: none repeated. */
  lemma {:induction false} RepeatedOrNot(keys: seq<string>)
    ensures |set k | k in keys| <= |keys|
    ensures |set k | k in keys| == |keys| <==> Distinct(keys)
    decreases |keys|
  {
    if keys != [] {
      var last := |keys| - 1;
      RepeatedOrNot(keys[..last]);
      var before := set k | k in keys[..last];
      assert keys == keys[..last] + [keys[last]];
      assert (set k | k in keys) == before + {keys[last]};
      if keys[last] in before {
        assert before + {keys[last]} == before;
      }
    }
  }
}
