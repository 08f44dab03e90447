/** The order index: open addressing with linear probing and tombstones.  It is
    a finite map for every hash function; the bit mixer only chooses where probes
    start.  Capacities are powers of two, so the program's `& mask` is the
    wrap-around written here. */
module HashMap {

  predicate PowerOfTwo(n: nat) {
    n == 1 || (n > 1 && n % 2 == 0 && PowerOfTwo(n / 2))
  }

  lemma Doubled(n: nat)
    requires PowerOfTwo(n)
    ensures PowerOfTwo(n * 2)
  {
  }

  datatype Slot = Empty | Occupied | Tombstone

  // ----- probe sequences

  function Home(hash: nat -> nat, key: nat, capacity: nat): (slot: nat)
    requires capacity > 0
    ensures slot < capacity
  {
    hash(key) % capacity
  }

  /** Where a probe from `home` stands after `i` steps. */
  function Probe(home: nat, i: nat, capacity: nat): (slot: nat)
    requires home < capacity && i < capacity
    ensures slot < capacity
  {
    if home + i < capacity then home + i else home + i - capacity
  }

  /** How many steps a probe from `home` takes to reach `slot`. */
  function Steps(home: nat, slot: nat, capacity: nat): (n: nat)
    requires home < capacity && slot < capacity
    ensures n < capacity && Probe(home, n, capacity) == slot
  {
    if slot >= home then slot - home else slot + capacity - home
  }

  lemma StepsReach(home: nat, slot: nat, capacity: nat)
    requires home < capacity && slot < capacity
    ensures forall i :: 0 <= i < capacity && Probe(home, i, capacity) == slot ==> i == Steps(home, slot, capacity)
  {
  }

  /** No empty slot stops a probe from `home` before its first `n` steps. */
  ghost predicate Unbroken(state: seq<Slot>, home: nat, n: nat)
    requires home < |state| && n <= |state|
  {
    forall i :: 0 <= i < n ==> state[Probe(home, i, |state|)] != Empty
  }

  // ----- counting slots

  function Count(state: seq<Slot>, x: Slot): nat {
    if state == [] then 0 else Count(state[..|state| - 1], x) + if state[|state| - 1] == x then 1 else 0
  }

  lemma {:induction false} CountChange(state: seq<Slot>, s: nat, to: Slot, x: Slot)
    requires s < |state|
    ensures Count(state[s := to], x) == Count(state, x) - (if state[s] == x then 1 else 0) + (if to == x then 1 else 0)
    ensures state[s] == x ==> Count(state, x) > 0
  {
    var n := |state| - 1;
    if s == n {
      assert state[s := to][..n] == state[..n];
    } else {
      CountChange(state[..n], s, to, x);
      assert state[s := to][..n] == state[..n][s := to];
    }
  }

  lemma {:induction false} CountWhole(state: seq<Slot>)
    ensures Count(state, Empty) + Count(state, Occupied) + Count(state, Tombstone) == |state|
  {
    if state != [] {
      CountWhole(state[..|state| - 1]);
    }
  }

  lemma {:induction false} CountNone(state: seq<Slot>, x: Slot)
    ensures Count(state, x) == 0 <==> forall i :: 0 <= i < |state| ==> state[i] != x
  {
    if state != [] {
      var p := state[..|state| - 1];
      CountNone(p, x);
      assert forall i :: 0 <= i < |p| ==> p[i] == state[i];
    }
  }

  lemma {:induction false} CountPrefix(state: seq<Slot>, n: nat, x: Slot)
    requires n <= |state|
    ensures Count(state[..n], x) <= Count(state, x)
  {
    if n < |state| {
      CountPrefix(state[..|state| - 1], n, x);
      assert state[..|state| - 1][..n] == state[..n];
    } else {
      assert state[..n] == state;
    }
  }

  lemma CountStep(state: seq<Slot>, n: nat, x: Slot)
    requires n < |state|
    ensures Count(state[..n + 1], x) == Count(state[..n], x) + if state[n] == x then 1 else 0
  {
    assert state[..n + 1][..n] == state[..n];
  }

  /** A probe that has tried every slot has found no empty one. */
  lemma FullCircle(state: seq<Slot>, home: nat)
    requires home < |state| && Unbroken(state, home, |state|)
    ensures Count(state, Occupied) + Count(state, Tombstone) == |state|
  {
    forall s | 0 <= s < |state| ensures state[s] != Empty {
      assert s == Probe(home, Steps(home, s, |state|), |state|);
    }
    CountNone(state, Empty);
    CountWhole(state);
  }

  // ----- the table as a map

  /** `slotOf` says where each key lives; every key can be reached from its home. */
  ghost predicate Table(hash: nat -> nat, state: seq<Slot>, keys: seq<nat>, slotOf: map<nat, nat>) {
    && |state| > 0 && |keys| == |state|
    && (forall k :: k in slotOf ==> slotOf[k] < |state| && state[slotOf[k]] == Occupied && keys[slotOf[k]] == k)
    && (forall s :: 0 <= s < |state| && state[s] == Occupied ==> keys[s] in slotOf && slotOf[keys[s]] == s)
    && (forall k :: k in slotOf ==>
        Unbroken(state, Home(hash, k, |state|), Steps(Home(hash, k, |state|), slotOf[k], |state|)))
  }

  /** A probe stopped by an empty slot proves the key absent. */
  lemma EmptyMeansAbsent(hash: nat -> nat, state: seq<Slot>, keys: seq<nat>, slotOf: map<nat, nat>, key: nat, i: nat)
    requires Table(hash, state, keys, slotOf) && i < |state|
    requires var home := Home(hash, key, |state|);
             && state[Probe(home, i, |state|)] == Empty
             && forall j :: 0 <= j < i ==>
                !(state[Probe(home, j, |state|)] == Occupied && keys[Probe(home, j, |state|)] == key)
    ensures key !in slotOf
  {
  }

  lemma ClaimKeepsTable(hash: nat -> nat, state: seq<Slot>, keys: seq<nat>, slotOf: map<nat, nat>, key: nat, i: nat)
    requires Table(hash, state, keys, slotOf) && key !in slotOf && i < |state|
    requires Unbroken(state, Home(hash, key, |state|), i)
    requires state[Probe(Home(hash, key, |state|), i, |state|)] != Occupied
    ensures var s := Probe(Home(hash, key, |state|), i, |state|);
            Table(hash, state[s := Occupied], keys[s := key], slotOf[key := s])
  {
    var home := Home(hash, key, |state|);
    var s := Probe(home, i, |state|);
    StepsReach(home, s, |state|);
    var state', slotOf' := state[s := Occupied], slotOf[key := s];
    forall k | k in slotOf' ensures Unbroken(state', Home(hash, k, |state|),
                                             Steps(Home(hash, k, |state|), slotOf'[k], |state|)) {
      assert k != key ==> Unbroken(state, Home(hash, k, |state|), Steps(Home(hash, k, |state|), slotOf[k], |state|));
    }
  }

  lemma BuryKeepsTable(hash: nat -> nat, state: seq<Slot>, keys: seq<nat>, slotOf: map<nat, nat>, key: nat)
    requires Table(hash, state, keys, slotOf) && key in slotOf
    ensures Table(hash, state[slotOf[key] := Tombstone], keys, slotOf - {key})
  {
    var state', slotOf' := state[slotOf[key] := Tombstone], slotOf - {key};
    forall k | k in slotOf' ensures Unbroken(state', Home(hash, k, |state|),
                                             Steps(Home(hash, k, |state|), slotOf'[k], |state|)) {
      assert Unbroken(state, Home(hash, k, |state|), Steps(Home(hash, k, |state|), slotOf[k], |state|));
    }
  }

  class FlatHashMap {
    const hash: nat -> nat
    var keys: seq<nat>
    var values: seq<nat>
    var state: seq<Slot>
    var capacity: nat
    var occupied: nat
    var tombstones: nat
    ghost var slotOf: map<nat, nat>

    ghost predicate Valid()
      reads this
    {
      && Sound()
      && occupied + tombstones <= capacity * 7 / 10
    }

    ghost predicate Sound()
      reads this
    {
      && capacity >= 8 && PowerOfTwo(capacity) && |state| == |keys| == |values| == capacity
      && (forall k :: k in slotOf ==> slotOf[k] < capacity)
      && occupied == Count(state, Occupied)
      && tombstones == Count(state, Tombstone)
      && Table(hash, state, keys, slotOf)
    }

    /** The finite map the table stands for. */
    ghost function Contents(): map<nat, nat>
      reads this
      requires Sound()
    {
      map k | k in slotOf :: values[slotOf[k]]
    }

    constructor (hash: nat -> nat, minimumCapacity: nat)
      ensures Valid() && Contents() == map[] && this.hash == hash
    {
      var size := 8;
      assert PowerOfTwo(1) && PowerOfTwo(2) && PowerOfTwo(4);
      while size < minimumCapacity
        invariant size >= 8 && PowerOfTwo(size)
      {
        Doubled(size);
        size := size * 2;
      }
      this.hash := hash;
      capacity, occupied, tombstones := size, 0, 0;
      keys, values, state := seq(size, _ => 0), seq(size, _ => 0), seq(size, _ => Empty);
      slotOf := map[];
      new;
      CountNone(state, Occupied);
      CountNone(state, Tombstone);
    }

    /** The slot holding `key`, or the empty slot that proves it absent. */
    method Locate(key: nat) returns (slot: nat)
      requires Valid()
      ensures slot < capacity
      ensures if key in slotOf then slot == slotOf[key] else state[slot] == Empty
    {
      hide Count, PowerOfTwo;
      ghost var home := Home(hash, key, capacity);
      ghost var i := 0;
      slot := Home(hash, key, capacity);
      while true
        invariant 0 <= i < capacity && slot == Probe(home, i, capacity)
        invariant Unbroken(state, home, i)
        invariant forall j :: 0 <= j < i ==>
                  !(state[Probe(home, j, capacity)] == Occupied && keys[Probe(home, j, capacity)] == key)
        decreases capacity - i
      {
        if state[slot] == Empty {
          EmptyMeansAbsent(hash, state, keys, slotOf, key, i);
          return;
        }
        if state[slot] == Occupied && keys[slot] == key {
          return;
        }
        if i + 1 == capacity {
          assert Unbroken(state, home, capacity);
          FullCircle(state, home);
        }
        i := i + 1;
        slot := if slot + 1 == capacity then 0 else slot + 1;
      }
    }

    method Find(key: nat) returns (found: bool, value: nat)
      requires Valid()
      ensures found <==> key in Contents()
      ensures found ==> value == Contents()[key]
    {
      var slot := Locate(key);
      if state[slot] == Occupied {
        found, value := true, values[slot];
      } else {
        found, value := false, 0;
      }
    }

    method Erase(key: nat) returns (erased: bool)
      requires Valid()
      modifies this
      ensures Valid() && erased == (key in old(Contents())) && Contents() == old(Contents()) - {key}
    {
      hide Count, Table, Unbroken;
      TableSlots(hash, state, keys, slotOf);
      var slot := Locate(key);
      if state[slot] != Occupied {
        return false;
      }
      BuryKeepsTable(hash, state, keys, slotOf, key);
      CountChange(state, slot, Tombstone, Occupied);
      CountChange(state, slot, Tombstone, Tombstone);
      state := state[slot := Tombstone];
      occupied := occupied - 1;
      tombstones := tombstones + 1;
      slotOf := slotOf - {key};
      return true;
    }

    predicate MustGrow()
      reads this
    {
      occupied + tombstones + 1 > capacity * 7 / 10
    }

    /** Inserts, or reports the key already present.  Only an insert that must
        grow calls `Grow`, and none of the inserts inside `Grow` must. */
    method Insert(key: nat, value: nat) returns (inserted: bool)
      requires Valid()
      modifies this
      ensures Valid() && inserted == (key !in old(Contents()))
      ensures Contents() == if inserted then old(Contents())[key := value] else old(Contents())
      ensures !old(MustGrow()) ==> capacity == old(capacity) && tombstones <= old(tombstones)
      ensures occupied == old(occupied) + (if inserted then 1 else 0)
      decreases if MustGrow() then 2 else 0
    {
      if occupied + tombstones + 1 > capacity * 7 / 10 {
        Grow();
      }
      var target, reused := SlotFor(key);
      if target == capacity {
        return false;
      }
      Claim(target, reused, key, value);
      return true;
    }

    /** Probes for a place to put `key`: the earliest tombstone on the way to an
        empty slot, that slot itself, or `capacity` when the key is present. */
    method SlotFor(key: nat) returns (target: nat, reused: bool)
      requires Sound() && occupied + tombstones < capacity
      ensures target <= capacity
      ensures target == capacity <==> key in slotOf
      ensures target < capacity ==>
                && state[target] == (if reused then Tombstone else Empty)
                && Unbroken(state, Home(hash, key, capacity), Steps(Home(hash, key, capacity), target, capacity))
    {
      hide Count, Table, Home, PowerOfTwo;
      TableSlots(hash, state, keys, slotOf);
      ghost var home := Home(hash, key, capacity);
      ghost var i := 0;
      var slot := Home(hash, key, capacity);
      target, reused := capacity, false;
      while true
        invariant 0 <= i < capacity && slot == Probe(home, i, capacity)
        invariant Unbroken(state, home, i)
        invariant forall j :: 0 <= j < i ==>
                  !(state[Probe(home, j, capacity)] == Occupied && keys[Probe(home, j, capacity)] == key)
        invariant target <= capacity && (reused <==> target < capacity)
        invariant reused ==> state[target] == Tombstone && Steps(home, target, capacity) < i
        decreases capacity - i
      {
        if state[slot] == Empty {
          EmptyMeansAbsent(hash, state, keys, slotOf, key, i);
          StepsReach(home, slot, capacity);
          if target == capacity {
            target := slot;
          }
          return;
        }
        if state[slot] == Tombstone {
          if target == capacity {
            StepsReach(home, slot, capacity);
            target, reused := slot, true;
          }
        } else if keys[slot] == key {
          return capacity, false;
        }
        if i + 1 == capacity {
          assert Unbroken(state, home, capacity);
          FullCircle(state, home);
        }
        i := i + 1;
        slot := if slot + 1 == capacity then 0 else slot + 1;
      }
    }

    method Claim(target: nat, reused: bool, key: nat, value: nat)
      requires Sound() && occupied + tombstones + 1 <= capacity * 7 / 10 && key !in slotOf
      requires target < capacity && state[target] == (if reused then Tombstone else Empty)
      requires Unbroken(state, Home(hash, key, capacity), Steps(Home(hash, key, capacity), target, capacity))
      modifies this
      ensures Valid() && Contents() == old(Contents())[key := value]
      ensures capacity == old(capacity) && tombstones <= old(tombstones) && occupied == old(occupied) + 1
    {
      hide Table, Unbroken, Count, Home, Steps, PowerOfTwo;
      TableSlots(hash, state, keys, slotOf);
      ClaimKeepsTable(hash, state, keys, slotOf, key, Steps(Home(hash, key, capacity), target, capacity));
      CountChange(state, target, Occupied, Occupied);
      CountChange(state, target, Occupied, Tombstone);
      if reused {
        tombstones := tombstones - 1;
      }
      keys := keys[target := key];
      values := values[target := value];
      state := state[target := Occupied];
      occupied := occupied + 1;
      slotOf := slotOf[key := target];
    }

    method Resize(size: nat)
      requires size >= 8 && PowerOfTwo(size)
      modifies this
      ensures Valid() && Contents() == map[] && capacity == size && occupied == tombstones == 0
    {
      capacity, occupied, tombstones := size, 0, 0;
      keys, values, state := seq(size, _ => 0), seq(size, _ => 0), seq(size, _ => Empty);
      slotOf := map[];
      CountNone(state, Occupied);
      CountNone(state, Tombstone);
    }

    /** Rebuilds the table without tombstones, doubled only as far as the live
        entries and one more warrant. */
    method Grow()
      requires Valid() && MustGrow()
      modifies this
      ensures Valid() && !MustGrow() && Contents() == old(Contents()) && occupied == old(occupied)
      decreases 1
    {
      hide Table, Unbroken;
      var oldKeys, oldValues, oldState := keys, values, state;
      ghost var oldSlotOf := slotOf;
      TableSlots(hash, state, keys, slotOf);
      assert Contents() == Entries(oldValues, oldSlotOf, |oldState|);
      var live := occupied + 1;
      var size := capacity;
      while live > size * 7 / 10
        invariant size >= 8 && PowerOfTwo(size)
        decreases 2 * live - size
      {
        Doubled(size);
        size := size * 2;
      }
      Resize(size);
      assert Contents() == Entries(oldValues, oldSlotOf, 0);
      Reload(oldKeys, oldValues, oldState, oldSlotOf);
    }

    method Reload(oldKeys: seq<nat>, oldValues: seq<nat>, oldState: seq<Slot>, ghost oldSlotOf: map<nat, nat>)
      requires Valid() && occupied == tombstones == 0 && Count(oldState, Occupied) + 1 <= capacity * 7 / 10
      requires |oldKeys| == |oldValues| == |oldState| && SlotsOf(oldState, oldKeys, oldSlotOf)
      requires Contents() == Entries(oldValues, oldSlotOf, 0)
      modifies this
      ensures Valid() && capacity == old(capacity) && tombstones == 0
      ensures occupied == Count(oldState, Occupied)
      ensures Contents() == Entries(oldValues, oldSlotOf, |oldState|)
      decreases 1, 0
    {
      hide Sound, Contents, Count, Entries;
      CountStart(oldState);
      for i := 0 to |oldState|
        invariant Valid() && capacity == old(capacity) && tombstones == 0
        invariant occupied == Count(oldState[..i], Occupied)
        invariant Contents() == Entries(oldValues, oldSlotOf, i)
      {
        CountStep(oldState, i, Occupied);
        EntriesStep(oldKeys, oldValues, oldState, oldSlotOf, i);
        if oldState[i] == Occupied {
          CountPrefix(oldState, i + 1, Occupied);
          var _ := Insert(oldKeys[i], oldValues[i]);
        }
      }
      assert oldState[..|oldState|] == oldState;
    }
  }

  ghost predicate SlotsOf(state: seq<Slot>, keys: seq<nat>, slotOf: map<nat, nat>) {
    && |keys| == |state|
    && (forall k :: k in slotOf ==> slotOf[k] < |state| && state[slotOf[k]] == Occupied && keys[slotOf[k]] == k)
    && (forall s :: 0 <= s < |state| && state[s] == Occupied ==> keys[s] in slotOf && slotOf[keys[s]] == s)
  }

  lemma TableSlots(hash: nat -> nat, state: seq<Slot>, keys: seq<nat>, slotOf: map<nat, nat>)
    requires Table(hash, state, keys, slotOf)
    ensures SlotsOf(state, keys, slotOf)
  {
  }

  lemma CountStart(state: seq<Slot>)
    ensures Count(state[..0], Occupied) == 0
  {
  }

  /** The entries found in the first `n` slots. */
  ghost function Entries(values: seq<nat>, slotOf: map<nat, nat>, n: nat): map<nat, nat>
    requires n <= |values|
  {
    map k | k in slotOf && slotOf[k] < n :: values[slotOf[k]]
  }

  lemma EntriesStep(keys: seq<nat>, values: seq<nat>, state: seq<Slot>, slotOf: map<nat, nat>, i: nat)
    requires SlotsOf(state, keys, slotOf) && |values| == |state| && i < |state|
    ensures Entries(values, slotOf, i + 1) ==
            if state[i] == Occupied then Entries(values, slotOf, i)[keys[i] := values[i]]
            else Entries(values, slotOf, i)
    ensures state[i] == Occupied ==> keys[i] !in Entries(values, slotOf, i)
  {
  }
}
