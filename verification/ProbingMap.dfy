/** The hash map from names to values: open addressing, linear probing, no
    deletion. It refines insert-if-absent on a finite map, whatever the hash
    function. */
module ProbingMap {
  import opened Words

  const INITIAL_CAP: nat := 64

  // ---------------------------------------------------------------- probing

  /** How many steps of a probe that starts at `start` lead to slot `i`: the
      probe wraps around at the end of the table. */
  function Dist(start: nat, i: nat, cap: nat): (d: nat)
    requires start < cap && i < cap
    ensures d < cap
  {
    if i >= start then i - start else i + cap - start
  }

  type Keys = seq<Option<string>>

  type Hash = string -> nat

  function Start(hash: Hash, key: string, cap: nat): (r: nat)
    requires cap > 0
    ensures r < cap
  {
    hash(key) % cap
  }

  /** The first `d` slots a probe for `key` looks at are taken by other keys. */
  predicate Passed(keys: Keys, start: nat, key: string, d: nat)
    requires start < |keys|
  {
    forall j :: 0 <= j < |keys| && Dist(start, j, |keys|) < d ==> keys[j].Some? && keys[j].value != key
  }

  /** Every key sits where its own probe finds it: behind taken slots only. */
  predicate Placed(keys: Keys, hash: Hash) {
    forall i :: 0 <= i < |keys| && keys[i].Some? ==> PlacedAt(keys, Start(hash, keys[i].value, |keys|), i)
  }

  predicate PlacedAt(keys: Keys, start: nat, i: nat)
    requires start < |keys| && i < |keys|
  {
    forall j :: 0 <= j < |keys| && Dist(start, j, |keys|) < Dist(start, i, |keys|) ==> keys[j].Some?
  }

  /** `slots` says where each key is. */
  predicate Indexed(keys: Keys, slots: map<string, nat>) {
    && (forall i :: 0 <= i < |keys| && keys[i].Some? ==> keys[i].value in slots && slots[keys[i].value] == i)
    && (forall k :: k in slots ==> slots[k] < |keys| && keys[slots[k]] == Some(k))
  }

  lemma IndexedAt(keys: Keys, slots: map<string, nat>, i: nat)
    requires Indexed(keys, slots) && i < |keys| && keys[i].Some?
    ensures keys[i].value in slots && slots[keys[i].value] == i
  {
  }

  /** A probe that ends at an empty slot proves the key absent. */
  lemma EmptyMeansAbsent(keys: Keys, hash: Hash, slots: map<string, nat>, key: string, r: nat)
    requires r < |keys| && keys[r].None? && Placed(keys, hash) && Indexed(keys, slots)
    requires var start := Start(hash, key, |keys|); Passed(keys, start, key, Dist(start, r, |keys|))
    ensures key !in slots
  {
    var start := Start(hash, key, |keys|);
    forall i | 0 <= i < |keys| && keys[i].Some? ensures keys[i].value != key {
      assert PlacedAt(keys, Start(hash, keys[i].value, |keys|), i);
      assert Dist(start, i, |keys|) != Dist(start, r, |keys|);
    }
  }

  lemma NothingPlaced(keys: Keys, hash: Hash)
    requires forall i :: 0 <= i < |keys| ==> keys[i].None?
    ensures Placed(keys, hash)
  {
  }

  /** A new key in the empty slot its probe ended at. */
  lemma PlaceNew(keys: Keys, hash: Hash, slots: map<string, nat>, key: string, r: nat)
    requires r < |keys| && keys[r].None? && Placed(keys, hash) && Indexed(keys, slots) && key !in slots
    requires var start := Start(hash, key, |keys|); Passed(keys, start, key, Dist(start, r, |keys|))
    ensures Placed(keys[r := Some(key)], hash) && Indexed(keys[r := Some(key)], slots[key := r])
  {
    var ks := keys[r := Some(key)];
    forall i | 0 <= i < |ks| && ks[i].Some? ensures PlacedAt(ks, Start(hash, ks[i].value, |ks|), i) {
      if i != r {
        assert PlacedAt(keys, Start(hash, keys[i].value, |keys|), i);
      }
    }
  }

  /** Fewer keys than slots: one is empty. */
  lemma {:induction false} SomeEmpty(keys: Keys, slots: map<string, nat>)
    requires Indexed(keys, slots) && |slots| < |keys|
    ensures exists i :: 0 <= i < |keys| && keys[i].None?
  {
    if forall i :: 0 <= i < |keys| ==> keys[i].Some? {
      var found: set<string> := {};
      var n := 0;
      while n < |keys|
        invariant 0 <= n <= |keys| && |found| == n && found <= slots.Keys
        invariant forall k :: k in found ==> slots[k] < n
      {
        found := found + {keys[n].value};
        n := n + 1;
      }
      MoreIsMore(found, slots.Keys);
    }
  }

  lemma MoreIsMore<T>(a: set<T>, b: set<T>)
    requires a <= b
    ensures |a| <= |b|
  {
    assert b == a + (b - a);
  }

  // ------------------------------------------------------------------ masking

  /** For a capacity that is a power of two, `and`-ing with the mask is the
      remainder. */
  lemma {:induction false} MaskIsRemainder(w: nat, h: int, k: nat)
    requires k <= w
    ensures Bitwise(BitAnd, w, h, Pow2(k) - 1) == h % Pow2(k)
  {
    hide Bitwise, Enc;
    if k == 0 {
      ZeroMask(w, h);
      DivModUnique(h, 1, h, 0);
    } else {
      MaskIsRemainder(w - 1, h / 2, k - 1);
      MaskStep(w, h, Pow2(k - 1));
      RemainderStep(h, k);
    }
  }

  lemma MaskStep(w: nat, h: int, m: nat)
    requires w > 0 && m > 0
    ensures Bitwise(BitAnd, w, h, 2 * m - 1) == h % 2 + 2 * Bitwise(BitAnd, w - 1, h / 2, m - 1)
  {
    OddMask(m);
  }

  lemma RemainderStep(h: int, k: nat)
    requires k > 0
    ensures h % Pow2(k) == h % 2 + 2 * (h / 2 % Pow2(k - 1))
  {
    hide Pow2;
    HalfOfEnc(k, h);
    HalvesOf(Enc(k, h));
  }

  lemma OddMask(m: nat)
    requires m > 0
    ensures (2 * m - 1) / 2 == m - 1 && (2 * m - 1) % 2 == 1
  {
  }

  lemma HalvesOf(e: nat)
    ensures e == e % 2 + 2 * (e / 2)
  {
  }

  lemma {:induction false} ZeroMask(w: nat, h: int)
    ensures Bitwise(BitAnd, w, h, 0) == 0
  {
    if w > 0 {
      ZeroMask(w - 1, h / 2);
    }
  }

  // ----------------------------------------------------------------- bindings

  predicate Filled<V>(slots: map<string, nat>, vals: seq<Option<V>>) {
    forall k :: k in slots ==> slots[k] < |vals| && vals[slots[k]].Some?
  }

  /** The finite map a table stands for. */
  function Bindings<V>(slots: map<string, nat>, vals: seq<Option<V>>): (r: map<string, V>)
    requires Filled(slots, vals)
    ensures r.Keys == slots.Keys && |r| == |slots|
    ensures forall k :: k in slots ==> Some(r[k]) == vals[slots[k]]
  {
    var r := map k | k in slots :: vals[slots[k]].value;
    SameSize(r, slots);
    r
  }

  lemma SameSize<T, U>(a: map<string, T>, b: map<string, U>)
    requires a.Keys == b.Keys
    ensures |a| == |b|
  {
  }

  lemma SameBindings<V>(a: map<string, V>, b: map<string, V>)
    requires a.Keys == b.Keys && forall k :: k in a ==> a[k] == b[k]
    ensures a == b
  {
  }

  lemma AllFilled<V>(keys: Keys, slots: map<string, nat>, vals: seq<Option<V>>)
    requires Indexed(keys, slots) && |keys| == |vals| && forall i :: 0 <= i < |keys| ==> keys[i].Some? == vals[i].Some?
    ensures Filled(slots, vals)
  {
  }

  lemma DoubledCap(d: nat)
    ensures 2 * (INITIAL_CAP * Pow2(d)) == INITIAL_CAP * Pow2(d + 1) && INITIAL_CAP == INITIAL_CAP * Pow2(0)
  {
  }

  /** The keys in the first `i` slots have been moved. */
  predicate MovedUpTo(slots: map<string, nat>, moved: map<string, nat>, i: nat) {
    moved.Keys <= slots.Keys && forall k :: k in slots ==> (k in moved <==> slots[k] < i)
  }

  /** What has been moved has its value with it. */
  predicate SameValues<V(==)>(slots: map<string, nat>, vals: seq<Option<V>>, moved: map<string, nat>,
      vs: seq<Option<V>>) {
    forall k :: k in moved && k in slots && slots[k] < |vals| ==> moved[k] < |vs| && vs[moved[k]] == vals[slots[k]]
  }

  lemma NothingMoved<V>(slots: map<string, nat>, vals: seq<Option<V>>, vs: seq<Option<V>>)
    ensures MovedUpTo(slots, map[], 0) && SameValues(slots, vals, map[], vs)
  {
  }

  lemma NotMovedYet(slots: map<string, nat>, moved: map<string, nat>, key: string, i: nat)
    requires MovedUpTo(slots, moved, i) && key in slots && slots[key] == i
    ensures key !in moved && |moved| < |slots|
  {
    assert moved.Keys <= slots.Keys - {key};
    MoreIsMore(moved.Keys, slots.Keys - {key});
    SizeOfKeys(moved);
    SizeOfKeys(slots);
  }

  lemma SizeOfKeys(m: map<string, nat>)
    ensures |m| == |m.Keys|
  {
  }

  lemma MoveOne<V>(keys: Keys, slots: map<string, nat>, moved: map<string, nat>, i: nat, j: nat,
                   vals: seq<Option<V>>, had: seq<Option<V>>, vs: seq<Option<V>>)
    requires Indexed(keys, slots) && i < |keys| == |vals| && keys[i].Some? && MovedUpTo(slots, moved, i)
    requires SameValues(slots, vals, moved, had) && |vs| == |had| && j < |vs| && vs[j] == vals[i]
    requires forall n :: 0 <= n < |vs| && n != j ==> vs[n] == had[n]
    requires forall k :: k in moved ==> moved[k] != j
    ensures MovedUpTo(slots, moved[keys[i].value := j], i + 1)
    ensures SameValues(slots, vals, moved[keys[i].value := j], vs)
  {
    IndexedAt(keys, slots, i);
    forall k | k in slots && slots[k] == i ensures k == keys[i].value {
      assert keys[slots[k]] == Some(k);
    }
  }

  lemma MoveNone(keys: Keys, slots: map<string, nat>, moved: map<string, nat>, i: nat)
    requires Indexed(keys, slots) && i < |keys| && keys[i].None? && MovedUpTo(slots, moved, i)
    ensures MovedUpTo(slots, moved, i + 1)
  {
    forall k | k in slots ensures slots[k] != i {
      assert keys[slots[k]] == Some(k);
    }
  }

  lemma AllMoved(keys: Keys, slots: map<string, nat>, moved: map<string, nat>)
    requires Indexed(keys, slots) && MovedUpTo(slots, moved, |keys|)
    ensures moved.Keys == slots.Keys
  {
  }

  /** The same values at other places. */
  lemma KeptBindings<V>(slots: map<string, nat>, vals: seq<Option<V>>, moved: map<string, nat>, vs: seq<Option<V>>)
    requires Filled(slots, vals) && Filled(moved, vs) && moved.Keys == slots.Keys
    requires SameValues(slots, vals, moved, vs)
    ensures Bindings(moved, vs) == Bindings(slots, vals)
  {
    SameBindings(Bindings(moved, vs), Bindings(slots, vals));
  }

  /** The new binding, and no other change. */
  lemma OneMoreBinding<V>(slots: map<string, nat>, vals: seq<Option<V>>, keys: Keys, key: string, i: nat, val: V)
    requires Filled(slots, vals) && Indexed(keys, slots) && |keys| == |vals| && i < |keys| && keys[i].None?
             && key !in slots
    ensures Filled(slots[key := i], vals[i := Some(val)])
    ensures Bindings(slots[key := i], vals[i := Some(val)]) == Bindings(slots, vals)[key := val]
  {
    SameBindings(Bindings(slots[key := i], vals[i := Some(val)]), Bindings(slots, vals)[key := val]);
  }

  // -------------------------------------------------------------------- class

  class Map<V> {
    const hash: Hash
    var keys: array<Option<string>>
    var vals: array<Option<V>>
    var len: nat
    /** Where each key is; only the proof reads it. */
    ghost var slots: map<string, nat>
    /** The capacity is 0 or 64 times this power of two. */
    ghost var doublings: nat

    ghost predicate Valid()
      reads this, keys, vals
    {
      && (keys as object) != vals && keys.Length == vals.Length
      && (keys.Length > 0 ==> keys.Length == INITIAL_CAP * Pow2(doublings))
      && Placed(keys[..], hash) && Indexed(keys[..], slots)
      && (forall i :: 0 <= i < keys.Length ==> keys[i].Some? == vals[i].Some?)
      && len == |slots| && len * 4 <= keys.Length * 3
    }

    /** The finite map this object stands for. */
    ghost function Contents(): map<string, V>
      requires Valid()
      reads this, keys, vals
    {
      Bindings(slots, vals[..])
    }

    constructor (hash: Hash)
      ensures Valid() && Contents() == map[] && this.hash == hash && fresh(keys) && fresh(vals)
    {
      this.hash := hash;
      keys := new Option<string>[0];
      vals := new Option<V>[0];
      len := 0;
      slots := map[];
      doublings := 0;
    }

    /** The slot that holds `key`, or else the first empty one on its probe. */
    static method SlotOf(hash: Hash, keys: array<Option<string>>, key: string) returns (i: nat)
      requires exists e :: 0 <= e < keys.Length && keys[e].None?
      ensures i < keys.Length && (keys[i].None? || keys[i].value == key)
      ensures var start := Start(hash, key, keys.Length); Passed(keys[..], start, key, Dist(start, i, keys.Length))
    {
      ghost var cap := keys.Length;
      ghost var e :| 0 <= e < cap && keys[e].None?;
      ghost var start := Start(hash, key, cap);
      ghost var n := 0;
      i := hash(key) % keys.Length;
      while keys[i].Some? && keys[i].value != key
        invariant i < cap && n < cap && n == Dist(start, i, cap)
        invariant n <= Dist(start, e, cap)
        invariant Passed(keys[..], start, key, n)
        decreases cap - n
      {
        i := if i + 1 == keys.Length then 0 else i + 1;
        n := n + 1;
      }
    }

    /** Puts a binding that is not there yet into a table with room for it. */
    static method Insert(hash: Hash, keys: array<Option<string>>, vals: array<Option<V>>, key: string, val: V,
        ghost slots: map<string, nat>)
      returns (ghost i: nat)
      requires (keys as object) != vals && keys.Length == vals.Length && Placed(keys[..], hash)
               && Indexed(keys[..], slots)
      requires key !in slots && |slots| < keys.Length
      requires forall j :: 0 <= j < keys.Length ==> keys[j].Some? == vals[j].Some?
      modifies keys, vals
      ensures i < keys.Length && Placed(keys[..], hash) && Indexed(keys[..], slots[key := i])
      ensures forall j :: 0 <= j < keys.Length ==> keys[j].Some? == vals[j].Some?
      ensures vals[i] == Some(val) && forall j :: 0 <= j < keys.Length && j != i ==> vals[j] == old(vals[j])
    {
      SomeEmpty(keys[..], slots);
      var j := SlotOf(hash, keys, key);
      ghost var before := keys[..];
      PlaceNew(before, hash, slots, key, j);
      keys[j] := Some(key);
      vals[j] := Some(val);
      assert keys[..] == before[j := Some(key)];
      i := j;
    }

    /** Puts every binding into an empty larger table. */
    method Rehash(ks: array<Option<string>>, vs: array<Option<V>>) returns (ghost moved: map<string, nat>)
      requires Valid() && ks != keys && vs != vals && (ks as object) != vals && (vs as object) != keys
      requires (ks as object) != vs && ks.Length == vs.Length > len
      requires forall j :: 0 <= j < ks.Length ==> ks[j].None? && vs[j].None?
      modifies ks, vs
      ensures Placed(ks[..], hash) && Indexed(ks[..], moved) && moved.Keys == slots.Keys
      ensures forall j :: 0 <= j < ks.Length ==> ks[j].Some? == vs[j].Some?
      ensures SameValues(slots, vals[..], moved, vs[..])
    {
      hide Placed, Bindings, Pow2, MovedUpTo, SameValues;
      NothingMoved(slots, vals[..], vs[..]);
      NothingPlaced(ks[..], hash);
      moved := map[];
      var i := 0;
      while i < keys.Length
        invariant 0 <= i <= keys.Length
        invariant Placed(ks[..], hash) && Indexed(ks[..], moved)
        invariant forall j :: 0 <= j < ks.Length ==> ks[j].Some? == vs[j].Some?
        invariant MovedUpTo(slots, moved, i) && SameValues(slots, vals[..], moved, vs[..])
      {
        if keys[i].Some? {
          IndexedAt(keys[..], slots, i);
          NotMovedYet(slots, moved, keys[i].value, i);
          ghost var had := vs[..];
          ghost var j := Insert(hash, ks, vs, keys[i].value, vals[i].value, moved);
          MoveOne(keys[..], slots, moved, i, j, vals[..], had, vs[..]);
          moved := moved[keys[i].value := j];
        } else {
          MoveNone(keys[..], slots, moved, i);
        }
        i := i + 1;
      }
      AllMoved(keys[..], slots, moved);
    }

    /** Doubles the table and keeps every binding. */
    method Grow()
      requires Valid()
      modifies this
      ensures Valid() && fresh(keys) && fresh(vals) && Contents() == old(Contents()) && len == old(len)
      ensures keys.Length == if old(keys.Length) == 0 then INITIAL_CAP else 2 * old(keys.Length)
    {
      hide Placed, Bindings, Filled, Indexed, Pow2, SameValues;
      DoubledCap(doublings);
      var cap := if keys.Length == 0 then INITIAL_CAP else keys.Length * 2;
      var ks := new Option<string>[cap](_ => None);
      var vs := new Option<V>[cap](_ => None);
      ghost var moved := Rehash(ks, vs);
      Adopt(ks, vs, moved, if keys.Length == 0 then 0 else doublings + 1);
    }

    /** The larger table takes the place of the old one. */
    method Adopt(ks: array<Option<string>>, vs: array<Option<V>>, ghost moved: map<string, nat>, ghost d: nat)
      requires Valid() && (ks as object) != vs && ks.Length == vs.Length == INITIAL_CAP * Pow2(d)
               && 4 * len <= 3 * ks.Length
      requires Placed(ks[..], hash) && Indexed(ks[..], moved) && moved.Keys == slots.Keys
      requires forall j :: 0 <= j < ks.Length ==> ks[j].Some? == vs[j].Some?
      requires SameValues(slots, vals[..], moved, vs[..])
      modifies this
      ensures Valid() && keys == ks && vals == vs && Contents() == old(Contents()) && len == old(len)
    {
      hide Placed, Bindings, Filled, Indexed, Pow2, SameValues;
      AllFilled(keys[..], slots, vals[..]);
      AllFilled(ks[..], moved, vs[..]);
      KeptBindings(slots, vals[..], moved, vs[..]);
      SameSize(moved, slots);
      keys, vals, slots, doublings := ks, vs, moved, d;
    }

    /** The value bound to `key`, if any. */
    method Get(key: string) returns (r: Option<V>)
      requires Valid()
      ensures r == if key in Contents() then Some(Contents()[key]) else None
    {
      if len == 0 {
        assert slots == map[];
        return None;
      }
      SomeEmpty(keys[..], slots);
      var i := SlotOf(hash, keys, key);
      if keys[i].None? {
        EmptyMeansAbsent(keys[..], hash, slots, key, i);
        return None;
      }
      return vals[i];
    }

    /** Binds a new key and returns true; an old binding stays, and it returns false. */
    method Put(key: string, val: V) returns (inserted: bool)
      requires Valid()
      modifies this, keys, vals
      ensures Valid() && (keys == old(keys) || fresh(keys)) && (vals == old(vals) || fresh(vals))
      ensures inserted == (key !in old(Contents()))
      ensures Contents() == if inserted then old(Contents())[key := val] else old(Contents())
      ensures len == |Contents()| && 4 * (keys.Length - len) >= keys.Length
    {
      hide Placed, Passed, Bindings;
      if keys.Length == 0 || (len + 1) * 4 > keys.Length * 3 {
        Grow();
      }
      SomeEmpty(keys[..], slots);
      var i := SlotOf(hash, keys, key);
      if keys[i].Some? {
        return false;
      }
      EmptyMeansAbsent(keys[..], hash, slots, key, i);
      Occupy(i, key, val);
      inserted := true;
    }

    /** Fills the empty slot the probe for a new key ended at. */
    method Occupy(i: nat, key: string, val: V)
      requires Valid() && i < keys.Length && keys[i].None? && key !in slots && (len + 1) * 4 <= keys.Length * 3
      requires var start := Start(hash, key, keys.Length); Passed(keys[..], start, key, Dist(start, i, keys.Length))
      modifies this`len, this`slots, keys, vals
      ensures Valid() && Contents() == old(Contents())[key := val] && len == old(len) + 1
    {
      hide Placed, Passed, Bindings;
      ghost var before, values := keys[..], vals[..];
      OneMoreBinding(slots, values, before, key, i, val);
      PlaceNew(before, hash, slots, key, i);
      keys[i] := Some(key);
      vals[i] := Some(val);
      assert keys[..] == before[i := Some(key)];
      assert vals[..] == values[i := Some(val)];
      slots := slots[key := i];
      len := len + 1;
    }
  }
}
