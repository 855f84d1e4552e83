/** The dictionary of the ini parser: keys, values and hashes in parallel arrays that grow when full. */
module Dictionaries {
  import opened Options

  const DICTMINSZ: nat := 128

  // ----- the hash -----

  /** A signed 8-bit character as a 32-bit word. */
  function Widened(c: char): bv32 {
    var b := c as int % 0x100;
    if b < 0x80 then b as bv32 else (b + 0xFFFF_FF00) as bv32
  }

  function Mixed(hash: bv32, word: bv32): bv32 {
    var a := hash + word;
    var b := a + (a << 10);
    b ^ (b >> 6)
  }

  function MixedAll(key: string): bv32 {
    if key == "" then 0 else Mixed(MixedAll(key[..|key| - 1]), Widened(key[|key| - 1]))
  }

  function Finished(hash: bv32): bv32 {
    var a := hash + (hash << 3);
    var b := a ^ (a >> 11);
    b + (b << 15)
  }

  function Hash(key: string): bv32 {
    Finished(MixedAll(key))
  }

  lemma {:induction false} MixedNext(key: string, c: char, word: bv32, before: bv32, after: bv32)
    requires MixedAll(key) == before && Widened(c) == word && Mixed(before, word) == after
    ensures MixedAll(key + [c]) == after
  {
    hide Mixed, Widened;
    assert (key + [c])[..|key|] == key;
  }

  lemma {:induction false} MixedValues()
    ensures Mixed(0, 0x61) == 0x18270 && Mixed(0, 0x62) == 0x18E43
    ensures Mixed(0x18270, 0x62) == 0x614F9F9 && Mixed(0x18E43, 0x61) == 0x624EEDE
  {
  }

  lemma {:induction false} FinishedValues()
    ensures Finished(0x18270) == 0xCA2E9442 && Finished(0x614F9F9) == 0x45E61E58 && Finished(0x624EEDE) == 0x7D6B8C42
  {
  }

  lemma {:induction false} WidenedValues()
    ensures Widened('a') == 0x61 && Widened('b') == 0x62
  {
    var a, b := 'a' as int % 0x100, 'b' as int % 0x100;
    assert a == 0x61 && b == 0x62;
    var word, word': bv32 := 0x61, 0x62;
    assert word as int == 0x61 && word' as int == 0x62;
  }

  /** Values of the one-at-a-time hash: they depend on the order of the characters. */
  lemma {:induction false} KnownHashes()
    ensures Hash("a") == 0xCA2E9442 && Hash("ab") == 0x45E61E58 && Hash("ba") == 0x7D6B8C42
  {
    EmptyKey();
    MixedValues();
    FinishedValues();
    WidenedValues();
    hide Mixed, Widened, Finished, MixedAll;
    MixedNext("", 'a', 0x61, 0, 0x18270);
    MixedNext("", 'b', 0x62, 0, 0x18E43);
    assert "" + ['a'] == "a" && "" + ['b'] == "b";
    MixedNext("a", 'b', 0x62, 0x18270, 0x614F9F9);
    MixedNext("b", 'a', 0x61, 0x18E43, 0x624EEDE);
    assert "a" + ['b'] == "ab" && "b" + ['a'] == "ba";
  }

  lemma {:induction false} EmptyKey()
    ensures MixedAll("") == 0
  {
  }

  method DictionaryHash(key: string) returns (hash: bv32)
    ensures hash == Hash(key)
  {
    hide Mixed, Widened, Finished;
    hash := 0;
    for i := 0 to |key|
      invariant hash == MixedAll(key[..i])
    {
      assert key[..i + 1][..i] == key[..i];
      hash := Mixed(hash, Widened(key[i]));
    }
    assert key[..|key|] == key;
    hash := Finished(hash);
  }

  // ----- occupied slots -----

  type Slots = seq<Option<string>>

  function Occupied(keys: Slots): nat {
    if keys == [] then 0 else Occupied(keys[..|keys| - 1]) + if keys[|keys| - 1].Some? then 1 else 0
  }

  lemma {:induction false} OccupiedUpdate(keys: Slots, i: nat, k: Option<string>)
    requires i < |keys|
    ensures Occupied(keys[i := k]) == Occupied(keys) - (if keys[i].Some? then 1 else 0) + (if k.Some? then 1 else 0)
  {
    var n := |keys| - 1;
    if i == n {
      assert keys[i := k][..n] == keys[..n];
    } else {
      assert keys[i := k][..n] == keys[..n][i := k];
      OccupiedUpdate(keys[..n], i, k);
    }
  }

  /** Fewer occupied slots than slots leaves a free one. */
  lemma {:induction false} FreeSlot(keys: Slots) returns (e: nat)
    requires Occupied(keys) < |keys|
    ensures e < |keys| && keys[e].None?
  {
    var n := |keys| - 1;
    if keys[n].None? {
      e := n;
    } else {
      e := FreeSlot(keys[..n]);
    }
  }

  lemma {:induction false} OccupiedAtMost(keys: Slots)
    ensures Occupied(keys) <= |keys|
  {
    if keys != [] {
      OccupiedAtMost(keys[..|keys| - 1]);
    }
  }

  lemma {:induction false} OccupiedGrown(keys: Slots, n: nat)
    ensures Occupied(keys + seq(n, _ => None)) == Occupied(keys)
  {
    var all := keys + seq(n, _ => None);
    if n == 0 {
      assert all == keys;
    } else {
      assert all[..|all| - 1] == keys + seq(n - 1, _ => None);
      OccupiedGrown(keys, n - 1);
    }
  }

  // ----- the table -----

  ghost predicate KeysDistinct(keys: Slots) {
    forall i, j :: 0 <= i < j < |keys| && keys[i].Some? ==> keys[i] != keys[j]
  }

  ghost predicate HashesRight(keys: Slots, hashes: seq<bv32>) {
    |hashes| == |keys| && forall i :: 0 <= i < |keys| && keys[i].Some? ==> hashes[i] == Hash(keys[i].value)
  }

  ghost function Table(keys: Slots, vals: Slots): (m: map<string, Option<string>>)
    requires |vals| == |keys| && KeysDistinct(keys)
  {
    map i | 0 <= i < |keys| && keys[i].Some? :: keys[i].value := vals[i]
  }

  /** The first `n` slots are taken, the others free: what a dictionary looks like from which nothing was removed. */
  ghost predicate Dense(keys: Slots, n: nat) {
    n <= |keys| && (forall i :: 0 <= i < n ==> keys[i].Some?) && (forall i :: n <= i < |keys| ==> keys[i].None?)
  }

  lemma {:induction false} DenseCount(keys: Slots, n: nat)
    requires Dense(keys, n)
    ensures Occupied(keys) == n
  {
    if keys != [] {
      var m := |keys| - 1;
      DenseCount(keys[..m], if n <= m then n else m);
    }
  }

  /** Slot `i` binds its key to its value. */
  lemma {:induction false} BindsSlot(keys: Slots, vals: Slots, i: nat)
    requires |vals| == |keys| && KeysDistinct(keys) && i < |keys| && keys[i].Some?
    ensures keys[i].value in Table(keys, vals) && Table(keys, vals)[keys[i].value] == vals[i]
  {
  }

  /** Every bound key is in some slot. */
  lemma {:induction false} BoundSlot(keys: Slots, vals: Slots, key: string) returns (i: nat)
    requires |vals| == |keys| && KeysDistinct(keys) && key in Table(keys, vals)
    ensures i < |keys| && keys[i] == Some(key) && Table(keys, vals)[key] == vals[i]
  {
    i :| 0 <= i < |keys| && keys[i] == Some(key);
  }

  lemma {:induction false} SameBindings(a: map<string, Option<string>>, b: map<string, Option<string>>)
    requires forall k :: k in a ==> k in b && a[k] == b[k]
    requires forall k :: k in b ==> k in a
    ensures a == b
  {
  }

  lemma {:induction false} BindingsReplace(keys: Slots, vals: Slots, i: nat, v: Option<string>)
    requires |vals| == |keys| && KeysDistinct(keys) && i < |keys| && keys[i].Some?
    ensures Table(keys, vals[i := v]) == Table(keys, vals)[keys[i].value := v]
  {
    hide Table;
    var was, now := Table(keys, vals), Table(keys, vals[i := v]);
    forall k | k in now
      ensures k in was[keys[i].value := v] && now[k] == was[keys[i].value := v][k]
    {
      var j := BoundSlot(keys, vals[i := v], k);
      BindsSlot(keys, vals, j);
    }
    forall k | k in was
      ensures k in now
    {
      var j := BoundSlot(keys, vals, k);
      BindsSlot(keys, vals[i := v], j);
    }
    BindsSlot(keys, vals[i := v], i);
  }

  lemma {:induction false} AddDistinct(keys: Slots, i: nat, key: string)
    requires KeysDistinct(keys) && i < |keys| && keys[i].None? && Some(key) !in keys
    ensures KeysDistinct(keys[i := Some(key)])
  {
    assert forall j :: 0 <= j < |keys| ==> keys[j] in keys;
  }

  lemma {:induction false} BindingsAdd(keys: Slots, vals: Slots, i: nat, key: string, v: Option<string>)
    requires |vals| == |keys| && KeysDistinct(keys) && i < |keys| && keys[i].None? && Some(key) !in keys
    ensures KeysDistinct(keys[i := Some(key)])
    ensures Table(keys[i := Some(key)], vals[i := v]) == Table(keys, vals)[key := v]
  {
    var keys', vals' := keys[i := Some(key)], vals[i := v];
    AddDistinct(keys, i, key);
    hide Table, KeysDistinct;
    var was, now := Table(keys, vals), Table(keys', vals');
    forall k | k in now
      ensures k in was[key := v] && now[k] == was[key := v][k]
    {
      var j := BoundSlot(keys', vals', k);
      if j != i {
        BindsSlot(keys, vals, j);
      }
    }
    forall k | k in was
      ensures k in now
    {
      var j := BoundSlot(keys, vals, k);
      BindsSlot(keys', vals', j);
    }
    BindsSlot(keys', vals', i);
  }

  lemma {:induction false} BindingsRemove(keys: Slots, vals: Slots, i: nat)
    requires |vals| == |keys| && KeysDistinct(keys) && i < |keys| && keys[i].Some?
    ensures KeysDistinct(keys[i := None])
    ensures Table(keys[i := None], vals[i := None]) == Table(keys, vals) - {keys[i].value}
  {
    var keys', vals' := keys[i := None], vals[i := None];
    hide Table;
    var was, now := Table(keys, vals), Table(keys', vals');
    forall k | k in now
      ensures k in was - {keys[i].value} && now[k] == was[k]
    {
      var j := BoundSlot(keys', vals', k);
      BindsSlot(keys, vals, j);
    }
    forall k | k in was - {keys[i].value}
      ensures k in now
    {
      var j := BoundSlot(keys, vals, k);
      BindsSlot(keys', vals', j);
    }
    SameBindings(now, was - {keys[i].value});
  }

  lemma {:induction false} BindingsGrown(keys: Slots, vals: Slots, n: nat)
    requires |vals| == |keys| && KeysDistinct(keys)
    ensures KeysDistinct(keys + seq(n, _ => None))
    ensures Table(keys + seq(n, _ => None), vals + seq(n, _ => None)) == Table(keys, vals)
  {
    var keys', vals' := keys + seq(n, _ => None), vals + seq(n, _ => None);
    hide Table;
    var was, now := Table(keys, vals), Table(keys', vals');
    forall k | k in now
      ensures k in was && now[k] == was[k]
    {
      var j := BoundSlot(keys', vals', k);
      BindsSlot(keys, vals, j);
    }
    forall k | k in was
      ensures k in now
    {
      var j := BoundSlot(keys, vals, k);
      BindsSlot(keys', vals', j);
    }
    SameBindings(now, was);
  }

  /** A copy of the array with as many more elements, all zero. */
  method MemDouble<T>(a: array<T>, zero: T) returns (b: array<T>)
    ensures fresh(b) && b[..] == a[..] + seq(a.Length, _ => zero)
  {
    b := new T[2 * a.Length](i requires 0 <= i < 2 * a.Length reads a => if i < a.Length then a[i] else zero);
  }

  class Dictionary {
    var n: nat
    var key: array<Option<string>>
    var val: array<Option<string>>
    var hash: array<bv32>

    ghost predicate Valid()
      reads this, key, val, hash
    {
      && key != val && hash as object != key as object && hash as object != val as object
      && 0 < key.Length == val.Length == hash.Length
      && n == Occupied(key[..]) && KeysDistinct(key[..]) && HashesRight(key[..], hash[..])
    }

    /** What the dictionary says; a key may be bound to no value. */
    ghost function View(): map<string, Option<string>>
      reads this, key, val, hash
      requires Valid()
    {
      Table(key[..], val[..])
    }

    constructor (size: nat)
      ensures Valid() && fresh(key) && fresh(val) && fresh(hash) && n == 0
      ensures View() == map[] && key.Length == (if size < DICTMINSZ then DICTMINSZ else size)
    {
      var s := if size < DICTMINSZ then DICTMINSZ else size;
      n := 0;
      key := new Option<string>[s](_ => None);
      val := new Option<string>[s](_ => None);
      hash := new bv32[s](_ => 0);
      new;
      DenseCount(key[..], 0);
    }

    /** The slot of a key, or the size when the key is not there. */
    method FindSlot(k: string) returns (i: nat)
      requires Valid()
      ensures i < key.Length ==> key[i] == Some(k) && k in View() && View()[k] == val[i]
      ensures i == key.Length ==> Some(k) !in key[..] && k !in View()
      ensures i <= key.Length
    {
      hide Hash, Occupied;
      var h := DictionaryHash(k);
      i := 0;
      while i < key.Length
        invariant i <= key.Length && forall j :: 0 <= j < i ==> key[j] != Some(k)
      {
        if key[i].Some? && h == hash[i] && key[i].value == k {
          BindsSlot(key[..], val[..], i);
          return;
        }
        i := i + 1;
      }
    }

    method Get(k: string, def: Option<string>) returns (r: Option<string>)
      requires Valid()
      ensures r == if k in View() then View()[k] else def
    {
      var i := FindSlot(k);
      r := if i < key.Length then val[i] else def;
    }

    /** Doubles the storage. */
    method Grow()
      requires Valid()
      modifies this
      ensures Valid() && View() == old(View()) && n == old(n) && key.Length == 2 * old(key.Length)
      ensures fresh(key) && fresh(val) && fresh(hash) && key[..] == old(key[..]) + seq(old(key.Length), _ => None)
    {
      hide Hash, Occupied;
      ghost var keys, vals := key[..], val[..];
      BindingsGrown(keys, vals, key.Length);
      OccupiedGrown(keys, key.Length);
      val := MemDouble(val, None);
      key := MemDouble(key, None);
      hash := MemDouble(hash, 0);
    }

    /** The first free slot from `n` on, wrapping around; as there is one the search ends. */
    method FreeSlotFrom() returns (i: nat)
      requires Valid() && n < key.Length
      ensures i < key.Length && key[i].None?
      ensures (key[n].None? ==> i == n)
    {
      ghost var e := FreeSlot(key[..]);
      i := n;
      while key[i].Some?
        invariant i < key.Length && (key[n].None? ==> i == n)
        decreases if i <= e then e - i else key.Length - i + e
      {
        i := i + 1;
        if i == key.Length {
          i := 0;
        }
      }
    }

    /** Binds a key, in its old slot or in a new one; without a key nothing happens. */
    method Set(k: Option<string>, v: Option<string>) returns (ok: bool)
      requires Valid()
      modifies this, key, val, hash
      ensures Valid() && ok == k.Some?
      ensures View() == if k.Some? then old(View())[k.value := v] else old(View())
      ensures n == if k.Some? && k.value !in old(View()) then old(n) + 1 else old(n)
      // As long as nothing is removed the keys stay in the order in which they were first set.
      ensures Dense(old(key[..]), old(n)) ==>
                Dense(key[..], n)
                  && key[..n] == old(key[..n]) + (if k.Some? && k.value !in old(View()) then [k] else [])
      ensures (key == old(key) && val == old(val) && hash == old(hash)) || (fresh(key) && fresh(val) && fresh(hash))
    {
      if k.None? {
        return false;
      }
      hide Hash, Occupied, Dense, KeysDistinct, HashesRight, Table;
      var i := FindSlot(k.value);
      if i < key.Length {
        ReplaceAt(i, v);
      } else {
        AddNew(k.value, v);
      }
      ok := true;
    }

    /** Changes the value in a taken slot. */
    method ReplaceAt(i: nat, v: Option<string>)
      requires Valid() && i < key.Length && key[i].Some?
      modifies val
      ensures Valid() && View() == old(View())[key[i].value := v]
    {
      hide Hash, Occupied;
      BindingsReplace(key[..], val[..], i, v);
      ghost var vals := val[..];
      val[i] := v;
      assert val[..] == vals[i := v];
    }

    /** Finds room for a new key, growing when every slot is taken. */
    method AddNew(k: string, v: Option<string>)
      requires Valid() && Some(k) !in key[..]
      modifies this, key, val, hash
      ensures Valid() && View() == old(View())[k := v] && n == old(n) + 1
      ensures Dense(old(key[..]), old(n)) ==> Dense(key[..], n) && key[..n] == old(key[..n]) + [Some(k)]
      ensures (key == old(key) && val == old(val) && hash == old(hash)) || (fresh(key) && fresh(val) && fresh(hash))
    {
      hide Hash, Occupied, Dense, KeysDistinct, HashesRight, Table;
      ghost var was := key[..];
      OccupiedAtMost(was);
      if n == key.Length {
        Grow();
      }
      NewKeyStays(was, key[..], k);
      var i := FreeSlotFrom();
      DenseAdd(was, n, key[..], i, k);
      AddAt(i, k, v);
    }

    /** Puts a new key into a free slot. */
    method AddAt(i: nat, k: string, v: Option<string>)
      requires Valid() && i < key.Length && key[i].None? && Some(k) !in key[..]
      modifies this`n, key, val, hash
      ensures Valid() && View() == old(View())[k := v] && n == old(n) + 1
      ensures key[..] == old(key[..])[i := Some(k)]
    {
      hide Hash, Occupied;
      ghost var keys, vals, hashes := key[..], val[..], hash[..];
      BindingsAdd(keys, vals, i, k, v);
      OccupiedUpdate(keys, i, Some(k));
      var h := DictionaryHash(k);
      key[i] := Some(k);
      val[i] := v;
      hash[i] := h;
      n := n + 1;
      assert key[..] == keys[i := Some(k)] && val[..] == vals[i := v];
    }

    method Unset(k: string)
      requires Valid()
      modifies this, key, val, hash
      ensures Valid() && key == old(key) && val == old(val) && hash == old(hash)
      ensures View() == old(View()) - {k}
    {
      hide Hash, Occupied;
      var i := FindSlot(k);
      if i == key.Length {
        return;
      }
      ghost var keys, vals := key[..], val[..];
      BindingsRemove(keys, vals, i);
      OccupiedUpdate(keys, i, None);
      key[i] := None;
      val[i] := None;
      hash[i] := 0;
      assert key[..] == keys[i := None] && val[..] == vals[i := None];
      n := n - 1;
    }
  }

  /** The first key that does not fit in the taken slots goes right behind them, in the grown storage if need be. */
  lemma {:induction false} DenseAdd(was: Slots, n: nat, keys: Slots, i: nat, k: string)
    requires keys == was || keys == was + seq(|was|, _ => None)
    requires n < |keys| && i < |keys| && (keys[n].None? ==> i == n)
    ensures Dense(was, n) ==> Dense(keys[i := Some(k)], n + 1) && keys[i := Some(k)][..n + 1] == was[..n] + [Some(k)]
  {
    if Dense(was, n) {
      assert n < |was| ==> keys[n] == was[n];
      assert keys[i := Some(k)][..n + 1] == keys[..n] + [Some(k)];
    }
  }

  lemma {:induction false} NewKeyStays(a: Slots, b: Slots, k: string)
    requires Some(k) !in a && (b == a || b == a + seq(|a|, _ => None))
    ensures Some(k) !in b
  {
  }
}
