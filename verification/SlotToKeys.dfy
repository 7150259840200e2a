/** The keyspace of a cluster node (database 0) with its expires, and the index of keys by hash slot. */
module SlotToKeys {
  import opened Common
  import opened ClusterModel

  type Bytes = string

  // --------------------------------------------------------------------------
  // Hash slots
  // --------------------------------------------------------------------------

  function Find(key: Bytes, c: char, from: nat): (i: nat)
    requires from <= |key|
    ensures from <= i <= |key| && (i < |key| ==> key[i] == c) && forall j | from <= j < i :: key[j] != c
    decreases |key| - from
  {
    if from == |key| || key[from] == c then from else Find(key, c, from + 1)
  }

  /** What is hashed: the part between the first { and the first } after it, unless there is none or it is empty. */
  function Tag(key: Bytes): Bytes {
    var s := Find(key, '{', 0);
    if s == |key| then key
    else
      var e := Find(key, '}', s + 1);
      if e == |key| || e == s + 1 then key else key[s + 1..e]
  }

  /** keyHashSlot, for a given crc16. */
  function Slot(crc16: Bytes -> nat, key: Bytes): (s: nat)
    ensures s < CLUSTER_SLOTS
  {
    crc16(Tag(key)) % CLUSTER_SLOTS
  }

  /** Keys that agree on a tag between braces live in one slot, whatever is around the tag. */
  lemma SameTagSameSlot(crc16: Bytes -> nat, a: Bytes, b: Bytes, tag: Bytes, a': Bytes, b': Bytes)
    requires '{' !in a && '{' !in b && '}' !in tag && tag != []
    ensures Slot(crc16, a + "{" + tag + "}" + a') == Slot(crc16, b + "{" + tag + "}" + b')
  {
    TagOf(a, tag, a');
    TagOf(b, tag, b');
  }

  /** A key with something between its first { and the first } after it hashes that alone. */
  lemma TaggedSlot(crc16: Bytes -> nat, a: Bytes, tag: Bytes, b: Bytes)
    requires '{' !in a && '}' !in tag && tag != []
    ensures Slot(crc16, a + "{" + tag + "}" + b) == crc16(tag) % 16384
  {
    TagOf(a, tag, b);
  }

  /** A key without an opening brace, without a closing one after it, or with nothing between them hashes whole. */
  lemma UntaggedSlot(crc16: Bytes -> nat, key: Bytes)
    requires '{' !in key || (exists a, b :: Unclosed(key, a, b) || Empty(key, a, b))
    ensures Slot(crc16, key) == crc16(key) % 16384
  {
    hide Find;
    if '{' in key {
      var a, b :| Unclosed(key, a, b) || Empty(key, a, b);
      FirstBrace(key, a);
      if Empty(key, a, b) {
        FindIs(key, '}', |a| + 1, |a| + 1);
      } else {
        NoneAfter(key, a, b);
      }
    }
  }

  lemma FirstBrace(key: Bytes, a: Bytes)
    requires |a| < |key| && a <= key && key[|a|] == '{' && '{' !in a
    ensures Find(key, '{', 0) == |a|
  {
    hide Find;
    assert forall j | 0 <= j < |a| :: key[j] == a[j];
    FindIs(key, '{', 0, |a|);
  }

  lemma NoneAfter(key: Bytes, a: Bytes, b: Bytes)
    requires Unclosed(key, a, b)
    ensures Find(key, '}', |a| + 1) == |key|
  {
    hide Find;
    assert forall j | |a| + 1 <= j < |key| :: key[j] == b[j - |a| - 1];
  }

  predicate Unclosed(key: Bytes, a: Bytes, b: Bytes) {
    key == a + "{" + b && '{' !in a && '}' !in b
  }

  predicate Empty(key: Bytes, a: Bytes, b: Bytes) {
    key == a + "{}" + b && '{' !in a
  }

  lemma TagOf(a: Bytes, tag: Bytes, a': Bytes)
    requires '{' !in a && '}' !in tag && tag != []
    ensures Tag(a + "{" + tag + "}" + a') == tag
  {
    var key := a + "{" + tag + "}" + a';
    assert forall j | 0 <= j < |a| :: key[j] == a[j];
    assert key[|a|] == '{' && key[|a| + 1 + |tag|] == '}';
    assert forall j | 0 <= j < |tag| :: key[|a| + 1 + j] == tag[j];
    FindIs(key, '{', 0, |a|);
    forall j | |a| + 1 <= j < |a| + 1 + |tag| ensures key[j] != '}' {
      assert key[j] == tag[j - |a| - 1];
    }
    FindIs(key, '}', |a| + 1, |a| + 1 + |tag|);
    assert key[|a| + 1..|a| + 1 + |tag|] == tag;
  }

  lemma {:induction false} FindIs(key: Bytes, c: char, from: nat, i: nat)
    requires from <= i < |key| && key[i] == c && forall j | from <= j < i :: key[j] != c
    ensures Find(key, c, from) == i
  {
    hide Find;
    var f := Find(key, c, from);
    assert !(f < i) && !(i < f);
  }

  // --------------------------------------------------------------------------
  // The ordered index
  // --------------------------------------------------------------------------

  /** The order of the radix tree: byte by byte, a prefix before what it starts. */
  predicate Leq(a: Bytes, b: Bytes) {
    a == [] || (b != [] && (a[0] < b[0] || (a[0] == b[0] && Leq(a[1..], b[1..]))))
  }

  lemma {:induction false} LeqTotal(a: Bytes, b: Bytes)
    ensures Leq(a, b) || Leq(b, a)
    ensures Leq(a, a)
  {
    if a != [] {
      LeqTotal(a[1..], if b == [] then [] else b[1..]);
    }
  }

  lemma {:induction false} LeqTransitive(a: Bytes, b: Bytes, c: Bytes)
    requires Leq(a, b) && Leq(b, c)
    ensures Leq(a, c)
  {
    if a != [] && a[0] == b[0] && b[0] == c[0] {
      LeqTransitive(a[1..], b[1..], c[1..]);
    }
  }

  lemma {:induction false} PrefixLeq(p: Bytes, e: Bytes)
    requires p <= e
    ensures Leq(p, e)
  {
    if p != [] {
      PrefixLeq(p[1..], e[1..]);
    }
  }

  /** Between a prefix and a string it starts, every string starts with it. */
  lemma {:induction false} Sandwich(p: Bytes, m: Bytes, e: Bytes)
    requires p <= e && Leq(p, m) && Leq(m, e)
    ensures p <= m
  {
    if p != [] {
      assert p[0] == e[0] == m[0];
      assert p[1..] <= e[1..];
      Sandwich(p[1..], m[1..], e[1..]);
      assert p == [p[0]] + p[1..] && m == [m[0]] + m[1..];
    }
  }

  /** The two bytes of a slot's number. */
  function Prefix(slot: nat): (p: Bytes)
    requires slot < CLUSTER_SLOTS
    ensures |p| == 2
  {
    [(slot / 256) as char, (slot % 256) as char]
  }

  function Named(crc16: Bytes -> nat, key: Bytes): (n: Bytes)
    ensures |n| == |key| + 2 && n[2..] == key
  {
    Prefix(Slot(crc16, key)) + key
  }

  lemma PrefixTells(a: nat, b: nat)
    requires a < CLUSTER_SLOTS && b < CLUSTER_SLOTS && Prefix(a) == Prefix(b)
    ensures a == b
  {
    assert (a / 256) as char == Prefix(a)[0] && (b / 256) as char == Prefix(b)[0];
    assert (a % 256) as char == Prefix(a)[1] && (b % 256) as char == Prefix(b)[1];
    assert a / 256 == b / 256 && a % 256 == b % 256;
  }

  lemma StartsWithSlot(crc16: Bytes -> nat, key: Bytes, slot: nat)
    requires slot < CLUSTER_SLOTS
    ensures Prefix(slot) <= Named(crc16, key) <==> Slot(crc16, key) == slot
  {
    hide Prefix, Slot;
    assert Named(crc16, key)[..2] == Prefix(Slot(crc16, key));
    if Prefix(slot) <= Named(crc16, key) {
      assert Prefix(slot) == Named(crc16, key)[..2];
      PrefixTells(slot, Slot(crc16, key));
    }
  }

  /** raxSeek with ">=", then raxNext: the least element not below a string. */
  method SeekNext(index: set<Bytes>, from: Bytes) returns (r: Option<Bytes>)
    ensures r.None? <==> forall e | e in index :: !Leq(from, e)
    ensures r.Some? ==>
              r.value in index && Leq(from, r.value) && forall e | e in index && Leq(from, e) :: Leq(r.value, e)
  {
    hide Leq;
    r := None;
    var todo := index;
    while todo != {}
      invariant todo <= index
      invariant r.None? ==> forall e | e in index - todo :: !Leq(from, e)
      invariant r.Some? ==>
                  && r.value in index && Leq(from, r.value)
                  && forall e | e in index - todo && Leq(from, e) :: Leq(r.value, e)
      decreases |todo|
    {
      hide Leq;
      var x :| x in todo;
      todo := todo - {x};
      if Leq(from, x) {
        LeqTotal(x, x);
        if r.None? {
          r := Some(x);
        } else if Leq(x, r.value) {
          ghost var was := r.value;
          forall e | e in index - todo && Leq(from, e) ensures Leq(x, e) {
            if e != x {
              LeqTransitive(x, was, e);
            }
          }
          r := Some(x);
        } else {
          LeqTotal(r.value, x);
        }
      }
    }
  }

  // --------------------------------------------------------------------------
  // What the index holds
  // --------------------------------------------------------------------------

  type Value = string

  function KeysIn(crc16: Bytes -> nat, keys: set<Bytes>, slot: nat): set<Bytes> {
    set k | k in keys && Slot(crc16, k) == slot
  }

  function NamesOf(crc16: Bytes -> nat, keys: set<Bytes>): set<Bytes> {
    set k | k in keys :: Named(crc16, k)
  }

  /** The counters and the ordered index hold exactly the keys, by slot. */
  ghost predicate Indexes(crc16: Bytes -> nat, keys: set<Bytes>, counts: seq<nat>, index: set<Bytes>) {
    && |counts| == CLUSTER_SLOTS && index == NamesOf(crc16, keys)
    && forall s | 0 <= s < CLUSTER_SLOTS :: counts[s] == |KeysIn(crc16, keys, s)|
  }

  lemma IndexAdds(crc16: Bytes -> nat, keys: set<Bytes>, counts: seq<nat>, index: set<Bytes>, k: Bytes)
    requires Indexes(crc16, keys, counts, index) && k !in keys
    ensures var s := Slot(crc16, k);
            Indexes(crc16, keys + {k}, counts[s := counts[s] + 1], index + {Named(crc16, k)})
  {
    hide Slot, Named;
    var s := Slot(crc16, k);
    forall t | 0 <= t < CLUSTER_SLOTS ensures counts[s := counts[s] + 1][t] == |KeysIn(crc16, keys + {k}, t)| {
      if t == s {
        assert KeysIn(crc16, keys + {k}, t) == KeysIn(crc16, keys, t) + {k};
      } else {
        assert KeysIn(crc16, keys + {k}, t) == KeysIn(crc16, keys, t);
      }
    }
  }

  lemma NamedInjective(crc16: Bytes -> nat, a: Bytes, b: Bytes)
    requires Named(crc16, a) == Named(crc16, b)
    ensures a == b
  {
    hide Slot, Prefix;
    assert Named(crc16, a)[2..] == a && Named(crc16, b)[2..] == b;
  }

  lemma IndexRemoves(crc16: Bytes -> nat, keys: set<Bytes>, counts: seq<nat>, index: set<Bytes>, k: Bytes)
    requires Indexes(crc16, keys, counts, index) && k in keys
    ensures var s := Slot(crc16, k);
            counts[s] > 0 && Indexes(crc16, keys - {k}, counts[s := counts[s] - 1], index - {Named(crc16, k)})
  {
    hide Slot, Named;
    var s := Slot(crc16, k);
    assert k in KeysIn(crc16, keys, s);
    forall t | 0 <= t < CLUSTER_SLOTS ensures counts[s := counts[s] - 1][t] == |KeysIn(crc16, keys - {k}, t)| {
      if t == s {
        assert KeysIn(crc16, keys - {k}, t) == KeysIn(crc16, keys, t) - {k};
      } else {
        assert KeysIn(crc16, keys - {k}, t) == KeysIn(crc16, keys, t);
      }
    }
    forall j | j in keys && j != k ensures Named(crc16, j) != Named(crc16, k) {
      if Named(crc16, j) == Named(crc16, k) {
        NamedInjective(crc16, j, k);
      }
    }
    assert NamesOf(crc16, keys - {k}) == index - {Named(crc16, k)};
  }

  // --------------------------------------------------------------------------
  // The database
  // --------------------------------------------------------------------------

  class Db {
    const crc16: Bytes -> nat
    var dict: map<Bytes, Value>
    var expires: map<Bytes, int>
    var counts: seq<nat>
    var index: set<Bytes>

    /** The index is exact, and only existing keys have an expire. */
    ghost predicate Valid()
      reads this
    {
      Indexes(crc16, dict.Keys, counts, index) && expires.Keys <= dict.Keys
    }

    method SlotToKeyAdd(key: Bytes)
      requires |counts| == CLUSTER_SLOTS
      modifies this`counts, this`index
      ensures counts == old(counts)[Slot(crc16, key) := old(counts)[Slot(crc16, key)] + 1]
      ensures index == old(index) + {Named(crc16, key)}
    {
      var hashslot := Slot(crc16, key);
      counts := counts[hashslot := counts[hashslot] + 1];
      index := index + {Prefix(hashslot) + key};
    }

    method SlotToKeyDel(key: Bytes)
      requires |counts| == CLUSTER_SLOTS && counts[Slot(crc16, key)] > 0
      modifies this`counts, this`index
      ensures counts == old(counts)[Slot(crc16, key) := old(counts)[Slot(crc16, key)] - 1]
      ensures index == old(index) - {Named(crc16, key)}
    {
      var hashslot := Slot(crc16, key);
      counts := counts[hashslot := counts[hashslot] - 1];
      index := index - {Prefix(hashslot) + key};
    }

    /** The key must be new: the server aborts otherwise. */
    method DbAdd(key: Bytes, val: Value)
      requires Valid() && key !in dict
      modifies this
      ensures Valid() && dict == old(dict)[key := val] && expires == old(expires)
    {
      hide Indexes, Named, Slot;
      IndexAdds(crc16, dict.Keys, counts, index, key);
      CountsAreThere(crc16, dict.Keys, counts, index);
      dict := dict[key := val];
      SlotToKeyAdd(key);
      assert dict.Keys == old(dict.Keys) + {key};
    }

    method DbOverwrite(key: Bytes, val: Value)
      requires Valid() && key in dict
      modifies this`dict
      ensures Valid() && dict == old(dict)[key := val]
    {
      dict := dict[key := val];
      assert dict.Keys == old(dict.Keys);
    }

    method RemoveExpire(key: Bytes) returns (removed: bool)
      requires Valid() && key in dict
      modifies this`expires
      ensures Valid() && expires == old(expires) - {key} && removed == (key in old(expires))
    {
      removed := key in expires;
      expires := expires - {key};
    }

    method SetExpire(key: Bytes, when: int)
      requires Valid() && key in dict
      modifies this`expires
      ensures Valid() && expires == old(expires)[key := when]
    {
      expires := expires[key := when];
    }

    /** Sets a key whatever it was, without expire. */
    method SetKey(key: Bytes, val: Value)
      requires Valid()
      modifies this
      ensures Valid() && dict == old(dict)[key := val] && expires == old(expires) - {key}
    {
      hide Indexes;
      if key !in dict {
        DbAdd(key, val);
      } else {
        DbOverwrite(key, val);
      }
      var _ := RemoveExpire(key);
    }

    method DbDelete(key: Bytes) returns (deleted: bool)
      requires Valid()
      modifies this
      ensures Valid() && dict == old(dict) - {key} && expires == old(expires) - {key} && deleted == (key in old(dict))
    {
      hide Indexes, Named, Slot;
      CountsAreThere(crc16, dict.Keys, counts, index);
      if |expires| > 0 {
        expires := expires - {key};
      }
      assert expires == old(expires) - {key};
      deleted := key in dict;
      if deleted {
        IndexRemoves(crc16, dict.Keys, counts, index, key);
        dict := dict - {key};
        SlotToKeyDel(key);
        assert dict.Keys == old(dict.Keys) - {key};
      } else {
        assert dict == old(dict) - {key};
      }
    }

    /** RENAME and RENAMENX: the value and its expire move to the new name. */
    method Rename(src: Bytes, dst: Bytes, nx: bool) returns (renamed: bool)
      requires Valid()
      modifies this
      ensures Valid() && renamed == (src in old(dict) && src != dst && !(nx && dst in old(dict)))
      ensures !renamed ==> dict == old(dict) && expires == old(expires)
      ensures renamed ==> dict == (old(dict) - {src})[dst := old(dict)[src]]
      ensures renamed && src in old(expires) ==> expires == (old(expires) - {src})[dst := old(expires)[src]]
      ensures renamed && src !in old(expires) ==> expires == old(expires) - {src, dst}
    {
      hide Indexes, Named, Slot;
      if src !in dict || src == dst {
        return false;
      }
      var o := dict[src];
      var expire := if src in expires then Some(expires[src]) else None;
      if dst in dict {
        if nx {
          return false;
        }
        var _ := DbDelete(dst);
      }
      DbAdd(dst, o);
      if expire.Some? {
        SetExpire(dst, expire.value);
      }
      var _ := DbDelete(src);
      renamed := true;
      Moved(old(dict), src, dst, o);
      if expire.Some? {
        Moved(old(expires), src, dst, expire.value);
      }
    }

    /** One turn of the loop of delKeysInSlot: the first key found from the slot's prefix on goes. */
    method DelFirstInSlot(slot: nat) returns (key: Bytes)
      requires Valid() && slot < CLUSTER_SLOTS && KeysIn(crc16, dict.Keys, slot) != {}
      modifies this
      ensures Valid() && key in KeysIn(crc16, old(dict.Keys), slot)
      ensures dict == old(dict) - {key} && expires == old(expires) - {key}
      ensures KeysIn(crc16, dict.Keys, slot) == KeysIn(crc16, old(dict.Keys), slot) - {key}
    {
      hide Indexes, Named, Slot, KeysIn, NamesOf;
      IndexIsNames(crc16, dict.Keys, counts, index);
      var r := SeekNext(index, Prefix(slot));
      FoundAmong(crc16, dict.Keys, index, slot, r);
      StartsInSlot(crc16, dict.Keys, index, slot, r.value);
      key := r.value[2..];
      LessInSlot(crc16, dict.Keys, slot, key);
      var _ := DbDelete(key);
      assert dict.Keys == old(dict.Keys) - {key};
    }

    /** Ends having removed exactly the slot's keys. */
    method DelKeysInSlot(slot: nat) returns (j: nat)
      requires Valid() && slot < CLUSTER_SLOTS
      modifies this
      ensures Valid() && j == |KeysIn(crc16, old(dict.Keys), slot)|
      ensures dict == old(dict) - KeysIn(crc16, old(dict.Keys), slot)
      ensures expires == old(expires) - KeysIn(crc16, old(dict.Keys), slot)
    {
      hide Indexes, Slot, KeysIn;
      j := 0;
      ghost var all := KeysIn(crc16, dict.Keys, slot);
      ghost var gone: set<Bytes> := {};
      assert all - gone == all && dict - gone == dict && expires - gone == expires;
      CountOf(crc16, dict.Keys, counts, index, slot);
      while counts[slot] != 0
        invariant Valid() && |counts| == CLUSTER_SLOTS && gone <= all && j == |gone|
        invariant dict == old(dict) - gone && expires == old(expires) - gone
        invariant KeysIn(crc16, dict.Keys, slot) == all - gone && counts[slot] == |all - gone|
        decreases counts[slot]
      {
        hide Indexes, Slot, KeysIn;
        var key := DelFirstInSlot(slot);
        Without(old(dict), gone, key);
        Without(old(expires), gone, key);
        assert all - gone - {key} == all - (gone + {key});
        gone := gone + {key};
        CountOf(crc16, dict.Keys, counts, index, slot);
        j := j + 1;
      }
      hide Indexes, Slot, KeysIn;
      assert gone == all;
    }

    /** Up to `count` different keys of the slot: all of them when there are no more than that. */
    method GetKeysInSlot(slot: nat, count: nat) returns (keys: seq<Bytes>)
      requires Valid() && slot < CLUSTER_SLOTS
      ensures var all := KeysIn(crc16, dict.Keys, slot);
              && (forall k | k in keys :: k in all) && (forall a, b | 0 <= a < b < |keys| :: keys[a] != keys[b])
              && |keys| == if count < |all| then count else |all|
    {
      hide Named, Slot, KeysIn;
      keys := [];
      ghost var all := KeysIn(crc16, dict.Keys, slot);
      ghost var left := dict.Keys;
      var rest, n: nat := index, count;
      ghost var seen := {};
      while n != 0
        invariant n + |keys| == count && left <= dict.Keys && rest == NamesOf(crc16, left)
        invariant (set k | k in keys) == seen && seen <= all && |seen| == |keys|
        invariant KeysIn(crc16, left, slot) == all - seen
        invariant forall a, b | 0 <= a < b < |keys| :: keys[a] != keys[b]
        decreases n
      {
        hide Named, Slot, KeysIn;
        var r := SeekNext(rest, Prefix(slot));
        if r.None? || !(Prefix(slot) <= r.value) {
          if KeysIn(crc16, left, slot) != {} {
            FoundAmong(crc16, left, rest, slot, r);
          }
          assert all - seen == {};
          assert seen == all;
          return;
        }
        var key := r.value[2..];
        StartsInSlot(crc16, left, rest, slot, r.value);
        LessInSlot(crc16, left, slot, key);
        rest := rest - {r.value};
        left := left - {key};
        assert all - (seen + {key}) == all - seen - {key};
        seen := seen + {key};
        keys := keys + [key];
        n := n - 1;
      }
      SubsetCardinality(seen, all);
    }
  }

  lemma Without<T>(m: map<Bytes, T>, gone: set<Bytes>, k: Bytes)
    ensures m - gone - {k} == m - (gone + {k})
  {
  }

  lemma Moved<T>(m: map<Bytes, T>, src: Bytes, dst: Bytes, v: T)
    requires src != dst
    ensures m[dst := v] - {src} == (m - {src})[dst := v] && (m - {dst})[dst := v] == m[dst := v]
  {
  }

  lemma CountsAreThere(crc16: Bytes -> nat, keys: set<Bytes>, counts: seq<nat>, index: set<Bytes>)
    requires Indexes(crc16, keys, counts, index)
    ensures |counts| == CLUSTER_SLOTS
  {
  }

  lemma IndexIsNames(crc16: Bytes -> nat, keys: set<Bytes>, counts: seq<nat>, index: set<Bytes>)
    requires Indexes(crc16, keys, counts, index)
    ensures index == NamesOf(crc16, keys)
  {
  }

  lemma CountOf(crc16: Bytes -> nat, keys: set<Bytes>, counts: seq<nat>, index: set<Bytes>, slot: nat)
    requires Indexes(crc16, keys, counts, index) && slot < CLUSTER_SLOTS
    ensures |counts| == CLUSTER_SLOTS && counts[slot] == |KeysIn(crc16, keys, slot)|
  {
    hide KeysIn;
  }

  lemma LessInSlot(crc16: Bytes -> nat, keys: set<Bytes>, slot: nat, k: Bytes)
    ensures KeysIn(crc16, keys - {k}, slot) == KeysIn(crc16, keys, slot) - {k}
  {
  }

  lemma FoundAmong(crc16: Bytes -> nat, keys: set<Bytes>, index: set<Bytes>, slot: nat, r: Option<Bytes>)
    requires index == NamesOf(crc16, keys) && slot < CLUSTER_SLOTS && KeysIn(crc16, keys, slot) != {}
    requires r.None? <==> forall e | e in index :: !Leq(Prefix(slot), e)
    requires r.Some? ==>
               && r.value in index && Leq(Prefix(slot), r.value)
               && forall e | e in index && Leq(Prefix(slot), e) :: Leq(r.value, e)
    ensures r.Some? && Prefix(slot) <= r.value
  {
    hide Slot, Leq, Prefix, Named;
    var k :| k in KeysIn(crc16, keys, slot);
    var e := Named(crc16, k);
    assert e in index;
    StartsWithSlot(crc16, k, slot);
    PrefixLeq(Prefix(slot), e);
    Sandwich(Prefix(slot), r.value, e);
  }

  lemma StartsInSlot(crc16: Bytes -> nat, keys: set<Bytes>, index: set<Bytes>, slot: nat, e: Bytes)
    requires index == NamesOf(crc16, keys) && slot < CLUSTER_SLOTS && e in index && Prefix(slot) <= e
    ensures |e| >= 2 && e[2..] in KeysIn(crc16, keys, slot) && e[2..] in keys && e == Named(crc16, e[2..])
  {
    hide Slot, Prefix;
    var j :| j in keys && e == Named(crc16, j);
    StartsWithSlot(crc16, j, slot);
    assert e[2..] == j;
  }
}
