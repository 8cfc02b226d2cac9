// Comparing two readings of the wall contours: `contour_delta` in
// sims_mod_src/kermp_mod/build_adapter.py. Walls have no reliable identity, so contours are
// compared by their canonical JSON text, counting repeats.
module Contours {

  // A contour with its canonical text; contours with the same text may still differ.
  datatype Contour = Contour(key: string, content: int)

  function Keys(s: seq<Contour>): seq<string> {
    seq(|s|, i requires 0 <= i < |s| => s[i].key)
  }

  ghost function KeyBag(s: seq<Contour>): multiset<string> {
    multiset(Keys(s))
  }

  lemma KeyBagAppend(s: seq<Contour>, t: seq<Contour>)
    ensures KeyBag(s + t) == KeyBag(s) + KeyBag(t)
  {
    assert Keys(s + t) == Keys(s) + Keys(t);
  }

  // Where a key first occurs.
  function First(keys: seq<string>, key: string): (i: nat)
    ensures i <= |keys| && key !in keys[..i] && (i < |keys| ==> keys[i] == key)
  {
    if keys == [] || keys[0] == key then 0
    else
      var i := 1 + First(keys[1..], key);
      assert keys[..i] == [keys[0]] + keys[1..][..i - 1];
      i
  }

  lemma FirstIs(keys: seq<string>, key: string, i: nat)
    requires i < |keys| && keys[i] == key && key !in keys[..i]
    ensures First(keys, key) == i
  {
  }

  // The items come in the order in which their keys first occur.
  ghost predicate InOrder(keys: seq<string>, items: seq<Contour>) {
    forall i, j | 0 <= i < j < |items| :: First(keys, items[i].key) <= First(keys, items[j].key)
  }

  // Python's dict of counts, with its keys in insertion order.
  datatype Counts = Counts(order: seq<string>, count: map<string, nat>)

  function CountOf(c: Counts, key: string): nat {
    if key in c.count then c.count[key] else 0
  }

  ghost predicate CountsUp(c: Counts, keys: seq<string>) {
    && (forall i, j | 0 <= i < j < |c.order| :: c.order[i] != c.order[j])
    && (forall k :: k in c.order <==> k in keys)
    && (forall k :: k in c.count <==> k in keys)
    && (forall k :: CountOf(c, k) == multiset(keys)[k])
  }

  ghost predicate OrderedLike(order: seq<string>, keys: seq<string>) {
    forall i, j | 0 <= i < j < |order| :: First(keys, order[i]) < First(keys, order[j])
  }

  lemma OrderGrows(order: seq<string>, keys: seq<string>, i: nat)
    requires OrderedLike(order, keys) && i < |keys| && keys[i] !in keys[..i]
    requires forall k | k in order :: k in keys[..i]
    ensures OrderedLike(order + [keys[i]], keys)
  {
    FirstIs(keys, keys[i], i);
    forall a | 0 <= a < |order|
      ensures First(keys, order[a]) < i
    {
      assert order[a] in keys[..i];
    }
  }

  method Count(keys: seq<string>) returns (c: Counts)
    ensures CountsUp(c, keys) && OrderedLike(c.order, keys)
  {
    c := Counts([], map[]);
    for i := 0 to |keys|
      invariant CountsUp(c, keys[..i]) && OrderedLike(c.order, keys)
    {
      var key := keys[i];
      assert keys[..i + 1] == keys[..i] + [key];
      if key !in c.count {
        OrderGrows(c.order, keys, i);
      }
      c := Counts(if key in c.count then c.order else c.order + [key], c.count[key := CountOf(c, key) + 1]);
    }
    assert keys[..|keys|] == keys;
  }

  method IndexOf(keys: seq<string>, key: string) returns (i: nat)
    requires key in keys
    ensures i < |keys| && keys[i] == key && key !in keys[..i]
  {
    i := 0;
    while keys[i] != key
      invariant i < |keys| && key !in keys[..i]
      decreases |keys| - i
    {
      i := i + 1;
    }
  }

  function Copies(item: Contour, n: nat): seq<Contour> {
    seq(n, _ => item)
  }

  lemma {:induction false} CopiesBag(item: Contour, n: nat)
    ensures KeyBag(Copies(item, n)) == multiset{}[item.key := n]
  {
    if n > 0 {
      CopiesBag(item, n - 1);
      assert Copies(item, n) == Copies(item, n - 1) + [item];
      KeyBagAppend(Copies(item, n - 1), [item]);
      assert Keys([item]) == [item.key];
    }
  }

  method Repeat(item: Contour, n: int) returns (copies: seq<Contour>)
    ensures copies == Copies(item, if n > 0 then n else 0)
  {
    copies := [];
    for i := 0 to if n > 0 then n else 0
      invariant copies == Copies(item, i)
    {
      copies := copies + [item];
    }
  }

  // The item is the first one in the list with its key.
  ghost predicate FirstWithKey(items: seq<Contour>, item: Contour) {
    exists i :: 0 <= i < |items| && items[i] == item && item.key !in Keys(items)[..i]
  }

  // The bag restricted to the given keys.
  ghost predicate BagUpTo(bag: multiset<string>, keys: seq<string>, whole: multiset<string>) {
    forall k :: bag[k] == if k in keys then whole[k] else 0
  }

  lemma BagGrows(bag: multiset<string>, keys: seq<string>, whole: multiset<string>, key: string)
    requires BagUpTo(bag, keys, whole) && key !in keys
    ensures BagUpTo(bag + multiset{}[key := whole[key]], keys + [key], whole)
  {
  }

  lemma BagGrowsBy(extra: seq<Contour>, more: seq<Contour>, order: seq<string>, i: nat, whole: multiset<string>)
    requires i < |order| && order[i] !in order[..i]
    requires BagUpTo(KeyBag(extra), order[..i], whole) && KeyBag(more) == multiset{}[order[i] := whole[order[i]]]
    ensures BagUpTo(KeyBag(extra + more), order[..i + 1], whole)
  {
    KeyBagAppend(extra, more);
    BagGrows(KeyBag(extra), order[..i], whole, order[i]);
    assert order[..i + 1] == order[..i] + [order[i]];
  }

  lemma InOrderGrows(keys: seq<string>, order: seq<string>, i: nat, extra: seq<Contour>, more: seq<Contour>)
    requires OrderedLike(order, keys) && i < |order| && InOrder(keys, extra)
    requires forall e | e in extra :: e.key in order[..i]
    requires forall e | e in more :: e.key == order[i]
    ensures InOrder(keys, extra + more) && forall e | e in extra + more :: e.key in order[..i + 1]
  {
    assert order[..i + 1] == order[..i] + [order[i]];
    forall e | e in extra
      ensures First(keys, e.key) <= First(keys, order[i])
    {
      var a :| 0 <= a < i && order[a] == e.key;
    }
  }

  // As many copies of the first item with this key as the list has more of it than the other.
  method ExtraOf(items: seq<Contour>, counts: Counts, other: Counts, ghost otherKeys: seq<string>, key: string)
    returns (extra: seq<Contour>)
    requires CountsUp(counts, Keys(items)) && CountsUp(other, otherKeys) && key in Keys(items)
    ensures KeyBag(extra) == multiset{}[key := (KeyBag(items) - multiset(otherKeys))[key]]
    ensures forall e | e in extra :: FirstWithKey(items, e) && e.key == key
  {
    var at := IndexOf(Keys(items), key);
    var missing := CountOf(counts, key) - CountOf(other, key);
    extra := Repeat(items[at], missing);
    CopiesBag(items[at], if missing > 0 then missing else 0);
    assert FirstWithKey(items, items[at]);
  }

  // What `items` has more of than the other list, with repeats, key by key in the order of
  // first appearance.
  method Surplus(items: seq<Contour>, counts: Counts, other: Counts, ghost otherKeys: seq<string>)
    returns (extra: seq<Contour>)
    requires CountsUp(counts, Keys(items)) && OrderedLike(counts.order, Keys(items)) && CountsUp(other, otherKeys)
    ensures KeyBag(extra) == KeyBag(items) - multiset(otherKeys)
    ensures InOrder(Keys(items), extra) && forall e | e in extra :: FirstWithKey(items, e)
  {
    ghost var whole := KeyBag(items) - multiset(otherKeys);
    extra := [];
    for i := 0 to |counts.order|
      invariant BagUpTo(KeyBag(extra), counts.order[..i], whole)
      invariant forall e | e in extra :: FirstWithKey(items, e) && e.key in counts.order[..i]
      invariant InOrder(Keys(items), extra)
    {
      var key := counts.order[i];
      var more := ExtraOf(items, counts, other, otherKeys, key);
      BagGrowsBy(extra, more, counts.order, i, whole);
      InOrderGrows(Keys(items), counts.order, i, extra, more);
      extra := extra + more;
    }
    WholeBag(KeyBag(extra), counts, Keys(items), whole);
  }

  lemma WholeBag(bag: multiset<string>, counts: Counts, keys: seq<string>, whole: multiset<string>)
    requires CountsUp(counts, keys) && BagUpTo(bag, counts.order[..|counts.order|], whole) && whole <= multiset(keys)
    ensures bag == whole
  {
    assert counts.order[..|counts.order|] == counts.order;
    forall k
      ensures bag[k] == whole[k]
    {
      if k !in counts.order {
        assert k !in multiset(keys);
      }
    }
  }

  // The added and removed contours are exactly the two differences of the bags of keys.
  method ContourDelta(before: seq<Contour>, after: seq<Contour>)
    returns (added: seq<Contour>, removed: seq<Contour>)
    ensures KeyBag(added) == KeyBag(after) - KeyBag(before)
    ensures KeyBag(removed) == KeyBag(before) - KeyBag(after)
    ensures InOrder(Keys(after), added) && forall a | a in added :: FirstWithKey(after, a)
    ensures InOrder(Keys(before), removed) && forall r | r in removed :: FirstWithKey(before, r)
    ensures KeyBag(before) + KeyBag(added) == KeyBag(after) + KeyBag(removed)
    ensures forall k :: !(k in KeyBag(added) && k in KeyBag(removed))
  {
    var beforeCounts := Count(Keys(before));
    var afterCounts := Count(Keys(after));
    added := Surplus(after, afterCounts, beforeCounts, Keys(before));
    removed := Surplus(before, beforeCounts, afterCounts, Keys(after));
  }
}
