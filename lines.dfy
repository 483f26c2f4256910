/**
 Cart lines and their totals. A Java `HashMap` is iterated in an order fixed by
 its internals; the model makes that order explicit as a sequence listing each
 key of the item map exactly once (a key order). The sum of price times
 quantity does not depend on which key order is used.
 */
module Lines {
  import opened Entities

  predicate Distinct(keys: seq<Book>)
  {
    forall i, j :: 0 <= i < j < |keys| ==> keys[i] != keys[j]
  }

  predicate AllIn(keys: seq<Book>, items: map<Book, int>)
  {
    forall b :: b in keys ==> b in items
  }

  /** `keys` is one possible iteration order of `items.keySet()`. */
  predicate IsKeyOrder(keys: seq<Book>, items: map<Book, int>)
  {
    && Distinct(keys)
    && AllIn(keys, items)
    && (forall b :: b in items ==> b in keys)
  }

  /** Price times quantity summed over the listed lines, front to back. */
  function LinesTotal(keys: seq<Book>, items: map<Book, int>): int
    requires AllIn(keys, items)
  {
    if keys == [] then 0 else keys[0].price * items[keys[0]] + LinesTotal(keys[1..], items)
  }

  /** Taking line `i` out of the sum leaves the sum of the others. */
  lemma {:induction false} LinesTotalRemoveAt(keys: seq<Book>, i: nat, items: map<Book, int>)
    requires AllIn(keys, items) && i < |keys|
    ensures AllIn(keys[..i] + keys[i + 1..], items)
    ensures LinesTotal(keys, items)
         == keys[i].price * items[keys[i]] + LinesTotal(keys[..i] + keys[i + 1..], items)
  {
    if i == 0 {
      assert keys[..0] + keys[1..] == keys[1..];
    } else {
      var tail := keys[1..];
      LinesTotalRemoveAt(tail, i - 1, items);
      assert keys[..i] + keys[i + 1..] == [keys[0]] + (tail[..i - 1] + tail[i..]);
    }
  }

  /** Matching the head of `s` with position `i` of `t` leaves two permutations. */
  lemma PermutationStep(s: seq<Book>, t: seq<Book>, i: nat)
    requires s != [] && i < |t| && t[i] == s[0]
    requires multiset(s) == multiset(t)
    ensures multiset(s[1..]) == multiset(t[..i] + t[i + 1..])
  {
    var k := s[0];
    assert t == t[..i] + [k] + t[i + 1..];
    assert s == [k] + s[1..];
    forall b ensures multiset(s[1..])[b] == multiset(t[..i] + t[i + 1..])[b] {
      assert multiset(s)[b] == multiset{k}[b] + multiset(s[1..])[b];
      assert multiset(t)[b] == multiset(t[..i])[b] + multiset{k}[b] + multiset(t[i + 1..])[b];
    }
  }

  /** The total is the same for any two orderings of the same lines. */
  lemma {:induction false} LinesTotalPermutation(s: seq<Book>, t: seq<Book>, items: map<Book, int>)
    requires AllIn(s, items) && AllIn(t, items)
    requires multiset(s) == multiset(t)
    ensures LinesTotal(s, items) == LinesTotal(t, items)
  {
    if s == [] {
      assert |multiset(t)| == 0;
    } else {
      assert s[0] in multiset(t);
      var i :| 0 <= i < |t| && t[i] == s[0];
      PermutationStep(s, t, i);
      LinesTotalRemoveAt(t, i, items);
      LinesTotalPermutation(s[1..], t[..i] + t[i + 1..], items);
    }
  }

  /** A duplicate-free sequence holds each of its elements exactly once. */
  lemma {:induction false} DistinctMultiplicity(s: seq<Book>)
    requires Distinct(s)
    ensures forall b :: multiset(s)[b] == if b in s then 1 else 0
  {
    if s != [] {
      DistinctMultiplicity(s[1..]);
      assert s == [s[0]] + s[1..];
      assert s[0] !in s[1..];
    }
  }

  /** Every iteration order of an item map gives the same total. */
  lemma KeyOrdersAgree(s: seq<Book>, t: seq<Book>, items: map<Book, int>)
    requires IsKeyOrder(s, items) && IsKeyOrder(t, items)
    ensures LinesTotal(s, items) == LinesTotal(t, items)
  {
    DistinctMultiplicity(s);
    DistinctMultiplicity(t);
    assert forall b :: multiset(s)[b] == multiset(t)[b];
    assert multiset(s) == multiset(t);
    LinesTotalPermutation(s, t, items);
  }

  /**
   The accumulation loop shared by `ShoppingCart.getTotal` and the `Order`
   constructor: walk the keys in iteration order, adding price times quantity.
   */
  method SumLines(items: map<Book, int>, keyOrder: seq<Book>) returns (total: int)
    requires IsKeyOrder(keyOrder, items)
    ensures total == LinesTotal(keyOrder, items)
  {
    total := 0;
    var i := 0;
    while i < |keyOrder|
      invariant 0 <= i <= |keyOrder|
      invariant total + LinesTotal(keyOrder[i..], items) == LinesTotal(keyOrder, items)
    {
      var book := keyOrder[i];
      assert keyOrder[i..][1..] == keyOrder[i + 1..];
      total := total + book.price * items[book];
      i := i + 1;
    }
  }

}
