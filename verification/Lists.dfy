/** Finding and removing the first occurrence in a list, as `std::find` and `vector::erase` do. */
module Lists {

  function Find<T(==)>(list: seq<T>, x: T): (i: nat)
    ensures i <= |list|
    ensures forall k :: 0 <= k < i ==> list[k] != x
    ensures i < |list| ==> list[i] == x
  {
    if list == [] || list[0] == x then 0 else 1 + Find(list[1..], x)
  }

  /** The list without the first occurrence of an element. */
  function Without<T(==)>(list: seq<T>, x: T): seq<T> {
    var i := Find(list, x);
    if i < |list| then list[..i] + list[i + 1..] else list
  }

  ghost predicate Distinct<T>(list: seq<T>) {
    forall i, j :: 0 <= i < j < |list| ==> list[i] != list[j]
  }

  lemma WithoutDistinct<T>(list: seq<T>, x: T)
    requires Distinct(list)
    ensures Distinct(Without(list, x))
    ensures forall y :: y in Without(list, x) <==> y in list && y != x
  {
    var i, r := Find(list, x), Without(list, x);
    if i < |list| {
      assert forall k :: 0 <= k < |r| ==> r[k] == list[if k < i then k else k + 1];
      forall y | y in list && y != x ensures y in r {
        var k :| 0 <= k < |list| && list[k] == y;
        assert r[if k < i then k else k - 1] == y;
      }
    }
  }

  lemma FindInAppend<T>(a: seq<T>, b: seq<T>, x: T)
    ensures Find(a + b, x) == if x in a then Find(a, x) else |a| + Find(b, x)
  {
    var c, i := a + b, if x in a then Find(a, x) else |a| + Find(b, x);
    assert forall k :: 0 <= k < i ==> c[k] != x;
    if i < |c| { assert c[i] == x; }
  }

  lemma WithoutInFront<T>(a: seq<T>, b: seq<T>, x: T)
    requires x in a
    ensures Without(a + b, x) == Without(a, x) + b
  {
    FindInAppend(a, b, x);
    var i := Find(a, x);
    assert (a + b)[..i] == a[..i];
    assert (a + b)[i + 1..] == a[i + 1..] + b;
  }

  lemma WithoutLast<T>(a: seq<T>, x: T)
    requires x !in a
    ensures Without(a + [x], x) == a
  {
    FindInAppend(a, [x], x);
    assert Find([x], x) == 0;
    assert (a + [x])[..|a|] == a;
  }
}
