/** What several modules need to say about lists. */
module Lists {

  ghost predicate Distinct<T>(list: seq<T>) {
    forall i, j :: 0 <= i < j < |list| ==> list[i] != list[j]
  }

  ghost predicate Increasing(list: seq<nat>) {
    forall i, j :: 0 <= i < j < |list| ==> list[i] < list[j]
  }

  function Elements<T>(list: seq<T>): set<T> {
    set x | x in list
  }

  /** The first position of an element, or the length. */
  function Position<T(==)>(list: seq<T>, x: T): (i: nat)
    ensures i <= |list| && (i < |list| ==> list[i] == x)
    ensures forall j :: 0 <= j < i ==> list[j] != x
  {
    if list == [] || list[0] == x then 0 else 1 + Position(list[1..], x)
  }

  /** The list without the first occurrence of an element. */
  function RemoveOne<T(==)>(list: seq<T>, x: T): seq<T> {
    var i := Position(list, x);
    if i == |list| then list else list[..i] + list[i + 1..]
  }

  method WithoutFirst<T(==)>(list: seq<T>, x: T) returns (rest: seq<T>)
    ensures rest == RemoveOne(list, x)
  {
    var i := 0;
    while i < |list| && list[i] != x
      invariant i <= |list| && forall j :: 0 <= j < i ==> list[j] != x
    {
      i := i + 1;
    }
    assert i == Position(list, x);
    if i == |list| { return list; }
    rest := list[..i] + list[i + 1..];
  }

  lemma RemoveOneCounts<T>(list: seq<T>, x: T)
    ensures multiset(RemoveOne(list, x)) == multiset(list) - multiset{x}
  {
    var i := Position(list, x);
    if i == |list| {
      assert x !in list;
    } else {
      assert list == list[..i] + [x] + list[i + 1..];
    }
  }

  lemma RemoveOneKeeps<T>(list: seq<T>, x: T)
    ensures forall y :: y in RemoveOne(list, x) ==> y in list
  {
    var i := Position(list, x);
    if i < |list| { assert forall y :: y in list[..i] + list[i + 1..] ==> y in list[..i] || y in list[i + 1..]; }
  }

  lemma RemoveOneRemoves<T>(list: seq<T>, x: T)
    requires Distinct(list)
    ensures Distinct(RemoveOne(list, x))
    ensures forall y :: y in RemoveOne(list, x) <==> y in list && y != x
  {
    var i := Position(list, x);
    if i < |list| {
      assert list == list[..i] + [x] + list[i + 1..];
      assert x !in list[i + 1..] && x !in list[..i];
    }
  }

  lemma RemoveOneIncreases(list: seq<nat>, x: nat)
    requires Increasing(list)
    ensures Increasing(RemoveOne(list, x))
    ensures forall y :: y in RemoveOne(list, x) ==> y in list
  {
    var k, rest := Position(list, x), RemoveOne(list, x);
    forall i, j | 0 <= i < j < |rest|
      ensures rest[i] < rest[j]
    {
      var i', j' := if i < k then i else i + 1, if j < k then j else j + 1;
      assert rest[i] == list[i'] && rest[j] == list[j'];
    }
  }

  lemma JoinIncreases(a: seq<nat>, b: seq<nat>)
    requires Increasing(a) && Increasing(b) && forall x, y :: x in a && y in b ==> x < y
    ensures Increasing(a + b)
  {
    forall i, j | 0 <= i < j < |a + b|
      ensures (a + b)[i] < (a + b)[j]
    {
      if i < |a| && j >= |a| { assert a[i] in a && b[j - |a|] in b; }
    }
  }
}
