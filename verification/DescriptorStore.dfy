/**
 * The vectors that keep the descriptors of one type (`add_or_replace_descriptor_and_sort` of
 * controller/lib/src/configuration_descriptor_imp.cpp).  Descriptors compare by their descriptor index alone.
 */
module DescriptorStore {
  import opened Basics

  datatype Stored<C> = Stored(index: uint16, contents: C)

  /** The invariant of every vector that is kept sorted. */
  ghost predicate Increasing<C>(v: seq<Stored<C>>) {
    forall i, j :: 0 <= i < j < |v| ==> v[i].index < v[j].index
  }

  ghost predicate Sorted<C>(v: seq<Stored<C>>) {
    forall i, j :: 0 <= i < j < |v| ==> v[i].index <= v[j].index
  }

  /** The first position that holds a descriptor index, or the end of the vector. */
  function Position<C>(v: seq<Stored<C>>, index: uint16): (p: nat)
    ensures p <= |v|
    ensures p < |v| ==> v[p].index == index
    ensures forall i :: 0 <= i < p ==> v[i].index != index
  {
    FindFirst(v, (d: Stored<C>) => d.index == index)
  }

  /** Where a new index belongs: the first position that holds a larger one, or the end of the vector. */
  function Rank<C>(v: seq<Stored<C>>, index: uint16): (k: nat)
    ensures k <= |v|
    ensures k < |v| ==> v[k].index > index
    ensures forall i :: 0 <= i < k ==> v[i].index <= index
  {
    FindFirst(v, (d: Stored<C>) => d.index > index)
  }

  function Insert<C>(v: seq<Stored<C>>, d: Stored<C>): seq<Stored<C>> {
    var k := Rank(v, d.index);
    v[..k] + [d] + v[k..]
  }

  function Put<C>(v: seq<Stored<C>>, d: Stored<C>): seq<Stored<C>> {
    var p := Position(v, d.index);
    if p < |v| then v[p := d] else Insert(v, d)
  }

  // -------------------------------------------------------------------------------- the store refines a map

  /** The vector holds exactly the associations of the map, in the order of their keys. */
  ghost predicate Represents<C>(v: seq<Stored<C>>, m: map<uint16, C>) {
    && Increasing(v)
    && (forall i :: 0 <= i < |v| ==> v[i].index in m && m[v[i].index] == v[i].contents)
    && (forall k :: k in m ==> exists i :: 0 <= i < |v| && v[i].index == k)
  }

  lemma Spliced<T>(v: seq<T>, k: nat, d: T)
    requires k <= |v|
    ensures var r := v[..k] + [d] + v[k..];
            && |r| == |v| + 1 && r[k] == d
            && (forall i :: 0 <= i < k ==> r[i] == v[i])
            && (forall i :: k < i < |r| ==> r[i] == v[i - 1])
  {
  }

  lemma SplicedElements<T>(v: seq<T>, k: nat, d: T)
    requires k <= |v|
    ensures multiset(v[..k] + [d] + v[k..]) == multiset(v) + multiset{d}
  {
    assert v == v[..k] + v[k..];
  }

  lemma InsertAt<C>(v: seq<Stored<C>>, d: Stored<C>)
    ensures var r, k := Insert(v, d), Rank(v, d.index);
            && |r| == |v| + 1 && r[k] == d
            && (forall i :: 0 <= i < k ==> r[i] == v[i])
            && (forall i :: k < i < |r| ==> r[i] == v[i - 1])
    ensures multiset(Insert(v, d)) == multiset(v) + multiset{d}
  {
    hide Rank;
    Spliced(v, Rank(v, d.index), d);
    SplicedElements(v, Rank(v, d.index), d);
  }

  lemma InsertShape<C>(v: seq<Stored<C>>, d: Stored<C>)
    ensures Sorted(v) ==> Sorted(Insert(v, d))
    ensures Increasing(v) && Position(v, d.index) == |v| ==> Increasing(Insert(v, d))
  {
    InsertAt(v, d);
    hide Insert, Rank, Position;
    var r, k := Insert(v, d), Rank(v, d.index);
    if Sorted(v) {
      assert forall i :: k <= i < |v| ==> v[k].index <= v[i].index;
      assert forall i :: k < i < |r| ==> r[i].index > d.index;
    }
  }

  lemma PutKeepsOrder<C>(v: seq<Stored<C>>, d: Stored<C>)
    requires Increasing(v)
    ensures Increasing(Put(v, d))
  {
    InsertShape(v, d);
    hide Insert;
    if Position(v, d.index) < |v| {
      assert forall i :: 0 <= i < |v| ==> Put(v, d)[i].index == v[i].index;
    }
  }

  /** Storing a descriptor is updating the map at its index. */
  lemma PutUpdatesTheMap<C>(v: seq<Stored<C>>, m: map<uint16, C>, d: Stored<C>)
    requires Represents(v, m)
    ensures Represents(Put(v, d), m[d.index := d.contents])
  {
    if Position(v, d.index) < |v| {
      ReplaceUpdatesTheMap(v, m, d);
    } else {
      InsertShape(v, d);
      InsertUpdatesTheMap(v, m, d);
    }
  }

  lemma ReplaceUpdatesTheMap<C>(v: seq<Stored<C>>, m: map<uint16, C>, d: Stored<C>)
    requires Represents(v, m) && Position(v, d.index) < |v|
    ensures Represents(v[Position(v, d.index) := d], m[d.index := d.contents])
  {
    hide Position;
    var p, m' := Position(v, d.index), m[d.index := d.contents];
    var r := v[p := d];
    assert forall i :: 0 <= i < |v| ==> r[i].index == v[i].index;
    forall i | 0 <= i < |r| ensures r[i].index in m' && m'[r[i].index] == r[i].contents {
      assert i != p ==> r[i] == v[i] && v[i].index != v[p].index;
    }
    forall x | x in m' ensures exists i :: 0 <= i < |r| && r[i].index == x {
      var i :| 0 <= i < |v| && v[i].index == x;
      assert r[i].index == x;
    }
  }

  lemma InsertUpdatesTheMap<C>(v: seq<Stored<C>>, m: map<uint16, C>, d: Stored<C>)
    requires Represents(v, m) && Position(v, d.index) == |v| && Increasing(Insert(v, d))
    ensures Represents(Insert(v, d), m[d.index := d.contents])
  {
    InsertAt(v, d);
    hide Insert, Rank, Position, Increasing;
    var k, r, m' := Rank(v, d.index), Insert(v, d), m[d.index := d.contents];
    forall i | 0 <= i < |r| ensures r[i].index in m' && m'[r[i].index] == r[i].contents {
      if i != k {
        var j := if i < k then i else i - 1;
        assert r[i] == v[j] && v[j].index != d.index && v[j].index in m;
      }
    }
    forall x | x in m' ensures exists i :: 0 <= i < |r| && r[i].index == x {
      if x != d.index {
        var i :| 0 <= i < |v| && v[i].index == x;
        var j := if i < k then i else i + 1;
        assert r[j] == v[i];
      } else {
        assert r[k] == d;
      }
    }
  }

  /** The vector after a sequence of stores, and the last value stored at each index. */
  function StoreAll<C>(ds: seq<Stored<C>>): seq<Stored<C>> {
    if ds == [] then [] else Put(StoreAll(ds[..|ds| - 1]), ds[|ds| - 1])
  }

  function LastValues<C>(ds: seq<Stored<C>>): map<uint16, C> {
    if ds == [] then map[] else LastValues(ds[..|ds| - 1])[ds[|ds| - 1].index := ds[|ds| - 1].contents]
  }

  lemma {:induction false} StoreRefinesAMap<C>(ds: seq<Stored<C>>)
    ensures Represents(StoreAll(ds), LastValues(ds))
  {
    if ds != [] {
      StoreRefinesAMap(ds[..|ds| - 1]);
      PutUpdatesTheMap(StoreAll(ds[..|ds| - 1]), LastValues(ds[..|ds| - 1]), ds[|ds| - 1]);
    }
  }

  /** The by-index getters take a position for an index, which is right exactly when the indices are dense. */
  lemma PositionIsIndexWhenDense<C>(v: seq<Stored<C>>)
    requires Increasing(v)
    ensures (forall i :: 0 <= i < |v| ==> v[i].index == i) <==> (forall i :: 0 <= i < |v| ==> v[i].index < |v|)
  {
    if forall i :: 0 <= i < |v| ==> v[i].index < |v| {
      forall i | 0 <= i < |v| ensures v[i].index == i {
        RoomBelow(v, i);
        RoomAbove(v, i);
      }
    }
  }

  lemma {:induction false} RoomBelow<C>(v: seq<Stored<C>>, i: nat)
    requires Increasing(v) && i < |v|
    ensures v[i].index >= i
  {
    if i > 0 {
      RoomBelow(v, i - 1);
    }
  }

  lemma {:induction false} RoomAbove<C>(v: seq<Stored<C>>, i: nat)
    requires Increasing(v) && i < |v| && forall k :: 0 <= k < |v| ==> v[k].index < |v|
    ensures v[i].index <= i
    decreases |v| - i
  {
    if i + 1 < |v| {
      RoomAbove(v, i + 1);
    }
  }

  // -------------------------------------------------------------------------------------------- the method

  lemma LeastFirst<C>(a: seq<Stored<C>>, b: seq<Stored<C>>)
    requires Sorted(a) && Increasing(b) && multiset(a) == multiset(b) && a != [] && b != []
    ensures a[0] == b[0]
  {
    assert a[0] in multiset(a) && b[0] in multiset(b);
    var i :| 0 <= i < |b| && b[i] == a[0];
    var j :| 0 <= j < |a| && a[j] == b[0];
  }

  lemma TailsAgree<C>(a: seq<C>, b: seq<C>)
    requires multiset(a) == multiset(b) && a != [] && b != [] && a[0] == b[0]
    ensures multiset(a[1..]) == multiset(b[1..])
  {
    assert a == [a[0]] + a[1..] && b == [b[0]] + b[1..];
    assert multiset(a[1..]) == multiset(a) - multiset{a[0]};
    assert multiset(b[1..]) == multiset(b) - multiset{b[0]};
  }

  /** Whatever sorting algorithm the library uses, distinct indices leave it only one answer. */
  lemma {:induction false} SortHasOneAnswer<C>(a: seq<Stored<C>>, b: seq<Stored<C>>)
    requires Sorted(a) && Increasing(b) && multiset(a) == multiset(b)
    ensures a == b
  {
    assert |multiset(a)| == |a| && |multiset(b)| == |b|;
    if a != [] {
      LeastFirst(a, b);
      TailsAgree(a, b);
      SortHasOneAnswer(a[1..], b[1..]);
      assert a == [a[0]] + a[1..] && b == [b[0]] + b[1..];
    }
  }

  /** A stand-in for `std::sort`: only its contract is used. */
  method StdSort<C>(v: seq<Stored<C>>) returns (r: seq<Stored<C>>)
    ensures Sorted(r) && multiset(r) == multiset(v)
  {
    r := [];
    for i := 0 to |v|
      invariant Sorted(r) && multiset(r) == multiset(v[..i])
    {
      InsertAt(r, v[i]);
      InsertShape(r, v[i]);
      r := Insert(r, v[i]);
      assert v[..i + 1] == v[..i] + [v[i]];
    }
    assert v[..|v|] == v;
  }

  method AddOrReplaceDescriptorAndSort<C>(d: Stored<C>, descVec: seq<Stored<C>>) returns (r: seq<Stored<C>>)
    requires Increasing(descVec)
    ensures Increasing(r) && r == Put(descVec, d)
  {
    var it := 0;
    while it < |descVec| && descVec[it].index != d.index
      invariant 0 <= it <= |descVec|
      invariant forall i :: 0 <= i < it ==> descVec[i].index != d.index
    {
      it := it + 1;
    }
    PositionIs(descVec, d.index, it);
    hide Increasing, Sorted, Insert, Position;
    if it < |descVec| {
      r := descVec[..it] + descVec[it + 1..];
      r := r[..it] + [d] + r[it..];
      ReplacingKeepsOrder(descVec, d, it, r);
    } else {
      r := StdSort(descVec + [d]);
      SortingInserts(descVec, d, r);
    }
  }

  lemma PositionIs<C>(v: seq<Stored<C>>, index: uint16, p: nat)
    requires p <= |v| && (forall i :: 0 <= i < p ==> v[i].index != index) && (p < |v| ==> v[p].index == index)
    ensures Position(v, index) == p
  {
  }

  lemma SortingInserts<C>(v: seq<Stored<C>>, d: Stored<C>, r: seq<Stored<C>>)
    requires Increasing(v) && Position(v, d.index) == |v|
    requires Sorted(r) && multiset(r) == multiset(v + [d])
    ensures Increasing(r) && r == Insert(v, d)
  {
    InsertAt(v, d);
    InsertShape(v, d);
    hide Increasing, Sorted, Insert, Position;
    SortHasOneAnswer(r, Insert(v, d));
  }

  lemma ReplacingKeepsOrder<C>(v: seq<Stored<C>>, d: Stored<C>, it: nat, r: seq<Stored<C>>)
    requires Increasing(v) && it < |v| && v[it].index == d.index
    requires r == (v[..it] + v[it + 1..])[..it] + [d] + (v[..it] + v[it + 1..])[it..]
    ensures Increasing(r) && r == v[it := d]
  {
    assert r == v[it := d];
  }
}
