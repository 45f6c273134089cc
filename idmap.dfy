/** `arrToObj`: an array of records with ids turned into an id -> record object. */
module IdMap {
  import opened Entities

  /** The object `arrToObj` builds: elements are stored in array order, so a later element replaces an earlier one with the same id. */
  function ToMap<T>(arr: seq<T>, idOf: T -> Id): (o: map<Id, T>)
    ensures forall i :: 0 <= i < |arr| ==> idOf(arr[i]) in o
    ensures forall k :: k in o ==> idOf(o[k]) == k
  {
    if arr == [] then map[]
    else ToMap(arr[..|arr| - 1], idOf)[idOf(arr[|arr| - 1]) := arr[|arr| - 1]]
  }

  /** The ids that occur in `arr`. */
  function Ids<T>(arr: seq<T>, idOf: T -> Id): set<Id>
  {
    set i | 0 <= i < |arr| :: idOf(arr[i])
  }

  /** The keys of the object are exactly the ids of the array. */
  lemma {:induction false} ToMapKeys<T>(arr: seq<T>, idOf: T -> Id)
    ensures ToMap(arr, idOf).Keys == Ids(arr, idOf)
  {
    if arr != [] {
      var p := arr[..|arr| - 1];
      ToMapKeys(p, idOf);
      assert forall i :: 0 <= i < |p| ==> p[i] == arr[i];
      assert Ids(arr, idOf) == Ids(p, idOf) + {idOf(arr[|arr| - 1])};
    }
  }

  /** An element that no later element shares its id with is the one stored under that id. */
  lemma {:induction false} ToMapLastWins<T>(arr: seq<T>, idOf: T -> Id, i: nat)
    requires i < |arr|
    requires forall j :: i < j < |arr| ==> idOf(arr[j]) != idOf(arr[i])
    ensures idOf(arr[i]) in ToMap(arr, idOf)
    ensures ToMap(arr, idOf)[idOf(arr[i])] == arr[i]
  {
    if i < |arr| - 1 {
      var p := arr[..|arr| - 1];
      ToMapLastWins(p, idOf, i);
    }
  }

  /** `arr[i]` has id `k`, and no later element has. */
  predicate LastWithId<T>(arr: seq<T>, idOf: T -> Id, i: int, k: Id)
  {
    0 <= i < |arr| && idOf(arr[i]) == k && forall j :: i < j < |arr| ==> idOf(arr[j]) != k
  }

  /** Every entry of the object is the last element of the array with that id. */
  lemma {:induction false} ToMapEntry<T>(arr: seq<T>, idOf: T -> Id, k: Id)
    requires k in ToMap(arr, idOf)
    ensures exists i :: LastWithId(arr, idOf, i, k) && arr[i] == ToMap(arr, idOf)[k]
  {
    var n := |arr| - 1;
    var p := arr[..n];
    var m := ToMap(arr, idOf);
    assert m == ToMap(p, idOf)[idOf(arr[n]) := arr[n]];
    if idOf(arr[n]) == k {
      assert LastWithId(arr, idOf, n, k) && arr[n] == m[k];
    } else {
      ToMapEntry(p, idOf, k);
      var i :| LastWithId(p, idOf, i, k) && p[i] == ToMap(p, idOf)[k];
      assert m[k] == ToMap(p, idOf)[k];
      assert forall j :: i < j < |arr| ==> idOf(arr[j]) != k by {
        forall j | i < j < |arr| ensures idOf(arr[j]) != k {
          if j < n {
            assert arr[j] == p[j];
          }
        }
      }
      assert arr[i] == p[i];
      assert LastWithId(arr, idOf, i, k);
    }
  }

  /** `arrToObj`: fills an empty object element by element. */
  method ArrToObj<T>(arr: seq<T>, idOf: T -> Id) returns (o: map<Id, T>)
    ensures o == ToMap(arr, idOf)
    ensures o.Keys == Ids(arr, idOf)
  {
    o := map[];
    var i := 0;
    while i < |arr|
      invariant 0 <= i <= |arr|
      invariant o == ToMap(arr[..i], idOf)
    {
      assert arr[..i + 1][..i] == arr[..i];
      o := o[idOf(arr[i]) := arr[i]];
      i := i + 1;
    }
    assert arr[..|arr|] == arr;
    ToMapKeys(arr, idOf);
  }
}
