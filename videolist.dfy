/**
 * VideoList: the media catalogue, an `ArrayList` of file paths that also carries the name of
 * the machine it was built on.  The list is a `seq` field that `Add` reassigns; shuffling
 * allocates a fresh list and leaves the receiver alone.
 */
module VideoLists {
  import opened OrderBy

  /** The value a VideoList holds: what the cache file serializes and deserializes. */
  datatype Catalog = Catalog(paths: seq<string>, machineName: string)

  /**
   * The order ShuffleFilePaths produces for a given key assignment: the paths, each paired
   * with its key, stably sorted by key.
   */
  function Shuffled(keys: seq<int>, paths: seq<string>): (r: seq<string>)
    requires |keys| == |paths|
    ensures |r| == |paths|
    ensures multiset(r) == multiset(paths)
  {
    SortByKeyPermutesValues(Zip(keys, paths));
    ValuesOfZip(keys, paths);
    Values(SortByKey(Zip(keys, paths)))
  }

  /**
   * What ShuffleFilePaths promises for any key assignment: the result is a permutation of the
   * paths, and the (key, path) pairs come out ordered by key with ties in input order.
   */
  lemma ShuffledIsStableKeyOrder(keys: seq<int>, paths: seq<string>)
    requires |keys| == |paths|
    ensures |Shuffled(keys, paths)| == |paths|
    ensures multiset(Shuffled(keys, paths)) == multiset(paths)
    ensures IsStableSortOf(SortByKey(Zip(keys, paths)), Zip(keys, paths))
    ensures exists r :: IsStableSortOf(r, Zip(keys, paths)) && Values(r) == Shuffled(keys, paths)
  {
    SortByKeyPermutesValues(Zip(keys, paths));
    ValuesOfZip(keys, paths);
    SortByKeyCharacterized(Zip(keys, paths), SortByKey(Zip(keys, paths)));
  }

  /** With all keys equal nothing moves: the sort is stable, so the order is the input order. */
  lemma {:induction false} ShuffledEqualKeysIsIdentity(keys: seq<int>, paths: seq<string>)
    requires |keys| == |paths|
    requires forall i, j :: 0 <= i < j < |keys| ==> keys[i] == keys[j]
    ensures Shuffled(keys, paths) == paths
  {
    var z := Zip(keys, paths);
    assert IsStableSortOf(z, z);
    SortByKeyCharacterized(z, z);
    ValuesOfZip(keys, paths);
  }

  class VideoList {
    /** The ArrayList's elements, in order. */
    var paths: seq<string>
    var machineName: string

    /** `new VideoList()`. */
    constructor ()
      ensures paths == [] && machineName == ""
    {
      paths := [];
      machineName := "";
    }

    /**
     * `new VideoList(capacity)`.  The capacity only pre-sizes the ArrayList's buffer, which the
     * model has no counterpart for; the list starts empty all the same.
     */
    constructor WithCapacity(capacity: nat)
      ensures paths == [] && machineName == ""
    {
      paths := [];
      machineName := "";
    }

    function Count(): nat
      reads this
    {
      |paths|
    }

    /** The list's value, as the cache file stores it. */
    function Image(): (c: Catalog)
      reads this
      ensures c.paths == paths && c.machineName == machineName
    {
      Catalog(paths, machineName)
    }

    /** `ArrayList.Add`: appends at the end. */
    method Add(path: string)
      modifies this
      ensures paths == old(paths) + [path]
      ensures machineName == old(machineName)
    {
      paths := paths + [path];
    }

    /**
     * Returns a fresh list holding this list's paths ordered by `keys` (the i-th key is the
     * random number drawn for the i-th path) and carrying the same machine name.  The receiver
     * is only read: the method has no `modifies` clause.
     */
    method ShuffleFilePaths(keys: seq<int>) returns (result: VideoList)
      requires |keys| == |paths|
      ensures fresh(result)
      ensures result.paths == Shuffled(keys, paths)
      ensures multiset(result.paths) == multiset(paths)
      ensures result.machineName == machineName
    {
      // Pair every path with its key.
      var list: seq<Keyed<string>> := [];
      var i := 0;
      while i < |paths|
        invariant 0 <= i <= |paths|
        invariant list == Zip(keys[..i], paths[..i])
      {
        list := list + [Keyed(keys[i], paths[i])];
        i := i + 1;
      }
      assert keys[..i] == keys && paths[..i] == paths;

      var sorted := SortByKey(list);

      result := new VideoList.WithCapacity(|paths|);
      result.machineName := machineName;

      // Copy the values, in sorted order, into the new list.
      var j := 0;
      while j < |sorted|
        invariant 0 <= j <= |sorted|
        invariant result.paths == Values(sorted[..j])
        invariant result.machineName == machineName
      {
        ValuesAppend(sorted[..j], [sorted[j]]);
        assert sorted[..j + 1] == sorted[..j] + [sorted[j]];
        result.Add(sorted[j].value);
        j := j + 1;
      }
      assert sorted[..j] == sorted;
      ShuffledIsStableKeyOrder(keys, paths);
    }
  }
}
