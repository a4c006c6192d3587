/**
 * The order in which the transformation visits the category groups
 * (src/visual.ts, processWaterfallData, `Object.keys(groupedData)`).
 *
 * The groups live in a plain object, and the own-property order of an
 * ordinary object (ECMAScript, OrdinaryOwnPropertyKeys, section 10.1.11.1 of
 * ECMA-262) lists the keys that are array indices first, in ascending
 * numeric order, and only then the other string keys in insertion order.
 * For labels that are not array indices this is the first-seen order the
 * grouping records; labels such as years ("2024") are array indices and are
 * visited in ascending numeric order instead.
 */
module ObjectKeys {
  import opened Numerals
  import opened WaterfallTypes
  import Grouping

  /** The largest array index, 2^32 - 2. */
  const MaxArrayIndex: nat := 4294967294

  /** A canonical numeral (no leading zero) of an integer up to MaxArrayIndex. */
  predicate IsArrayIndex(s: string) {
    && |s| >= 1
    && AllDigits(s)
    && (|s| == 1 || s[0] != '0')
    && ParseDigits(s) <= MaxArrayIndex
  }

  predicate AllIndices(keys: seq<string>) {
    forall i :: 0 <= i < |keys| ==> IsArrayIndex(keys[i])
  }

  /** Array-index keys in ascending numeric order. */
  predicate Ascending(keys: seq<string>)
    requires AllIndices(keys)
  {
    forall i, j :: 0 <= i < j < |keys| ==> ParseDigits(keys[i]) <= ParseDigits(keys[j])
  }

  /** The array-index keys, in insertion order. */
  function IndexKeys(keys: seq<string>): (r: seq<string>)
    ensures AllIndices(r)
  {
    if keys == [] then []
    else
      var k := keys[|keys| - 1];
      IndexKeys(keys[..|keys| - 1]) + (if IsArrayIndex(k) then [k] else [])
  }

  /** The other keys, in insertion order. */
  function PlainKeys(keys: seq<string>): (r: seq<string>)
    ensures forall i :: 0 <= i < |r| ==> !IsArrayIndex(r[i])
  {
    if keys == [] then []
    else
      var k := keys[|keys| - 1];
      PlainKeys(keys[..|keys| - 1]) + (if IsArrayIndex(k) then [] else [k])
  }

  /** Inserts an array-index key into an ascending run. */
  function Insert(sorted: seq<string>, k: string): (r: seq<string>)
    requires AllIndices(sorted) && IsArrayIndex(k)
    ensures AllIndices(r)
    ensures multiset(r) == multiset(sorted) + multiset{k}
  {
    if sorted == [] then [k]
    else if ParseDigits(k) <= ParseDigits(sorted[0]) then [k] + sorted
    else
      assert sorted == [sorted[0]] + sorted[1..];
      [sorted[0]] + Insert(sorted[1..], k)
  }

  lemma {:induction false} InsertLowerBound(sorted: seq<string>, k: string, b: int)
    requires AllIndices(sorted) && IsArrayIndex(k)
    requires b <= ParseDigits(k) && forall i :: 0 <= i < |sorted| ==> b <= ParseDigits(sorted[i])
    ensures forall i :: 0 <= i < |Insert(sorted, k)| ==> b <= ParseDigits(Insert(sorted, k)[i])
  {
    if sorted != [] && ParseDigits(k) > ParseDigits(sorted[0]) {
      InsertLowerBound(sorted[1..], k, b);
    }
  }

  lemma {:induction false} InsertAscending(sorted: seq<string>, k: string)
    requires AllIndices(sorted) && IsArrayIndex(k) && Ascending(sorted)
    ensures Ascending(Insert(sorted, k))
  {
    if sorted != [] && ParseDigits(k) > ParseDigits(sorted[0]) {
      var tail := sorted[1..];
      InsertAscending(tail, k);
      InsertLowerBound(tail, k, ParseDigits(sorted[0]));
      var r, t := Insert(sorted, k), Insert(tail, k);
      assert r == [sorted[0]] + t;
      forall i, j | 0 <= i < j < |r|
        ensures ParseDigits(r[i]) <= ParseDigits(r[j])
      {
        assert r[j] == t[j - 1];
        if i > 0 {
          assert r[i] == t[i - 1];
        }
      }
    }
  }

  /** The array-index keys sorted into ascending numeric order. */
  function SortIndices(keys: seq<string>): (r: seq<string>)
    requires AllIndices(keys)
    ensures AllIndices(r) && Ascending(r)
    ensures multiset(r) == multiset(keys)
  {
    if keys == [] then []
    else
      var init := keys[..|keys| - 1];
      assert keys == init + [keys[|keys| - 1]];
      InsertAscending(SortIndices(init), keys[|keys| - 1]);
      Insert(SortIndices(init), keys[|keys| - 1])
  }

  /** `Object.keys` of an object whose keys were created in the order `keys`. */
  function OwnKeys(keys: seq<string>): seq<string> {
    SortIndices(IndexKeys(keys)) + PlainKeys(keys)
  }

  lemma {:induction false} SplitKeys(keys: seq<string>)
    ensures multiset(IndexKeys(keys)) + multiset(PlainKeys(keys)) == multiset(keys)
  {
    if keys != [] {
      var init := keys[..|keys| - 1];
      SplitKeys(init);
      assert keys == init + [keys[|keys| - 1]];
    }
  }

  /**
   * `Object.keys` lists every key once, the array indices first in
   * ascending numeric order, then every other key in insertion order.
   */
  lemma OwnKeysOrder(keys: seq<string>)
    ensures var r, n := OwnKeys(keys), |IndexKeys(keys)|;
            && multiset(r) == multiset(keys)
            && n <= |r|
            && AllIndices(r[..n]) && Ascending(r[..n])
            && r[n..] == PlainKeys(keys)
  {
    SplitKeys(keys);
    var r, n := OwnKeys(keys), |IndexKeys(keys)|;
    var sorted := SortIndices(IndexKeys(keys));
    assert |sorted| == n by {
      assert |multiset(sorted)| == |multiset(IndexKeys(keys))|;
    }
    assert r[..n] == sorted;
    assert r[n..] == PlainKeys(keys);
  }

  /** Without array-index keys, a plain key list is kept in insertion order. */
  lemma {:induction false} PlainKeysOfPlainLabels(keys: seq<string>)
    requires forall i :: 0 <= i < |keys| ==> !IsArrayIndex(keys[i])
    ensures IndexKeys(keys) == [] && PlainKeys(keys) == keys
  {
    if keys != [] {
      var init := keys[..|keys| - 1];
      PlainKeysOfPlainLabels(init);
      assert keys == init + [keys[|keys| - 1]];
    }
  }

  /**
   * When no label is an array index, the groups are visited in first-seen
   * order, as the rest of the model takes them.
   */
  lemma OwnKeysOfPlainLabels(keys: seq<string>)
    requires forall i :: 0 <= i < |keys| ==> !IsArrayIndex(keys[i])
    ensures OwnKeys(keys) == keys
  {
    PlainKeysOfPlainLabels(keys);
  }

  /**
   * Rows labelled "b" and then "1": the grouping sees "b" first, but
   * `Object.keys` visits "1" first.
   */
  lemma IndexLabelsReordered()
    ensures var rows := [Row("b", "", 1), Row("1", "", 2)];
            && Grouping.GroupRows(rows).keys == ["b", "1"]
            && OwnKeys(Grouping.GroupRows(rows).keys) == ["1", "b"]
  {
    var rows := [Row("b", "", 1), Row("1", "", 2)];
    assert rows[..0] == [];
    assert Grouping.GroupRows(rows[..0]) == Grouping.Grouped([], map[]);
    Grouping.GroupRowsStep(rows, 0);
    var g1 := Grouping.GroupRows(rows[..1]);
    assert g1.keys == ["b"] && g1.groups.Keys == {"b"};
    Grouping.GroupRowsStep(rows, 1);
    assert rows[..2] == rows;
    assert Grouping.GroupRows(rows).keys == ["b", "1"];
    IndexKeyListedFirst();
  }

  /** The array-index key "1", inserted after the plain key "b", is listed before it. */
  lemma IndexKeyListedFirst()
    ensures OwnKeys(["b", "1"]) == ["1", "b"]
  {
    var keys: seq<string> := ["b", "1"];
    assert !IsArrayIndex("b") by {
      assert !IsDigit("b"[0]);
    }
    assert IsArrayIndex("1") by {
      assert "1"[..0] == [];
    }
    assert keys[..1] == ["b"];
    assert ["b"][..0] == [];
    assert IndexKeys(keys) == ["1"];
    assert PlainKeys(keys) == ["b"];
    assert ["1"][..0] == [];
    assert SortIndices(["1"]) == ["1"];
  }
}
