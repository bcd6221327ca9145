/** `FoodDataset` (ml/food_dataset.py): the sorted label list and the
    label-to-index map built once by the constructor. */
module FoodDataset {
  import opened Collections

  /** Python's `a <= b` on str: code point by code point, a proper prefix
      before its extensions. */
  predicate StrLe(a: string, b: string) {
    a == [] || (b != [] && (a[0] < b[0] || (a[0] == b[0] && StrLe(a[1..], b[1..]))))
  }

  lemma {:induction false} StrLeTotal(a: string, b: string)
    ensures StrLe(a, b) || StrLe(b, a)
  {
    if a != [] && b != [] && a[0] == b[0] {
      StrLeTotal(a[1..], b[1..]);
    }
  }

  lemma {:induction false} StrLeAntisymmetric(a: string, b: string)
    requires StrLe(a, b) && StrLe(b, a)
    ensures a == b
  {
    if a != [] && b != [] {
      StrLeAntisymmetric(a[1..], b[1..]);
      assert a == [a[0]] + a[1..] && b == [b[0]] + b[1..];
    }
  }

  lemma {:induction false} StrLeTransitive(a: string, b: string, c: string)
    requires StrLe(a, b) && StrLe(b, c)
    ensures StrLe(a, c)
  {
    if a != [] && b != [] && c != [] && a[0] == b[0] && b[0] == c[0] {
      StrLeTransitive(a[1..], b[1..], c[1..]);
    }
  }

  predicate Sorted(s: seq<string>) {
    forall i, j :: 0 <= i < j < |s| ==> StrLe(s[i], s[j])
  }

  /** x placed before the first element it does not follow. */
  function Insert(x: string, s: seq<string>): (r: seq<string>)
  {
    if s == [] then [x]
    else if StrLe(x, s[0]) then [x] + s
    else [s[0]] + Insert(x, s[1..])
  }

  /** `sorted(labels)`. */
  function SortLabels(s: seq<string>): (r: seq<string>)
  {
    if s == [] then [] else Insert(s[0], SortLabels(s[1..]))
  }

  lemma {:induction false} InsertPermutes(x: string, s: seq<string>)
    ensures multiset(Insert(x, s)) == multiset(s) + multiset{x}
  {
    if s != [] && !StrLe(x, s[0]) {
      InsertPermutes(x, s[1..]);
      assert s == [s[0]] + s[1..];
    }
  }

  lemma {:induction false} InsertSorted(x: string, s: seq<string>)
    requires Sorted(s)
    ensures Sorted(Insert(x, s))
  {
    if s != [] && StrLe(x, s[0]) {
      var r := [x] + s;
      forall i, j | 0 <= i < j < |r| ensures StrLe(r[i], r[j]) {
        if i == 0 && j > 1 {
          StrLeTransitive(x, s[0], s[j - 1]);
        }
      }
    } else if s != [] {
      var rest := Insert(x, s[1..]);
      InsertSorted(x, s[1..]);
      InsertPermutes(x, s[1..]);
      StrLeTotal(x, s[0]);
      forall j | 0 <= j < |rest| ensures StrLe(s[0], rest[j]) {
        assert rest[j] in multiset(rest);
        if rest[j] != x {
          assert rest[j] in s[1..];
        }
      }
      var r := [s[0]] + rest;
      forall i, j | 0 <= i < j < |r| ensures StrLe(r[i], r[j]) {
        assert r[j] == rest[j - 1];
      }
    }
  }

  /** sorted() returns an ordered rearrangement of its input, so the label
      list keeps every duplicate. */
  lemma {:induction false} SortLabelsSpec(s: seq<string>)
    ensures Sorted(SortLabels(s))
    ensures multiset(SortLabels(s)) == multiset(s)
    ensures |SortLabels(s)| == |s|
  {
    if s != [] {
      SortLabelsSpec(s[1..]);
      InsertPermutes(s[0], SortLabels(s[1..]));
      InsertSorted(s[0], SortLabels(s[1..]));
      assert s == [s[0]] + s[1..];
    }
    assert |SortLabels(s)| == |multiset(SortLabels(s))|;
  }

  /** Two ordered rearrangements of one multiset start with the same
      element, the least one. */
  lemma SortedHeadsAgree(a: seq<string>, b: seq<string>)
    requires Sorted(a) && Sorted(b) && multiset(a) == multiset(b) && a != [] && b != []
    ensures a[0] == b[0]
  {
    assert a[0] in multiset(b) && b[0] in multiset(a);
    var i :| 0 <= i < |b| && b[i] == a[0];
    var j :| 0 <= j < |a| && a[j] == b[0];
    if i > 0 && j > 0 {
      StrLeAntisymmetric(a[0], b[0]);
    }
  }

  lemma SortedTail(a: seq<string>)
    requires Sorted(a) && a != []
    ensures Sorted(a[1..])
  {
    forall i, j | 0 <= i < j < |a[1..]| ensures StrLe(a[1..][i], a[1..][j]) {
      assert a[1..][i] == a[i + 1] && a[1..][j] == a[j + 1];
    }
  }

  /** There is only one ordered rearrangement of a sequence of strings, so
      any sorting procedure yields the same label list. */
  lemma {:induction false} SortedIsUnique(a: seq<string>, b: seq<string>)
    requires Sorted(a) && Sorted(b) && multiset(a) == multiset(b)
    ensures a == b
  {
    if a != [] {
      assert |b| == |multiset(b)| == |multiset(a)| == |a|;
      SortedHeadsAgree(a, b);
      var ta, tb := a[1..], b[1..];
      assert multiset(a) == multiset([a[0]]) + multiset(ta) by { assert a == [a[0]] + ta; }
      assert multiset(b) == multiset([b[0]]) + multiset(tb) by { assert b == [b[0]] + tb; }
      forall e ensures multiset(ta)[e] == multiset(tb)[e] {
        assert multiset(a)[e] == multiset([a[0]])[e] + multiset(ta)[e];
        assert multiset(b)[e] == multiset([b[0]])[e] + multiset(tb)[e];
      }
      assert multiset(ta) == multiset(tb);
      SortedTail(a);
      SortedTail(b);
      SortedIsUnique(ta, tb);
      assert a == [a[0]] + ta && b == [b[0]] + tb;
    }
  }

  /** The label column of `data_list`, a list of (path, label) pairs. */
  function Labels(dataList: seq<(string, string)>): (r: seq<string>)
  {
    Map(dataList, (e: (string, string)) => e.1)
  }

  lemma {:induction false} LabelsAt(dataList: seq<(string, string)>, i: nat)
    requires i < |dataList|
    ensures |Labels(dataList)| == |dataList| && Labels(dataList)[i] == dataList[i].1
  {
    MapAt(dataList, (e: (string, string)) => e.1, i);
  }

  /** The fields the constructor assigns. `transform` is an opaque value the
      dataset only stores. */
  datatype FoodDataset<X> = FoodDataset(dataList: seq<(string, string)>, transform: Option<X>,
                                        classes: seq<string>, classToIdx: map<string, int>)

  /** `FoodDataset(data_list, transform)`. */
  function NewFoodDataset<X>(dataList: seq<(string, string)>, transform: Option<X>): (ds: FoodDataset<X>)
    ensures ds.dataList == dataList && ds.transform == transform
  {
    var classes := SortLabels(Labels(dataList));
    FoodDataset(dataList, transform, classes, Enumerate(map[], classes))
  }

  /** `classes` holds every label, duplicates kept, in sorted order. */
  lemma ClassesAreSortedLabels<X>(dataList: seq<(string, string)>, transform: Option<X>)
    ensures var ds := NewFoodDataset(dataList, transform);
      Sorted(ds.classes) && multiset(ds.classes) == multiset(Labels(dataList)) && |ds.classes| == |dataList|
  {
    SortLabelsSpec(Labels(dataList));
    if dataList != [] {
      LabelsAt(dataList, 0);
    }
  }

  /** The keys of `class_to_idx` are the distinct labels; each maps to the
      last position of its label in `classes`, since later duplicates
      overwrite earlier ones in the comprehension. */
  lemma ClassToIdxIsLastPosition<X>(dataList: seq<(string, string)>, transform: Option<X>)
    ensures var ds := NewFoodDataset(dataList, transform);
      forall c :: c in ds.classToIdx <==> c in Labels(dataList)
    ensures var ds := NewFoodDataset(dataList, transform);
      forall c :: c in ds.classToIdx ==> c in ds.classes && ds.classToIdx[c] == LastIndex(ds.classes, c)
  {
    var ds := NewFoodDataset(dataList, transform);
    SortLabelsSpec(Labels(dataList));
    EnumerateLastWins(map[], ds.classes);
    forall c ensures c in ds.classes <==> c in Labels(dataList) {
      assert c in ds.classes <==> c in multiset(ds.classes);
    }
  }

  /** In a sorted list the last occurrences of two distinct strings come
      in their order. */
  lemma LastIndicesOrdered(classes: seq<string>, a: string, b: string)
    requires Sorted(classes) && a in classes && b in classes
    requires a != b && StrLe(a, b)
    ensures LastIndex(classes, a) < LastIndex(classes, b)
  {
    var i, j := LastIndex(classes, a), LastIndex(classes, b);
    if j < i {
      assert StrLe(classes[j], classes[i]);
      StrLeAntisymmetric(a, b);
    }
  }

  /** Distinct labels get strictly increasing indices in sorted order, all
      within [0, len(data_list)). */
  lemma ClassToIdxIncreasing<X>(dataList: seq<(string, string)>, transform: Option<X>, a: string, b: string)
    requires a in Labels(dataList) && b in Labels(dataList)
    requires a != b && StrLe(a, b)
    ensures var ds := NewFoodDataset(dataList, transform);
      a in ds.classToIdx && b in ds.classToIdx
      && 0 <= ds.classToIdx[a] < ds.classToIdx[b] < |dataList|
  {
    var ds := NewFoodDataset(dataList, transform);
    ClassesAreSortedLabels(dataList, transform);
    ClassToIdxIsLastPosition(dataList, transform);
    LastIndicesOrdered(ds.classes, a, b);
  }
}
