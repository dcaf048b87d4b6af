/**
 * `sortWorkItems` (src/components/menu-route-panel.tsx): a sorted copy of
 * the work items by name or by date, ascending or descending.
 *
 * `localeCompare` is modelled as plain lexicographic order on characters,
 * and `Array.prototype.sort`, which is stable, as a stable insertion sort:
 * items whose keys compare equal keep their input order.
 */
module WorkSort {
  import opened Optional
  import opened Strings
  import opened WorkItems

  datatype WorkFilter = ByDate | ByName
  datatype SortDirection = Asc | Desc

  // ---------------------------------------------------------------------
  // Lexicographic order

  /** `a` sorts no later than `b`: a prefix of `b`, or smaller at the first difference. */
  predicate LexLe(a: string, b: string)
    decreases |a|
  {
    if a == [] then true
    else if b == [] then false
    else if a[0] != b[0] then a[0] < b[0]
    else LexLe(a[1..], b[1..])
  }

  lemma {:induction false} LexLeReflexive(a: string)
    ensures LexLe(a, a)
    decreases |a|
  {
    if a != [] {
      LexLeReflexive(a[1..]);
    }
  }

  lemma {:induction false} LexLeTotal(a: string, b: string)
    ensures LexLe(a, b) || LexLe(b, a)
    decreases |a|
  {
    if a != [] && b != [] && a[0] == b[0] {
      LexLeTotal(a[1..], b[1..]);
    }
  }

  lemma {:induction false} LexLeAntisymmetric(a: string, b: string)
    requires LexLe(a, b) && LexLe(b, a)
    ensures a == b
    decreases |a|
  {
    if a != [] {
      LexLeAntisymmetric(a[1..], b[1..]);
      assert a == [a[0]] + a[1..] && b == [b[0]] + b[1..];
    }
  }

  lemma {:induction false} LexLeTransitive(a: string, b: string, c: string)
    requires LexLe(a, b) && LexLe(b, c)
    ensures LexLe(a, c)
    decreases |a|
  {
    if a != [] && a[0] == b[0] && b[0] == c[0] {
      LexLeTransitive(a[1..], b[1..], c[1..]);
    }
  }

  /** A common prefix does not change the order. */
  lemma {:induction false} LexLeCommonPrefix(p: string, a: string, b: string)
    ensures LexLe(p + a, p + b) == LexLe(a, b)
    decreases |p|
  {
    if p != [] {
      assert (p + a)[1..] == p[1..] + a;
      assert (p + b)[1..] == p[1..] + b;
      LexLeCommonPrefix(p[1..], a, b);
    } else {
      assert p + a == a && p + b == b;
    }
  }

  // ---------------------------------------------------------------------
  // The comparator

  function Key(item: WorkItem, filter: WorkFilter): string {
    match filter
    case ByName => item.name
    case ByDate => item.date
  }

  /**
   * `x` may stay before `y`: the comparator `compare(x, y) * multiplier`
   * is not positive.
   */
  predicate Before(dir: SortDirection, filter: WorkFilter, x: WorkItem, y: WorkItem) {
    match dir
    case Asc => LexLe(Key(x, filter), Key(y, filter))
    case Desc => LexLe(Key(y, filter), Key(x, filter))
  }

  lemma BeforeTotal(dir: SortDirection, filter: WorkFilter, x: WorkItem, y: WorkItem)
    ensures Before(dir, filter, x, y) || Before(dir, filter, y, x)
  {
    LexLeTotal(Key(x, filter), Key(y, filter));
  }

  lemma BeforeTransitive(dir: SortDirection, filter: WorkFilter, x: WorkItem, y: WorkItem, z: WorkItem)
    requires Before(dir, filter, x, y) && Before(dir, filter, y, z)
    ensures Before(dir, filter, x, z)
  {
    match dir
    case Asc => LexLeTransitive(Key(x, filter), Key(y, filter), Key(z, filter));
    case Desc => LexLeTransitive(Key(z, filter), Key(y, filter), Key(x, filter));
  }

  /** Items with the same key may stay in either order. */
  lemma BeforeSameKey(dir: SortDirection, filter: WorkFilter, x: WorkItem, y: WorkItem)
    requires Key(x, filter) == Key(y, filter)
    ensures Before(dir, filter, x, y)
  {
    LexLeReflexive(Key(x, filter));
  }

  /** Ascending (`Asc`) or descending (`Desc`) on the selected key. */
  ghost predicate Sorted(dir: SortDirection, filter: WorkFilter, s: seq<WorkItem>) {
    forall i, j :: 0 <= i < j < |s| ==> Before(dir, filter, s[i], s[j])
  }

  /** The items of `s` whose key is `k`, in order. */
  function WithKey(s: seq<WorkItem>, filter: WorkFilter, k: string): seq<WorkItem>
    decreases |s|
  {
    if s == [] then []
    else (if Key(s[0], filter) == k then [s[0]] else []) + WithKey(s[1..], filter, k)
  }

  // ---------------------------------------------------------------------
  // Stable insertion sort

  /** Puts `x` before the first item it may precede, so that it stays ahead of equal keys. */
  function Insert(dir: SortDirection, filter: WorkFilter, x: WorkItem, s: seq<WorkItem>): (r: seq<WorkItem>)
    ensures multiset(r) == multiset(s) + multiset{x}
    ensures |r| == |s| + 1
    decreases |s|
  {
    if s == [] || Before(dir, filter, x, s[0]) then [x] + s
    else
      assert s == [s[0]] + s[1..];
      [s[0]] + Insert(dir, filter, x, s[1..])
  }

  function InsertionSort(dir: SortDirection, filter: WorkFilter, s: seq<WorkItem>): (r: seq<WorkItem>)
    ensures multiset(r) == multiset(s)
    decreases |s|
  {
    if s == [] then []
    else
      assert s == [s[0]] + s[1..];
      Insert(dir, filter, s[0], InsertionSort(dir, filter, s[1..]))
  }

  lemma {:induction false} InsertSorted(dir: SortDirection, filter: WorkFilter, x: WorkItem, s: seq<WorkItem>)
    requires Sorted(dir, filter, s)
    ensures Sorted(dir, filter, Insert(dir, filter, x, s))
    decreases |s|
  {
    var r := Insert(dir, filter, x, s);
    if s == [] {
    } else if Before(dir, filter, x, s[0]) {
      forall i, j | 0 <= i < j < |r|
        ensures Before(dir, filter, r[i], r[j])
      {
        if i == 0 && j > 1 {
          BeforeTransitive(dir, filter, x, s[0], s[j - 1]);
        }
      }
    } else {
      BeforeTotal(dir, filter, x, s[0]);
      var rest := Insert(dir, filter, x, s[1..]);
      InsertSorted(dir, filter, x, s[1..]);
      HeadBeforeInserted(dir, filter, x, s);
      assert r == [s[0]] + rest;
      forall i, j | 0 <= i < j < |r|
        ensures Before(dir, filter, r[i], r[j])
      {
        if i == 0 {
          assert r[j] == rest[j - 1];
        } else {
          assert r[i] == rest[i - 1] && r[j] == rest[j - 1];
        }
      }
    }
  }

  /** The head of a sorted sequence may precede everything that inserting `x` after it produces. */
  lemma HeadBeforeInserted(dir: SortDirection, filter: WorkFilter, x: WorkItem, s: seq<WorkItem>)
    requires Sorted(dir, filter, s) && s != [] && Before(dir, filter, s[0], x)
    ensures forall j :: 0 <= j < |Insert(dir, filter, x, s[1..])| ==> Before(dir, filter, s[0], Insert(dir, filter, x, s[1..])[j])
  {
    var rest := Insert(dir, filter, x, s[1..]);
    forall j | 0 <= j < |rest|
      ensures Before(dir, filter, s[0], rest[j])
    {
      assert rest[j] in multiset(rest);
      if rest[j] != x {
        assert rest[j] in multiset(s[1..]);
        var k :| 0 <= k < |s[1..]| && s[1..][k] == rest[j];
        assert s[k + 1] == rest[j];
      }
    }
  }

  lemma {:induction false} InsertionSortSorted(dir: SortDirection, filter: WorkFilter, s: seq<WorkItem>)
    ensures Sorted(dir, filter, InsertionSort(dir, filter, s))
    decreases |s|
  {
    if s != [] {
      InsertionSortSorted(dir, filter, s[1..]);
      InsertSorted(dir, filter, s[0], InsertionSort(dir, filter, s[1..]));
    }
  }

  lemma {:induction false} InsertWithKey(dir: SortDirection, filter: WorkFilter, x: WorkItem, s: seq<WorkItem>, k: string)
    ensures WithKey(Insert(dir, filter, x, s), filter, k)
            == (if Key(x, filter) == k then [x] else []) + WithKey(s, filter, k)
    decreases |s|
  {
    var r := Insert(dir, filter, x, s);
    if s == [] || Before(dir, filter, x, s[0]) {
      assert r[1..] == s;
    } else {
      if Key(x, filter) == Key(s[0], filter) {
        BeforeSameKey(dir, filter, x, s[0]);
      }
      InsertWithKey(dir, filter, x, s[1..], k);
      assert r[1..] == Insert(dir, filter, x, s[1..]);
    }
  }

  /** Stability: the items sharing any one key come out in their input order. */
  lemma {:induction false} InsertionSortStable(dir: SortDirection, filter: WorkFilter, s: seq<WorkItem>, k: string)
    ensures WithKey(InsertionSort(dir, filter, s), filter, k) == WithKey(s, filter, k)
    decreases |s|
  {
    if s != [] {
      InsertWithKey(dir, filter, s[0], InsertionSort(dir, filter, s[1..]), k);
      InsertionSortStable(dir, filter, s[1..], k);
    }
  }

  /** Sorting input that is already in order returns it unchanged. */
  lemma {:induction false} InsertionSortOfSorted(dir: SortDirection, filter: WorkFilter, s: seq<WorkItem>)
    requires Sorted(dir, filter, s)
    ensures InsertionSort(dir, filter, s) == s
    decreases |s|
  {
    if s != [] {
      assert Sorted(dir, filter, s[1..]) by {
        forall i, j | 0 <= i < j < |s[1..]|
          ensures Before(dir, filter, s[1..][i], s[1..][j])
        {
          assert s[1..][i] == s[i + 1] && s[1..][j] == s[j + 1];
        }
      }
      InsertionSortOfSorted(dir, filter, s[1..]);
      assert s == [s[0]] + s[1..];
      if |s| > 1 {
        assert Before(dir, filter, s[0], s[1..][0]);
      }
    }
  }

  // ---------------------------------------------------------------------
  // sortWorkItems

  /**
   * `sortWorkItems(items, filter, direction)`: a new, sorted sequence;
   * an omitted direction means descending.
   */
  function SortWorkItems(items: seq<WorkItem>, filter: WorkFilter, direction: Option<SortDirection>): (r: seq<WorkItem>)
    ensures multiset(r) == multiset(items)
    ensures Sorted(direction.GetOr(Desc), filter, r)
    ensures forall k :: WithKey(r, filter, k) == WithKey(items, filter, k)
  {
    var dir := direction.GetOr(Desc);
    InsertionSortSorted(dir, filter, items);
    forall k
      ensures WithKey(InsertionSort(dir, filter, items), filter, k) == WithKey(items, filter, k)
    {
      InsertionSortStable(dir, filter, items, k);
    }
    InsertionSort(dir, filter, items)
  }

  /** Ascending order on a key is the reverse of descending order when all keys differ. */
  lemma AscDescMirror(filter: WorkFilter, x: WorkItem, y: WorkItem)
    requires Key(x, filter) != Key(y, filter)
    ensures Before(Asc, filter, x, y) <==> !Before(Desc, filter, x, y)
  {
    LexLeTotal(Key(x, filter), Key(y, filter));
    if Before(Asc, filter, x, y) && Before(Desc, filter, x, y) {
      LexLeAntisymmetric(Key(x, filter), Key(y, filter));
    }
  }

  /** Two-digit day numbers sort like the numbers. */
  lemma TwoDigitsMonotone(a: nat, b: nat)
    requires a < b < 100
    ensures LexLe(TwoDigits(a), TwoDigits(b))
  {
    var ta, tb := TwoDigits(a), TwoDigits(b);
    if a / 10 == b / 10 {
      assert ta[1..] == [DigitChar(a % 10)] && tb[1..] == [DigitChar(b % 10)];
    }
  }

  lemma BaseDatesAscending(tab: WorkTab, i: nat, j: nat)
    requires i < j < 8
    ensures LexLe(GetBaseWorkItems(tab)[i].date, GetBaseWorkItems(tab)[j].date)
  {
    TwoDigitsMonotone(1 + i * 4, 1 + j * 4);
    LexLeCommonPrefix("2026-01-", TwoDigits(1 + i * 4), TwoDigits(1 + j * 4));
  }

  /** The placeholders of a tab are generated in ascending date order, so sorting them that way keeps them as they are. */
  lemma BaseItemsAlreadyAscendingByDate(tab: WorkTab)
    ensures SortWorkItems(GetBaseWorkItems(tab), ByDate, Some(Asc)) == GetBaseWorkItems(tab)
  {
    var s := GetBaseWorkItems(tab);
    forall i, j | 0 <= i < j < |s|
      ensures Before(Asc, ByDate, s[i], s[j])
    {
      BaseDatesAscending(tab, i, j);
    }
    InsertionSortOfSorted(Asc, ByDate, s);
  }
}
