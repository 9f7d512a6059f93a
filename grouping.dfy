/** The data grouping stage (`LayoutEngine.groupData`): clusters the entries of
    the table's data array by the value of one field, and emits, per group, a
    group marker followed by the group's entries.

    The groups live in a plain JavaScript object used as a dictionary, so the
    order of the groups is the order in which `Object.keys` lists the keys of an
    ordinary object: first the keys that are array indices, in ascending numeric
    order, then every other key in the order it was created. */
module Grouping {
  import opened Values

  /** The label `'未分类'` ("unclassified") that falsy group values collapse to. */
  const Unclassified: string := "未分类"

  // ---------------------------------------------------------------------------
  // Property keys
  // ---------------------------------------------------------------------------

  predicate IsDigit(ch: char)
  {
    '0' <= ch <= '9'
  }

  predicate AllDigits(s: string)
  {
    forall i :: 0 <= i < |s| ==> IsDigit(s[i])
  }

  /** The number a string of decimal digits denotes. */
  function DigitsValue(s: string): nat
    requires AllDigits(s)
  {
    if s == [] then 0
    else DigitsValue(s[..|s| - 1]) * 10 + (s[|s| - 1] as int - '0' as int)
  }

  /** The largest array index, 2^32 - 2. */
  const MaxArrayIndex: nat := 4294967294

  /** A property key that is an array index: canonical decimal digits (no
      leading zero except for "0 itself") denoting at most 2^32 - 2. */
  predicate IsArrayIndex(k: string)
  {
    && |k| > 0
    && AllDigits(k)
    && (k[0] == '0' ==> |k| == 1)
    && DigitsValue(k) <= MaxArrayIndex
  }

  function DigitChar(d: nat): char
    requires d < 10
  {
    ('0' as int + d) as char
  }

  /** `String(n)` for a natural number. */
  function NatToDecimal(n: nat): string
  {
    if n < 10 then [DigitChar(n)] else NatToDecimal(n / 10) + [DigitChar(n % 10)]
  }

  /** `String(n)` for an integer. */
  function IntToDecimal(n: int): string
  {
    if n < 0 then "-" + NatToDecimal(-n) else NatToDecimal(n)
  }

  /** The decimal form of a natural number is canonical and denotes it back,
      so a numeric group value up to 2^32 - 2 yields an array-index key. */
  lemma {:induction false} NatToDecimalIsCanonical(n: nat)
    ensures AllDigits(NatToDecimal(n))
    ensures DigitsValue(NatToDecimal(n)) == n
    ensures |NatToDecimal(n)| > 0
    ensures n > 0 ==> NatToDecimal(n)[0] != '0'
    ensures n <= MaxArrayIndex ==> IsArrayIndex(NatToDecimal(n))
  {
    var s := NatToDecimal(n);
    if n >= 10 {
      NatToDecimalIsCanonical(n / 10);
      var p := NatToDecimal(n / 10);
      assert s == p + [DigitChar(n % 10)];
      assert s[..|s| - 1] == p;
      assert s[0] == p[0];
    }
  }

  /** The property key a group value becomes (`ToPropertyKey`). */
  function ToPropertyKey(v: Value): (k: string)
    ensures v.Str? ==> k == v.s
    ensures v.Num? && 0 <= v.n <= MaxArrayIndex ==> IsArrayIndex(k) && DigitsValue(k) == v.n
    ensures v.Num? && v.n < 0 ==> !IsArrayIndex(k)
    ensures !v.Str? ==> |k| > 0 && (!v.Num? ==> !IsArrayIndex(k))
  {
    match v
    case Undefined => assert !IsDigit("undefined"[0]); "undefined"
    case Null => assert !IsDigit("null"[0]); "null"
    case Bool(b) =>
      assert !IsDigit("true"[0]) && !IsDigit("false"[0]);
      if b then "true" else "false"
    case Num(n) =>
      NatToDecimalIsCanonical(if n < 0 then -n else n);
      assert n < 0 ==> !IsDigit(IntToDecimal(n)[0]);
      IntToDecimal(n)
    case Str(s) => s
  }

  /** `item[field]`: an object's own field, or `undefined`. (On a null or
      undefined entry the read throws; `Grouped` checks for those first.) */
  function FieldValue(item: Item, field: string): (v: Value)
    ensures item.Obj? && field in item.fields ==> v == item.fields[field]
    ensures !(item.Obj? && field in item.fields) ==> v == Undefined
  {
    match item
    case Obj(fields) => if field in fields then fields[field] else Undefined
    case Prim(_) => Undefined
  }

  /** `item[groupBy] || '未分类'`, as the key it is stored under. */
  function GroupKey(item: Item, field: string): (k: string)
    ensures k != ""
    ensures Truthy(FieldValue(item, field)) ==> k == ToPropertyKey(FieldValue(item, field))
    ensures !Truthy(FieldValue(item, field)) ==> k == Unclassified
  {
    var v := FieldValue(item, field);
    if Truthy(v) then ToPropertyKey(v) else Unclassified
  }

  /** The grouping key of every entry, for a given `groupBy` field. */
  function KeyOf(field: string): Item -> string
  {
    item => GroupKey(item, field)
  }

  /** An object entry is filed under its field's value when that value is
      truthy, and under '未分类' when the field is missing or falsy. */
  lemma KeyOfObject(field: string, fields: map<string, Value>)
    ensures KeyOf(field)(Obj(fields)) ==
              if field in fields && Truthy(fields[field]) then ToPropertyKey(fields[field]) else Unclassified
  {
  }

  predicate NoNullish(items: seq<Item>)
  {
    forall i :: 0 <= i < |items| ==> !Nullish(items[i])
  }

  // ---------------------------------------------------------------------------
  // The dictionary built by the first loop
  // ---------------------------------------------------------------------------

  /** The group keys in the order the dictionary creates them: first-seen order. */
  function FirstSeen(items: seq<Item>, key: Item -> string): seq<string>
  {
    if items == [] then []
    else
      var seen := FirstSeen(items[..|items| - 1], key);
      var k := key(items[|items| - 1]);
      if k in seen then seen else seen + [k]
  }

  /** The entries whose group key is `k`, in their original relative order. */
  function Members(items: seq<Item>, key: Item -> string, k: string): seq<Item>
  {
    if items == [] then []
    else
      var rest := Members(items[..|items| - 1], key, k);
      if key(items[|items| - 1]) == k then rest + [items[|items| - 1]] else rest
  }

  predicate Distinct(ks: seq<string>)
  {
    forall k | k in ks :: multiset(ks)[k] <= 1
  }

  // ---------------------------------------------------------------------------
  // Object.keys order
  // ---------------------------------------------------------------------------

  function IndexKeys(ks: seq<string>): (r: seq<string>)
    ensures forall i :: 0 <= i < |r| ==> IsArrayIndex(r[i])
  {
    if ks == [] then []
    else if IsArrayIndex(ks[0]) then [ks[0]] + IndexKeys(ks[1..])
    else IndexKeys(ks[1..])
  }

  function OtherKeys(ks: seq<string>): (r: seq<string>)
    ensures forall i :: 0 <= i < |r| ==> !IsArrayIndex(r[i])
  {
    if ks == [] then []
    else if IsArrayIndex(ks[0]) then OtherKeys(ks[1..])
    else [ks[0]] + OtherKeys(ks[1..])
  }

  /** The numeric value of an array-index key (0 for any other key). */
  function IndexRank(k: string): nat
  {
    if IsArrayIndex(k) then DigitsValue(k) else 0
  }

  predicate AscendingBy<T>(s: seq<T>, rank: T -> nat)
  {
    forall i, j :: 0 <= i < j < |s| ==> rank(s[i]) <= rank(s[j])
  }

  function InsertBy<T>(x: T, sorted: seq<T>, rank: T -> nat): seq<T>
  {
    if sorted == [] then [x]
    else if rank(x) <= rank(sorted[0]) then [x] + sorted
    else [sorted[0]] + InsertBy(x, sorted[1..], rank)
  }

  /** An insertion sort by `rank`. */
  function SortBy<T>(s: seq<T>, rank: T -> nat): seq<T>
  {
    if s == [] then [] else InsertBy(s[0], SortBy(s[1..], rank), rank)
  }

  lemma {:induction false} InsertByPermutes<T>(x: T, sorted: seq<T>, rank: T -> nat)
    ensures multiset(InsertBy(x, sorted, rank)) == multiset(sorted) + multiset{x}
  {
    if sorted != [] && rank(x) > rank(sorted[0]) {
      InsertByPermutes(x, sorted[1..], rank);
      assert sorted == [sorted[0]] + sorted[1..];
    }
  }

  lemma {:induction false} AscendingTail<T>(s: seq<T>, rank: T -> nat)
    requires s != [] && AscendingBy(s, rank)
    ensures AscendingBy(s[1..], rank)
    ensures forall j :: 0 <= j < |s[1..]| ==> rank(s[0]) <= rank(s[1..][j])
  {
    forall i, j | 0 <= i < j < |s[1..]| ensures rank(s[1..][i]) <= rank(s[1..][j]) {
      assert s[1..][i] == s[i + 1] && s[1..][j] == s[j + 1];
    }
    forall j | 0 <= j < |s[1..]| ensures rank(s[0]) <= rank(s[1..][j]) {
      assert s[1..][j] == s[j + 1];
    }
  }

  /** Prepending an element no greater than every element keeps a sequence ascending. */
  lemma {:induction false} AscendingCons<T>(y: T, s: seq<T>, rank: T -> nat)
    requires AscendingBy(s, rank)
    requires forall j :: 0 <= j < |s| ==> rank(y) <= rank(s[j])
    ensures AscendingBy([y] + s, rank)
  {
    var r := [y] + s;
    forall i, j | 0 <= i < j < |r| ensures rank(r[i]) <= rank(r[j]) {
      assert r[j] == s[j - 1];
      if i > 0 {
        assert r[i] == s[i - 1];
      }
    }
  }

  lemma {:induction false} InsertBySorted<T>(x: T, sorted: seq<T>, rank: T -> nat)
    requires AscendingBy(sorted, rank)
    ensures AscendingBy(InsertBy(x, sorted, rank), rank)
  {
    if sorted == [] {
    } else if rank(x) <= rank(sorted[0]) {
      AscendingTail(sorted, rank);
      AscendingCons(x, sorted, rank);
    } else {
      var tail := InsertBy(x, sorted[1..], rank);
      AscendingTail(sorted, rank);
      InsertBySorted(x, sorted[1..], rank);
      InsertByPermutes(x, sorted[1..], rank);
      forall j | 0 <= j < |tail| ensures rank(sorted[0]) <= rank(tail[j]) {
        assert tail[j] in multiset(sorted[1..]) + multiset{x};
      }
      AscendingCons(sorted[0], tail, rank);
    }
  }

  /** The sort is a permutation into ascending order of rank. */
  lemma {:induction false} SortBySorted<T>(s: seq<T>, rank: T -> nat)
    ensures multiset(SortBy(s, rank)) == multiset(s)
    ensures AscendingBy(SortBy(s, rank), rank)
  {
    if s != [] {
      SortBySorted(s[1..], rank);
      InsertBySorted(s[0], SortBy(s[1..], rank), rank);
      InsertByPermutes(s[0], SortBy(s[1..], rank), rank);
      assert s == [s[0]] + s[1..];
    }
  }

  /** `Object.keys` of an ordinary object whose keys were created in the order `created`. */
  function OwnKeys(created: seq<string>): seq<string>
  {
    SortBy(IndexKeys(created), IndexRank) + OtherKeys(created)
  }

  lemma {:induction false} KeysPartition(ks: seq<string>)
    ensures multiset(IndexKeys(ks)) + multiset(OtherKeys(ks)) == multiset(ks)
  {
    if ks != [] {
      KeysPartition(ks[1..]);
      assert ks == [ks[0]] + ks[1..];
    }
  }

  lemma {:induction false} OtherKeysAppend(a: seq<string>, b: seq<string>)
    ensures OtherKeys(a + b) == OtherKeys(a) + OtherKeys(b)
  {
    if a == [] {
      assert a + b == b;
    } else {
      assert (a + b)[1..] == a[1..] + b;
      OtherKeysAppend(a[1..], b);
    }
  }

  lemma {:induction false} OtherKeysOfOthers(ks: seq<string>)
    requires forall i :: 0 <= i < |ks| ==> !IsArrayIndex(ks[i])
    ensures OtherKeys(ks) == ks
  {
    if ks != [] {
      OtherKeysOfOthers(ks[1..]);
    }
  }

  lemma {:induction false} IndexKeysOfOthers(ks: seq<string>)
    requires forall i :: 0 <= i < |ks| ==> !IsArrayIndex(ks[i])
    ensures IndexKeys(ks) == []
  {
    if ks != [] {
      IndexKeysOfOthers(ks[1..]);
    }
  }

  lemma {:induction false} OtherKeysOfIndices(ks: seq<string>)
    requires forall i :: 0 <= i < |ks| ==> IsArrayIndex(ks[i])
    ensures OtherKeys(ks) == []
  {
    if ks != [] {
      OtherKeysOfIndices(ks[1..]);
    }
  }

  lemma OwnKeysPermutes(created: seq<string>)
    ensures multiset(OwnKeys(created)) == multiset(created)
  {
    KeysPartition(created);
    SortBySorted(IndexKeys(created), IndexRank);
  }

  /** The order `Object.keys` gives: a permutation of the created keys in which
      every array index comes before every other key, the array indices ascend,
      and the other keys keep their creation order. */
  lemma OwnKeysOrder(created: seq<string>)
    ensures multiset(OwnKeys(created)) == multiset(created)
    ensures forall i, j :: 0 <= i < j < |OwnKeys(created)| && IsArrayIndex(OwnKeys(created)[j]) ==>
              IsArrayIndex(OwnKeys(created)[i]) && IndexRank(OwnKeys(created)[i]) <= IndexRank(OwnKeys(created)[j])
    ensures OtherKeys(OwnKeys(created)) == OtherKeys(created)
  {
    var a := SortBy(IndexKeys(created), IndexRank);
    var b := OtherKeys(created);
    OwnKeysPermutes(created);
    SortBySorted(IndexKeys(created), IndexRank);
    forall i | 0 <= i < |a| ensures IsArrayIndex(a[i]) {
      assert a[i] in multiset(IndexKeys(created));
    }
    OtherKeysAppend(a, b);
    OtherKeysOfIndices(a);
    OtherKeysOfOthers(b);
    var o := a + b;
    forall i, j | 0 <= i < j < |o| && IsArrayIndex(o[j])
      ensures IsArrayIndex(o[i]) && IndexRank(o[i]) <= IndexRank(o[j])
    {
      assert j < |a|;
      assert o[i] in multiset(IndexKeys(created));
    }
  }

  /** When no key looks like an array index, the groups come out in first-seen order. */
  lemma OwnKeysWithoutIndices(created: seq<string>)
    requires forall i :: 0 <= i < |created| ==> !IsArrayIndex(created[i])
    ensures OwnKeys(created) == created
  {
    OtherKeysOfOthers(created);
    IndexKeysOfOthers(created);
  }

  // ---------------------------------------------------------------------------
  // The output of the second loop
  // ---------------------------------------------------------------------------

  /** For each key in `ks`: its marker, then its entries. */
  function Emit(ks: seq<string>, items: seq<Item>, key: Item -> string): seq<Cell>
  {
    if ks == [] then []
    else
      var k := ks[|ks| - 1];
      Emit(ks[..|ks| - 1], items, key) + [Group(k)] + DataCells(Members(items, key, k))
  }

  /** The result of `groupData`: the grouped cells, or the TypeError raised by
      reading `item[groupBy]` of a null or undefined entry. */
  function Grouped(items: seq<Item>, field: string): Result<seq<Cell>>
  {
    if NoNullish(items) then Ok(Emit(OwnKeys(FirstSeen(items, KeyOf(field))), items, KeyOf(field)))
    else Err(PropertyOfNullish)
  }

  lemma GroupedUnfold(items: seq<Item>, field: string)
    requires NoNullish(items)
    ensures Grouped(items, field) == Ok(Emit(OwnKeys(FirstSeen(items, KeyOf(field))), items, KeyOf(field)))
  {
  }

  lemma EmitPrefixStep(ks: seq<string>, j: nat, items: seq<Item>, key: Item -> string)
    requires j < |ks|
    ensures Emit(ks[..j + 1], items, key) == Emit(ks[..j], items, key) + [Group(ks[j])] + DataCells(Members(items, key, ks[j]))
  {
    assert ks[..j + 1][..j] == ks[..j];
  }

  /** The data entries of a cell sequence, in order. */
  function ItemsOf(cells: seq<Cell>): seq<Item>
  {
    if cells == [] then []
    else
      var c := cells[|cells| - 1];
      ItemsOf(cells[..|cells| - 1]) + (if c.Data? then [c.item] else [])
  }

  /** The group names of a cell sequence, in order. */
  function MarkersOf(cells: seq<Cell>): seq<string>
  {
    if cells == [] then []
    else
      var c := cells[|cells| - 1];
      MarkersOf(cells[..|cells| - 1]) + (if c.Group? then [c.name] else [])
  }

  // ---------------------------------------------------------------------------
  // groupData
  // ---------------------------------------------------------------------------

  /** The dictionary after a prefix of the entries: its keys are the keys seen
      so far in creation order, each holding exactly its members. */
  ghost predicate Collected(groups: map<string, seq<Item>>, created: seq<string>, prefix: seq<Item>, key: Item -> string)
  {
    && created == FirstSeen(prefix, key)
    && (forall k :: k in groups <==> k in created)
    && (forall k :: k in groups ==> groups[k] == Members(prefix, key, k))
    && (forall k :: k !in created ==> Members(prefix, key, k) == [])
  }

  /** Filing one more entry keeps the dictionary in step with the entries read. */
  lemma CollectStep(items: seq<Item>, i: nat, key: Item -> string,
                    groups: map<string, seq<Item>>, created: seq<string>)
    requires i < |items| && Collected(groups, created, items[..i], key)
    ensures var k := key(items[i]);
            var g := if k in groups then groups else groups[k := []];
            var c := if k in groups then created else created + [k];
            Collected(g[k := g[k] + [items[i]]], c, items[..i + 1], key)
  {
    assert items[..i + 1][..i] == items[..i];
    assert items[..i + 1][i] == items[i];
  }

  /** Reading one more non-nullish entry keeps the prefix free of nullish entries. */
  lemma NoNullishStep(items: seq<Item>, i: nat)
    requires i < |items| && NoNullish(items[..i]) && !Nullish(items[i])
    ensures NoNullish(items[..i + 1])
  {
    assert items[..i + 1] == items[..i] + [items[i]];
  }

  /** The first pass of `groupData`: fills the dictionary from group key to
      entries. `ok` is false when reading `item[groupBy]` throws. */
  method CollectGroups(items: seq<Item>, field: string)
    returns (ok: bool, groups: map<string, seq<Item>>, created: seq<string>)
    ensures ok <==> NoNullish(items)
    ensures ok ==> created == FirstSeen(items, KeyOf(field))
    ensures ok ==> forall k :: k in groups <==> k in created
    ensures ok ==> forall k :: k in groups ==> groups[k] == Members(items, KeyOf(field), k)
  {
    ghost var key := KeyOf(field);
    groups := map[];
    created := [];
    var i := 0;
    while i < |items|
      invariant 0 <= i <= |items|
      invariant NoNullish(items[..i])
      invariant Collected(groups, created, items[..i], key)
    {
      var item := items[i];
      if Nullish(item) {
        return false, groups, created;
      }
      var groupVal := GroupKey(item, field);
      assert key(item) == groupVal;
      CollectStep(items, i, key, groups, created);
      if groupVal !in groups {
        groups := groups[groupVal := []];
        created := created + [groupVal];
      }
      groups := groups[groupVal := groups[groupVal] + [item]];
      NoNullishStep(items, i);
      i := i + 1;
    }
    assert items[..i] == items;
    return true, groups, created;
  }

  /** Every key `Object.keys` lists is a key of the dictionary. */
  lemma OwnKeysCreated(created: seq<string>, groups: map<string, seq<Item>>)
    requires forall k :: k in groups <==> k in created
    ensures forall n :: 0 <= n < |OwnKeys(created)| ==> OwnKeys(created)[n] in groups
  {
    var keys := OwnKeys(created);
    OwnKeysPermutes(created);
    forall n | 0 <= n < |keys| ensures keys[n] in groups {
      assert keys[n] in multiset(created);
    }
  }

  /** `groupData(items, groupBy)`: the dictionary is filled in one pass, then
      its keys are walked in `Object.keys` order, each emitting its marker and
      its entries. */
  method GroupData(items: seq<Item>, field: string) returns (r: Result<seq<Cell>>)
    ensures r == Grouped(items, field)
  {
    var ok, groups, created := CollectGroups(items, field);
    if !ok {
      return Err(PropertyOfNullish);
    }
    var keys := OwnKeys(created);
    OwnKeysCreated(created, groups);
    var result := EmitGroups(keys, groups, items, KeyOf(field));
    GroupedUnfold(items, field);
    return Ok(result);
  }

  /** The second loop of `groupData`: for each key in order, its marker and
      then the entries the dictionary holds for it. */
  method EmitGroups(keys: seq<string>, groups: map<string, seq<Item>>, ghost items: seq<Item>, ghost key: Item -> string)
    returns (result: seq<Cell>)
    requires forall n :: 0 <= n < |keys| ==> keys[n] in groups
    requires forall k :: k in groups ==> groups[k] == Members(items, key, k)
    ensures result == Emit(keys, items, key)
  {
    result := [];
    var j := 0;
    while j < |keys|
      invariant 0 <= j <= |keys|
      invariant result == Emit(keys[..j], items, key)
    {
      var name := keys[j];
      EmitPrefixStep(keys, j, items, key);
      result := result + [Group(name)];
      result := result + DataCells(groups[name]);
      j := j + 1;
    }
    assert keys[..j] == keys;
  }

  // ---------------------------------------------------------------------------
  // Properties of the grouping
  // ---------------------------------------------------------------------------

  /** The dictionary's keys are distinct, and they are exactly the keys of the entries. */
  lemma {:induction false} FirstSeenKeys(items: seq<Item>, key: Item -> string)
    ensures Distinct(FirstSeen(items, key))
    ensures forall k :: k in FirstSeen(items, key) <==>
              exists i :: 0 <= i < |items| && key(items[i]) == k
  {
    if items != [] {
      var pre := items[..|items| - 1];
      var last := items[|items| - 1];
      FirstSeenKeys(pre, key);
      assert forall i :: 0 <= i < |pre| ==> pre[i] == items[i];
      forall k | exists i :: 0 <= i < |items| && key(items[i]) == k
        ensures k in FirstSeen(items, key)
      {
        var i :| 0 <= i < |items| && key(items[i]) == k;
        if i < |pre| {
          assert key(pre[i]) == k;
        }
      }
    }
  }

  /** First-seen order: the keys met in any prefix of the data come first, in
      the same order, among the keys of the whole data. */
  lemma {:induction false} FirstSeenPrefix(items: seq<Item>, key: Item -> string, j: nat)
    requires j <= |items|
    ensures FirstSeen(items[..j], key) <= FirstSeen(items, key)
    decreases |items| - j
  {
    if j < |items| {
      var pre := items[..|items| - 1];
      FirstSeenPrefix(pre, key, j);
      assert pre[..j] == items[..j];
    } else {
      assert items[..j] == items;
    }
  }

  lemma {:induction false} MembersAppend(a: seq<Item>, b: seq<Item>, key: Item -> string, k: string)
    ensures Members(a + b, key, k) == Members(a, key, k) + Members(b, key, k)
  {
    if b == [] {
      assert a + b == a;
    } else {
      var pre := b[..|b| - 1];
      MembersAppend(a, pre, key, k);
      assert (a + b)[..|a + b| - 1] == a + pre;
      assert (a + b)[|a + b| - 1] == b[|b| - 1];
    }
  }

  lemma {:induction false} MembersOfMembers(s: seq<Item>, key: Item -> string, k1: string, k2: string)
    ensures Members(Members(s, key, k1), key, k2) == if k1 == k2 then Members(s, key, k1) else []
  {
    if s != [] {
      var pre := s[..|s| - 1];
      var last := s[|s| - 1];
      MembersOfMembers(pre, key, k1, k2);
      var m := Members(pre, key, k1);
      if key(last) == k1 {
        assert (m + [last])[..|m + [last]| - 1] == m;
      }
    }
  }

  /** Restricting to one key keeps exactly the entries with that key. */
  lemma {:induction false} MembersCount(s: seq<Item>, key: Item -> string, k: string, x: Item)
    ensures multiset(Members(s, key, k))[x] == if key(x) == k then multiset(s)[x] else 0
  {
    if s != [] {
      var pre := s[..|s| - 1];
      MembersCount(pre, key, k, x);
      assert s == pre + [s[|s| - 1]];
    }
  }

  /** Two sequences of entries that agree on every group are permutations of each other. */
  lemma SameMembersSameMultiset(a: seq<Item>, b: seq<Item>, key: Item -> string)
    requires forall k :: Members(a, key, k) == Members(b, key, k)
    ensures multiset(a) == multiset(b)
  {
    forall x | true ensures multiset(a)[x] == multiset(b)[x] {
      var k := key(x);
      MembersCount(a, key, k, x);
      MembersCount(b, key, k, x);
      assert Members(a, key, k) == Members(b, key, k);
    }
  }

  lemma {:induction false} ItemsOfAppend(a: seq<Cell>, b: seq<Cell>)
    ensures ItemsOf(a + b) == ItemsOf(a) + ItemsOf(b)
    ensures MarkersOf(a + b) == MarkersOf(a) + MarkersOf(b)
  {
    if b == [] {
      assert a + b == a;
    } else {
      var pre := b[..|b| - 1];
      ItemsOfAppend(a, pre);
      assert (a + b)[..|a + b| - 1] == a + pre;
      assert (a + b)[|a + b| - 1] == b[|b| - 1];
    }
  }

  lemma {:induction false} ItemsOfDataCells(s: seq<Item>)
    ensures ItemsOf(DataCells(s)) == s
    ensures MarkersOf(DataCells(s)) == []
  {
    if s != [] {
      var pre := s[..|s| - 1];
      ItemsOfDataCells(pre);
      assert DataCells(s)[..|s| - 1] == DataCells(pre);
    }
  }

  lemma {:induction false} EmitStep(ks: seq<string>, items: seq<Item>, key: Item -> string)
    requires ks != []
    ensures ItemsOf(Emit(ks, items, key)) ==
              ItemsOf(Emit(ks[..|ks| - 1], items, key)) + Members(items, key, ks[|ks| - 1])
  {
    var k := ks[|ks| - 1];
    var e := Emit(ks[..|ks| - 1], items, key);
    var m := Members(items, key, k);
    ItemsOfDataCells(m);
    ItemsOfAppend(e, [Group(k)]);
    ItemsOfAppend(e + [Group(k)], DataCells(m));
    assert ItemsOf([Group(k)]) == [] by {
      assert [Group(k)][..0] == [];
    }
  }

  lemma {:induction false} EmitStepMarkers(ks: seq<string>, items: seq<Item>, key: Item -> string)
    requires ks != []
    ensures MarkersOf(Emit(ks, items, key)) == MarkersOf(Emit(ks[..|ks| - 1], items, key)) + [ks[|ks| - 1]]
  {
    var k := ks[|ks| - 1];
    var e := Emit(ks[..|ks| - 1], items, key);
    var m := Members(items, key, k);
    ItemsOfDataCells(m);
    ItemsOfAppend(e, [Group(k)]);
    ItemsOfAppend(e + [Group(k)], DataCells(m));
    assert MarkersOf([Group(k)]) == [k] by {
      assert [Group(k)][..0] == [];
    }
  }

  /** `Emit` writes one marker per key, in the order of the keys. */
  lemma {:induction false} EmitMarkers(ks: seq<string>, items: seq<Item>, key: Item -> string)
    ensures MarkersOf(Emit(ks, items, key)) == ks
    ensures |Emit(ks, items, key)| == |ks| + |ItemsOf(Emit(ks, items, key))|
  {
    if ks != [] {
      var pre := ks[..|ks| - 1];
      EmitMarkers(pre, items, key);
      EmitStep(ks, items, key);
      EmitStepMarkers(ks, items, key);
      assert ks == pre + [ks[|ks| - 1]];
    }
  }

  lemma DistinctPrefix(ks: seq<string>)
    requires ks != [] && Distinct(ks)
    ensures Distinct(ks[..|ks| - 1])
    ensures ks[|ks| - 1] !in ks[..|ks| - 1]
  {
    var pre := ks[..|ks| - 1];
    var k0 := ks[|ks| - 1];
    assert ks == pre + [k0];
    forall k | k in pre ensures multiset(pre)[k] <= 1 {
      assert multiset(ks)[k] == multiset(pre)[k] + multiset([k0])[k];
    }
    assert multiset(ks)[k0] == multiset(pre)[k0] + 1;
  }

  lemma InPrefixOrLast(ks: seq<string>, k: string)
    requires ks != []
    ensures k in ks <==> k in ks[..|ks| - 1] || k == ks[|ks| - 1]
  {
    assert ks == ks[..|ks| - 1] + [ks[|ks| - 1]];
  }

  /** Restricted to any one key, `Emit` yields exactly that key's entries, in
      their original order, when the key is listed, and nothing otherwise. */
  lemma EmitMembersStep(ks: seq<string>, items: seq<Item>, key: Item -> string, k: string)
    requires ks != []
    ensures Members(ItemsOf(Emit(ks, items, key)), key, k) ==
              Members(ItemsOf(Emit(ks[..|ks| - 1], items, key)), key, k) +
              (if ks[|ks| - 1] == k then Members(items, key, k) else [])
  {
    var k0 := ks[|ks| - 1];
    EmitStep(ks, items, key);
    MembersAppend(ItemsOf(Emit(ks[..|ks| - 1], items, key)), Members(items, key, k0), key, k);
    MembersOfMembers(items, key, k0, k);
  }

  lemma {:induction false} EmitMembers(ks: seq<string>, items: seq<Item>, key: Item -> string, k: string)
    requires Distinct(ks)
    ensures Members(ItemsOf(Emit(ks, items, key)), key, k) == if k in ks then Members(items, key, k) else []
  {
    if ks != [] {
      var pre := ks[..|ks| - 1];
      var k0 := ks[|ks| - 1];
      DistinctPrefix(ks);
      EmitMembers(pre, items, key, k);
      EmitMembersStep(ks, items, key, k);
      InPrefixOrLast(ks, k);
    }
  }

  /** A key the dictionary never created selects no entries. */
  lemma {:induction false} MembersOutsideFirstSeen(items: seq<Item>, key: Item -> string, k: string)
    requires k !in FirstSeen(items, key)
    ensures Members(items, key, k) == []
  {
    if items != [] {
      var pre := items[..|items| - 1];
      assert k !in FirstSeen(pre, key);
      MembersOutsideFirstSeen(pre, key, k);
    }
  }

  /** `groupData` as a whole: its markers are the dictionary's keys in
      `Object.keys` order; restricted to any one group it yields exactly that
      group's entries in their original relative order; it loses and duplicates
      no entry; and its length is the number of entries plus the number of
      distinct group keys. */
  lemma GroupedShape(items: seq<Item>, field: string)
    requires NoNullish(items)
    ensures Grouped(items, field).Ok?
    ensures MarkersOf(Grouped(items, field).value) == OwnKeys(FirstSeen(items, KeyOf(field)))
    ensures forall k :: Members(ItemsOf(Grouped(items, field).value), KeyOf(field), k) == Members(items, KeyOf(field), k)
    ensures multiset(ItemsOf(Grouped(items, field).value)) == multiset(items)
    ensures |Grouped(items, field).value| == |items| + |FirstSeen(items, KeyOf(field))|
  {
    var key := KeyOf(field);
    var created := FirstSeen(items, key);
    var ks := OwnKeys(created);
    FirstSeenKeys(items, key);
    OwnKeysPermutes(created);
    assert Distinct(ks) by {
      forall k | k in ks ensures multiset(ks)[k] <= 1 {
        assert k in multiset(created);
      }
    }
    EmitMarkers(ks, items, key);
    var g := Emit(ks, items, key);
    forall k ensures Members(ItemsOf(g), key, k) == Members(items, key, k) {
      EmitMembers(ks, items, key, k);
      if k !in ks {
        assert k !in multiset(created);
        MembersOutsideFirstSeen(items, key, k);
      }
    }
    SameMembersSameMultiset(ItemsOf(g), items, key);
    assert |multiset(ItemsOf(g))| == |multiset(items)|;
    assert |ks| == |multiset(ks)| == |multiset(created)| == |created|;
  }

  /** Grouping nothing yields nothing. */
  lemma GroupedEmpty(field: string)
    ensures Grouped([], field) == Ok([])
  {
    assert FirstSeen([], KeyOf(field)) == [];
    assert OwnKeys([]) == [];
  }

  // ---------------------------------------------------------------------------
  // Worked examples
  // ---------------------------------------------------------------------------

  lemma FirstSeenOfThree(x: Item, y: Item, z: Item, key: Item -> string)
    requires key(x) != key(y)
    ensures FirstSeen([x, y, z], key) ==
              if key(z) == key(x) || key(z) == key(y) then [key(x), key(y)] else [key(x), key(y), key(z)]
  {
    assert [x, y, z][..2] == [x, y] && [x, y][..1] == [x] && [x][..0] == [];
    assert FirstSeen([x], key) == [key(x)];
    assert FirstSeen([x, y], key) == [key(x), key(y)];
  }

  lemma MembersOfThree(x: Item, y: Item, z: Item, key: Item -> string, k: string)
    ensures Members([x, y, z], key, k) ==
              (if key(x) == k then [x] else []) + (if key(y) == k then [y] else []) + (if key(z) == k then [z] else [])
  {
    assert [x, y, z][..2] == [x, y] && [x, y][..1] == [x] && [x][..0] == [];
    assert Members([x], key, k) == if key(x) == k then [x] else [];
    assert Members([x, y], key, k) == (if key(x) == k then [x] else []) + (if key(y) == k then [y] else []);
  }

  lemma EmitTwo(p: string, q: string, items: seq<Item>, key: Item -> string)
    ensures Emit([p, q], items, key) ==
              [Group(p)] + DataCells(Members(items, key, p)) + [Group(q)] + DataCells(Members(items, key, q))
  {
    assert [p, q][..1] == [p] && [p][..0] == [];
    assert Emit([p], items, key) == [Group(p)] + DataCells(Members(items, key, p));
  }

  lemma EmitOfThree(x: Item, y: Item, z: Item, key: Item -> string)
    requires key(x) == key(z) != key(y)
    ensures Emit([key(x), key(y)], [x, y, z], key) ==
              [Group(key(x)), Data(x), Data(z), Group(key(y)), Data(y)]
  {
    var p, q := key(x), key(y);
    var items := [x, y, z];
    MembersOfThree(x, y, z, key, p);
    MembersOfThree(x, y, z, key, q);
    assert Members(items, key, p) == [x, z];
    assert Members(items, key, q) == [y];
    EmitTwo(p, q, items, key);
    assert DataCells([x, z]) == [Data(x), Data(z)];
    assert DataCells([y]) == [Data(y)];
    assert [Group(p)] + [Data(x), Data(z)] + [Group(q)] + [Data(y)]
        == [Group(p), Data(x), Data(z), Group(q), Data(y)];
  }

  /** Three entries whose first and last share a non-index key: the first
      group holds the first and last entry, the second group the middle one. */
  lemma GroupedOfThree(x: Item, y: Item, z: Item, field: string)
    requires NoNullish([x, y, z])
    requires KeyOf(field)(x) == KeyOf(field)(z) != KeyOf(field)(y)
    requires !IsArrayIndex(KeyOf(field)(x)) && !IsArrayIndex(KeyOf(field)(y))
    ensures Grouped([x, y, z], field) ==
              Ok([Group(KeyOf(field)(x)), Data(x), Data(z), Group(KeyOf(field)(y)), Data(y)])
  {
    var key := KeyOf(field);
    var p, q := key(x), key(y);
    var items := [x, y, z];
    FirstSeenOfThree(x, y, z, key);
    assert FirstSeen(items, key) == [p, q];
    GroupedUnfold(items, field);
    assert OwnKeys([p, q]) == [p, q] by {
      OwnKeysWithoutIndices([p, q]);
    }
    EmitOfThree(x, y, z, key);
  }

  /** Groups come out in first-seen order, each followed by its entries:
      grouping B, A, B yields [B-marker, b0, b2, A-marker, a1]. */
  lemma GroupedExample()
    ensures var b0 := Obj(map["g" := Str("B")]);
            var a1 := Obj(map["g" := Str("A")]);
            var b2 := Obj(map["g" := Str("B")]);
            Grouped([b0, a1, b2], "g") == Ok([Group("B"), Data(b0), Data(b2), Group("A"), Data(a1)])
  {
    var b0 := Obj(map["g" := Str("B")]);
    var a1 := Obj(map["g" := Str("A")]);
    var b2 := Obj(map["g" := Str("B")]);
    KeyOfObject("g", b0.fields);
    KeyOfObject("g", a1.fields);
    KeyOfObject("g", b2.fields);
    assert "B" != "A" by {
      assert "B"[0] != "A"[0];
    }
    assert !IsArrayIndex("B") && !IsArrayIndex("A") by {
      assert !IsDigit("B"[0]) && !IsDigit("A"[0]);
    }
    assert NoNullish([b0, a1, b2]);
    GroupedOfThree(b0, a1, b2, "g");
  }

  lemma OwnKeysExample()
    ensures OwnKeys(["10", "x", "2"]) == ["2", "10", "x"]
  {
    NatToDecimalIsCanonical(10);
    NatToDecimalIsCanonical(2);
    assert !IsArrayIndex("x");
    assert IsArrayIndex("10") && IsArrayIndex("2");
    assert IndexKeys(["10", "x", "2"]) == ["10", "2"] by {
      assert ["10", "x", "2"][1..] == ["x", "2"] && ["x", "2"][1..] == ["2"];
    }
    assert OtherKeys(["10", "x", "2"]) == ["x"] by {
      assert ["10", "x", "2"][1..] == ["x", "2"] && ["x", "2"][1..] == ["2"];
    }
    assert IndexRank("10") == 10 && IndexRank("2") == 2;
    assert SortBy(["10", "2"], IndexRank) == ["2", "10"] by {
      assert ["10", "2"][1..] == ["2"] && ["2"][1..] == [];
      assert SortBy(["2"], IndexRank) == ["2"];
    }
  }

  lemma MarkersOfThree(x: Item, y: Item, z: Item, field: string)
    requires NoNullish([x, y, z])
    requires KeyOf(field)(x) != KeyOf(field)(y) && KeyOf(field)(z) != KeyOf(field)(x) && KeyOf(field)(z) != KeyOf(field)(y)
    ensures Grouped([x, y, z], field).Ok?
    ensures MarkersOf(Grouped([x, y, z], field).value) == OwnKeys([KeyOf(field)(x), KeyOf(field)(y), KeyOf(field)(z)])
  {
    var key := KeyOf(field);
    FirstSeenOfThree(x, y, z, key);
    GroupedUnfold([x, y, z], field);
    EmitMarkers(OwnKeys([key(x), key(y), key(z)]), [x, y, z], key);
  }

  /** Keys that look like array indices come out first and in ascending
      numeric order: grouping values 10, 'x', 2 yields the groups "2", "10", "x". */
  lemma GroupedNumericKeysExample()
    ensures var e10 := Obj(map["g" := Num(10)]);
            var ex := Obj(map["g" := Str("x")]);
            var e2 := Obj(map["g" := Num(2)]);
            MarkersOf(Grouped([e10, ex, e2], "g").value) == ["2", "10", "x"]
  {
    var e10 := Obj(map["g" := Num(10)]);
    var ex := Obj(map["g" := Str("x")]);
    var e2 := Obj(map["g" := Num(2)]);
    var key := KeyOf("g");
    KeyOfObject("g", e10.fields);
    KeyOfObject("g", ex.fields);
    KeyOfObject("g", e2.fields);
    assert key(e10) == "10" && key(ex) == "x" && key(e2) == "2";
    assert "10" != "x" && "10" != "2" && "x" != "2" by {
      assert "10"[0] != "x"[0] && "x"[0] != "2"[0];
    }
    assert NoNullish([e10, ex, e2]);
    MarkersOfThree(e10, ex, e2, "g");
    OwnKeysExample();
  }
}
