/** The values the layout engine moves around: the entries of a business data
    array, the cells of a table row, and the small arithmetic the paginator
    relies on. JavaScript's loose values are reduced to the shapes the engine
    distinguishes: truthy or falsy, object or primitive. */
module Values {

  /** A primitive JavaScript value as it can appear in business data. Numbers
      are integers here (see README, "Left out"). */
  datatype Value = Undefined | Null | Bool(b: bool) | Num(n: int) | Str(s: string)

  /** JavaScript truthiness of a primitive: `undefined`, `null`, `false`, `0`
      and `""` are falsy, everything else is truthy. */
  predicate Truthy(v: Value)
    ensures Truthy(v) <==>
      v != Undefined && v != Null && v != Bool(false) && v != Num(0) && v != Str("")
  {
    match v
    case Undefined => false
    case Null => false
    case Bool(b) => b
    case Num(n) => n != 0
    case Str(s) => s != ""
  }

  /** One entry of a business data array: a plain object with its own fields,
      or a primitive value stored directly in the array. */
  datatype Item = Obj(fields: map<string, Value>) | Prim(v: Value)

  /** `null` or `undefined`: the entries whose properties cannot be read. */
  predicate Nullish(item: Item)
  {
    item.Prim? && (item.v.Undefined? || item.v.Null?)
  }

  /** A cell of a table row: a data entry, the blank marker `{__isBlank: true}`,
      or the group marker `{__isGroup: true, groupName}`. */
  datatype Cell = Data(item: Item) | Blank | Group(name: string)

  /** Truthiness of a cell. Objects (data objects and both markers) are always
      truthy; a primitive entry is as truthy as its value. */
  predicate CellTruthy(c: Cell)
    ensures !CellTruthy(c) <==> c.Data? && c.item.Prim? && !Truthy(c.item.v)
  {
    match c
    case Data(item) => item.Obj? || Truthy(item.v)
    case Blank => true
    case Group(_) => true
  }

  /** A value of the business data object: an array of entries, or a primitive. */
  datatype Datum = List(items: seq<Item>) | Scalar(v: Value)

  /** The JavaScript exceptions the engine can raise on the modelled inputs. */
  datatype Fault =
    | PropertyOfNullish   // `item[groupBy]` on a null or undefined entry
    | NotAnArray          // the table's data key holds a truthy non-array value

  datatype Result<T> = Ok(value: T) | Err(fault: Fault)

  /** The pagination knobs that the engine reads off the table element itself. */
  datatype TableOptions = TableOptions(
    dataKey: string,
    groupBy: string,        // "" when absent (an empty name is falsy too)
    rowsPerPage: int,       // 0 when absent
    autoFillBlank: bool,
    columnsCount: nat,      // 1 when absent
    dataFlow: string)       // "ltr-ttb" when absent

  /** The entries of an array wrapped as data cells, in order. */
  function DataCells(items: seq<Item>): (r: seq<Cell>)
    ensures |r| == |items|
    ensures forall i :: 0 <= i < |items| ==> r[i] == Data(items[i])
  {
    seq(|items|, i requires 0 <= i < |items| => Data(items[i]))
  }

  /** `n` blank cells. */
  function Blanks(n: nat): (r: seq<Cell>)
    ensures |r| == n
    ensures forall i :: 0 <= i < n ==> r[i] == Blank
  {
    seq(n, _ => Blank)
  }

  /** Concatenation of a sequence of rows (or of pages). */
  function Flatten<T>(rows: seq<seq<T>>): seq<T>
  {
    if rows == [] then [] else rows[0] + Flatten(rows[1..])
  }

  lemma {:induction false} FlattenAppend<T>(a: seq<seq<T>>, b: seq<seq<T>>)
    ensures Flatten(a + b) == Flatten(a) + Flatten(b)
  {
    if a == [] {
      assert a + b == b;
    } else {
      assert (a + b)[1..] == a[1..] + b;
      FlattenAppend(a[1..], b);
    }
  }

  /** Concatenation is associative. */
  lemma AppendAssoc<T>(a: seq<T>, b: seq<T>, c: seq<T>)
    ensures (a + b) + c == a + (b + c)
  {
  }

  /** Cutting a suffix at `j - i` is cutting the whole at `j`. */
  lemma SliceOfSuffix<T>(s: seq<T>, i: nat, j: nat)
    requires i <= j <= |s|
    ensures s[i..][..j - i] == s[i..j]
    ensures s[i..][j - i..] == s[j..]
  {
  }

  /** A non-empty sequence is its front followed by its last element. */
  lemma SplitLast<T>(s: seq<T>)
    requires s != []
    ensures s[..|s| - 1] + [s[|s| - 1]] == s
  {
  }

  function Min(a: int, b: int): int
  {
    if a <= b then a else b
  }

  /** `Math.ceil(n / d)` on naturals: the least `r` with `n <= r * d`. */
  function CeilDiv(n: nat, d: nat): (r: nat)
    requires d > 0
    ensures n <= r * d
    ensures r > 0 ==> (r - 1) * d < n
    decreases n
  {
    if n == 0 then 0 else 1 + CeilDiv(if n <= d then 0 else n - d, d)
  }

  /** Multiplication by a natural is monotone. */
  lemma {:induction false} MulMono(a: nat, b: nat, k: nat)
    requires a <= b
    ensures a * k <= b * k
  {
    if a < b {
      MulMono(a, b - 1, k);
      assert b * k == (b - 1) * k + k;
    }
  }

  /** `CeilDiv` is the exact ceiling: any `r` with the two defining bounds is it. */
  lemma CeilDivUnique(n: nat, d: nat, r: nat)
    requires d > 0
    requires n <= r * d
    requires r > 0 ==> (r - 1) * d < n
    ensures CeilDiv(n, d) == r
  {
    var q := CeilDiv(n, d);
    if q < r {
      MulMono(q, r - 1, d);
    } else if r < q {
      MulMono(r, q - 1, d);
    }
  }

  /** A count of at most `q * d` needs at most `q` groups of `d`. */
  lemma CeilDivAtMost(n: nat, d: nat, q: nat)
    requires d > 0 && n <= q * d
    ensures CeilDiv(n, d) <= q
  {
    var r := CeilDiv(n, d);
    if r > q {
      MulMono(q, r - 1, d);
    }
  }

  /** Adding `q` whole groups of `d` adds exactly `q` to the ceiling. */
  lemma CeilDivShift(n: nat, d: nat, q: nat)
    requires d > 0
    ensures CeilDiv(n + q * d, d) == CeilDiv(n, d) + q
  {
    var c := CeilDiv(n, d);
    assert (c + q) * d == c * d + q * d;
    if c == 0 && q > 0 {
      assert (q - 1) * d == q * d - d;
    }
    if c > 0 {
      assert (c + q - 1) * d == (c - 1) * d + q * d;
    }
    CeilDivUnique(n + q * d, d, c + q);
  }
}
