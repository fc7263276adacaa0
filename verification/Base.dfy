/** Small shared vocabulary: optional values, JSON values and decimal numerals. */
module Base {

  datatype Option<+T> = None | Some(value: T)

  /**
   * A JSON value. Objects are finite maps, so key order is not part of the model;
   * numbers are reals, so rounding is not part of it either.
   */
  datatype Json =
    | Null
    | Bool(b: bool)
    | Num(n: real)
    | Str(s: string)
    | Arr(items: seq<Json>)
    | Obj(fields: map<string, Json>)

  /** `value[name]` where a missing property reads as undefined. */
  function Field(value: Json, name: string): Option<Json> {
    if value.Obj? && name in value.fields then Some(value.fields[name]) else None
  }

  const DIGITS: string := "0123456789"

  /** The decimal numeral of `n`, without leading zeros. */
  function Decimal(n: nat): (s: string)
    ensures s != "" && forall i :: 0 <= i < |s| ==> s[i] in DIGITS
    ensures Value(s) == n
  {
    if n < 10 then [DIGITS[n]] else
      var front := Decimal(n / 10);
      var s := front + [DIGITS[n % 10]];
      assert s[..|s| - 1] == front;
      s
  }

  function DigitValue(c: char): nat
    requires c in DIGITS
  {
    c as int - '0' as int
  }

  /** The number a string of digits denotes; the partner of `Decimal`. */
  function Value(s: string): nat
    requires forall i :: 0 <= i < |s| ==> s[i] in DIGITS
  {
    if s == "" then 0 else 10 * Value(s[..|s| - 1]) + DigitValue(s[|s| - 1])
  }

  // ---------------------------------------------------------------- ascending lists without repetition

  predicate Ascending(list: seq<int>) { forall i, j :: 0 <= i < j < |list| ==> list[i] < list[j] }

  lemma BelowLast(front: seq<int>, last: int, x: int, r: seq<int>)
    requires Ascending(front + [last]) && x < last && forall s :: s in r ==> s == x || s in front
    ensures forall i :: 0 <= i < |r| ==> r[i] < last
  {
    var list := front + [last];
    forall i | 0 <= i < |r| ensures r[i] < last {
      assert r[i] in r;
      if r[i] != x {
        var j :| 0 <= j < |front| && front[j] == r[i];
        assert list[j] < list[|front|];
      }
    }
  }

  function InsertAscending(list: seq<int>, x: int): (r: seq<int>)
    requires Ascending(list)
    ensures Ascending(r) && forall s :: s in r <==> s == x || s in list
  {
    if list == [] then [x]
    else
      var front, last := list[..|list| - 1], list[|list| - 1];
      assert list == front + [last];
      if last < x then list + [x]
      else if last == x then list
      else
        var r := InsertAscending(front, x);
        BelowLast(front, last, x, r);
        r + [last]
  }

  /** The list with `x` inserted so that it gets index `at`. */
  function InsertAt<T>(list: seq<T>, at: nat, x: T): seq<T>
    requires at <= |list|
  {
    list[..at] + [x] + list[at..]
  }
}
