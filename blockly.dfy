/** The Blockly runtime helpers of roberta/BlocklyMethods.py that generated
    programs call: the number predicates, clamp and randInt, text and list
    construction, search, the index computation for list locations, sub-lists,
    and the in-place list operations behind `listsIndex`. */
module Blockly {
  import opened PyBuiltins
  import Ev3

  // ---------------------------------------------------------------------------
  // Number predicates: Python's % takes the sign of the divisor.

  /** `isEven(number)`: `number % 2 == 0`. */
  function IsEven(n: int): bool {
    FloorMod(n, 2) == 0
  }

  /** `isOdd(number)`: `number % 2 == 1`. */
  function IsOdd(n: int): bool {
    FloorMod(n, 2) == 1
  }

  /** Every integer is exactly one of even and odd, even ones are twice their
      floor half, and adding one swaps the two. */
  lemma EvenOdd(n: int)
    ensures IsOdd(n) <==> !IsEven(n)
    ensures IsEven(n) <==> n == 2 * FloorDiv(n, 2)
    ensures IsEven(n + 1) <==> IsOdd(n)
  {
    assert FloorDiv(n, 2) * 2 + FloorMod(n, 2) == n;
    assert FloorDiv(n + 1, 2) * 2 + FloorMod(n + 1, 2) == n + 1;
  }

  /** `isDivisibleBy(number, divisor)`; a zero divisor raises. */
  function IsDivisibleBy(n: int, d: int): (r: Result<bool>)
    ensures r.Err? <==> d == 0
    ensures r.Err? ==> r.error == ZeroDivisionError
  {
    if d == 0 then Err(ZeroDivisionError) else Ok(FloorMod(n, d) == 0)
  }

  /** `remainderOf(divident, divisor)`: the remainder has the divisor's sign
      and completes the floor quotient; a zero divisor raises. */
  function RemainderOf(a: int, d: int): (r: Result<int>)
    ensures r.Err? <==> d == 0
    ensures r.Err? ==> r.error == ZeroDivisionError
    ensures d > 0 ==> 0 <= r.value < d
    ensures d < 0 ==> d < r.value <= 0
    ensures d != 0 ==> a == d * FloorDiv(a, d) + r.value
  {
    if d == 0 then Err(ZeroDivisionError) else Ok(FloorMod(a, d))
  }

  /** Divisible exactly when the remainder is zero, and then the number is a
      multiple of the divisor. */
  lemma DivisibleIffNoRemainder(n: int, d: int)
    ensures IsDivisibleBy(n, d) == Ok(true) <==> RemainderOf(n, d) == Ok(0)
    ensures IsDivisibleBy(n, d) == Ok(true) ==> n == d * FloorDiv(n, d)
  {
  }

  /** Every multiple of a non-zero divisor is divisible by it. */
  lemma MultipleIsDivisible(k: int, d: int)
    requires d != 0
    ensures IsDivisibleBy(k * d, d) == Ok(true)
  {
    var q := (k * d) / d;
    var m := (k * d) % d;
    assert d * q + m == k * d;
    assert d * (k - q) == m by {
      assert d * (k - q) == d * k - d * q;
    }
    if k - q >= 1 {
      MulAtLeast(k - q, d);
    } else if k - q <= -1 {
      MulAtLeast(q - k, d);
    }
  }

  /** A non-zero multiple of `d` is at least as far from zero as `d`. */
  lemma {:induction false} MulAtLeast(t: int, d: int)
    requires t >= 1
    ensures d > 0 ==> d * t >= d
    ensures d < 0 ==> d * t <= d
    decreases t
  {
    if t > 1 {
      MulAtLeast(t - 1, d);
      assert d * t == d * (t - 1) + d;
    }
  }

  // ---------------------------------------------------------------------------
  // clamp and randInt

  /** `clamp(x, min_val, max_val)`: `min(max(x, min_val), max_val)`. */
  function Clamp(x: int, lo: int, hi: int): (r: int)
    ensures lo <= hi ==> lo <= r <= hi
    ensures r <= hi
    ensures lo <= x <= hi ==> r == x
  {
    Ev3.Min(Ev3.Max(x, lo), hi)
  }

  /** This clamp and the one of ev3.py agree on every proper range; on an
      empty range (`lo > hi`) they part exactly for values below `lo`, where
      this one gives `hi` and the other `lo`. */
  lemma ClampAgreesWithEv3(x: int, lo: int, hi: int)
    ensures Clamp(x, lo, hi) == Ev3.Clamp(x, lo, hi) <==> lo <= hi || x >= lo
    ensures lo > hi ==> Clamp(x, lo, hi) == hi
  {
  }

  /** The 32-bit value `randInt` builds from four random bytes, big-endian. */
  function Word32(b: seq<byte>): (val: nat)
    requires |b| == 4
    ensures val < 0x1_0000_0000
  {
    (b[0] as int) * 0x100_0000 + (b[1] as int) * 0x1_0000 + (b[2] as int) * 0x100 + (b[3] as int)
  }

  /** `randInt(min_val, max_val)` given the random value: the value modulo the
      size of the range, counted from the smaller bound. */
  function RandInt(lo: int, hi: int, val: nat): (r: int)
    ensures Ev3.Min(lo, hi) <= r <= Ev3.Max(lo, hi)
  {
    if lo < hi then lo + FloorMod(val, (hi - lo) + 1)
    else hi + FloorMod(val, (lo - hi) + 1)
  }

  /** An argument of `ord`: the item of a bytes object is an int under
      Python 3, that of a str a one-character string. */
  datatype PyObject = PyInt(i: int) | PyStr(s: string)

  /** `ord(c)`: the code of a one-character string; anything else raises
      TypeError. */
  function Ord(o: PyObject): (r: Result<int>)
    ensures r.Ok? <==> o.PyStr? && |o.s| == 1
    ensures r.Ok? ==> r.value == o.s[0] as int
    ensures r.Err? ==> r.error == TypeError
  {
    if o.PyStr? && |o.s| == 1 then Ok(o.s[0] as int) else Err(TypeError)
  }

  /** `randInt` as written, under Python 3: the random value is built from
      `ord(b[0])`, `ord(b[1])`, ... of the bytes `os.urandom(4)` returns, and
      the first of those `ord` calls is evaluated before anything else. */
  function RandIntAsWritten(lo: int, hi: int, b: seq<byte>): Result<int>
    requires |b| == 4
  {
    match Ord(PyInt(b[0]))
    case Err(e) => Err(e)
    case Ok(_) => Ok(RandInt(lo, hi, Word32(b)))
  }

  /** Whatever the bounds and the random bytes, `randInt` as written raises
      TypeError instead of drawing a value; `RandInt` over `Word32` is the
      draw the code evidently means. */
  lemma RandIntAsWrittenRaises(lo: int, hi: int, b: seq<byte>)
    requires |b| == 4
    ensures RandIntAsWritten(lo, hi, b) == Err(TypeError)
    ensures Ev3.Min(lo, hi) <= RandInt(lo, hi, Word32(b)) <= Ev3.Max(lo, hi)
  {
  }

  /** The order of the bounds does not matter. */
  lemma RandIntSymmetric(lo: int, hi: int, val: nat)
    ensures RandInt(lo, hi, val) == RandInt(hi, lo, val)
  {
  }

  /** Every value of a range narrower than 2^32 is drawn by some 32-bit
      value: the offset from the lower bound. */
  lemma RandIntCovers(lo: int, hi: int, x: int)
    requires Ev3.Min(lo, hi) <= x <= Ev3.Max(lo, hi)
    requires x - Ev3.Min(lo, hi) < 0x1_0000_0000
    ensures RandInt(lo, hi, x - Ev3.Min(lo, hi)) == x
  {
    if lo < hi {
      SmallRemainder(x - lo, hi - lo + 1);
    } else {
      SmallRemainder(x - hi, lo - hi + 1);
    }
  }

  lemma SmallRemainder(v: nat, m: int)
    requires v < m
    ensures FloorMod(v, m) == v
  {
    assert v % m == v;
  }

  // ---------------------------------------------------------------------------
  // Text and list construction

  /** `textJoin(*args)`: the arguments one after another. */
  function TextJoin(args: seq<string>): (r: string)
    ensures args == [] ==> r == ""
    ensures args != [] ==> |args[0]| <= |r| && r[..|args[0]|] == args[0]
  {
    if args == [] then "" else args[0] + TextJoin(args[1..])
  }

  /** Joining two argument lists is joining each and concatenating. */
  lemma {:induction false} TextJoinAppend(a: seq<string>, b: seq<string>)
    ensures TextJoin(a + b) == TextJoin(a) + TextJoin(b)
  {
    if a != [] {
      assert (a + b)[1..] == a[1..] + b;
      TextJoinAppend(a[1..], b);
    } else {
      assert a + b == b;
    }
  }

  /** A single argument is joined to itself: with TextJoinAppend and the
      empty case this makes the join the concatenation of the arguments. */
  lemma TextJoinSingle(s: string)
    ensures TextJoin([s]) == s
  {
    assert [s][1..] == [];
  }

  /** The joins exercised against `textJoin`. */
  lemma TextJoinExamples()
    ensures TextJoin([]) == ""
    ensures TextJoin(["x"]) == "x"
    ensures TextJoin(["x", "yz"]) == "xyz"
  {
    assert TextJoin(["yz"]) == "yz";
  }

  /** `createListWithItem(item, times)`: `[item] * times`, empty for a count
      that is not positive. */
  function CreateListWithItem<T>(item: T, times: int): (r: seq<T>)
    ensures |r| == (if times > 0 then times else 0)
    ensures forall i :: 0 <= i < |r| ==> r[i] == item
    decreases times
  {
    if times <= 0 then [] else [item] + CreateListWithItem(item, times - 1)
  }

  /** Repetitions add up. */
  lemma CreateListWithItemAdds<T>(item: T, a: nat, b: nat)
    ensures CreateListWithItem(item, a + b) == CreateListWithItem(item, a) + CreateListWithItem(item, b)
  {
    var l := CreateListWithItem(item, a + b);
    var r := CreateListWithItem(item, a) + CreateListWithItem(item, b);
    assert |l| == |r|;
    assert forall i :: 0 <= i < |l| ==> l[i] == r[i];
  }

  lemma CreateListExamples()
    ensures CreateListWithItem("x", 2) == ["x", "x"]
  {
    assert CreateListWithItem("x", 1) == ["x"];
  }

  // ---------------------------------------------------------------------------
  // findFirst

  /** `findFirst(list, item)`: `list.index(item)`, or -1 when that raises
      because the item is absent. */
  function FindFirst<T(==)>(list: seq<T>, item: T): (r: int)
    ensures r == -1 <==> item !in list
    ensures r != -1 ==> 0 <= r < |list| && list[r] == item && item !in list[..r]
  {
    if list == [] then -1
    else if list[0] == item then 0
    else
      var k := FindFirst(list[1..], item);
      if k == -1 then -1
      else
        assert list[..k + 1] == [list[0]] + list[1..][..k];
        k + 1
  }

  /** The first occurrence is found past any prefix that lacks the item. */
  lemma {:induction false} FindFirstAfter<T>(a: seq<T>, item: T, b: seq<T>)
    requires item !in a
    ensures FindFirst(a + [item] + b, item) == |a|
  {
    if a != [] {
      assert (a + [item] + b)[1..] == a[1..] + [item] + b;
      FindFirstAfter(a[1..], item, b);
    }
  }

  // ---------------------------------------------------------------------------
  // Locations

  /** `_calculateIndex(list, location, index)` on a list of length `n`, with
      `val` the random value drawn for 'RANDOM'. The index is None when the
      block gives none; an unknown location yields None as well, and
      'FROM_END' without an index fails on `int - None`. */
  function CalculateIndex(n: nat, location: string, index: Option<int>, val: nat): (r: Result<Option<int>>)
    ensures r.Err? <==> location == "FROM_END" && index.None?
    ensures r.Err? ==> r.error == TypeError
    ensures r == Ok(None) <==>
              (location == "FROM_START" && index.None?) ||
              location !in {"FROM_START", "FROM_END", "FIRST", "LAST", "RANDOM"}
    ensures location == "FROM_START" ==> r == Ok(index)
    ensures location == "FROM_END" && index.Some? ==> r == Ok(Some(n - 1 - index.value))
    ensures location == "FIRST" ==> r == Ok(Some(0))
    ensures location == "LAST" ==> r == Ok(Some(n - 1))
    ensures location == "RANDOM" && n > 0 ==> r.Ok? && r.value.Some? && 0 <= r.value.value < n
  {
    if location == "FROM_START" then Ok(index)
    else if location == "FROM_END" then
      (if index.None? then Err(TypeError) else Ok(Some(n - 1 - index.value)))
    else if location == "FIRST" then Ok(Some(0))
    else if location == "LAST" then Ok(Some(n - 1))
    else if location == "RANDOM" then Ok(Some(RandInt(0, n - 1, val)))
    else Ok(None)
  }

  /** The locations agree with each other: counting `k` from the end is
      counting `n - 1 - k` from the start, 'FIRST' is position 0 from the
      start, 'LAST' position 0 from the end, and a random position on a list
      that is not empty lies inside it. */
  lemma LocationsAgree(n: nat, k: int, val: nat)
    ensures CalculateIndex(n, "FROM_END", Some(k), val) == CalculateIndex(n, "FROM_START", Some(n - 1 - k), val)
    ensures CalculateIndex(n, "FIRST", None, val) == CalculateIndex(n, "FROM_START", Some(0), val)
    ensures CalculateIndex(n, "LAST", None, val) == CalculateIndex(n, "FROM_END", Some(0), val)
    ensures n > 0 ==> var r := CalculateIndex(n, "RANDOM", None, val);
                      r.Ok? && r.value.Some? && 0 <= r.value.value < n
  {
  }

  /** `listsGetSubList`: the slice from the start position up to and
      including the end position. Without an end position `1 + None` raises;
      without a start position the slice starts at the beginning. */
  function ListsGetSubList<T>(list: seq<T>, startLocation: string, startIndex: Option<int>,
                              endLocation: string, endIndex: Option<int>, val1: nat, val2: nat): Result<seq<T>>
  {
    match CalculateIndex(|list|, startLocation, startIndex, val1)
    case Err(e) => Err(e)
    case Ok(from) =>
      match CalculateIndex(|list|, endLocation, endIndex, val2)
      case Err(e) => Err(e)
      case Ok(None) => Err(TypeError)
      case Ok(Some(to)) => Ok(Slice(list, from, Some(1 + to)))
  }

  /** Positions counted from the start give the inclusive range between
      them, positions counted from the end the mirrored one. */
  lemma SubListInclusive<T>(list: seq<T>, a: int, b: int, v1: nat, v2: nat)
    requires 0 <= a <= b < |list|
    ensures ListsGetSubList(list, "FROM_START", Some(a), "FROM_START", Some(b), v1, v2) == Ok(list[a..b + 1])
    ensures ListsGetSubList(list, "FROM_END", Some(|list| - 1 - a), "FROM_END", Some(|list| - 1 - b), v1, v2) ==
            Ok(list[a..b + 1])
  {
  }

  /** A missing end position always raises a TypeError, whatever the start. */
  lemma SubListNeedsEnd<T>(list: seq<T>, startLocation: string, startIndex: Option<int>, endLocation: string,
                           v1: nat, v2: nat)
    requires endLocation == "FROM_START" || endLocation == "FROM_END"
    ensures ListsGetSubList(list, startLocation, startIndex, endLocation, None, v1, v2) == Err(TypeError)
  {
  }

  /** The sub-lists exercised against `listsGetSubList`. */
  lemma SubListExamples(v1: nat, v2: nat)
    ensures ListsGetSubList(["a", "b", "c", "d"], "FROM_START", Some(1), "FROM_START", Some(2), v1, v2) == Ok(["b", "c"])
    ensures ListsGetSubList(["a", "b", "c", "d"], "FROM_END", Some(2), "FROM_END", Some(1), v1, v2) == Ok(["b", "c"])
    ensures ListsGetSubList(["a", "b", "c", "d"], "FIRST", None, "FIRST", None, v1, v2) == Ok(["a"])
    ensures ListsGetSubList(["a", "b", "c", "d"], "LAST", None, "LAST", None, v1, v2) == Ok(["d"])
  {
    var abcd := ["a", "b", "c", "d"];
    SubListInclusive(abcd, 1, 2, v1, v2);
    assert abcd[1..3] == ["b", "c"];
    assert Slice(abcd, Some(0), Some(1)) == abcd[0..1] == ["a"];
    assert Slice(abcd, Some(3), Some(4)) == abcd[3..4] == ["d"];
  }

  // ---------------------------------------------------------------------------
  // _executeOperation and listsIndex

  /** The list after an operation, and what the operation returned. */
  datatype Operated<T> = Operated(items: seq<T>, result: Result<T>)

  /** `_executeOperation(list, operation, index, element)` as a function of
      the list's contents. The element at `index` is read first, so a missing
      index or one outside the list raises before anything changes. As
      written, 'REMOVE' falls through to the unknown-operation branch and
      leaves the list alone; corrected, it deletes like 'GET_REMOVE'. */
  function Operate<T>(policy: Policy, items: seq<T>, op: string, index: Option<int>, element: T): (o: Operated<T>)
    ensures o.result == Err(TypeError) <==> index.None?
    ensures o.result == Err(IndexError) <==> index.Some? && !(-|items| <= index.value < |items|)
    ensures o.result.Err? ==> o.items == items
    ensures o.result.Ok? ==> var k := if index.value < 0 then index.value + |items| else index.value;
              0 <= k < |items| &&
              (op == "SET" ==> o.items == items[k := element] && o.result.value == items[k]) &&
              (op == "INSERT" ==> |o.items| == |items| + 1 && o.items[k] == element &&
                                  o.items[..k] == items[..k] && o.items[k + 1..] == items[k..] &&
                                  o.result.value == element) &&
              (op == "GET" ==> o.items == items && o.result.value == items[k]) &&
              (op == "GET_REMOVE" ==> |o.items| == |items| - 1 && o.result.value == items[k] &&
                                      o.items == items[..k] + items[k + 1..]) &&
              (op !in {"SET", "INSERT", "GET", "GET_REMOVE", "REMOVE"} ==> o.items == items && o.result.value == items[k])
  {
    if index.None? then Operated(items, Err(TypeError))
    else match NormIndex(|items|, index.value)
      case None => Operated(items, Err(IndexError))
      case Some(k) =>
        var found := items[k];
        if op == "SET" then Operated(items[k := element], Ok(found))
        else if op == "INSERT" then Operated(items[..k] + [element] + items[k..], Ok(element))
        else if op == "GET" then Operated(items, Ok(found))
        else if op == "GET_REMOVE" || (policy == Corrected && op == "REMOVE") then
          Operated(items[..k] + items[k + 1..], Ok(found))
        else Operated(items, Ok(found))
  }

  /** Deleting keeps every other element: what `GET_REMOVE` returns and what
      it leaves make up the list it started from. */
  lemma RemoveKeepsTheRest<T>(policy: Policy, items: seq<T>, index: int, element: T)
    requires -|items| <= index < |items|
    ensures var o := Operate(policy, items, "GET_REMOVE", Some(index), element);
            multiset(o.items) + multiset{o.result.value} == multiset(items)
  {
    var k := if index < 0 then index + |items| else index;
    var o := Operate(policy, items, "GET_REMOVE", Some(index), element);
    assert o.items == items[..k] + items[k + 1..] && o.result.value == items[k];
    DeletionKeepsTheRest(items, k);
  }

  lemma DeletionKeepsTheRest<T>(items: seq<T>, k: nat)
    requires k < |items|
    ensures multiset(items[..k] + items[k + 1..]) + multiset{items[k]} == multiset(items)
  {
    assert items == items[..k] + [items[k]] + items[k + 1..];
    assert multiset(items) == multiset(items[..k]) + multiset{items[k]} + multiset(items[k + 1..]);
  }

  /** Inserting and then taking out at the same position gives the list back;
      setting back the value that `SET` returned undoes it. */
  lemma OperationsUndo<T>(policy: Policy, items: seq<T>, k: nat, element: T)
    requires k < |items|
    ensures var o := Operate(policy, items, "INSERT", Some(k), element);
            Operate(policy, o.items, "GET_REMOVE", Some(k), element) == Operated(items, Ok(element))
    ensures var o := Operate(policy, items, "SET", Some(k), element);
            Operate(policy, o.items, "SET", Some(k), o.result.value).items == items
  {
    var o := Operate(policy, items, "INSERT", Some(k), element);
    assert o.items[..k] + o.items[k + 1..] == items;
  }

  /** Only 'REMOVE' tells the two readings apart: as written it leaves the
      list as it was, corrected it deletes the element like 'GET_REMOVE'. */
  lemma RemoveIsIgnored<T>(items: seq<T>, op: string, index: Option<int>, element: T)
    ensures op != "REMOVE" ==> Operate(AsWritten, items, op, index, element) == Operate(Corrected, items, op, index, element)
    ensures Operate(AsWritten, items, "REMOVE", index, element).items == items
    ensures Operate(Corrected, items, "REMOVE", index, element) ==
            Operate(Corrected, items, "GET_REMOVE", index, element)
  {
  }

  /** Corrected, 'REMOVE' deletes the element at the position and keeps every
      other one. */
  lemma CorrectedRemoveDeletes<T>(items: seq<T>, index: int, element: T)
    requires -|items| <= index < |items|
    ensures var k := if index < 0 then index + |items| else index;
            var o := Operate(Corrected, items, "REMOVE", Some(index), element);
            o.items == items[..k] + items[k + 1..] && o.result == Ok(items[k]) &&
            multiset(o.items) + multiset{o.result.value} == multiset(items)
  {
    var k := if index < 0 then index + |items| else index;
    var o := Operate(Corrected, items, "REMOVE", Some(index), element);
    assert o.items == items[..k] + items[k + 1..] && o.result == Ok(items[k]);
    DeletionKeepsTheRest(items, k);
  }

  /** A concrete case: removing the first of two elements. */
  lemma RemoveExample()
    ensures Operate(AsWritten, [1, 2], "REMOVE", Some(0), 0) == Operated([1, 2], Ok(1))
    ensures Operate(Corrected, [1, 2], "REMOVE", Some(0), 0) == Operated([2], Ok(1))
  {
    assert [1, 2][1..] == [2];
  }

  /** A Python list: a mutable object passed by reference. */
  class PyList<T> {
    var items: seq<T>

    constructor(items: seq<T>)
      ensures this.items == items
    {
      this.items := items;
    }

    /** `_executeOperation` on this list, in place. */
    method ExecuteOperation(policy: Policy, op: string, index: Option<int>, element: T) returns (r: Result<T>)
      modifies this
      ensures Operated(items, r) == Operate(policy, old(items), op, index, element)
    {
      if index.None? {
        return Err(TypeError);
      }
      var k := NormIndex(|items|, index.value);
      if k.None? {
        return Err(IndexError);
      }
      var p := k.value;
      r := Ok(items[p]);
      if op == "SET" {
        items := items[p := element];
      } else if op == "INSERT" {
        items := items[..p] + [element] + items[p..];
        r := Ok(element);
      } else if op == "GET" {
      } else if op == "GET_REMOVE" || (policy == Corrected && op == "REMOVE") {
        items := items[..p] + items[p + 1..];
      }
    }
  }

  /** `createListWith(*args)`: a new list object holding the arguments in
      order, shared with nothing that existed before. */
  method CreateListWith<T>(args: seq<T>) returns (l: PyList<T>)
    ensures fresh(l) && l.items == args
  {
    l := new PyList(args);
  }

  /** The values a generated program keeps in lists. */
  datatype Value = Text(text: string) | Number(number: int)

  /** The element `listsIndex` passes on: always the string 'element', so a
      'SET' or 'INSERT' through it stores that string. */
  const ElementLiteral: Value := Text("element")

  /** `listsIndex(list, operation, location, index)`: the location becomes an
      index and the operation is carried out on the list. */
  method ListsIndex(policy: Policy, list: PyList<Value>, op: string, location: string, index: Option<int>, val: nat)
    returns (r: Result<Value>)
    modifies list
    ensures var i := CalculateIndex(|old(list.items)|, location, index, val);
            if i.Err? then r == Err(i.error) && list.items == old(list.items)
            else Operated(list.items, r) == Operate(policy, old(list.items), op, i.value, ElementLiteral)
  {
    var i := CalculateIndex(|list.items|, location, index, val);
    if i.Err? {
      return Err(i.error);
    }
    r := list.ExecuteOperation(policy, op, i.value, ElementLiteral);
  }

  /** Getting the first or last element of a list that is not empty, and the
      effect of setting through `listsIndex`. */
  lemma ListsIndexFirstLast(policy: Policy, items: seq<Value>, val: nat)
    requires items != []
    ensures Operate(policy, items, "GET", CalculateIndex(|items|, "FIRST", None, val).value, ElementLiteral) ==
            Operated(items, Ok(items[0]))
    ensures Operate(policy, items, "GET", CalculateIndex(|items|, "LAST", None, val).value, ElementLiteral) ==
            Operated(items, Ok(items[|items| - 1]))
    ensures Operate(policy, items, "SET", CalculateIndex(|items|, "FIRST", None, val).value, ElementLiteral).items ==
            [ElementLiteral] + items[1..]
  {
  }
}
