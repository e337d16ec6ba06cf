/**
 * The student table's view projection: the search and threshold filter,
 * the comparator-driven stable sort over a copy of the filtered list, the
 * sort-header toggle, Reset Filters and the filter object handed to export.
 */
module RosterView {
  import opened Text
  import opened Records

  // ---------------------------------------------------------------------
  // parseInt (decimal, leading-integer prefix)
  // ---------------------------------------------------------------------

  /** The white-space and line-terminator characters `parseInt` skips before the number. */
  predicate IsJsSpace(c: char)
  {
    c == ' ' || c == '\t' || c == '\n' || c == '\r' || c == '\U{B}' || c == '\U{C}'
    || c == '\U{A0}' || c == '\U{FEFF}' || c == '\U{2028}' || c == '\U{2029}'
    || c == '\U{1680}' || ('\U{2000}' <= c <= '\U{200A}') || c == '\U{202F}' || c == '\U{205F}' || c == '\U{3000}'
  }

  function SkipJsSpace(s: string): (r: string)
    ensures |r| <= |s| && r == s[|s| - |r|..]
    ensures r == [] || !IsJsSpace(r[0])
    decreases |s|
  {
    if |s| > 0 && IsJsSpace(s[0]) then SkipJsSpace(s[1..]) else s
  }

  lemma DigitNotJsSpace(c: char)
    requires IsDigit(c)
    ensures !IsJsSpace(c)
  {
  }

  /** The longest prefix of `s` made of decimal digits. */
  function DigitPrefix(s: string): (d: string)
    ensures |d| <= |s| && d == s[..|d|]
    ensures AllDigits(d)
    ensures |d| < |s| ==> !IsDigit(s[|d|])
    decreases |s|
  {
    if |s| > 0 && IsDigit(s[0]) then [s[0]] + DigitPrefix(s[1..]) else []
  }

  function DigitsValue(d: string): nat
    requires AllDigits(d)
  {
    if d == [] then 0 else DigitsValue(d[..|d| - 1]) * 10 + (d[|d| - 1] as int - '0' as int)
  }

  /**
   * `parseInt(t)` with no radix: optional leading whitespace, an optional
   * sign, then the longest run of decimal digits; `None` stands for NaN,
   * the result when no digit follows.
   */
  function ParseInt(t: string): Option<int>
  {
    var u := SkipJsSpace(t);
    var negative := |u| > 0 && u[0] == '-';
    var body := if |u| > 0 && (u[0] == '-' || u[0] == '+') then u[1..] else u;
    var d := DigitPrefix(body);
    if d == [] then None
    else
      var v: int := DigitsValue(d);
      Some(if negative then -v else v)
  }

  lemma {:induction false} DecimalValue(n: nat)
    ensures DigitsValue(Decimal(n)) == n
  {
    if n >= 10 {
      var s := Decimal(n);
      DecimalValue(n / 10);
      assert s[..|s| - 1] == Decimal(n / 10);
    }
  }

  lemma {:induction false} DigitPrefixOfDigits(d: string, rest: string)
    requires AllDigits(d)
    requires rest == [] || !IsDigit(rest[0])
    ensures DigitPrefix(d + rest) == d
    decreases |d|
  {
    if d == [] {
      assert d + rest == rest;
    } else {
      assert (d + rest)[1..] == d[1..] + rest;
      DigitPrefixOfDigits(d[1..], rest);
      assert [d[0]] + d[1..] == d;
    }
  }

  /**
   * A numeral followed by anything that is not a digit parses to its
   * value (the partial leading parse: "12px" gives 12).
   */
  lemma ParseIntDecimal(n: nat, rest: string)
    requires rest == [] || !IsDigit(rest[0])
    ensures ParseInt(Decimal(n) + rest) == Some(n)
  {
    var d := Decimal(n);
    var s := d + rest;
    assert s[0] == d[0] && IsDigit(d[0]);
    ParseIntLeadingDigit(s);
    DigitPrefixOfDigits(d, rest);
    DecimalValue(n);
  }

  /** A text that starts with a digit parses to the value of its leading digits. */
  lemma ParseIntLeadingDigit(s: string)
    requires |s| > 0 && IsDigit(s[0])
    ensures DigitPrefix(s) != [] && ParseInt(s) == Some(DigitsValue(DigitPrefix(s)))
  {
    DigitNotJsSpace(s[0]);
    assert SkipJsSpace(s) == s;
    assert s[0] != '-' && s[0] != '+';
  }

  /** A minus sign in front of a numeral negates the parsed value. */
  lemma ParseIntNegative(n: nat)
    ensures ParseInt("-" + Decimal(n)) == Some(-(n as int))
  {
    var s := "-" + Decimal(n);
    assert SkipJsSpace(s) == s;
    assert s[1..] == Decimal(n) + [];
    DigitPrefixOfDigits(Decimal(n), []);
    DecimalValue(n);
  }

  /** Text that does not start with a sign or digit (after whitespace) is NaN. */
  lemma ParseIntNaN(t: string)
    requires var u := SkipJsSpace(t); u == [] || !(IsDigit(u[0]) || u[0] == '-' || u[0] == '+')
    ensures ParseInt(t) == None
  {
  }

  // ---------------------------------------------------------------------
  // The filter predicate
  // ---------------------------------------------------------------------

  /** The four star-threshold inputs (`minStars`). */
  datatype StarThresholds = StarThresholds(java: string, python: string, c: string, sql: string)

  const NoStars := StarThresholds("", "", "", "")

  /** `(metric || 0)`: a metric not yet fetched counts as 0. */
  function OrZero(m: Option<int>): int
  {
    if m.Some? then m.value else 0
  }

  /**
   * `threshold === '' || (metric || 0) >= parseInt(threshold)`; a
   * comparison with NaN is false.
   */
  predicate MeetsThreshold(threshold: string, metric: Option<int>)
  {
    threshold == "" || (var p := ParseInt(threshold); p.Some? && OrZero(metric) >= p.value)
  }

  /** Case-insensitive substring search on name or roll number. */
  predicate MatchesSearch(s: Student, search: string)
  {
    Contains(Lower(s.name), Lower(search)) || Contains(Lower(s.rollNumber), Lower(search))
  }

  /** The six conjuncts of the table's filter callback. */
  predicate Keep(s: Student, search: string, minLC: string, minStars: StarThresholds)
  {
    && MatchesSearch(s, search)
    && MeetsThreshold(minLC, s.leetcodeSolved)
    && MeetsThreshold(minStars.java, s.javaStars)
    && MeetsThreshold(minStars.python, s.pythonStars)
    && MeetsThreshold(minStars.c, s.cStars)
    && MeetsThreshold(minStars.sql, s.sqlStars)
  }

  /**
   * `students.filter(...)`: the kept records, in roster order, each as
   * often as it occurs in the roster.
   */
  function FilterStudents(students: seq<Student>, search: string, minLC: string, minStars: StarThresholds): (r: seq<Student>)
    ensures IsSubsequence(r, students)
    ensures forall x {:trigger multiset(r)[x]} :: multiset(r)[x] == if Keep(x, search, minLC, minStars) then multiset(students)[x] else 0
    decreases |students|
  {
    if students == [] then []
    else
      var rest := FilterStudents(students[1..], search, minLC, minStars);
      assert students == [students[0]] + students[1..];
      if Keep(students[0], search, minLC, minStars) then
        assert ([students[0]] + rest)[1..] == rest;
        [students[0]] + rest
      else rest
  }

  /** A record is shown exactly when it is in the roster and passes all six predicates. */
  lemma FilterMembership(students: seq<Student>, search: string, minLC: string, minStars: StarThresholds, x: Student)
    ensures x in FilterStudents(students, search, minLC, minStars) <==> x in students && Keep(x, search, minLC, minStars)
  {
    var r := FilterStudents(students, search, minLC, minStars);
    assert x in r <==> multiset(r)[x] > 0;
    assert x in students <==> multiset(students)[x] > 0;
  }

  /** Empty search text matches every record. */
  lemma EmptySearchMatchesAll(s: Student)
    ensures MatchesSearch(s, "")
  {
    assert Lower("") == "";
    ContainsEmpty(Lower(s.name));
  }

  /**
   * With every threshold empty, the filter is the search alone: a record
   * whose metrics are still `null` is never dropped by a search-only query.
   */
  lemma NoThresholdIsSearchOnly(s: Student, search: string)
    ensures Keep(s, search, "", NoStars) == MatchesSearch(s, search)
  {
  }

  /**
   * A numeric threshold `n` keeps exactly the records whose metric, read
   * as 0 when absent, is at least `n`.
   */
  lemma DecimalThreshold(n: nat, metric: Option<int>)
    ensures MeetsThreshold(Decimal(n), metric) <==> OrZero(metric) >= n
    ensures MeetsThreshold(Decimal(n), None) <==> n == 0
  {
    ParseIntDecimal(n, []);
    assert Decimal(n) + [] == Decimal(n);
  }

  /** A non-empty threshold that parses to NaN fails for every record. */
  lemma NaNThresholdExcludesAll(threshold: string, metric: Option<int>)
    requires threshold != "" && ParseInt(threshold).None?
    ensures !MeetsThreshold(threshold, metric)
  {
  }

  // ---------------------------------------------------------------------
  // The comparator
  // ---------------------------------------------------------------------

  /** The sortable table columns (`sortKey`). */
  datatype SortKey = Name | RollNumber | LeetcodeSolved | JavaStars | PythonStars | CStars | SqlStars

  datatype SortDir = Asc | Desc

  /** A field value as the comparator sees it. */
  datatype SortValue = Str(s: string) | Num(n: int)

  /**
   * `a[sortKey]`, lower-cased when it is a string; a `null` metric is
   * compared as 0 by JavaScript's relational operators.
   */
  function KeyOf(s: Student, key: SortKey): SortValue
  {
    match key
    case Name => Str(Lower(s.name))
    case RollNumber => Str(Lower(s.rollNumber))
    case LeetcodeSolved => Num(OrZero(s.leetcodeSolved))
    case JavaStars => Num(OrZero(s.javaStars))
    case PythonStars => Num(OrZero(s.pythonStars))
    case CStars => Num(OrZero(s.cStars))
    case SqlStars => Num(OrZero(s.sqlStars))
  }

  /** JavaScript's `<` on strings: code-unit order, a proper prefix first. */
  predicate LexLess(a: string, b: string)
    decreases |a|
  {
    if a == [] then b != []
    else if b == [] then false
    else if a[0] < b[0] then true
    else if a[0] == b[0] then LexLess(a[1..], b[1..])
    else false
  }

  /** JavaScript's `<` on two comparator values of the same column. */
  predicate ValueLess(x: SortValue, y: SortValue)
  {
    match (x, y)
    case (Str(a), Str(b)) => LexLess(a, b)
    case (Num(m), Num(n)) => m < n
    case _ => false
  }

  /** The sort callback: -1, 1 or 0, with the sign flipped for `desc`. */
  function Compare(a: Student, b: Student, key: SortKey, dir: SortDir): int
  {
    var x := KeyOf(a, key);
    var y := KeyOf(b, key);
    if ValueLess(x, y) then (if dir == Asc then -1 else 1)
    else if ValueLess(y, x) then (if dir == Asc then 1 else -1)
    else 0
  }

  lemma {:induction false} LexIrreflexive(a: string)
    ensures !LexLess(a, a)
    decreases |a|
  {
    if a != [] { LexIrreflexive(a[1..]); }
  }

  lemma {:induction false} LexAsymmetric(a: string, b: string)
    ensures !(LexLess(a, b) && LexLess(b, a))
    decreases |a|
  {
    if a != [] && b != [] && a[0] == b[0] { LexAsymmetric(a[1..], b[1..]); }
  }

  lemma {:induction false} LexTransitive(a: string, b: string, c: string)
    requires LexLess(a, b) && LexLess(b, c)
    ensures LexLess(a, c)
    decreases |a|
  {
    if a != [] && b != [] && c != [] && a[0] == b[0] && b[0] == c[0] {
      LexTransitive(a[1..], b[1..], c[1..]);
    }
  }

  lemma {:induction false} LexTotal(a: string, b: string)
    ensures a == b || LexLess(a, b) || LexLess(b, a)
    decreases |a|
  {
    if a != [] && b != [] && a[0] == b[0] {
      LexTotal(a[1..], b[1..]);
      if a[1..] == b[1..] {
        assert a == [a[0]] + a[1..] && b == [b[0]] + b[1..];
      }
    }
  }

  /** All values of one column are of one kind, so the comparator's values form a total order. */
  lemma ValueOrder(a: Student, b: Student, c: Student, key: SortKey)
    ensures var x, y, z := KeyOf(a, key), KeyOf(b, key), KeyOf(c, key);
      && !ValueLess(x, x)
      && !(ValueLess(x, y) && ValueLess(y, x))
      && (ValueLess(x, y) && ValueLess(y, z) ==> ValueLess(x, z))
      && (x == y || ValueLess(x, y) || ValueLess(y, x))
  {
    var x, y, z := KeyOf(a, key), KeyOf(b, key), KeyOf(c, key);
    if x.Str? {
      LexIrreflexive(x.s);
      LexAsymmetric(x.s, y.s);
      LexTotal(x.s, y.s);
      if ValueLess(x, y) && ValueLess(y, z) { LexTransitive(x.s, y.s, z.s); }
    }
  }

  /** The comparator is antisymmetric: swapping the arguments negates it. */
  lemma CompareSwap(a: Student, b: Student, key: SortKey, dir: SortDir)
    ensures Compare(a, b, key, dir) == -Compare(b, a, key, dir)
  {
    ValueOrder(a, b, b, key);
  }

  /** `desc` orders as `asc` does with the arguments swapped. */
  lemma CompareDescIsSwappedAsc(a: Student, b: Student, key: SortKey)
    ensures Compare(a, b, key, Desc) == Compare(b, a, key, Asc)
  {
    ValueOrder(a, b, b, key);
  }

  /** The comparator returns 0 exactly for records with equal keys. */
  lemma CompareZeroIffEqualKeys(a: Student, b: Student, key: SortKey, dir: SortDir)
    ensures Compare(a, b, key, dir) == 0 <==> KeyOf(a, key) == KeyOf(b, key)
  {
    ValueOrder(a, b, b, key);
  }

  /** "Not after" is transitive, so the comparator is consistent in the sense sort requires. */
  lemma CompareTransitive(a: Student, b: Student, c: Student, key: SortKey, dir: SortDir)
    requires Compare(a, b, key, dir) <= 0 && Compare(b, c, key, dir) <= 0
    ensures Compare(a, c, key, dir) <= 0
  {
    ValueOrder(a, b, c, key);
    ValueOrder(c, b, a, key);
    ValueOrder(a, c, b, key);
    ValueOrder(b, a, c, key);
  }

  // ---------------------------------------------------------------------
  // The stable sort over a copy of the filtered list
  // ---------------------------------------------------------------------

  /** No later element compares before an earlier one. */
  predicate SortedBy(r: seq<Student>, key: SortKey, dir: SortDir)
  {
    forall i, j :: 0 <= i < j < |r| ==> Compare(r[i], r[j], key, dir) <= 0
  }

  /** Puts `x` in front of the first element that does not compare before it. */
  function Insert(x: Student, t: seq<Student>, key: SortKey, dir: SortDir): seq<Student>
  {
    if t == [] then [x]
    else if Compare(x, t[0], key, dir) <= 0 then [x] + t
    else [t[0]] + Insert(x, t[1..], key, dir)
  }

  /**
   * The stable sort `Array.prototype.sort` performs with the table's
   * comparator (a stable sort is required by section 23.1.3.30 of
   * ECMA-262, 2023 edition).
   */
  function StableSort(s: seq<Student>, key: SortKey, dir: SortDir): seq<Student>
  {
    if s == [] then [] else Insert(s[0], StableSort(s[1..], key, dir), key, dir)
  }

  lemma {:induction false} InsertPermutes(x: Student, t: seq<Student>, key: SortKey, dir: SortDir)
    ensures multiset(Insert(x, t, key, dir)) == multiset(t) + multiset{x}
    decreases |t|
  {
    if t == [] {
      assert Insert(x, t, key, dir) == [x];
    } else if Compare(x, t[0], key, dir) <= 0 {
      assert Insert(x, t, key, dir) == [x] + t;
    } else {
      var rest := Insert(x, t[1..], key, dir);
      InsertPermutes(x, t[1..], key, dir);
      assert Insert(x, t, key, dir) == [t[0]] + rest;
      assert t == [t[0]] + t[1..];
      assert multiset(t) == multiset{t[0]} + multiset(t[1..]);
    }
  }

  /** A head that compares before every element of a sorted tail keeps the list sorted. */
  lemma SortedCons(h: Student, u: seq<Student>, key: SortKey, dir: SortDir)
    requires SortedBy(u, key, dir)
    requires forall e :: e in u ==> Compare(h, e, key, dir) <= 0
    ensures SortedBy([h] + u, key, dir)
  {
    var r := [h] + u;
    forall i, j | 0 <= i < j < |r| ensures Compare(r[i], r[j], key, dir) <= 0 {
      assert r[j] == u[j - 1];
      if i == 0 { assert r[j] in u; } else { assert r[i] == u[i - 1]; }
    }
  }

  lemma {:induction false} InsertSorted(x: Student, t: seq<Student>, key: SortKey, dir: SortDir)
    requires SortedBy(t, key, dir)
    ensures SortedBy(Insert(x, t, key, dir), key, dir)
    decreases |t|
  {
    if t == [] {
    } else if Compare(x, t[0], key, dir) <= 0 {
      forall e | e in t ensures Compare(x, e, key, dir) <= 0 {
        var j :| 0 <= j < |t| && t[j] == e;
        if j > 0 { CompareTransitive(x, t[0], t[j], key, dir); }
      }
      SortedCons(x, t, key, dir);
    } else {
      var u := Insert(x, t[1..], key, dir);
      InsertSorted(x, t[1..], key, dir);
      InsertPermutes(x, t[1..], key, dir);
      CompareSwap(x, t[0], key, dir);
      forall e | e in u ensures Compare(t[0], e, key, dir) <= 0 {
        assert e in multiset(u);
        if e != x {
          assert e in multiset(t[1..]);
          var j :| 0 <= j < |t[1..]| && t[1..][j] == e;
          assert t[j + 1] == e;
        }
      }
      SortedCons(t[0], u, key, dir);
    }
  }

  /** The sorted list is a permutation of its input. */
  lemma {:induction false} SortPermutes(s: seq<Student>, key: SortKey, dir: SortDir)
    ensures multiset(StableSort(s, key, dir)) == multiset(s)
    decreases |s|
  {
    if s != [] {
      var rest := StableSort(s[1..], key, dir);
      SortPermutes(s[1..], key, dir);
      InsertPermutes(s[0], rest, key, dir);
      assert s == [s[0]] + s[1..];
      assert multiset(s) == multiset(s[1..]) + multiset{s[0]};
    }
  }

  /** The sorted list is ordered by the comparator. */
  lemma {:induction false} SortOrders(s: seq<Student>, key: SortKey, dir: SortDir)
    ensures SortedBy(StableSort(s, key, dir), key, dir)
    decreases |s|
  {
    if s != [] {
      SortOrders(s[1..], key, dir);
      InsertSorted(s[0], StableSort(s[1..], key, dir), key, dir);
    }
  }

  /** The records of `s` whose key is `v`, in the order of `s`. */
  function WithKey(s: seq<Student>, key: SortKey, v: SortValue): seq<Student>
  {
    if s == [] then []
    else (if KeyOf(s[0], key) == v then [s[0]] else []) + WithKey(s[1..], key, v)
  }

  lemma WithKeyCons(h: Student, r: seq<Student>, key: SortKey, v: SortValue)
    ensures WithKey([h] + r, key, v) == (if KeyOf(h, key) == v then [h] else []) + WithKey(r, key, v)
  {
    assert ([h] + r)[0] == h;
    assert ([h] + r)[1..] == r;
  }

  lemma {:induction false} InsertKeepsKeyOrder(x: Student, t: seq<Student>, key: SortKey, dir: SortDir, v: SortValue)
    ensures WithKey(Insert(x, t, key, dir), key, v) == (if KeyOf(x, key) == v then [x] else []) + WithKey(t, key, v)
    decreases |t|
  {
    if t == [] {
      WithKeyCons(x, [], key, v);
      assert [x] + [] == [x];
    } else if Compare(x, t[0], key, dir) <= 0 {
      WithKeyCons(x, t, key, v);
    } else {
      var rest := Insert(x, t[1..], key, dir);
      InsertKeepsKeyOrder(x, t[1..], key, dir, v);
      WithKeyCons(t[0], rest, key, v);
      WithKeyCons(t[0], t[1..], key, v);
      assert [t[0]] + t[1..] == t;
      CompareZeroIffEqualKeys(x, t[0], key, dir);
      if KeyOf(x, key) == v {
        assert KeyOf(t[0], key) != v;
        assert WithKey(t, key, v) == WithKey(t[1..], key, v);
      } else {
        assert WithKey(rest, key, v) == WithKey(t[1..], key, v);
      }
    }
  }

  /**
   * Stability: for every key value, the records with that key appear in
   * the sorted list in the same relative order as in the input.
   */
  lemma {:induction false} SortIsStable(s: seq<Student>, key: SortKey, dir: SortDir, v: SortValue)
    ensures WithKey(StableSort(s, key, dir), key, v) == WithKey(s, key, v)
    decreases |s|
  {
    if s != [] {
      SortIsStable(s[1..], key, dir, v);
      InsertKeepsKeyOrder(s[0], StableSort(s[1..], key, dir), key, dir, v);
    }
  }

  // ---------------------------------------------------------------------
  // The projection
  // ---------------------------------------------------------------------

  /** `sorted`: the filtered records, stably sorted on a copy. */
  function View(students: seq<Student>, search: string, minLC: string, minStars: StarThresholds,
                key: SortKey, dir: SortDir): seq<Student>
  {
    StableSort(FilterStudents(students, search, minLC, minStars), key, dir)
  }

  /**
   * The displayed rows: each passes all six predicates, every record of
   * the roster that passes them is shown as often as it occurs, the rows
   * are ordered by the comparator, and equal-key rows keep roster order.
   */
  lemma ViewCorrect(students: seq<Student>, search: string, minLC: string, minStars: StarThresholds,
                    key: SortKey, dir: SortDir)
    ensures var r := View(students, search, minLC, minStars, key, dir);
      && (forall x {:trigger multiset(r)[x]} :: multiset(r)[x] == if Keep(x, search, minLC, minStars) then multiset(students)[x] else 0)
      && SortedBy(r, key, dir)
      && (forall v :: WithKey(r, key, v) == WithKey(FilterStudents(students, search, minLC, minStars), key, v))
  {
    var f := FilterStudents(students, search, minLC, minStars);
    SortPermutes(f, key, dir);
    SortOrders(f, key, dir);
    forall v ensures WithKey(StableSort(f, key, dir), key, v) == WithKey(f, key, v) {
      SortIsStable(f, key, dir, v);
    }
  }

  // ---------------------------------------------------------------------
  // Table state: sort header clicks, Reset Filters, export filters
  // ---------------------------------------------------------------------

  function Flip(dir: SortDir): SortDir
  {
    if dir == Asc then Desc else Asc
  }

  /** The sort state after clicking header `clicked`. */
  function NextSort(key: SortKey, dir: SortDir, clicked: SortKey): (r: (SortKey, SortDir))
    ensures r.0 == clicked
    ensures clicked == key ==> r.1 != dir
    ensures clicked != key ==> r.1 == Asc
  {
    if key == clicked then (key, Flip(dir)) else (clicked, Asc)
  }

  /** Clicking the same header twice restores the sort state. */
  lemma SortTwiceRestores(key: SortKey, dir: SortDir)
    ensures var s := NextSort(key, dir, key); NextSort(s.0, s.1, key) == (key, dir)
  {
  }

  /** Clicking any header from any state and then another one always sorts the latter ascending. */
  lemma SortNewKeyAscending(key: SortKey, dir: SortDir, first: SortKey, second: SortKey)
    requires first != second
    ensures var s := NextSort(key, dir, first); NextSort(s.0, s.1, second) == (second, Asc)
  {
  }

  /** The object `handleExportFiltered` passes to `onExport`. */
  datatype ExportFilters = ExportFilters(minLc: string, minJava: string, minPython: string, minC: string, minSql: string)

  /** The four star-threshold inputs of the filter panel. */
  datatype StarInput = JavaInput | PythonInput | CInput | SqlInput

  /** The state `DataTable` keeps with `useState`. */
  class TableState {
    var search: string
    var sortKey: SortKey
    var sortDir: SortDir
    var minLC: string
    var minStars: StarThresholds

    /** Initial state: no search, roll number ascending, no thresholds. */
    constructor ()
      ensures search == "" && sortKey == RollNumber && sortDir == Asc
      ensures minLC == "" && minStars == NoStars
    {
      search := "";
      sortKey := RollNumber;
      sortDir := Asc;
      minLC := "";
      minStars := NoStars;
    }

    /** The rows the table renders for the roster `students`. */
    function Rows(students: seq<Student>): seq<Student>
      reads this
    {
      View(students, search, minLC, minStars, sortKey, sortDir)
    }

    /** The search box's change handler. */
    method SetSearch(text: string)
      modifies this
      ensures search == text
      ensures sortKey == old(sortKey) && sortDir == old(sortDir)
      ensures minLC == old(minLC) && minStars == old(minStars)
    {
      search := text;
    }

    /** The Min. LeetCode input's change handler. */
    method SetMinLC(value: string)
      modifies this
      ensures minLC == value
      ensures search == old(search) && sortKey == old(sortKey) && sortDir == old(sortDir)
      ensures minStars == old(minStars)
    {
      minLC := value;
    }

    /** A star input's change handler: `{ ...minStars, <skill>: value }`, the other three kept. */
    method SetMinStar(input: StarInput, value: string)
      modifies this
      ensures input == JavaInput ==> minStars == old(minStars).(java := value)
      ensures input == PythonInput ==> minStars == old(minStars).(python := value)
      ensures input == CInput ==> minStars == old(minStars).(c := value)
      ensures input == SqlInput ==> minStars == old(minStars).(sql := value)
      ensures search == old(search) && sortKey == old(sortKey) && sortDir == old(sortDir)
      ensures minLC == old(minLC)
    {
      match input
      case JavaInput => minStars := minStars.(java := value);
      case PythonInput => minStars := minStars.(python := value);
      case CInput => minStars := minStars.(c := value);
      case SqlInput => minStars := minStars.(sql := value);
    }

    /** `handleSort`: same column flips the direction, another column sorts it ascending. */
    method HandleSort(clicked: SortKey)
      modifies this
      ensures (sortKey, sortDir) == NextSort(old(sortKey), old(sortDir), clicked)
      ensures search == old(search) && minLC == old(minLC) && minStars == old(minStars)
    {
      if sortKey == clicked {
        sortDir := if sortDir == Asc then Desc else Asc;
      } else {
        sortKey := clicked;
        sortDir := Asc;
      }
    }

    /** Reset Filters: clears the five thresholds; search and sort are kept. */
    method ResetFilters()
      modifies this
      ensures minLC == "" && minStars == NoStars
      ensures search == old(search) && sortKey == old(sortKey) && sortDir == old(sortDir)
      ensures forall students: seq<Student> :: Rows(students) == View(students, search, "", NoStars, sortKey, sortDir)
    {
      minLC := "";
      minStars := StarThresholds("", "", "", "");
    }

    /** `handleExportFiltered`: the five raw threshold texts, never the search text. */
    method HandleExportFiltered() returns (filters: ExportFilters)
      ensures filters.minLc == minLC
      ensures filters.minJava == minStars.java && filters.minPython == minStars.python
      ensures filters.minC == minStars.c && filters.minSql == minStars.sql
    {
      filters := ExportFilters(minLC, minStars.java, minStars.python, minStars.c, minStars.sql);
    }
  }

  /** After Reset Filters the projection is the search-only projection. */
  lemma ResetViewIsSearchOnly(students: seq<Student>, search: string, key: SortKey, dir: SortDir, x: Student)
    ensures x in View(students, search, "", NoStars, key, dir) <==> x in students && MatchesSearch(x, search)
  {
    var f := FilterStudents(students, search, "", NoStars);
    SortPermutes(f, key, dir);
    FilterMembership(students, search, "", NoStars, x);
    assert x in StableSort(f, key, dir) <==> x in multiset(StableSort(f, key, dir));
  }
}
