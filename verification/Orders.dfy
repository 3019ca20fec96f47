/** Derived orders and canonical sorting: lexicographic comparison of field lists, and
    sorts whose result does not depend on the order of their input. */
module Orders {

  // ------------------------------------------------------------------ strict orders

  ghost predicate StrictTotal<T(!new)>(less: (T, T) -> bool) {
    && (forall a, b :: less(a, b) ==> !less(b, a))
    && (forall a, b, c :: less(a, b) && less(b, c) ==> less(a, c))
    && (forall a, b :: a == b || less(a, b) || less(b, a))
  }

  predicate LexLess<T(==)>(a: seq<T>, b: seq<T>, less: (T, T) -> bool) {
    if b == [] then false
    else if a == [] then true
    else less(a[0], b[0]) || (a[0] == b[0] && LexLess(a[1..], b[1..], less))
  }

  lemma {:induction false} LexTotal<T(!new)>(a: seq<T>, b: seq<T>, less: (T, T) -> bool)
    requires StrictTotal(less)
    ensures a == b || LexLess(a, b, less) || LexLess(b, a, less)
  {
    if a != [] && b != [] && a[0] == b[0] {
      LexTotal(a[1..], b[1..], less);
      assert a == [a[0]] + a[1..] && b == [b[0]] + b[1..];
    }
  }

  lemma {:induction false} LexAsymmetric<T(!new)>(a: seq<T>, b: seq<T>, less: (T, T) -> bool)
    requires StrictTotal(less) && LexLess(a, b, less)
    ensures !LexLess(b, a, less)
  {
    if a != [] && a[0] == b[0] {
      LexAsymmetric(a[1..], b[1..], less);
    }
  }

  lemma {:induction false} LexTransitive<T(!new)>(a: seq<T>, b: seq<T>, c: seq<T>, less: (T, T) -> bool)
    requires StrictTotal(less) && LexLess(a, b, less) && LexLess(b, c, less)
    ensures LexLess(a, c, less)
  {
    if a != [] && a[0] == b[0] && b[0] == c[0] {
      LexTransitive(a[1..], b[1..], c[1..], less);
    }
  }

  // Strings are compared character by character, a prefix first.
  predicate StringLess(a: string, b: string) {
    LexLess(a, b, (x: char, y: char) => x < y)
  }

  // At the first difference the smaller character decides.
  lemma {:induction false} StringLessIs(a: string, b: string)
    ensures StringLess(a, b) <==>
            || (|a| < |b| && a == b[..|a|])
            || exists k :: 0 <= k < |a| && k < |b| && a[..k] == b[..k] && a[k] < b[k]
  {
    if a != [] && b != [] {
      StringLessIs(a[1..], b[1..]);
      if a[0] == b[0] {
        LessBehindTheFirst(a, b);
      } else {
        assert a[..0] == b[..0];
        assert forall k :: 0 < k < |a| && k < |b| ==> a[..k][0] != b[..k][0];
        assert |a| < |b| ==> b[..|a|][0] != a[0];
      }
    } else if a == [] {
      assert b[..0] == a;
    }
  }

  lemma LessBehindTheFirst(a: string, b: string)
    requires a != [] && b != [] && a[0] == b[0]
    ensures |a| < |b| && a == b[..|a|] <==> |a[1..]| < |b[1..]| && a[1..] == b[1..][..|a[1..]|]
    ensures (exists k :: 0 <= k < |a| && k < |b| && a[..k] == b[..k] && a[k] < b[k]) <==>
            exists k :: 0 <= k < |a[1..]| && k < |b[1..]| && a[1..][..k] == b[1..][..k] && a[1..][k] < b[1..][k]
  {
    var x, y := a[1..], b[1..];
    assert a == [a[0]] + x && b == [a[0]] + y;
    if |a| < |b| {
      assert b[..|a|] == [a[0]] + y[..|x|];
      if a == b[..|a|] {
        assert x == b[..|a|][1..] == y[..|x|];
      }
    }
    if k :| 0 <= k < |a| && k < |b| && a[..k] == b[..k] && a[k] < b[k] {
      assert x[..k - 1] == a[..k][1..] == b[..k][1..] == y[..k - 1] && x[k - 1] < y[k - 1];
    }
    if k :| 0 <= k < |x| && k < |y| && x[..k] == y[..k] && x[k] < y[k] {
      assert a[..k + 1] == [a[0]] + x[..k] && b[..k + 1] == [a[0]] + y[..k];
      assert a[k + 1] < b[k + 1];
    }
  }

  lemma StringOrder(a: string, b: string, c: string)
    ensures a == b || StringLess(a, b) || StringLess(b, a)
    ensures StringLess(a, b) ==> !StringLess(b, a)
    ensures StringLess(a, b) && StringLess(b, c) ==> StringLess(a, c)
  {
    var less := (x: char, y: char) => x < y;
    LexTotal(a, b, less);
    if LexLess(a, b, less) {
      LexAsymmetric(a, b, less);
      if LexLess(b, c, less) {
        LexTransitive(a, b, c, less);
      }
    }
  }

  // A field of a record, as the derived order compares it: an absent value first.
  datatype Field = Absent | Number(number: nat) | Text(text: string)

  predicate FieldLess(a: Field, b: Field) {
    match (a, b)
    case (Absent, Absent) => false
    case (Absent, _) => true
    case (Number(m), Number(n)) => m < n
    case (Number(_), Text(_)) => true
    case (Text(s), Text(t)) => StringLess(s, t)
    case _ => false
  }

  lemma FieldsOrdered()
    ensures StrictTotal(FieldLess)
  {
    forall a, b
      ensures a == b || FieldLess(a, b) || FieldLess(b, a)
      ensures FieldLess(a, b) ==> !FieldLess(b, a)
    {
      if a.Text? && b.Text? {
        StringOrder(a.text, b.text, a.text);
      }
    }
    forall a, b, c | FieldLess(a, b) && FieldLess(b, c)
      ensures FieldLess(a, c)
    {
      if a.Text? && b.Text? && c.Text? {
        StringOrder(a.text, b.text, c.text);
      }
    }
  }

  // Records are compared field by field.
  predicate KeyLe(a: seq<Field>, b: seq<Field>) {
    !LexLess(b, a, FieldLess)
  }

  lemma KeyOrder(a: seq<Field>, b: seq<Field>, c: seq<Field>)
    ensures KeyLe(a, b) || KeyLe(b, a)
    ensures KeyLe(a, b) && KeyLe(b, a) ==> a == b
    ensures KeyLe(a, b) && KeyLe(b, c) ==> KeyLe(a, c)
  {
    FieldsOrdered();
    LexTotal(a, b, FieldLess);
    LexTotal(b, c, FieldLess);
    if LexLess(b, a, FieldLess) {
      LexAsymmetric(b, a, FieldLess);
    }
    if LexLess(c, a, FieldLess) && KeyLe(a, b) && KeyLe(b, c) {
      if a != b && b != c {
        LexTransitive(c, a, b, FieldLess);
      }
    }
  }

  // ------------------------------------------------------------------------ sorting

  // `key` gives the fields an element is compared by.
  ghost predicate SortedBy<T(!new)>(s: seq<T>, key: T -> seq<Field>) {
    forall i, j :: 0 <= i < j < |s| ==> KeyLe(key(s[i]), key(s[j]))
  }

  function Insert<T>(s: seq<T>, x: T, key: T -> seq<Field>): seq<T> {
    if s == [] then [x]
    else if KeyLe(key(s[|s| - 1]), key(x)) then s + [x]
    else Insert(s[..|s| - 1], x, key) + [s[|s| - 1]]
  }

  // A stable sort (`sort`, `sort_by`).
  function Sort<T>(s: seq<T>, key: T -> seq<Field>): seq<T> {
    if s == [] then [] else Insert(Sort(s[..|s| - 1], key), s[|s| - 1], key)
  }

  lemma {:induction false} InsertKeeps<T(!new)>(s: seq<T>, x: T, key: T -> seq<Field>)
    requires SortedBy(s, key)
    ensures multiset(Insert(s, x, key)) == multiset(s) + multiset{x}
    ensures SortedBy(Insert(s, x, key), key)
  {
    hide KeyLe;
    if s != [] {
      var front, last := s[..|s| - 1], s[|s| - 1];
      assert s == front + [last];
      if KeyLe(key(last), key(x)) {
        forall i | 0 <= i < |s|
          ensures KeyLe(key(s[i]), key(x))
        {
          KeyOrder(key(s[i]), key(last), key(x));
        }
      } else {
        InsertKeeps(front, x, key);
        KeyOrder(key(last), key(x), key(x));
        LastStaysLast(front, x, last, Insert(front, x, key), key);
      }
    }
  }

  // What is inserted before the last element leaves it the last one.
  lemma LastStaysLast<T(!new)>(front: seq<T>, x: T, last: T, inserted: seq<T>, key: T -> seq<Field>)
    requires SortedBy(front + [last], key) && SortedBy(inserted, key)
    requires multiset(inserted) == multiset(front) + multiset{x} && KeyLe(key(x), key(last))
    ensures SortedBy(inserted + [last], key)
  {
    hide KeyLe;
    forall i | 0 <= i < |inserted|
      ensures KeyLe(key(inserted[i]), key(last))
    {
      assert inserted[i] in multiset(inserted);
      if inserted[i] != x {
        assert inserted[i] in multiset(front);
        var j :| 0 <= j < |front| && front[j] == inserted[i];
        assert (front + [last])[j] == front[j] && (front + [last])[|front|] == last;
      }
    }
  }

  lemma {:induction false} SortKeeps<T(!new)>(s: seq<T>, key: T -> seq<Field>)
    ensures multiset(Sort(s, key)) == multiset(s) && SortedBy(Sort(s, key), key)
  {
    hide SortedBy, Insert, KeyLe;
    if s == [] {
      NothingSorted(key);
    } else {
      SortKeeps(s[..|s| - 1], key);
      InsertKeeps(Sort(s[..|s| - 1], key), s[|s| - 1], key);
      assert s == s[..|s| - 1] + [s[|s| - 1]];
    }
  }

  lemma NothingSorted<T(!new)>(key: T -> seq<Field>)
    ensures SortedBy([], key)
  {}

  // No two elements share a key.
  ghost predicate KeysIdentify<T(!new)>(s: seq<T>, key: T -> seq<Field>) {
    forall x, y :: x in s && y in s && key(x) == key(y) ==> x == y
  }

  lemma LastIsGreatest<T(!new)>(s: seq<T>, x: T, key: T -> seq<Field>)
    requires s != [] && SortedBy(s, key) && x in multiset(s)
    ensures KeyLe(key(x), key(s[|s| - 1]))
  {
    hide KeyLe;
    var i :| 0 <= i < |s| && s[i] == x;
    KeyOrder(key(x), key(x), key(x));
  }

  lemma LastsAgree<T(!new)>(a: seq<T>, b: seq<T>, key: T -> seq<Field>)
    requires a != [] && b != [] && multiset(a) == multiset(b)
    requires SortedBy(a, key) && SortedBy(b, key) && KeysIdentify(a, key)
    ensures a[|a| - 1] == b[|b| - 1]
  {
    hide KeyLe, SortedBy;
    var x, y := a[|a| - 1], b[|b| - 1];
    assert x in multiset(a) && y in multiset(b);
    LastIsGreatest(a, y, key);
    LastIsGreatest(b, x, key);
    KeyOrder(key(x), key(y), key(x));
    assert x in a && y in a;
  }

  lemma FrontIsSorted<T(!new)>(s: seq<T>, key: T -> seq<Field>)
    requires s != [] && SortedBy(s, key)
    ensures SortedBy(s[..|s| - 1], key) && multiset(s[..|s| - 1]) == multiset(s) - multiset{s[|s| - 1]}
  {
    hide KeyLe;
    assert s == s[..|s| - 1] + [s[|s| - 1]];
  }

  // Sorted arrangements of the same elements are equal when keys identify elements.
  lemma {:induction false} SortedIsUnique<T(!new)>(a: seq<T>, b: seq<T>, key: T -> seq<Field>)
    requires multiset(a) == multiset(b) && SortedBy(a, key) && SortedBy(b, key) && KeysIdentify(a, key)
    ensures a == b
  {
    hide SortedBy;
    assert |multiset(a)| == |multiset(b)|;
    if a != [] {
      LastsAgree(a, b, key);
      FrontIsSorted(a, key);
      FrontIsSorted(b, key);
      SortedIsUnique(a[..|a| - 1], b[..|b| - 1], key);
      assert a == a[..|a| - 1] + [a[|a| - 1]] && b == b[..|b| - 1] + [b[|b| - 1]];
    }
  }

  // Sorting forgets the order of its input.
  lemma SortIgnoresOrder<T(!new)>(a: seq<T>, b: seq<T>, key: T -> seq<Field>)
    requires multiset(a) == multiset(b) && KeysIdentify(a, key)
    ensures Sort(a, key) == Sort(b, key)
  {
    SortKeeps(a, key);
    SortKeeps(b, key);
    var s := Sort(a, key);
    forall x, y | x in s && y in s && key(x) == key(y)
      ensures x == y
    {
      assert x in multiset(s) && y in multiset(s);
      assert x in multiset(a) && y in multiset(a);
    }
    SortedIsUnique(s, Sort(b, key), key);
  }

  // ------------------------------------------------------------------ sort and dedup

  // Consecutive equal elements collapse (`dedup`).
  function Dedup<T(==)>(s: seq<T>): seq<T> {
    if |s| < 2 then s
    else if s[|s| - 2] == s[|s| - 1] then Dedup(s[..|s| - 1])
    else Dedup(s[..|s| - 1]) + [s[|s| - 1]]
  }

  ghost predicate Ascending<T(!new)>(s: seq<T>, key: T -> seq<Field>) {
    forall i, j :: 0 <= i < j < |s| ==> KeyLe(key(s[i]), key(s[j])) && key(s[i]) != key(s[j])
  }

  lemma {:induction false} DedupSame<T(!new)>(s: seq<T>)
    ensures forall x :: x in Dedup(s) <==> x in s
    ensures s != [] ==> Dedup(s) != [] && Dedup(s)[|Dedup(s)| - 1] == s[|s| - 1]
  {
    if |s| >= 2 {
      DedupSame(s[..|s| - 1]);
      assert s == s[..|s| - 1] + [s[|s| - 1]];
    }
  }

  lemma AppendAscends<T(!new)>(d: seq<T>, x: T, key: T -> seq<Field>)
    requires Ascending(d, key)
    requires forall i :: 0 <= i < |d| ==> KeyLe(key(d[i]), key(x)) && key(d[i]) != key(x)
    ensures Ascending(d + [x], key)
  {
    hide KeyLe;
  }

  lemma {:induction false} DedupAscends<T(!new)>(s: seq<T>, key: T -> seq<Field>)
    requires SortedBy(s, key) && KeysIdentify(s, key)
    ensures Ascending(Dedup(s), key)
  {
    hide KeyLe, SortedBy, Ascending;
    if |s| < 2 {
      ShortAscends(s, key);
    } else {
      var front, last := s[..|s| - 1], s[|s| - 1];
      assert s == front + [last];
      FrontIsSorted(s, key);
      DedupAscends(front, key);
      if s[|s| - 2] != last {
        var d := Dedup(front);
        DedupSame(front);
        forall i | 0 <= i < |d|
          ensures KeyLe(key(d[i]), key(last)) && key(d[i]) != key(last)
        {
          DistinctFromLast(s, d, i, key);
        }
        AppendAscends(d, last, key);
      }
    }
  }

  lemma ShortAscends<T(!new)>(s: seq<T>, key: T -> seq<Field>)
    requires |s| < 2
    ensures Ascending(s, key)
  {}

  lemma DistinctFromLast<T(!new)>(s: seq<T>, d: seq<T>, i: nat, key: T -> seq<Field>)
    requires |s| >= 2 && SortedBy(s, key) && KeysIdentify(s, key) && s[|s| - 2] != s[|s| - 1]
    requires i < |d| && d[i] in s[..|s| - 1]
    ensures KeyLe(key(d[i]), key(s[|s| - 1])) && key(d[i]) != key(s[|s| - 1])
  {
    hide KeyLe;
    var j :| 0 <= j < |s| - 1 && s[j] == d[i];
    KeyOrder(key(s[j]), key(s[|s| - 2]), key(s[j]));
    KeyOrder(key(s[|s| - 2]), key(s[|s| - 1]), key(s[j]));
    assert s[j] in s && s[|s| - 2] in s && s[|s| - 1] in s;
  }

  lemma FrontAscends<T(!new)>(s: seq<T>, key: T -> seq<Field>)
    requires s != [] && Ascending(s, key)
    ensures Ascending(s[..|s| - 1], key)
    ensures forall z :: z in s[..|s| - 1] <==> z in s && z != s[|s| - 1]
  {
    hide KeyLe;
    assert s == s[..|s| - 1] + [s[|s| - 1]];
  }

  lemma AscendingLast<T(!new)>(s: seq<T>, x: T, key: T -> seq<Field>)
    requires s != [] && Ascending(s, key) && x in s
    ensures KeyLe(key(x), key(s[|s| - 1])) && (key(x) == key(s[|s| - 1]) ==> x == s[|s| - 1])
  {
    hide KeyLe;
    var i :| 0 <= i < |s| && s[i] == x;
    KeyOrder(key(x), key(x), key(x));
  }

  lemma EmptyTogether<T>(a: seq<T>, b: seq<T>)
    requires forall x :: x in a <==> x in b
    ensures a == [] <==> b == []
  {
    if a != [] {
      assert a[0] in a;
    }
    if b != [] {
      assert b[0] in b;
    }
  }

  lemma {:induction false} AscendingIsUnique<T(!new)>(a: seq<T>, b: seq<T>, key: T -> seq<Field>)
    requires Ascending(a, key) && Ascending(b, key) && forall x :: x in a <==> x in b
    ensures a == b
  {
    hide KeyLe, Ascending;
    EmptyTogether(a, b);
    if a != [] {
      var x, y := a[|a| - 1], b[|b| - 1];
      assert x in a && y in b;
      AscendingLast(a, y, key);
      AscendingLast(b, x, key);
      KeyOrder(key(x), key(y), key(x));
      var front, front' := a[..|a| - 1], b[..|b| - 1];
      FrontAscends(a, key);
      FrontAscends(b, key);
      assert x == y;
      forall z | z in front
        ensures z in front'
      {
        assert z in a && z != x;
        assert z in b && z != y;
      }
      forall z | z in front'
        ensures z in front
      {
        assert z in b && z != y;
        assert z in a && z != x;
      }
      AscendingIsUnique(front, front', key);
      assert a == front + [x] && b == front' + [x];
    }
  }

  // Sorting and removing duplicates depends only on which elements there are.
  lemma CanonicalSet<T(!new)>(a: seq<T>, b: seq<T>, key: T -> seq<Field>)
    requires (forall x :: x in a <==> x in b) && KeysIdentify(a, key)
    ensures Dedup(Sort(a, key)) == Dedup(Sort(b, key))
    ensures forall x :: x in Dedup(Sort(a, key)) <==> x in a
  {
    hide SortedBy, Ascending, KeyLe;
    CanonicalKeeps(a, key);
    CanonicalKeeps(b, key);
    AscendingIsUnique(Dedup(Sort(a, key)), Dedup(Sort(b, key)), key);
  }

  lemma CanonicalKeeps<T(!new)>(s: seq<T>, key: T -> seq<Field>)
    requires KeysIdentify(s, key)
    ensures Ascending(Dedup(Sort(s, key)), key)
    ensures forall x :: x in Dedup(Sort(s, key)) <==> x in s
  {
    hide SortedBy, Ascending, KeyLe;
    SortKeeps(s, key);
    forall x
      ensures x in Sort(s, key) <==> x in s
    {
      assert x in Sort(s, key) <==> x in multiset(Sort(s, key));
      assert x in s <==> x in multiset(s);
    }
    var sorted := Sort(s, key);
    forall x, y | x in sorted && y in sorted && key(x) == key(y)
      ensures x == y
    {
      assert x in s && y in s;
    }
    DedupAscends(sorted, key);
    DedupSame(sorted);
  }
}
