/** Go's string order, and the deterministic sorts the generator relies on. */
module Text {

  /** Go's `<` on strings: lexicographic. */
  predicate Less(a: string, b: string)
  {
    b != [] && (a == [] || a[0] < b[0] || (a[0] == b[0] && Less(a[1..], b[1..])))
  }

  lemma {:induction false} LessIrreflexive(a: string)
    ensures !Less(a, a)
  {
    if a != [] {
      LessIrreflexive(a[1..]);
    }
  }

  lemma {:induction false} LessTransitive(a: string, b: string, c: string)
    requires Less(a, b) && Less(b, c)
    ensures Less(a, c)
  {
    if a != [] && a[0] == b[0] && b[0] == c[0] {
      LessTransitive(a[1..], b[1..], c[1..]);
    }
  }

  lemma {:induction false} LessTotal(a: string, b: string)
    ensures Less(a, b) || a == b || Less(b, a)
  {
    if a != [] && b != [] && a[0] == b[0] {
      LessTotal(a[1..], b[1..]);
      assert a == [a[0]] + a[1..] && b == [b[0]] + b[1..];
    }
  }

  /** A sort key: rank first, then name. Plain name order is rank 0 throughout. */
  datatype Key = Key(rank: nat, name: string)

  predicate KeyLess(x: Key, y: Key)
  {
    x.rank < y.rank || (x.rank == y.rank && Less(x.name, y.name))
  }

  lemma KeyLessTransitive(x: Key, y: Key, z: Key)
    requires KeyLess(x, y) && KeyLess(y, z)
    ensures KeyLess(x, z)
  {
    if x.rank == y.rank == z.rank {
      LessTransitive(x.name, y.name, z.name);
    }
  }

  /** Strictly ascending by key, so in particular no key occurs twice. */
  ghost predicate Ascending<T(!new)>(key: T -> Key, s: seq<T>)
  {
    forall i, j :: 0 <= i < j < |s| ==> KeyLess(key(s[i]), key(s[j]))
  }

  ghost predicate DistinctKeys<T(!new)>(key: T -> Key, s: seq<T>)
  {
    forall i, j :: 0 <= i < j < |s| ==> key(s[i]) != key(s[j])
  }

  function Insert<T(!new)>(key: T -> Key, x: T, s: seq<T>): seq<T>
  {
    if s == [] then [x]
    else if KeyLess(key(s[0]), key(x)) then [s[0]] + Insert(key, x, s[1..])
    else [x] + s
  }

  /** What slices.SortFunc leaves behind when no two keys are equal. */
  function Sort<T(!new)>(key: T -> Key, s: seq<T>): seq<T>
  {
    if s == [] then [] else Insert(key, s[0], Sort(key, s[1..]))
  }

  lemma {:induction false} InsertMembers<T(!new)>(key: T -> Key, x: T, s: seq<T>)
    ensures forall y :: y in Insert(key, x, s) <==> y == x || y in s
    ensures |Insert(key, x, s)| == |s| + 1
  {
    if s != [] && KeyLess(key(s[0]), key(x)) {
      InsertMembers(key, x, s[1..]);
      assert s == [s[0]] + s[1..];
    }
  }

  lemma {:induction false} SortMembers<T(!new)>(key: T -> Key, s: seq<T>)
    ensures forall y :: y in Sort(key, s) <==> y in s
    ensures |Sort(key, s)| == |s|
  {
    if s != [] {
      SortMembers(key, s[1..]);
      InsertMembers(key, s[0], Sort(key, s[1..]));
      assert s == [s[0]] + s[1..];
    }
  }

  lemma {:induction false} InsertAbove<T(!new)>(key: T -> Key, low: Key, x: T, s: seq<T>)
    requires KeyLess(low, key(x))
    requires forall i :: 0 <= i < |s| ==> KeyLess(low, key(s[i]))
    ensures forall i :: 0 <= i < |Insert(key, x, s)| ==> KeyLess(low, key(Insert(key, x, s)[i]))
  {
    if s != [] && KeyLess(key(s[0]), key(x)) {
      InsertAbove(key, low, x, s[1..]);
    }
  }

  lemma {:induction false} InsertAscending<T(!new)>(key: T -> Key, x: T, s: seq<T>)
    requires Ascending(key, s)
    requires forall i :: 0 <= i < |s| ==> key(s[i]) != key(x)
    ensures Ascending(key, Insert(key, x, s))
  {
    if s == [] {
    } else if KeyLess(key(s[0]), key(x)) {
      InsertAscending(key, x, s[1..]);
      InsertAbove(key, key(s[0]), x, s[1..]);
    } else {
      LessTotal(key(s[0]).name, key(x).name);
      forall j | 1 <= j < |s| ensures KeyLess(key(x), key(s[j])) {
        KeyLessTransitive(key(x), key(s[0]), key(s[j]));
      }
    }
  }

  /** Distinct keys stay clear of one another through the sort. */
  lemma {:induction false} SortAvoids<T(!new)>(key: T -> Key, s: seq<T>, k: Key)
    requires forall i :: 0 <= i < |s| ==> key(s[i]) != k
    ensures forall i :: 0 <= i < |Sort(key, s)| ==> key(Sort(key, s)[i]) != k
  {
    SortMembers(key, s);
    forall i | 0 <= i < |Sort(key, s)| ensures key(Sort(key, s)[i]) != k {
      assert Sort(key, s)[i] in s;
    }
  }

  /** Sorting keeps the elements (SortMembers) and, with distinct keys, orders them strictly. */
  lemma {:induction false} SortAscending<T(!new)>(key: T -> Key, s: seq<T>)
    requires DistinctKeys(key, s)
    ensures Ascending(key, Sort(key, s))
  {
    if s != [] {
      SortAscending(key, s[1..]);
      SortAvoids(key, s[1..], key(s[0]));
      InsertAscending(key, s[0], Sort(key, s[1..]));
    }
  }

  /** An ascending list is already sorted: sorting it again changes nothing. */
  lemma {:induction false} SortFixed<T(!new)>(key: T -> Key, s: seq<T>)
    requires Ascending(key, s)
    ensures Sort(key, s) == s
  {
    if s != [] {
      SortFixed(key, s[1..]);
      if |s| > 1 {
        assert KeyLess(key(s[0]), key(s[1]));
        if KeyLess(key(s[1]), key(s[0])) {
          KeyLessTransitive(key(s[0]), key(s[1]), key(s[0]));
          LessIrreflexive(key(s[0]).name);
        }
      }
      assert s == [s[0]] + s[1..];
    }
  }

  /** An ascending list is determined by its elements. */
  lemma {:induction false} AscendingUnique<T(!new)>(key: T -> Key, a: seq<T>, b: seq<T>)
    requires Ascending(key, a) && Ascending(key, b)
    requires forall e :: e in a <==> e in b
    ensures a == b
  {
    assert b != [] ==> b[0] in b;
    if a != [] {
      assert a[0] in a && a[0] in b;
      HeadLeast(key, a, b[0]);
      HeadLeast(key, b, a[0]);
      NotBoth(key(a[0]), key(b[0]));
      TailWithin(key, a, b);
      TailWithin(key, b, a);
      AscendingUnique(key, a[1..], b[1..]);
      assert a == [a[0]] + a[1..] && b == [b[0]] + b[1..];
    }
  }

  lemma HeadLeast<T(!new)>(key: T -> Key, a: seq<T>, e: T)
    requires Ascending(key, a) && e in a
    ensures e == a[0] || KeyLess(key(a[0]), key(e))
  {
    var i :| 0 <= i < |a| && a[i] == e;
  }

  lemma NotBoth(x: Key, y: Key)
    ensures !(KeyLess(x, y) && KeyLess(y, x))
  {
    if KeyLess(x, y) && KeyLess(y, x) {
      KeyLessTransitive(x, y, x);
    }
    LessIrreflexive(x.name);
  }

  lemma TailWithin<T(!new)>(key: T -> Key, a: seq<T>, b: seq<T>)
    requires a != [] && b != [] && a[0] == b[0] && Ascending(key, a) && (forall e :: e in a ==> e in b)
    ensures forall e :: e in a[1..] ==> e in b[1..]
  {
    forall e | e in a[1..] ensures e in b[1..] {
      var i :| 0 <= i < |a[1..]| && a[1..][i] == e;
      assert KeyLess(key(a[0]), key(a[i + 1]));
      NotBoth(key(a[0]), key(a[i + 1]));
      assert b == [b[0]] + b[1..] && e in b;
    }
  }

  /** Go's strings.TrimSpace(s) == "": nothing but white space. */
  predicate Blank(s: string)
  {
    forall i :: 0 <= i < |s| ==> IsSpace(s[i])
  }

  predicate IsSpace(c: char)
  {
    || '\t' <= c <= '\r' || c == ' '
    || c == '\U{85}' || c == '\U{A0}' || c == '\U{1680}' || '\U{2000}' <= c <= '\U{200A}'
    || c == '\U{2028}' || c == '\U{2029}' || c == '\U{202F}' || c == '\U{205F}' || c == '\U{3000}'
  }

  /** The byte length of a string in UTF-8, which is what Go's len counts. */
  function ByteLen(s: string): nat
  {
    if s == "" then 0
    else
      (if s[0] < '\U{80}' then 1 else if s[0] < '\U{800}' then 2 else if s[0] < '\U{10000}' then 3 else 4)
      + ByteLen(s[1..])
  }
}
