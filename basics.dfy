/** Shared vocabulary: optional values and failures, Python's string order and
    `sorted(set(...))`, `", ".join(...)`, and an insertion-ordered dictionary. */
module Basics {

  datatype Option<+T> = None | Some(value: T)

  datatype Result<+R, +E> = Success(value: R) | Failure(error: E)

  /** Python truthiness of an optional string: present and not empty. */
  predicate Truthy(o: Option<string>)
  {
    o.Some? && o.value != ""
  }

  /** Python truthiness of an optional integer: present and not zero. */
  predicate TruthyInt(o: Option<int>)
  {
    o.Some? && o.value != 0
  }

  /** `sep.join(parts)` */
  function Join(parts: seq<string>, sep: string): string
  {
    if |parts| == 0 then ""
    else if |parts| == 1 then parts[0]
    else parts[0] + sep + Join(parts[1..], sep)
  }

  /** Appending one part to a joined list adds one separator and that part. */
  lemma {:induction false} JoinSnoc(parts: seq<string>, x: string, sep: string)
    ensures Join(parts + [x], sep) == if parts == [] then x else Join(parts, sep) + sep + x
  {
    if |parts| == 0 {
      assert parts + [x] == [x];
    } else if |parts| == 1 {
      assert (parts + [x])[1..] == [x];
    } else {
      assert (parts + [x])[1..] == parts[1..] + [x];
      JoinSnoc(parts[1..], x, sep);
    }
  }

  /** The elements of a list, as a set: `set(r)` */
  function Elems<T(==, !new)>(r: seq<T>): (s: set<T>)
    ensures forall x :: x in s <==> x in r
    ensures s == {} <==> r == []
  {
    assert r != [] ==> r[0] in r;
    set x | x in r
  }

  lemma ElemsSnoc<T(!new)>(r: seq<T>, x: T)
    ensures Elems(r + [x]) == Elems(r) + {x}
  {
    forall y ensures y in Elems(r + [x]) <==> y in Elems(r) + {x} {
      assert y in r + [x] <==> y in r || y == x;
    }
  }

  predicate StartsWith(s: string, prefix: string)
  {
    |prefix| <= |s| && s[..|prefix|] == prefix
  }

  // ---------------------------------------------------------------------------
  // Orders and sorting

  /** Python's `a <= b` on `str`: code-point lexicographic order in which a
      proper prefix comes first. */
  predicate Below(a: string, b: string)
  {
    |a| == 0 || (|b| > 0 && (a[0] < b[0] || (a[0] == b[0] && Below(a[1..], b[1..]))))
  }

  ghost predicate TotalOrder<T(!new)>(leq: (T, T) -> bool)
  {
    && (forall a, b :: leq(a, b) && leq(b, a) ==> a == b)
    && (forall a, b, c :: leq(a, b) && leq(b, c) ==> leq(a, c))
    && (forall a, b :: leq(a, b) || leq(b, a))
  }

  lemma {:induction false} BelowTotal(a: string, b: string)
    ensures Below(a, b) || Below(b, a)
    decreases |a|
  {
    if |a| > 0 && |b| > 0 && a[0] == b[0] {
      BelowTotal(a[1..], b[1..]);
    }
  }

  lemma {:induction false} BelowAntisymmetric(a: string, b: string)
    requires Below(a, b) && Below(b, a)
    ensures a == b
    decreases |a|
  {
    if |a| > 0 {
      BelowAntisymmetric(a[1..], b[1..]);
      assert a == [a[0]] + a[1..] && b == [b[0]] + b[1..];
    }
  }

  lemma {:induction false} BelowTransitive(a: string, b: string, c: string)
    requires Below(a, b) && Below(b, c)
    ensures Below(a, c)
    decreases |a|
  {
    if |a| > 0 && a[0] == b[0] && b[0] == c[0] {
      BelowTransitive(a[1..], b[1..], c[1..]);
    }
  }

  /** Python's order on strings is a total order, so `sorted` is well defined. */
  lemma BelowIsTotalOrder()
    ensures TotalOrder(Below)
  {
    forall a, b | Below(a, b) && Below(b, a) ensures a == b {
      BelowAntisymmetric(a, b);
    }
    forall a, b, c | Below(a, b) && Below(b, c) ensures Below(a, c) {
      BelowTransitive(a, b, c);
    }
    forall a, b ensures Below(a, b) || Below(b, a) {
      BelowTotal(a, b);
    }
  }

  predicate IsLeast<T(==)>(leq: (T, T) -> bool, m: T, s: set<T>)
  {
    m in s && forall y | y in s :: leq(m, y)
  }

  lemma {:induction false} LeastExists<T(!new)>(s: set<T>, leq: (T, T) -> bool)
    requires s != {} && TotalOrder(leq)
    ensures exists m :: IsLeast(leq, m, s)
    decreases s
  {
    var x :| x in s;
    if s == {x} {
      assert leq(x, x);
      assert IsLeast(leq, x, s);
    } else {
      LeastExists(s - {x}, leq);
      var m :| IsLeast(leq, m, s - {x});
      if leq(m, x) {
        assert IsLeast(leq, m, s);
      } else {
        assert IsLeast(leq, x, s);
      }
    }
  }

  /** The least element of a non-empty finite set. */
  function Least<T(==, !new)>(s: set<T>, leq: (T, T) -> bool): (m: T)
    requires s != {} && TotalOrder(leq)
    ensures IsLeast(leq, m, s)
  {
    LeastExists(s, leq);
    var m :| IsLeast(leq, m, s);
    m
  }

  /** Ascending and free of duplicates. */
  predicate StrictlySorted<T(==)>(r: seq<T>, leq: (T, T) -> bool)
  {
    forall i, j | 0 <= i < j < |r| :: leq(r[i], r[j]) && r[i] != r[j]
  }

  /** `sorted(s)` for a Python set: its elements, each once, in ascending order. */
  function SortedSet<T(==, !new)>(s: set<T>, leq: (T, T) -> bool): (r: seq<T>)
    requires TotalOrder(leq)
    ensures Elems(r) == s
    ensures StrictlySorted(r, leq)
    decreases |s|
  {
    if s == {} then []
    else
      var m := Least(s, leq);
      [m] + SortedSet(s - {m}, leq)
  }

  /** `sorted(set(xs))` on strings. */
  function SortedStrings(s: set<string>): (r: seq<string>)
    ensures Elems(r) == s
    ensures StrictlySorted(r, Below)
  {
    BelowIsTotalOrder();
    SortedSet(s, Below)
  }

  /** A strictly sorted list is determined by its elements. */
  lemma {:induction false} StrictlySortedUnique<T(!new)>(r: seq<T>, q: seq<T>, leq: (T, T) -> bool)
    requires TotalOrder(leq)
    requires StrictlySorted(r, leq) && StrictlySorted(q, leq)
    requires Elems(r) == Elems(q)
    ensures r == q
    decreases |r|
  {
    if r != [] && q != [] {
      assert r[0] in Elems(q);
      assert q[0] in Elems(r);
      assert r[0] == q[0] by {
        var i :| 0 <= i < |q| && q[i] == r[0];
        var j :| 0 <= j < |r| && r[j] == q[0];
        assert leq(q[0], q[i]);
        assert leq(r[0], r[j]);
      }
      forall x ensures x in r[1..] <==> x in q[1..] {
        if x in r[1..] {
          var i :| 1 <= i < |r| && r[i] == x;
          assert x in q && x != q[0];
        }
        if x in q[1..] {
          var i :| 1 <= i < |q| && q[i] == x;
          assert x in r && x != r[0];
        }
      }
      assert Elems(r[1..]) == Elems(q[1..]);
      StrictlySortedUnique(r[1..], q[1..], leq);
      assert r == [r[0]] + r[1..] && q == [q[0]] + q[1..];
    }
  }

  // ---------------------------------------------------------------------------
  // Insertion-ordered dictionary (a Python `dict`)

  /** A Python dict: keys in insertion order, each once, with their values.
      Assigning to a present key keeps its position and replaces its value. */
  datatype Dict<K(==), V> = Dict(keys: seq<K>, entries: map<K, V>)
  {
    ghost predicate Valid()
    {
      && (forall i, j | 0 <= i < j < |keys| :: keys[i] != keys[j])
      && (forall k | k in entries :: k in keys)
      && (forall k | k in keys :: k in entries)
    }

    /** `d[k] = v` */
    function Put(k: K, v: V): (d: Dict<K, V>)
      requires Valid()
      ensures d.Valid()
      ensures d.entries == entries[k := v]
      ensures d.keys == if k in entries then keys else keys + [k]
    {
      if k in entries then Dict(keys, entries[k := v]) else Dict(keys + [k], entries[k := v])
    }

    /** `d[k] = v` for a key already present: its place is kept. */
    function Update(k: K, v: V): (d: Dict<K, V>)
      requires Valid() && k in entries
      ensures d.Valid() && d.keys == keys && d.entries == entries[k := v]
    {
      Dict(keys, entries[k := v])
    }

    /** `list(d.values())` */
    function Values(): (vs: seq<V>)
      requires Valid()
      ensures |vs| == |keys|
      ensures forall i | 0 <= i < |keys| :: vs[i] == entries[keys[i]]
    {
      seq(|keys|, i requires 0 <= i < |keys| => entries[keys[i]])
    }
  }

  function EmptyDict<K(==), V>(): (d: Dict<K, V>)
    ensures d.Valid() && d.keys == [] && d.entries == map[]
  {
    Dict([], map[])
  }
}
