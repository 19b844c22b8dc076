/** String helpers shared by the codecs: ASCII lower-casing and byte-wise ordering. */
module Text {

  /** strings.ToLower on one character; only ASCII letters change. */
  function LowerChar(c: char): char
  {
    if 'A' <= c <= 'Z' then (c as int + 32) as char else c
  }

  /** strings.ToLower, restricted to ASCII case mapping. */
  function Lower(s: string): (r: string)
    ensures |r| == |s|
    ensures forall i :: 0 <= i < |s| ==> r[i] == LowerChar(s[i])
  {
    seq(|s|, i requires 0 <= i < |s| => LowerChar(s[i]))
  }

  /** The order sort.Strings and encoding/json's map-key sorting use: lexicographic,
      element by element (code-point order equals UTF-8 byte order). */
  predicate LessOrEqual(a: string, b: string)
  {
    if a == [] then true
    else if b == [] then false
    else if a[0] != b[0] then a[0] < b[0]
    else LessOrEqual(a[1..], b[1..])
  }

  lemma {:induction false} LessOrEqualTotal(a: string, b: string)
    ensures LessOrEqual(a, b) || LessOrEqual(b, a)
  {
    if a != [] && b != [] && a[0] == b[0] {
      LessOrEqualTotal(a[1..], b[1..]);
    }
  }

  lemma {:induction false} LessOrEqualTransitive(a: string, b: string, c: string)
    requires LessOrEqual(a, b) && LessOrEqual(b, c)
    ensures LessOrEqual(a, c)
  {
    if a != [] && b != [] && c != [] && a[0] == b[0] && b[0] == c[0] {
      LessOrEqualTransitive(a[1..], b[1..], c[1..]);
    }
  }

  lemma {:induction false} LessOrEqualAntisymmetric(a: string, b: string)
    requires LessOrEqual(a, b) && LessOrEqual(b, a)
    ensures a == b
  {
    if a != [] && b != [] {
      LessOrEqualAntisymmetric(a[1..], b[1..]);
      assert a == [a[0]] + a[1..] && b == [b[0]] + b[1..];
    }
  }

  /** Every non-empty finite set of strings has a greatest element. */
  lemma {:induction false} GreatestExists(keys: set<string>)
    requires keys != {}
    ensures exists k :: k in keys && forall j :: j in keys ==> LessOrEqual(j, k)
  {
    var x :| x in keys;
    if keys == {x} {
      assert forall j :: j in keys ==> j == x;
      LessOrEqualTotal(x, x);
    } else {
      var rest := keys - {x};
      GreatestExists(rest);
      var k :| k in rest && forall j :: j in rest ==> LessOrEqual(j, k);
      LessOrEqualTotal(x, k);
      if LessOrEqual(x, k) {
        assert forall j :: j in keys ==> LessOrEqual(j, k);
      } else {
        forall j | j in keys
          ensures LessOrEqual(j, x)
        {
          if j != x {
            LessOrEqualTransitive(j, k, x);
          } else {
            LessOrEqualTotal(x, x);
          }
        }
      }
    }
  }

  /** The greatest key of a non-empty set of strings. */
  ghost function Greatest(keys: set<string>): (k: string)
    requires keys != {}
    ensures k in keys
    ensures forall j :: j in keys ==> LessOrEqual(j, k)
  {
    GreatestExists(keys);
    var k :| k in keys && forall j :: j in keys ==> LessOrEqual(j, k);
    k
  }

  // ---------------------------------------------------------------------------
  // sort.Strings

  predicate Sorted(s: seq<string>)
  {
    forall i, j :: 0 <= i < j < |s| ==> LessOrEqual(s[i], s[j])
  }

  /** `x` placed before the first element it does not exceed. */
  function Insert(x: string, s: seq<string>): (r: seq<string>)
    requires Sorted(s)
    ensures Sorted(r)
    ensures multiset(r) == multiset(s) + multiset{x}
    ensures |r| == |s| + 1
  {
    if s == [] then [x]
    else if LessOrEqual(x, s[0]) then
      InsertFront(x, s);
      [x] + s
    else
      var t := Insert(x, s[1..]);
      assert s == [s[0]] + s[1..];
      LessOrEqualTotal(x, s[0]);
      BoundAll(s[0], t, s[1..], x);
      InsertBehind(s[0], t);
      [s[0]] + t
  }

  lemma InsertFront(x: string, s: seq<string>)
    requires Sorted(s) && s != [] && LessOrEqual(x, s[0])
    ensures Sorted([x] + s)
  {
    forall i, j | 0 <= i < j < |[x] + s|
      ensures LessOrEqual(([x] + s)[i], ([x] + s)[j])
    {
      if i == 0 && j > 1 {
        LessOrEqualTransitive(x, s[0], s[j - 1]);
      }
    }
  }

  lemma InsertBehind(y: string, t: seq<string>)
    requires Sorted(t) && forall k :: 0 <= k < |t| ==> LessOrEqual(y, t[k])
    ensures Sorted([y] + t)
  {
    assert forall k :: 0 < k < |[y] + t| ==> ([y] + t)[k] == t[k - 1];
  }

  /** A lower bound of `x` and of every element of `s` bounds every element of `t`. */
  lemma BoundAll(y: string, t: seq<string>, s: seq<string>, x: string)
    requires multiset(t) == multiset(s) + multiset{x}
    requires LessOrEqual(y, x) && forall k :: 0 <= k < |s| ==> LessOrEqual(y, s[k])
    ensures forall k :: 0 <= k < |t| ==> LessOrEqual(y, t[k])
  {
    forall k | 0 <= k < |t|
      ensures LessOrEqual(y, t[k])
    {
      assert t[k] in multiset(t);
      if t[k] != x {
        assert t[k] in multiset(s);
        var m :| 0 <= m < |s| && s[m] == t[k];
      }
    }
  }

  /** sort.Strings as a function: insertion sort. */
  function Sort(s: seq<string>): (r: seq<string>)
    ensures Sorted(r)
    ensures multiset(r) == multiset(s)
    ensures |r| == |s|
  {
    if s == [] then []
    else
      assert s == [s[0]] + s[1..];
      Insert(s[0], Sort(s[1..]))
  }

  /** A sorted arrangement of a multiset of strings is unique, so sort.Strings
      leaves exactly Sort's result whatever algorithm it uses. */
  lemma {:induction false} SortedUnique(a: seq<string>, b: seq<string>)
    requires Sorted(a) && Sorted(b) && multiset(a) == multiset(b)
    ensures a == b
  {
    if a != [] {
      assert a[0] in multiset(b);
      SmallestFirst(a, b);
      SmallestFirst(b, a);
      LessOrEqualAntisymmetric(a[0], b[0]);
      SameTail(a, b);
      SortedTail(a);
      SortedTail(b);
      SortedUnique(a[1..], b[1..]);
    }
  }

  lemma SameTail(a: seq<string>, b: seq<string>)
    requires a != [] && b != [] && a[0] == b[0] && multiset(a) == multiset(b)
    ensures multiset(a[1..]) == multiset(b[1..])
  {
    assert a == [a[0]] + a[1..] && b == [b[0]] + b[1..];
    assert multiset(a[1..]) == multiset(a) - multiset{a[0]};
    assert multiset(b[1..]) == multiset(b) - multiset{b[0]};
  }

  lemma SortedTail(a: seq<string>)
    requires Sorted(a) && a != []
    ensures Sorted(a[1..])
  {
    assert forall k :: 0 <= k < |a| - 1 ==> a[1..][k] == a[k + 1];
  }

  /** The head of a sorted non-empty sequence is no greater than the head of
      any arrangement of the same elements. */
  lemma SmallestFirst(a: seq<string>, b: seq<string>)
    requires Sorted(a) && a != [] && b != [] && multiset(a) == multiset(b)
    ensures LessOrEqual(a[0], b[0])
  {
    assert b[0] in multiset(a);
    var j :| 0 <= j < |a| && a[j] == b[0];
    if j == 0 {
      LessOrEqualTotal(a[0], b[0]);
    }
  }

  // ---------------------------------------------------------------------------
  // Map keys in the order encoding/json writes them

  /** The keys of a map, in increasing order (SortedKeysOrdered), each once. */
  ghost function SortedKeys(ks: set<string>): (r: seq<string>)
    ensures |r| == |ks|
    ensures forall k :: k in r <==> k in ks
    decreases |ks|
  {
    if ks == {} then []
    else
      var g := Greatest(ks);
      SortedKeys(ks - {g}) + [g]
  }

  lemma {:induction false} SortedKeysOrdered(ks: set<string>)
    ensures Sorted(SortedKeys(ks))
    decreases |ks|
  {
    if ks != {} {
      var g := Greatest(ks);
      var rest := SortedKeys(ks - {g});
      SortedKeysOrdered(ks - {g});
      forall i | 0 <= i < |rest|
        ensures LessOrEqual(rest[i], g)
      {
        assert rest[i] in rest;
      }
      AppendGreatest(rest, g);
    }
  }

  lemma AppendGreatest(s: seq<string>, g: string)
    requires Sorted(s) && forall i :: 0 <= i < |s| ==> LessOrEqual(s[i], g)
    ensures Sorted(s + [g])
  {
    LessOrEqualTotal(g, g);
  }
}
