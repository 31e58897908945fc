/** Python's order on text and tuples, and the sorted listing of a finite set of keys. */
module TextOrder {
  import opened Common

  /** Code point by code point; a prefix comes first. */
  predicate TextLe(a: string, b: string) {
    a == "" || (b != "" && (a[0] < b[0] || (a[0] == b[0] && TextLe(a[1..], b[1..]))))
  }

  lemma {:induction false} TextTotal(a: string, b: string)
    ensures TextLe(a, b) || TextLe(b, a)
  {
    if a != "" && b != "" { TextTotal(a[1..], b[1..]); }
  }

  lemma {:induction false} TextTransitive(a: string, b: string, c: string)
    requires TextLe(a, b) && TextLe(b, c)
    ensures TextLe(a, c)
  {
    if a != "" && a[0] == b[0] == c[0] { TextTransitive(a[1..], b[1..], c[1..]); }
  }

  lemma {:induction false} TextAntisymmetric(a: string, b: string)
    requires TextLe(a, b) && TextLe(b, a)
    ensures a == b
  {
    if a != "" {
      TextAntisymmetric(a[1..], b[1..]);
      assert a == [a[0]] + a[1..] && b == [b[0]] + b[1..];
    }
  }

  lemma TextLeIsTotal()
    ensures TotalPreorder(TextLe)
  {
    forall a, b ensures TextLe(a, b) || TextLe(b, a) { TextTotal(a, b); }
    forall a, b, c | TextLe(a, b) && TextLe(b, c) ensures TextLe(a, c) { TextTransitive(a, b, c); }
  }

  ghost predicate NoDuplicates<T>(s: seq<T>) {
    forall i, j :: 0 <= i < j < |s| ==> s[i] != s[j]
  }

  lemma {:induction false} CountedOnce<T>(s: seq<T>, x: T)
    requires NoDuplicates(s)
    ensures multiset(s)[x] <= 1
  {
    if s != [] {
      var n := |s| - 1;
      assert s == s[..n] + [s[n]];
      assert multiset(s) == multiset(s[..n]) + multiset{s[n]};
      CountedOnce(s[..n], x);
      if x == s[n] {
        assert x !in s[..n];
        assert x !in multiset(s[..n]);
      }
    }
  }

  lemma ReorderingKeepsNoDuplicates<T>(s: seq<T>, t: seq<T>)
    requires NoDuplicates(s) && multiset(s) == multiset(t)
    ensures NoDuplicates(t)
  {
    forall i, j | 0 <= i < j < |t| ensures t[i] != t[j] {
      CountedOnce(s, t[i]);
      var front := t[..j];
      assert t == (front + [t[j]]) + t[j + 1..];
      assert multiset(t) == multiset(front) + multiset{t[j]} + multiset(t[j + 1..]);
      assert front[i] == t[i];
      assert t[i] in multiset(front);
    }
  }

  /** sorted(keys) for a dictionary's keys. */
  method SortKeys<K(==,!new)>(keys: set<K>, le: (K, K) -> bool) returns (s: seq<K>)
    requires TotalPreorder(le)
    ensures SortedBy(le, s) && NoDuplicates(s)
    ensures forall x :: x in s <==> x in keys
  {
    var rest, listed := keys, [];
    while rest != {}
      invariant rest <= keys && NoDuplicates(listed)
      invariant forall x :: x in listed <==> x in keys - rest
      decreases |rest|
    {
      var x :| x in rest;
      assert x !in listed;
      listed, rest := listed + [x], rest - {x};
    }
    s := SortBy(listed, le);
    SortByCorrect(listed, le);
    ReorderingKeepsNoDuplicates(listed, s);
  }
}
