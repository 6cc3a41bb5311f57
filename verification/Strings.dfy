/** Text helpers: the order `Array.prototype.sort` uses, a sort, and joining. */
module Strings {

  /** Code-point order on strings; stands for both `<` and `localeCompare`. */
  predicate LexLe(a: string, b: string)
  {
    a == "" || (b != "" && (a[0] < b[0] || (a[0] == b[0] && LexLe(a[1..], b[1..]))))
  }

  lemma {:induction false} LexTotal(a: string, b: string)
    ensures LexLe(a, b) || LexLe(b, a)
  {
    if a != "" && b != "" && a[0] == b[0] {
      LexTotal(a[1..], b[1..]);
    }
  }

  lemma {:induction false} LexTransitive(a: string, b: string, c: string)
    requires LexLe(a, b) && LexLe(b, c)
    ensures LexLe(a, c)
  {
    if a != "" && a[0] == b[0] == c[0] {
      LexTransitive(a[1..], b[1..], c[1..]);
    }
  }

  lemma {:induction false} LexAntisymmetric(a: string, b: string)
    requires LexLe(a, b) && LexLe(b, a)
    ensures a == b
  {
    if a != "" && b != "" {
      LexAntisymmetric(a[1..], b[1..]);
      assert a == [a[0]] + a[1..] && b == [b[0]] + b[1..];
    }
  }

  /** A prefix comes first, and otherwise the text with the smaller character at the first difference. */
  lemma {:induction false} LexIff(a: string, b: string)
    ensures LexLe(a, b) <==>
            exists k :: 0 <= k <= |a| && k <= |b| && a[..k] == b[..k] && (k == |a| || (k < |b| && a[k] < b[k]))
  {
    if a == "" {
      assert a[..0] == b[..0];
    } else if b != "" && a[0] == b[0] {
      LexIff(a[1..], b[1..]);
      if LexLe(a[1..], b[1..]) {
        var k :| 0 <= k <= |a| - 1 && k <= |b| - 1 && a[1..][..k] == b[1..][..k]
                 && (k == |a| - 1 || (k < |b| - 1 && a[1..][k] < b[1..][k]));
        assert a[..k + 1] == [a[0]] + a[1..][..k] && b[..k + 1] == [b[0]] + b[1..][..k];
      }
      if k :| 0 <= k <= |a| && k <= |b| && a[..k] == b[..k] && (k == |a| || (k < |b| && a[k] < b[k])) {
        assert k > 0;
        assert a[1..][..k - 1] == a[..k][1..] && b[1..][..k - 1] == b[..k][1..];
      }
    } else if b != "" {
      assert a[..0] == b[..0];
      if k :| 0 <= k <= |a| && k <= |b| && a[..k] == b[..k] && (k == |a| || (k < |b| && a[k] < b[k])) {
        assert k > 0 ==> a[..k][0] == b[..k][0];
      }
    }
  }

  /** A pair of strings under the lexicographic order of its components. */
  predicate PairLe(a: (string, string), b: (string, string))
  {
    LexLe(a.0, b.0) && (a.0 == b.0 ==> LexLe(a.1, b.1))
  }

  /** Only the first component counts. */
  predicate KeyLe(a: (string, string), b: (string, string))
  {
    LexLe(a.0, b.0)
  }

  ghost predicate TotalPreorder<T(!new)>(le: (T, T) -> bool)
  {
    && (forall a, b :: le(a, b) || le(b, a))
    && (forall a, b, c :: le(a, b) && le(b, c) ==> le(a, c))
  }

  lemma LexOrder()
    ensures TotalPreorder(LexLe)
  {
    forall a, b ensures LexLe(a, b) || LexLe(b, a) { LexTotal(a, b); }
    forall a, b, c | LexLe(a, b) && LexLe(b, c) ensures LexLe(a, c) { LexTransitive(a, b, c); }
  }

  lemma KeyOrder()
    ensures TotalPreorder(KeyLe)
  {
    LexOrder();
    forall a: (string, string), b: (string, string) ensures KeyLe(a, b) || KeyLe(b, a) {
      LexTotal(a.0, b.0);
    }
    forall a, b, c | KeyLe(a, b) && KeyLe(b, c) ensures KeyLe(a, c) { LexTransitive(a.0, b.0, c.0); }
  }

  lemma PairOrder()
    ensures TotalPreorder(PairLe)
  {
    forall a: (string, string), b: (string, string) ensures PairLe(a, b) || PairLe(b, a) {
      LexTotal(a.0, b.0);
      LexTotal(a.1, b.1);
    }
    forall a, b, c | PairLe(a, b) && PairLe(b, c) ensures PairLe(a, c) {
      LexTransitive(a.0, b.0, c.0);
      if a.0 == c.0 {
        LexAntisymmetric(a.0, b.0);
        LexTransitive(a.1, b.1, c.1);
      }
    }
  }

  function Insert<T>(le: (T, T) -> bool, x: T, s: seq<T>): (r: seq<T>)
    ensures multiset(r) == multiset{x} + multiset(s)
  {
    if s == [] then [x]
    else if le(x, s[0]) then [x] + s
    else
      assert s == [s[0]] + s[1..];
      [s[0]] + Insert(le, x, s[1..])
  }

  /** A stable sort; any stable sort computes the same sequence. */
  function Sort<T>(le: (T, T) -> bool, s: seq<T>): (r: seq<T>)
    ensures multiset(r) == multiset(s)
  {
    if s == [] then [] else
      assert s == [s[0]] + s[1..];
      Insert(le, s[0], Sort(le, s[1..]))
  }

  ghost predicate Sorted<T(!new)>(le: (T, T) -> bool, s: seq<T>)
  {
    forall i, j :: 0 <= i < j < |s| ==> le(s[i], s[j])
  }

  lemma SameLength<T>(a: seq<T>, b: seq<T>)
    requires multiset(a) == multiset(b)
    ensures |a| == |b|
  {
    assert |multiset(a)| == |a| && |multiset(b)| == |b|;
  }

  lemma SameMembers<T>(a: seq<T>, b: seq<T>)
    requires multiset(a) == multiset(b)
    ensures forall x :: x in a <==> x in b
  {
    forall x ensures x in a <==> x in b {
      assert x in a <==> x in multiset(a);
      assert x in b <==> x in multiset(b);
    }
  }

  lemma {:induction false} InsertSorted<T(!new)>(le: (T, T) -> bool, x: T, s: seq<T>)
    requires TotalPreorder(le) && Sorted(le, s)
    ensures Sorted(le, Insert(le, x, s))
  {
    if s != [] && !le(x, s[0]) {
      var rest := Insert(le, x, s[1..]);
      InsertSorted(le, x, s[1..]);
      SameMembers(rest, [x] + s[1..]);
      forall k | 0 <= k < |rest| ensures le(s[0], rest[k]) {
        assert rest[k] in [x] + s[1..];
      }
    }
  }

  lemma {:induction false} SortSorted<T(!new)>(le: (T, T) -> bool, s: seq<T>)
    requires TotalPreorder(le)
    ensures Sorted(le, Sort(le, s))
  {
    if s != [] {
      SortSorted(le, s[1..]);
      InsertSorted(le, s[0], Sort(le, s[1..]));
    }
  }

  lemma Cancel<T>(x: T, a: multiset<T>, b: multiset<T>)
    requires multiset{x} + a == multiset{x} + b
    ensures a == b
  {
    assert a == multiset{x} + a - multiset{x};
    assert b == multiset{x} + b - multiset{x};
  }

  lemma Uncons<T>(s: seq<T>)
    requires s != []
    ensures multiset(s) == multiset{s[0]} + multiset(s[1..])
  {
    assert s == [s[0]] + s[1..];
  }

  lemma Smallest<T(!new)>(le: (T, T) -> bool, s: seq<T>, x: T)
    requires Sorted(le, s) && x in s && x != s[0]
    ensures le(s[0], x)
  {
  }

  /** A sorted arrangement is unique when the order separates the members. */
  lemma {:induction false} SortedUnique<T(!new)>(le: (T, T) -> bool, a: seq<T>, b: seq<T>)
    requires multiset(a) == multiset(b) && Sorted(le, a) && Sorted(le, b)
    requires forall x, y :: x in a && y in a && le(x, y) && le(y, x) ==> x == y
    ensures a == b
  {
    SameLength(a, b);
    if a != [] {
      SameMembers(a, b);
      assert a[0] in b && b[0] in a;
      if a[0] != b[0] {
        Smallest(le, b, a[0]);
        Smallest(le, a, b[0]);
      }
      Uncons(a);
      Uncons(b);
      Cancel(a[0], multiset(a[1..]), multiset(b[1..]));
      SortedUnique(le, a[1..], b[1..]);
      assert a == [a[0]] + a[1..];
    }
  }

  lemma SortCanonical<T(!new)>(le: (T, T) -> bool, a: seq<T>, b: seq<T>)
    requires TotalPreorder(le) && multiset(a) == multiset(b)
    requires forall x, y :: x in a && y in a && le(x, y) && le(y, x) ==> x == y
    ensures Sort(le, a) == Sort(le, b)
  {
    SortSorted(le, a);
    SortSorted(le, b);
    SameMembers(Sort(le, a), a);
    SortedUnique(le, Sort(le, a), Sort(le, b));
  }

  function Join(parts: seq<string>, sep: string): string
  {
    if |parts| == 0 then ""
    else if |parts| == 1 then parts[0]
    else parts[0] + sep + Join(parts[1..], sep)
  }

  function Without<T>(s: seq<T>, j: nat): (r: seq<T>)
    requires j < |s|
    ensures |r| == |s| - 1
  {
    s[..j] + s[j + 1..]
  }

  lemma RemoveAt<T>(s: seq<T>, j: nat)
    requires j < |s|
    ensures multiset(s) == multiset{s[j]} + multiset(Without(s, j))
  {
    assert s == s[..j] + [s[j]] + s[j + 1..];
  }

  /** Two parallel columns per side: rows that agree on the first agree on the second. */
  ghost predicate RowsAgree<S(!new), T(!new)>(ta: seq<S>, na: seq<T>, tb: seq<S>, nb: seq<T>)
    requires |ta| == |na| && |tb| == |nb|
  {
    forall i, j :: 0 <= i < |ta| && 0 <= j < |tb| && ta[i] == tb[j] ==> na[i] == nb[j]
  }

  lemma OtherRowsAgree<S(!new), T(!new)>(ta: seq<S>, na: seq<T>, tb: seq<S>, nb: seq<T>, j: nat)
    requires |ta| == |na| && |tb| == |nb| && RowsAgree(ta, na, tb, nb)
    requires ta != [] && j < |tb|
    ensures RowsAgree(ta[1..], na[1..], Without(tb, j), Without(nb, j))
  {
    forall i, k | 0 <= i < |ta| - 1 && 0 <= k < |tb| - 1 && ta[1..][i] == Without(tb, j)[k]
      ensures na[1..][i] == Without(nb, j)[k]
    {
      var l := if k < j then k else k + 1;
      assert ta[i + 1] == tb[l];
    }
  }

  lemma {:induction false} Matching<S(!new), T(!new)>(ta: seq<S>, na: seq<T>, tb: seq<S>, nb: seq<T>)
    requires |ta| == |na| && |tb| == |nb| && RowsAgree(ta, na, tb, nb)
    requires multiset(ta) == multiset(tb)
    ensures multiset(na) == multiset(nb)
  {
    SameLength(ta, tb);
    if ta != [] {
      SameMembers(ta, tb);
      assert ta[0] in tb;
      var j :| 0 <= j < |tb| && tb[j] == ta[0];
      Uncons(ta);
      Uncons(na);
      RemoveAt(tb, j);
      RemoveAt(nb, j);
      Cancel(ta[0], multiset(ta[1..]), multiset(Without(tb, j)));
      OtherRowsAgree(ta, na, tb, nb, j);
      Matching(ta[1..], na[1..], Without(tb, j), Without(nb, j));
    }
  }
}
