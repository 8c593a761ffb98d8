/** Python's `sorted` as the REST API uses it: interfaces by port number and
    flows by id. Both keys are index components (an int port number, a str
    flow id), so one order on `KeyPart` serves both. */
module Sorting {
  import opened Base

  /** Python's `a <= b` on str: code point by code point, a proper prefix
      first. */
  predicate StrLe(a: string, b: string)
    decreases |a|
  {
    |a| == 0 || (|b| > 0 && (a[0] < b[0] || (a[0] == b[0] && StrLe(a[1..], b[1..]))))
  }

  lemma {:induction false} StrLeTotal(a: string, b: string)
    ensures StrLe(a, b) || StrLe(b, a)
    decreases |a|
  {
    if |a| > 0 && |b| > 0 && a[0] == b[0] {
      StrLeTotal(a[1..], b[1..]);
    }
  }

  lemma {:induction false} StrLeTrans(a: string, b: string, c: string)
    requires StrLe(a, b) && StrLe(b, c)
    ensures StrLe(a, c)
    decreases |a|
  {
    if |a| > 0 && a[0] == b[0] && b[0] == c[0] {
      StrLeTrans(a[1..], b[1..], c[1..]);
    }
  }

  /** `<=` on index components of the same type. The source never compares
      an int with a str (that would raise TypeError); ints are put first. */
  predicate KeyLe(a: KeyPart, b: KeyPart)
  {
    match (a, b)
    case (KInt(x), KInt(y)) => x <= y
    case (KStr(x), KStr(y)) => StrLe(x, y)
    case (KInt(_), KStr(_)) => true
    case (KStr(_), KInt(_)) => false
  }

  lemma KeyLeTotal(a: KeyPart, b: KeyPart)
    ensures KeyLe(a, b) || KeyLe(b, a)
  {
    if a.KStr? && b.KStr? {
      StrLeTotal(a.s, b.s);
    }
  }

  lemma KeyLeTrans(a: KeyPart, b: KeyPart, c: KeyPart)
    requires KeyLe(a, b) && KeyLe(b, c)
    ensures KeyLe(a, c)
  {
    if a.KStr? && b.KStr? && c.KStr? {
      StrLeTrans(a.s, b.s, c.s);
    }
  }

  /** Every element's key is at most its successor's. */
  predicate SortedBy<T>(s: seq<T>, key: T -> KeyPart)
  {
    forall i :: 0 <= i < |s| - 1 ==> KeyLe(key(s[i]), key(s[i + 1]))
  }

  /** Puts `x` in front of the first element whose key is not below it. */
  function Insert<T(==)>(x: T, s: seq<T>, key: T -> KeyPart): (r: seq<T>)
    requires SortedBy(s, key)
    ensures SortedBy(r, key)
    ensures multiset(r) == multiset(s) + multiset{x}
    ensures |r| > 0 && (r[0] == x || (|s| > 0 && r[0] == s[0]))
  {
    if |s| == 0 || KeyLe(key(x), key(s[0])) then
      assert ([x] + s)[1..] == s;
      [x] + s
    else
      var rest := Insert(x, s[1..], key);
      KeyLeTotal(key(x), key(s[0]));
      assert [s[0]] + s[1..] == s;
      [s[0]] + rest
  }

  /** `sorted(s, key=key)`: the same elements, in key order. Like Python's
      sort it is stable (an element goes in front of the first one whose key
      is not below its own), though that is not stated here. */
  function Sort<T(==)>(s: seq<T>, key: T -> KeyPart): (r: seq<T>)
    ensures SortedBy(r, key)
    ensures multiset(r) == multiset(s)
    ensures |r| == |s|
  {
    if |s| == 0 then []
    else
      var r := Insert(s[0], Sort(s[1..], key), key);
      assert [s[0]] + s[1..] == s;
      assert multiset(r) == multiset(s);
      r
  }

  /** `[f(x) for x in s]`. */
  function Project<A, B>(s: seq<A>, f: A -> B): (r: seq<B>)
    ensures |r| == |s|
  {
    seq(|s|, i requires 0 <= i < |s| => f(s[i]))
  }

  /** The `i`-th projected element is `f` of the `i`-th element. */
  lemma ProjectAt<A, B>(s: seq<A>, f: A -> B, i: nat)
    requires i < |s|
    ensures Project(s, f)[i] == f(s[i])
  {
  }

  /** Projection distributes over concatenation. */
  lemma ProjectAppend<A, B>(u: seq<A>, v: seq<A>, f: A -> B)
    ensures Project(u + v, f) == Project(u, f) + Project(v, f)
  {
  }

  /** Removing position `j` takes one `b[j]` out of the multiset. */
  lemma RemoveAt<A>(b: seq<A>, j: nat)
    requires j < |b|
    ensures multiset(b[..j] + b[j + 1..]) == multiset(b) - multiset{b[j]}
  {
    assert b == b[..j] + [b[j]] + b[j + 1..];
  }

  /** Removing position `j` before projecting takes one `f(b[j])` out of
      the projection's multiset. */
  lemma ProjectRemoveAt<A, B>(b: seq<A>, j: nat, f: A -> B)
    requires j < |b|
    ensures multiset(Project(b, f)) == multiset(Project(b[..j] + b[j + 1..], f)) + multiset{f(b[j])}
  {
    var u, v := b[..j], b[j + 1..];
    var pu, pv := Project(u, f), Project(v, f);
    assert Project(b, f) == pu + ([f(b[j])] + pv) by {
      assert b == u + ([b[j]] + v);
      ProjectAppend(u, [b[j]] + v, f);
      ProjectAppend([b[j]], v, f);
    }
    assert Project(u + v, f) == pu + pv by {
      ProjectAppend(u, v, f);
    }
  }

  /** ProjectRemoveAt at the front. */
  lemma ProjectRemoveFirst<A, B>(a: seq<A>, f: A -> B)
    requires |a| > 0
    ensures multiset(Project(a, f)) == multiset(Project(a[1..], f)) + multiset{f(a[0])}
  {
    assert a == [a[0]] + a[1..];
    ProjectAppend([a[0]], a[1..], f);
  }

  /** The first element of `a` sits somewhere in a permutation `b` of it;
      the rests without it are again permutations of each other. */
  lemma MatchFirst<A>(a: seq<A>, b: seq<A>) returns (j: nat)
    requires |a| > 0 && multiset(a) == multiset(b)
    ensures j < |b| && b[j] == a[0]
    ensures multiset(a[1..]) == multiset(b[..j] + b[j + 1..])
  {
    assert a[0] in multiset(b);
    j :| 0 <= j < |b| && b[j] == a[0];
    RemoveAt(b, j);
    RemoveAt(a, 0);
    assert a[..0] + a[1..] == a[1..];
  }

  /** Projecting two permutations of each other gives permutations of each
      other: reordering commutes with taking a field. */
  lemma {:induction false} ProjectPermutation<A, B>(a: seq<A>, b: seq<A>, f: A -> B)
    requires multiset(a) == multiset(b)
    ensures multiset(Project(a, f)) == multiset(Project(b, f))
    decreases |a|
  {
    if |a| == 0 {
      assert |multiset(b)| == 0;
    } else {
      var j := MatchFirst(a, b);
      var a', b' := a[1..], b[..j] + b[j + 1..];
      ProjectPermutation(a', b', f);
      ProjectRemoveFirst(a, f);
      ProjectRemoveAt(b, j, f);
    }
  }

  /** A sorted sequence is ordered between any two positions, not only
      between neighbours. */
  lemma {:induction false} SortedByPairs<T>(s: seq<T>, key: T -> KeyPart, i: nat, j: nat)
    requires SortedBy(s, key) && i <= j < |s|
    ensures KeyLe(key(s[i]), key(s[j]))
    decreases j - i
  {
    if i == j {
      KeyLeTotal(key(s[i]), key(s[i]));
    } else {
      SortedByPairs(s, key, i + 1, j);
      KeyLeTrans(key(s[i]), key(s[i + 1]), key(s[j]));
    }
  }
}
