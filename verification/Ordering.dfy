/**
  Strings in their order, and sequences sorted by a string key.
 */
module Ordering {
  /** String order: first difference decides, a proper prefix comes first. */
  predicate Before(a: string, b: string) {
    b != [] && (a == [] || a[0] < b[0] || (a[0] == b[0] && Before(a[1..], b[1..])))
  }

  /** `b` goes on where `a` ends, or is larger where they first differ. */
  ghost predicate Precedes(a: string, b: string) {
    (|a| < |b| && a == b[..|a|]) || exists k :: 0 <= k < |a| && k < |b| && a[..k] == b[..k] && a[k] < b[k]
  }

  lemma {:induction false} BeforeMeansPrecedes(a: string, b: string)
    ensures Before(a, b) <==> Precedes(a, b)
  {
    if a == [] || b == [] {
      assert a == [] ==> b[..0] == a;
    } else if a[0] == b[0] {
      BeforeMeansPrecedes(a[1..], b[1..]);
      if Precedes(a[1..], b[1..]) { PrecedesWithHead(a, b); }
      if Precedes(a, b) { PrecedesWithoutHead(a, b); }
    } else if a[0] < b[0] {
      assert a[..0] == b[..0];
    } else {
      forall k | 0 < k < |a| && k < |b| ensures a[..k] != b[..k] {
        assert a[..k][0] == a[0] && b[..k][0] == b[0];
      }
    }
  }

  lemma PrecedesWithHead(a: string, b: string)
    requires a != [] && b != [] && a[0] == b[0] && Precedes(a[1..], b[1..])
    ensures Precedes(a, b)
  {
    var u, v := a[1..], b[1..];
    assert a == [a[0]] + u && b == [b[0]] + v;
    if !(|u| < |v| && u == v[..|u|]) {
      var k :| 0 <= k < |u| && k < |v| && u[..k] == v[..k] && u[k] < v[k];
      assert a[..k + 1] == [a[0]] + u[..k] && b[..k + 1] == [b[0]] + v[..k];
      assert a[k + 1] < b[k + 1];
    } else {
      assert b[..|a|] == [b[0]] + v[..|u|];
    }
  }

  lemma PrecedesWithoutHead(a: string, b: string)
    requires a != [] && b != [] && a[0] == b[0] && Precedes(a, b)
    ensures Precedes(a[1..], b[1..])
  {
    var u, v := a[1..], b[1..];
    if !(|a| < |b| && a == b[..|a|]) {
      var k :| 0 <= k < |a| && k < |b| && a[..k] == b[..k] && a[k] < b[k];
      assert u[..k - 1] == a[..k][1..] && v[..k - 1] == b[..k][1..];
      assert u[k - 1] < v[k - 1];
    } else {
      assert v[..|u|] == b[..|a|][1..];
    }
  }

  lemma {:induction false} BeforeIsStrictOrder(a: string, b: string, c: string)
    ensures !Before(a, a)
    ensures Before(a, b) && Before(b, c) ==> Before(a, c)
    ensures Before(a, b) || a == b || Before(b, a)
  {
    if a != [] {
      if b != [] && c != [] {
        BeforeIsStrictOrder(a[1..], b[1..], c[1..]);
        assert a[0] == b[0] && a[1..] == b[1..] ==> a == b by {
          assert a == [a[0]] + a[1..] && b == [b[0]] + b[1..];
        }
      } else if b != [] {
        BeforeIsStrictOrder(a[1..], b[1..], []);
        assert a[0] == b[0] && a[1..] == b[1..] ==> a == b by {
          assert a == [a[0]] + a[1..] && b == [b[0]] + b[1..];
        }
      } else {
        BeforeIsStrictOrder(a[1..], [], []);
      }
    }
  }

  /** Keys never go down. */
  ghost predicate Sorted<T>(s: seq<T>, key: T -> string) {
    forall i, j :: 0 <= i < j < |s| ==> !Before(key(s[j]), key(s[i]))
  }

  /** Put `x` in front of the first element whose key is not smaller. */
  function Insert<T>(x: T, s: seq<T>, key: T -> string): (r: seq<T>)
    requires Sorted(s, key)
    ensures Sorted(r, key) && multiset(r) == multiset(s) + multiset{x}
  {
    if s == [] then [x]
    else if Before(key(s[0]), key(x)) then
      var rest := Insert(x, s[1..], key);
      assert s == [s[0]] + s[1..];
      InsertKeepsHead(x, s, rest, key);
      [s[0]] + rest
    else
      InsertAtFront(x, s, key);
      [x] + s
  }

  lemma InsertKeepsHead<T>(x: T, s: seq<T>, rest: seq<T>, key: T -> string)
    requires s != [] && Sorted(s, key) && Before(key(s[0]), key(x)) && Sorted(rest, key)
    requires multiset(rest) == multiset(s[1..]) + multiset{x}
    ensures Sorted([s[0]] + rest, key)
  {
    forall j | 0 <= j < |rest| ensures !Before(key(rest[j]), key(s[0])) {
      assert rest[j] in multiset(rest);
      if rest[j] == x {
        BeforeIsStrictOrder(key(x), key(s[0]), key(x));
      } else {
        assert rest[j] in s[1..];
      }
    }
  }

  lemma InsertAtFront<T>(x: T, s: seq<T>, key: T -> string)
    requires s != [] && Sorted(s, key) && !Before(key(s[0]), key(x))
    ensures Sorted([x] + s, key)
  {
    forall j | 0 <= j < |s| ensures !Before(key(s[j]), key(x)) {
      BeforeIsStrictOrder(key(s[j]), key(x), key(s[0]));
      BeforeIsStrictOrder(key(x), key(s[0]), key(s[j]));
    }
  }

  function Sort<T>(s: seq<T>, key: T -> string): (r: seq<T>)
    ensures Sorted(r, key) && multiset(r) == multiset(s)
  {
    if s == [] then []
    else
      assert s == [s[0]] + s[1..];
      Insert(s[0], Sort(s[1..], key), key)
  }

  /** Different elements have different keys. */
  ghost predicate Distinguishes<T>(key: T -> string, s: seq<T>) {
    forall i, j :: 0 <= i < |s| && 0 <= j < |s| && key(s[i]) == key(s[j]) ==> s[i] == s[j]
  }

  lemma SameLength<T>(a: seq<T>, b: seq<T>)
    requires multiset(a) == multiset(b)
    ensures |a| == |b|
  {
    assert |multiset(a)| == |multiset(b)|;
  }

  /** Sorting the same elements puts the same one first, and leaves the same elements. */
  lemma HeadsAgree<T>(a: seq<T>, b: seq<T>, key: T -> string)
    requires Sorted(a, key) && Sorted(b, key) && multiset(a) == multiset(b) && a != [] && b != []
    requires Distinguishes(key, a)
    ensures a[0] == b[0] && multiset(a[1..]) == multiset(b[1..])
  {
    assert a[0] in multiset(b) && b[0] in multiset(a);
    var i :| 0 <= i < |a| && a[i] == b[0];
    var j :| 0 <= j < |b| && b[j] == a[0];
    BeforeIsStrictOrder(key(a[0]), key(b[0]), key(a[0]));
    assert i > 0 ==> !Before(key(b[0]), key(a[0]));
    assert j > 0 ==> !Before(key(a[0]), key(b[0]));
    assert key(a[0]) == key(a[i]);
    TailElements(a);
    TailElements(b);
  }

  lemma TailElements<T>(s: seq<T>)
    requires s != []
    ensures multiset(s[1..]) == multiset(s) - multiset{s[0]}
  {
    assert s == [s[0]] + s[1..];
  }

  lemma TailIsSorted<T>(s: seq<T>, key: T -> string)
    requires Sorted(s, key) && Distinguishes(key, s) && s != []
    ensures Sorted(s[1..], key) && Distinguishes(key, s[1..])
  {
    var t := s[1..];
    forall i, j | 0 <= i < |t| && 0 <= j < |t| && key(t[i]) == key(t[j]) ensures t[i] == t[j] {
      assert t[i] == s[i + 1] && t[j] == s[j + 1];
    }
  }

  lemma SameElementsAreDistinguished<T>(a: seq<T>, b: seq<T>, key: T -> string)
    requires multiset(a) == multiset(b) && Distinguishes(key, a)
    ensures Distinguishes(key, b)
  {
    forall i, j | 0 <= i < |b| && 0 <= j < |b| && key(b[i]) == key(b[j]) ensures b[i] == b[j] {
      assert b[i] in multiset(a) && b[j] in multiset(a);
      var k :| 0 <= k < |a| && a[k] == b[i];
      var l :| 0 <= l < |a| && a[l] == b[j];
    }
  }

  /** There is only one way to sort. */
  lemma {:induction false} SortedIsUnique<T>(a: seq<T>, b: seq<T>, key: T -> string)
    requires Sorted(a, key) && Sorted(b, key) && multiset(a) == multiset(b) && Distinguishes(key, a)
    ensures a == b
  {
    SameLength(a, b);
    if a != [] {
      HeadsAgree(a, b, key);
      SameElementsAreDistinguished(a, b, key);
      TailIsSorted(a, key);
      TailIsSorted(b, key);
      SortedIsUnique(a[1..], b[1..], key);
      HeadAndTail(a, b);
    }
  }

  lemma HeadAndTail<T>(a: seq<T>, b: seq<T>)
    requires a != [] && b != [] && a[0] == b[0] && a[1..] == b[1..]
    ensures a == b
  {
    assert a == [a[0]] + a[1..] && b == [b[0]] + b[1..];
  }
}
