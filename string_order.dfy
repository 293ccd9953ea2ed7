/**
 * Python's ordering of `str` values (code point by code point, a proper
 * prefix before its extensions) and the two sorts the server uses on plugin
 * names: `sorted(names)`, which keeps duplicates, and `sorted(set(names))`,
 * which drops them.
 */
module StringOrder {

  /** `a <= b` on Python strings. */
  predicate Below(a: string, b: string)
  {
    |a| == 0 || (|b| > 0 && (a[0] < b[0] || (a[0] == b[0] && Below(a[1..], b[1..]))))
  }

  lemma {:induction false} BelowAntisymmetric(a: string, b: string)
    requires Below(a, b) && Below(b, a)
    ensures a == b
  {
    if |a| > 0 {
      BelowAntisymmetric(a[1..], b[1..]);
      assert a == [a[0]] + a[1..] && b == [b[0]] + b[1..];
    }
  }

  lemma {:induction false} BelowTransitive(a: string, b: string, c: string)
    requires Below(a, b) && Below(b, c)
    ensures Below(a, c)
  {
    if |a| > 0 && a[0] == b[0] && b[0] == c[0] {
      BelowTransitive(a[1..], b[1..], c[1..]);
    }
  }

  lemma {:induction false} BelowTotal(a: string, b: string)
    ensures Below(a, b) || Below(b, a)
  {
    if |a| > 0 && |b| > 0 && a[0] == b[0] {
      BelowTotal(a[1..], b[1..]);
    }
  }

  /** In non-decreasing order; equal names may repeat. */
  predicate Sorted(s: seq<string>)
  {
    forall i, j | 0 <= i < j < |s| :: Below(s[i], s[j])
  }

  /** In increasing order; hence no name occurs twice. */
  predicate StrictlySorted(s: seq<string>)
  {
    forall i, j | 0 <= i < j < |s| :: Below(s[i], s[j]) && s[i] != s[j]
  }

  /** The names a sequence holds (Python's `set(names)`). */
  function Elements(s: seq<string>): set<string>
  {
    set y | y in s
  }

  lemma ElementsCons(head: string, tail: seq<string>)
    ensures Elements([head] + tail) == {head} + Elements(tail)
  {
    assert forall y | y in [head] + tail :: y == head || y in tail;
  }

  lemma ElementsEmpty(s: seq<string>)
    ensures s == [] <==> Elements(s) == {}
  {
    if s != [] {
      assert s[0] in Elements(s);
    }
  }

  /** No name occurs twice. */
  predicate NoDuplicates(s: seq<string>)
  {
    forall i, j | 0 <= i < j < |s| :: s[i] != s[j]
  }

  lemma ConsSorted(head: string, tail: seq<string>)
    requires Sorted(tail)
    requires forall y | y in tail :: Below(head, y)
    ensures Sorted([head] + tail)
  {
    var s := [head] + tail;
    forall i, j | 0 <= i < j < |s| ensures Below(s[i], s[j]) {
      if i > 0 {
        assert s[i] == tail[i - 1] && s[j] == tail[j - 1];
      } else {
        assert s[j] in tail;
      }
    }
  }

  lemma ConsStrictlySorted(head: string, tail: seq<string>)
    requires StrictlySorted(tail)
    requires forall y | y in tail :: Below(head, y) && head != y
    ensures StrictlySorted([head] + tail)
  {
    var s := [head] + tail;
    forall i, j | 0 <= i < j < |s| ensures Below(s[i], s[j]) && s[i] != s[j] {
      if i > 0 {
        assert s[i] == tail[i - 1] && s[j] == tail[j - 1];
      } else {
        assert s[j] in tail;
      }
    }
  }

  /** Insert `x` into a sorted sequence, keeping duplicates. */
  function Insert(x: string, s: seq<string>): (r: seq<string>)
    requires Sorted(s)
    ensures Sorted(r)
    ensures multiset(r) == multiset(s) + multiset{x}
  {
    if s == [] then [x]
    else if Below(x, s[0]) then
      assert forall y | y in s :: Below(x, y) by {
        forall y | y in s ensures Below(x, y) {
          var j :| 0 <= j < |s| && s[j] == y;
          if j > 0 { BelowTransitive(x, s[0], y); }
        }
      }
      ConsSorted(x, s);
      [x] + s
    else
      var rest := Insert(x, s[1..]);
      assert s == [s[0]] + s[1..];
      assert forall y | y in rest :: Below(s[0], y) by {
        BelowTotal(x, s[0]);
        forall y | y in rest ensures Below(s[0], y) {
          assert y in multiset(rest);
          if y != x {
            assert y in s[1..];
          }
        }
      }
      ConsSorted(s[0], rest);
      [s[0]] + rest
  }

  /** `sorted(names)`: the same names, duplicates kept, in non-decreasing order. */
  function Sort(s: seq<string>): (r: seq<string>)
    ensures Sorted(r)
    ensures multiset(r) == multiset(s)
  {
    if s == [] then []
    else
      assert s == [s[0]] + s[1..];
      Insert(s[0], Sort(s[1..]))
  }

  /** Insert `x` into an increasing sequence unless it is already there. */
  function InsertNew(x: string, s: seq<string>): (r: seq<string>)
    requires StrictlySorted(s)
    ensures StrictlySorted(r)
    ensures Elements(r) == Elements(s) + {x}
  {
    if s == [] then [x]
    else if x == s[0] then s
    else if Below(x, s[0]) then
      assert forall y | y in s :: Below(x, y) && x != y by {
        forall y | y in s ensures Below(x, y) && x != y {
          var j :| 0 <= j < |s| && s[j] == y;
          if j > 0 {
            BelowTransitive(x, s[0], y);
            if x == y { BelowAntisymmetric(s[0], y); }
          }
        }
      }
      ConsStrictlySorted(x, s);
      [x] + s
    else
      var rest := InsertNew(x, s[1..]);
      assert s == [s[0]] + s[1..];
      assert forall y | y in rest :: Below(s[0], y) && s[0] != y by {
        BelowTotal(x, s[0]);
        forall y | y in rest ensures Below(s[0], y) && s[0] != y {
          assert y in Elements(rest);
          if y != x {
            assert y in Elements(s[1..]);
          }
        }
      }
      ConsStrictlySorted(s[0], rest);
      ElementsCons(s[0], rest);
      ElementsCons(s[0], s[1..]);
      [s[0]] + rest
  }

  /** `sorted(set(names))`: each distinct name once, in increasing order. */
  function SortedSet(s: seq<string>): (r: seq<string>)
    ensures StrictlySorted(r)
    ensures Elements(r) == Elements(s)
  {
    if s == [] then []
    else
      assert s == [s[0]] + s[1..];
      ElementsCons(s[0], s[1..]);
      InsertNew(s[0], SortedSet(s[1..]))
  }

  /** An increasing sequence is fixed by the names it holds. */
  lemma {:induction false} StrictlySortedUnique(a: seq<string>, b: seq<string>)
    requires StrictlySorted(a) && StrictlySorted(b)
    requires Elements(a) == Elements(b)
    ensures a == b
  {
    if a != [] && b != [] {
      // the first element of each is the least of the common set
      assert a[0] in Elements(b) && b[0] in Elements(a);
      var i :| 0 <= i < |b| && b[i] == a[0];
      var j :| 0 <= j < |a| && a[j] == b[0];
      if a[0] != b[0] {
        assert i > 0 && j > 0;
        BelowAntisymmetric(a[0], b[0]);
      }
      assert Elements(a[1..]) == Elements(b[1..]) by {
        forall y ensures y in Elements(a[1..]) <==> y in Elements(b[1..]) {
          ElementsCons(a[0], a[1..]);
          ElementsCons(b[0], b[1..]);
          assert a == [a[0]] + a[1..] && b == [b[0]] + b[1..];
          if y in a[1..] {
            var k :| 0 <= k < |a[1..]| && a[1..][k] == y;
            assert a[k + 1] == y && a[0] != a[k + 1];
          }
          if y in b[1..] {
            var k :| 0 <= k < |b[1..]| && b[1..][k] == y;
            assert b[k + 1] == y && b[0] != b[k + 1];
          }
        }
      }
      StrictlySortedUnique(a[1..], b[1..]);
      assert a == [a[0]] + a[1..] && b == [b[0]] + b[1..];
    } else {
      ElementsEmpty(a);
      ElementsEmpty(b);
    }
  }
}
