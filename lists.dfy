/**
 * Sequence helpers shared by the API and the client: first-occurrence
 * de-duplication against a set of values already seen, as a JavaScript `Set`
 * or a Python `set` would be used to skip repeats.
 */
module Lists {
  predicate NoDuplicates<T(==)>(s: seq<T>) {
    forall i, j :: 0 <= i < j < |s| ==> s[i] != s[j]
  }

  function Elements<T>(s: seq<T>): set<T> {
    set x | x in s
  }

  /** The elements of `s` not in `seen`, each kept at its first occurrence, in order. */
  function DedupFrom<T(==, !new)>(s: seq<T>, seen: set<T>): (r: seq<T>)
    ensures forall x :: x in r <==> x in s && x !in seen
    ensures NoDuplicates(r)
    ensures |r| <= |s|
  {
    if s == [] then []
    else if s[0] in seen then DedupFrom(s[1..], seen)
    else [s[0]] + DedupFrom(s[1..], seen + {s[0]})
  }

  /**
   * De-duplicating two sequences one after the other: the second half skips
   * everything the first half has already seen.
   */
  lemma {:induction false} DedupAppend<T(!new)>(a: seq<T>, b: seq<T>, seen: set<T>)
    ensures DedupFrom(a + b, seen) == DedupFrom(a, seen) + DedupFrom(b, seen + Elements(a))
  {
    if a == [] {
      assert a + b == b;
      assert seen + Elements(a) == seen;
      assert DedupFrom(a, seen) == [];
    } else {
      assert (a + b)[1..] == a[1..] + b;
      assert (a + b)[0] == a[0];
      if a[0] in seen {
        DedupAppend(a[1..], b, seen);
        assert seen + Elements(a[1..]) == seen + Elements(a);
      } else {
        DedupAppend(a[1..], b, seen + {a[0]});
        assert seen + {a[0]} + Elements(a[1..]) == seen + Elements(a);
      }
    }
  }

  /** A sequence without repeats that avoids `seen` comes through unchanged. */
  lemma {:induction false} DedupOfDistinct<T(!new)>(s: seq<T>, seen: set<T>)
    requires NoDuplicates(s)
    requires forall x :: x in s ==> x !in seen
    ensures DedupFrom(s, seen) == s
  {
    if s != [] {
      assert forall i :: 0 < i < |s| ==> s[i] != s[0];
      assert forall x :: x in s[1..] ==> x !in seen + {s[0]};
      DedupOfDistinct(s[1..], seen + {s[0]});
    }
  }

  /**
   * The first-occurrence rule: an element of the result that comes before
   * another one also first occurs before it in the input.
   */
  lemma {:induction false} DedupKeepsFirstOrder<T(!new)>(s: seq<T>, seen: set<T>, i: nat, j: nat)
    requires i < j < |DedupFrom(s, seen)|
    ensures exists a, b :: 0 <= a < b < |s| && s[a] == DedupFrom(s, seen)[i] && s[b] == DedupFrom(s, seen)[j] &&
                           DedupFrom(s, seen)[j] !in s[..a]
  {
    var r := DedupFrom(s, seen);
    if s[0] in seen {
      DedupKeepsFirstOrder(s[1..], seen, i, j);
      var a, b :| 0 <= a < b < |s[1..]| && s[1..][a] == r[i] && s[1..][b] == r[j] && r[j] !in s[1..][..a];
      assert s[..a + 1] == [s[0]] + s[1..][..a];
      assert s[a + 1] == r[i] && s[b + 1] == r[j];
    } else {
      var rest := DedupFrom(s[1..], seen + {s[0]});
      assert r == [s[0]] + rest;
      if i == 0 {
        assert r[j] == rest[j - 1] && rest[j - 1] in rest;
        var b :| 0 <= b < |s[1..]| && s[1..][b] == r[j];
        assert s[..0] == [];
        assert s[0] == r[i] && s[b + 1] == r[j];
      } else {
        DedupKeepsFirstOrder(s[1..], seen + {s[0]}, i - 1, j - 1);
        var a, b :| 0 <= a < b < |s[1..]| && s[1..][a] == rest[i - 1] && s[1..][b] == rest[j - 1] &&
                    rest[j - 1] !in s[1..][..a];
        assert rest[j - 1] in rest;
        assert s[..a + 1] == [s[0]] + s[1..][..a];
        assert s[a + 1] == r[i] && s[b + 1] == r[j];
      }
    }
  }
}
