/** The order in which the store lists its keys: `lodash.sortBy` over the key
    strings, that is, the lexicographic order JavaScript's `<` gives strings,
    where a proper prefix comes first. */
module Order {

  /** `a` is lexicographically at most `b`: the first differing character
      decides, and a prefix comes before every extension of it. */
  predicate Below(a: string, b: string)
    decreases |a|
  {
    |a| == 0 || (|b| > 0 && (a[0] < b[0] || (a[0] == b[0] && Below(a[1..], b[1..]))))
  }

  /** `a` comes strictly before `b`. */
  predicate Less(a: string, b: string)
  {
    Below(a, b) && a != b
  }

  lemma {:induction false} BelowReflexive(a: string)
    ensures Below(a, a)
    decreases |a|
  {
    if |a| > 0 {
      BelowReflexive(a[1..]);
    }
  }

  lemma {:induction false} BelowAntisymmetric(a: string, b: string)
    requires Below(a, b) && Below(b, a)
    ensures a == b
    decreases |a|
  {
    if |a| > 0 {
      BelowAntisymmetric(a[1..], b[1..]);
      assert a == [a[0]] + a[1..] && b == [b[0]] + b[1..];
    }
  }

  lemma {:induction false} BelowTransitive(a: string, b: string, c: string)
    requires Below(a, b) && Below(b, c)
    ensures Below(a, c)
    decreases |a|
  {
    if |a| > 0 && a[0] == b[0] && b[0] == c[0] {
      BelowTransitive(a[1..], b[1..], c[1..]);
    }
  }

  lemma {:induction false} BelowTotal(a: string, b: string)
    ensures Below(a, b) || Below(b, a)
    decreases |a|
  {
    if |a| > 0 && |b| > 0 && a[0] == b[0] {
      BelowTotal(a[1..], b[1..]);
    }
  }

  /** `Below` is the lexicographic order: a prefix comes first, and otherwise
      the first differing character decides. */
  lemma {:induction false} BelowLexicographic(a: string, b: string)
    ensures a <= b ==> Below(a, b)
    ensures Below(a, b) && |a| > 0 ==> |b| > 0 && a[0] <= b[0]
    ensures forall i :: 0 <= i < |a| && i < |b| && a[..i] == b[..i] && a[i] < b[i] ==> Below(a, b)
    decreases |a|
  {
    if |a| > 0 && |b| > 0 {
      BelowLexicographic(a[1..], b[1..]);
      if a <= b {
        assert a[1..] <= b[1..];
      }
      forall i | 0 <= i < |a| && i < |b| && a[..i] == b[..i] && a[i] < b[i]
        ensures Below(a, b)
      {
        if i > 0 {
          assert a[0] == a[..i][0] == b[..i][0] == b[0];
          assert a[1..][..i - 1] == a[..i][1..] && b[1..][..i - 1] == b[..i][1..];
          assert a[1..][i - 1] == a[i] && b[1..][i - 1] == b[i];
        }
      }
    }
  }

  /** The empty string comes before every other string. */
  lemma {:induction false} EmptyIsBelowAll(a: string)
    ensures Below("", a)
    ensures Below(a, "") ==> a == ""
  {
  }

  lemma {:induction false} BelowAntisymmetricAll()
    ensures forall a: string, b: string :: Below(a, b) && Below(b, a) ==> a == b
  {
    forall a: string, b: string | Below(a, b) && Below(b, a)
      ensures a == b
    {
      BelowAntisymmetric(a, b);
    }
  }

  predicate IsLeast(m: string, s: set<string>)
  {
    forall x :: x in s ==> Below(m, x)
  }

  /** Every non-empty finite set of strings has a least element. */
  lemma {:induction false} LeastExists(s: set<string>)
    requires s != {}
    ensures exists m :: m in s && IsLeast(m, s)
    decreases s
  {
    var y :| y in s;
    if s == {y} {
      BelowReflexive(y);
      assert IsLeast(y, s);
    } else {
      LeastExists(s - {y});
      var m :| m in s - {y} && IsLeast(m, s - {y});
      BelowTotal(y, m);
      if Below(y, m) {
        forall x | x in s
          ensures Below(y, x)
        {
          if x == y { BelowReflexive(y); } else { BelowTransitive(y, m, x); }
        }
        assert IsLeast(y, s);
      } else {
        assert IsLeast(m, s);
      }
    }
  }

  /** The least key of a non-empty key set. */
  function Least(s: set<string>): (m: string)
    requires s != {}
    ensures m in s && IsLeast(m, s)
  {
    LeastExists(s);
    BelowAntisymmetricAll();
    var m :| m in s && IsLeast(m, s);
    m
  }

  predicate StrictlyAscending(r: seq<string>)
  {
    forall i, j :: 0 <= i < j < |r| ==> Less(r[i], r[j])
  }

  /** `lodash.sortBy(keys)`: the keys of `s`, each exactly once, in ascending order. */
  function SortedKeys(s: set<string>): (r: seq<string>)
    ensures |r| == |s|
    ensures forall k :: k in r <==> k in s
    ensures StrictlyAscending(r)
    decreases s
  {
    if s == {} then []
    else
      var m := Least(s);
      var rest := SortedKeys(s - {m});
      assert forall j :: 0 <= j < |rest| ==> Less(m, rest[j]) by {
        forall j | 0 <= j < |rest|
          ensures Less(m, rest[j])
        {
          assert rest[j] in s - {m};
        }
      }
      [m] + rest
  }

  /** Two strictly ascending sequences of one length with the same elements are
      equal, so the sorted key list is the only such arrangement of its key set. */
  lemma {:induction false} SortedUnique(a: seq<string>, b: seq<string>)
    requires StrictlyAscending(a) && StrictlyAscending(b)
    requires |a| == |b|
    requires forall x :: x in a <==> x in b
    ensures a == b
    decreases |a|
  {
    if |a| > 0 {
      assert a[0] in b;
      assert b[0] in a;
      assert Below(a[0], b[0]) by {
        var i :| 0 <= i < |a| && a[i] == b[0];
        if i > 0 { assert Less(a[0], a[i]); } else { BelowReflexive(a[0]); }
      }
      assert Below(b[0], a[0]) by {
        var i :| 0 <= i < |b| && b[i] == a[0];
        if i > 0 { assert Less(b[0], b[i]); } else { BelowReflexive(b[0]); }
      }
      BelowAntisymmetric(a[0], b[0]);
      forall x
        ensures x in a[1..] <==> x in b[1..]
      {
        AscendingTail(a, x);
        AscendingTail(b, x);
      }
      SortedUnique(a[1..], b[1..]);
      assert a == [a[0]] + a[1..] && b == [b[0]] + b[1..];
    }
  }

  /** A strictly ascending sequence holds no key twice. */
  lemma {:induction false} AscendingInjective(r: seq<string>, i: int, j: int)
    requires StrictlyAscending(r) && 0 <= i < |r| && 0 <= j < |r|
    ensures r[i] == r[j] <==> i == j
  {
    if i < j { assert Less(r[i], r[j]); }
    if j < i { assert Less(r[j], r[i]); }
  }

  /** In a strictly ascending sequence the head does not recur in the tail. */
  lemma {:induction false} AscendingTail(a: seq<string>, x: string)
    requires StrictlyAscending(a) && |a| > 0
    ensures x in a[1..] <==> x in a && x != a[0]
  {
    if x in a[1..] {
      var j :| 0 <= j < |a| - 1 && a[1..][j] == x;
      assert Less(a[0], a[j + 1]);
    }
    if x in a && x != a[0] {
      var j :| 0 <= j < |a| && a[j] == x;
      assert a[1..][j - 1] == x;
    }
  }

  /** Cutting one position out of a strictly ascending sequence keeps it strictly ascending. */
  lemma {:induction false} CutAscending(r: seq<string>, i: nat)
    requires StrictlyAscending(r) && i < |r|
    ensures StrictlyAscending(r[..i] + r[i + 1..])
  {
    var d := r[..i] + r[i + 1..];
    forall p, q | 0 <= p < q < |d|
      ensures Less(d[p], d[q])
    {
      var p' := if p < i then p else p + 1;
      var q' := if q < i then q else q + 1;
      assert d[p] == r[p'] && d[q] == r[q'];
    }
  }

  /** Cutting position `i` out of a sequence without repeats removes exactly `r[i]`. */
  lemma {:induction false} CutMembers(r: seq<string>, i: nat, x: string)
    requires StrictlyAscending(r) && i < |r|
    ensures x in r[..i] + r[i + 1..] <==> x in r && x != r[i]
  {
    var d := r[..i] + r[i + 1..];
    if x in d {
      var j :| 0 <= j < |d| && d[j] == x;
      var j' := if j < i then j else j + 1;
      assert r[j'] == x;
      assert Less(r[i], r[j']) || Less(r[j'], r[i]);
    }
    if x in r && x != r[i] {
      var j :| 0 <= j < |r| && r[j] == x;
      if j < i { assert d[j] == x; } else { assert d[j - 1] == x; }
    }
  }

  /** Removing the key at position `i` from the sorted key list gives the sorted
      key list of the remaining keys. */
  lemma {:induction false} SortedKeysRemove(s: set<string>, i: nat)
    requires i < |s|
    ensures SortedKeys(s - {SortedKeys(s)[i]}) == SortedKeys(s)[..i] + SortedKeys(s)[i + 1..]
  {
    var r := SortedKeys(s);
    var d := r[..i] + r[i + 1..];
    CutAscending(r, i);
    forall x
      ensures x in d <==> x in s - {r[i]}
    {
      CutMembers(r, i, x);
    }
    SortedUnique(SortedKeys(s - {r[i]}), d);
  }

  /** Adding a key grows the key list by one exactly when the key is new. */
  lemma {:induction false} SortedKeysInsert(s: set<string>, k: string)
    ensures k in SortedKeys(s + {k})
    ensures |SortedKeys(s + {k})| == |SortedKeys(s)| + (if k in s then 0 else 1)
  {
    if k in s {
      assert s + {k} == s;
    }
  }

  /** When the key set contains the empty string, it is the first key. */
  lemma {:induction false} EmptyKeyFirst(s: set<string>)
    requires "" in s
    ensures SortedKeys(s)[0] == ""
  {
    var r := SortedKeys(s);
    var j :| 0 <= j < |r| && r[j] == "";
    if j > 0 {
      assert Less(r[0], r[j]);
      EmptyIsBelowAll(r[0]);
    }
  }
}
