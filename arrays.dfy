/**
  The MongoDB array update operators the service uses on embedded
  relationship lists (`followees`, `likedTracks`, `uploadedTracks`,
  `comments`): `$push` appends one entry, `$pull` removes every entry equal
  to the given one.
 */
module MongoArrays {

  /** No entry occurs twice. */
  predicate NoDup<T(==)>(s: seq<T>)
  {
    forall i, j :: 0 <= i < j < |s| ==> s[i] != s[j]
  }

  /** `$pull`: the list without any entry equal to `x`, the rest in order. */
  function Pull<T(==)>(s: seq<T>, x: T): (r: seq<T>)
    ensures multiset(r) == multiset(s)[x := 0]
    ensures x !in r
    ensures forall y :: y in s && y != x ==> y in r
  {
    if s == [] then []
    else
      assert s == [s[0]] + s[1..];
      if s[0] == x then Pull(s[1..], x)
      else [s[0]] + Pull(s[1..], x)
  }

  /** `$pull` of an absent entry leaves the list as it was. */
  lemma {:induction false} PullAbsent<T>(s: seq<T>, x: T)
    requires x !in s
    ensures Pull(s, x) == s
  {
    if s != [] {
      PullAbsent(s[1..], x);
    }
  }

  /** `$pull` undoes a `$push` of an entry that was absent before the push. */
  lemma {:induction false} PullUndoesPush<T>(s: seq<T>, x: T)
    requires x !in s
    ensures Pull(s + [x], x) == s
  {
    if s == [] {
      assert [x][1..] == [];
    } else {
      assert (s + [x])[1..] == s[1..] + [x];
      PullUndoesPush(s[1..], x);
    }
  }

  /** In a list without duplicates, `x` occurs once if at all. */
  lemma {:induction false} NoDupCount<T>(s: seq<T>, x: T)
    requires NoDup(s) && x in s
    ensures multiset(s)[x] == 1
  {
    if s[0] == x {
      assert s == [s[0]] + s[1..];
      assert x !in s[1..] by {
        forall k | 0 <= k < |s[1..]| ensures s[1..][k] != x {
          assert s[k + 1] != s[0];
        }
      }
    } else {
      assert s == [s[0]] + s[1..];
      NoDupCount(s[1..], x);
    }
  }

  /** `$pull` of a present entry shortens a duplicate-free list by exactly one. */
  lemma PullPresentLength<T>(s: seq<T>, x: T)
    requires NoDup(s) && x in s
    ensures |Pull(s, x)| == |s| - 1
  {
    NoDupCount(s, x);
    assert |multiset(Pull(s, x))| == |multiset(s)| - 1;
  }

  /** `$pull` keeps a list duplicate-free. */
  lemma {:induction false} PullKeepsNoDup<T>(s: seq<T>, x: T)
    requires NoDup(s)
    ensures NoDup(Pull(s, x))
  {
    if s != [] {
      PullKeepsNoDup(s[1..], x);
      if s[0] != x {
        var t := Pull(s[1..], x);
        assert s[0] !in s[1..];
        assert multiset(t)[s[0]] == 0 by {
          assert multiset(s[1..])[s[0]] == 0;
        }
        assert s[0] !in t;
      }
    }
  }

  /** A `$push` of an absent entry keeps a list duplicate-free. */
  lemma PushKeepsNoDup<T>(s: seq<T>, x: T)
    requires NoDup(s) && x !in s
    ensures NoDup(s + [x])
  {
  }

  /**
    `$pull` followed by `$push` of the same entry keeps the entries (as a
    multiset) but moves that entry to the end: the list is the one it was
    exactly when the entry was already last.
   */
  lemma PushAfterPull<T>(s: seq<T>, x: T)
    requires NoDup(s) && x in s
    ensures multiset(Pull(s, x) + [x]) == multiset(s)
    ensures Pull(s, x) + [x] == s <==> s[|s| - 1] == x
  {
    NoDupCount(s, x);
    var n := |s|;
    if s[n - 1] == x {
      assert s == s[..n - 1] + [x];
      assert x !in s[..n - 1] by {
        forall k | 0 <= k < n - 1 ensures s[k] != x {
          assert s[k] != s[n - 1];
        }
      }
      PullUndoesPush(s[..n - 1], x);
    }
  }
}
