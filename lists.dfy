/**
 * `Array.prototype.filter` over the engine's lists, and the facts about it
 * that the AI relies on: what survives, in which order, and that filtering
 * never introduces duplicates.
 */
module Lists {
  import opened Types

  /** The elements of `s` that satisfy `p`, in their original order. */
  function Filter<T(!new)>(s: seq<T>, p: T -> bool): (r: seq<T>)
    ensures |r| <= |s|
    ensures forall x :: x in r <==> x in s && p(x)
  {
    if s == [] then []
    else (if p(s[0]) then [s[0]] else []) + Filter(s[1..], p)
  }

  /** A filtered list is empty exactly when no element passes. */
  lemma {:induction false} FilterEmpty<T(!new)>(s: seq<T>, p: T -> bool)
    ensures Filter(s, p) == [] <==> forall i :: 0 <= i < |s| ==> !p(s[i])
  {
    if s != [] && !p(s[0]) {
      var tail := s[1..];
      FilterEmpty(tail, p);
      assert forall i :: 0 < i < |s| ==> s[i] == tail[i - 1];
    }
  }

  /** The head of a filtered list is the first element of the input that passes. */
  lemma {:induction false} FilterFirst<T(!new)>(s: seq<T>, p: T -> bool)
    requires Filter(s, p) != []
    ensures exists i :: 0 <= i < |s| && s[i] == Filter(s, p)[0] && p(s[i]) &&
                        forall j :: 0 <= j < i ==> !p(s[j])
  {
    if p(s[0]) {
      assert Filter(s, p)[0] == s[0];
    } else {
      var tail := s[1..];
      assert Filter(s, p) == Filter(tail, p);
      FilterFirst(tail, p);
      var i :| 0 <= i < |tail| && tail[i] == Filter(tail, p)[0] && p(tail[i]) &&
               forall j :: 0 <= j < i ==> !p(tail[j]);
      assert s[i + 1] == tail[i];
      forall j | 0 < j < i + 1
        ensures !p(s[j])
      {
        assert s[j] == tail[j - 1];
      }
    }
  }

  /** `idx` picks out `r` from `s` at strictly increasing positions: `r` is `s` with some elements left out. */
  ghost predicate Picks<T>(r: seq<T>, s: seq<T>, idx: seq<nat>)
  {
    |idx| == |r| &&
    (forall i :: 0 <= i < |idx| ==> idx[i] < |s| && r[i] == s[idx[i]]) &&
    (forall i, j :: 0 <= i < j < |idx| ==> idx[i] < idx[j])
  }

  /** Filtering keeps the surviving elements in their original order. */
  lemma {:induction false} FilterInOrder<T(!new)>(s: seq<T>, p: T -> bool)
    ensures exists idx :: Picks(Filter(s, p), s, idx)
  {
    if s == [] {
      assert Picks(Filter(s, p), s, []);
    } else {
      var rest := Filter(s[1..], p);
      FilterInOrder(s[1..], p);
      var idx :| Picks(rest, s[1..], idx);
      PicksFromTail(rest, s, idx);
      if p(s[0]) {
        assert Filter(s, p) == [s[0]] + rest;
        PicksWithHead(rest, s, Shift(idx));
      } else {
        assert Filter(s, p) == rest;
      }
    }
  }

  /** Every position moved one place on. */
  function Shift(idx: seq<nat>): (r: seq<nat>)
    ensures |r| == |idx| && forall i :: 0 <= i < |idx| ==> r[i] == idx[i] + 1
  {
    seq(|idx|, i requires 0 <= i < |idx| => idx[i] + 1)
  }

  /** Positions picking `r` from the tail of `s`, moved one place on, pick `r` from `s`. */
  lemma PicksFromTail<T>(r: seq<T>, s: seq<T>, idx: seq<nat>)
    requires s != [] && Picks(r, s[1..], idx)
    ensures Picks(r, s, Shift(idx))
  {
    forall i | 0 <= i < |idx|
      ensures Shift(idx)[i] < |s| && r[i] == s[Shift(idx)[i]]
    {
      assert s[idx[i] + 1] == s[1..][idx[i]];
    }
  }

  /** Picking the head of `s` first, then positions past it, picks the head followed by `r`. */
  lemma PicksWithHead<T>(r: seq<T>, s: seq<T>, idx: seq<nat>)
    requires s != [] && Picks(r, s, idx) && forall i :: 0 <= i < |idx| ==> idx[i] > 0
    ensures Picks([s[0]] + r, s, [0] + idx)
  {
  }

  /** Filtering a duplicate-free list keeps it duplicate-free. */
  lemma {:induction false} FilterNoDuplicates<T(!new)>(s: seq<T>, p: T -> bool)
    requires NoDuplicates(s)
    ensures NoDuplicates(Filter(s, p))
  {
    if s != [] {
      assert NoDuplicates(s[1..]) by {
        forall i, j | 0 <= i < j < |s[1..]|
          ensures s[1..][i] != s[1..][j]
        {
          assert s[1..][i] == s[i + 1] && s[1..][j] == s[j + 1];
        }
      }
      FilterNoDuplicates(s[1..], p);
      var rest := Filter(s[1..], p);
      assert s[0] !in s[1..] by {
        forall k | 0 <= k < |s[1..]|
          ensures s[1..][k] != s[0]
        {
          assert s[1..][k] == s[k + 1];
        }
      }
      assert s[0] !in rest;
      var r := Filter(s, p);
      forall i, j | 0 <= i < j < |r|
        ensures r[i] != r[j]
      {
        if p(s[0]) {
          assert r == [s[0]] + rest;
          if i == 0 {
            assert r[j] == rest[j - 1];
          } else {
            assert r[i] == rest[i - 1] && r[j] == rest[j - 1];
          }
        } else {
          assert r == rest;
        }
      }
    }
  }

  /** Filtering with a predicate every element passes changes nothing. */
  lemma {:induction false} FilterAll<T(!new)>(s: seq<T>, p: T -> bool)
    requires forall i :: 0 <= i < |s| ==> p(s[i])
    ensures Filter(s, p) == s
  {
    if s != [] {
      FilterAll(s[1..], p);
      assert [s[0]] + s[1..] == s;
    }
  }

  /** Filtering with a predicate only the k-th element fails drops exactly that element. */
  lemma {:induction false} FilterDropsOne<T(!new)>(s: seq<T>, k: nat, p: T -> bool)
    requires k < |s| && forall i :: 0 <= i < |s| ==> (p(s[i]) <==> i != k)
    ensures Filter(s, p) == s[..k] + s[k + 1..]
    decreases k
  {
    var tail := s[1..];
    if k == 0 {
      assert forall i :: 0 <= i < |tail| ==> p(tail[i]) by {
        forall i | 0 <= i < |tail| ensures p(tail[i]) {
          assert tail[i] == s[i + 1];
        }
      }
      FilterAll(tail, p);
    } else {
      assert forall i :: 0 <= i < |tail| ==> (p(tail[i]) <==> i != k - 1) by {
        forall i | 0 <= i < |tail| ensures p(tail[i]) <==> i != k - 1 {
          assert tail[i] == s[i + 1];
        }
      }
      FilterDropsOne(tail, k - 1, p);
      DropSplit(s, k);
    }
  }

  /** Dropping the k-th element, for k > 0, keeps the head in front of the tail with its (k-1)-th element dropped. */
  lemma DropSplit<T>(s: seq<T>, k: nat)
    requires 0 < k < |s|
    ensures s[..k] + s[k + 1..] == [s[0]] + (s[1..][..k - 1] + s[1..][k..])
  {
    assert s[..k] == [s[0]] + s[1..][..k - 1];
  }

  /** Moving the head of `todo` to the end of `seen` keeps their concatenation. */
  lemma ShiftHead<T>(seen: seq<T>, todo: seq<T>, next: seq<T>)
    requires todo != [] && next == seen + [todo[0]]
    ensures next + todo[1..] == seen + todo
  {
    assert todo == [todo[0]] + todo[1..];
  }

  /** The number of occurrences of `x` in `s`. */
  function Count<T(==)>(s: seq<T>, x: T): (n: nat)
    ensures n <= |s|
    ensures n == 0 <==> x !in s
  {
    if s == [] then 0
    else Count(s[..|s| - 1], x) + (if s[|s| - 1] == x then 1 else 0)
  }

  lemma {:induction false} CountAppend<T>(s: seq<T>, t: seq<T>, x: T)
    ensures Count(s + t, x) == Count(s, x) + Count(t, x)
    decreases |t|
  {
    if t == [] {
      assert s + t == s;
    } else {
      assert (s + t)[..|s + t| - 1] == s + t[..|t| - 1];
      CountAppend(s, t[..|t| - 1], x);
    }
  }

  /** A duplicate-free list holds each element at most once. */
  lemma {:induction false} CountNoDuplicates<T>(s: seq<T>, x: T)
    requires NoDuplicates(s)
    ensures Count(s, x) <= 1
  {
    if s != [] {
      var init := s[..|s| - 1];
      assert NoDuplicates(init) by {
        forall i, j | 0 <= i < j < |init|
          ensures init[i] != init[j]
        {
          assert init[i] == s[i] && init[j] == s[j];
        }
      }
      CountNoDuplicates(init, x);
      if s[|s| - 1] == x {
        assert x !in init by {
          forall k | 0 <= k < |init|
            ensures init[k] != x
          {
            assert init[k] == s[k];
          }
        }
      }
    }
  }

  /** Two duplicate-free lists with no common element concatenate to a duplicate-free list. */
  lemma NoDuplicatesConcat<T>(s: seq<T>, t: seq<T>)
    requires NoDuplicates(s) && NoDuplicates(t)
    requires forall x :: x in s ==> x !in t
    ensures NoDuplicates(s + t)
  {
    var st := s + t;
    forall i, j | 0 <= i < j < |st|
      ensures st[i] != st[j]
    {
      if i < |s| && j >= |s| {
        assert st[i] in s && st[j] == t[j - |s|];
      } else if j >= |s| {
        assert st[i] == t[i - |s|] && st[j] == t[j - |s|];
      }
    }
  }
}
