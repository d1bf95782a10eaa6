/**
 * A left join of two tables on a key, as `pd.merge(left, right, on=..., how='left')`
 * performs it: every left row yields one output row per matching right row, in
 * the right table's order, or, when nothing matches, a single row with the
 * right-hand columns empty. Blocks follow the order of the left rows.
 *
 * The key functions and the row builders are parameters, so both merges of
 * the pipeline (stations, and UAT averages) are instances of the same join.
 */
module Joins {
  import opened Wrappers

  /** The right rows whose key is `k`, in their original order. */
  function Matching<R(==,!new), K(==)>(rs: seq<R>, rkey: R -> K, k: K): (ms: seq<R>)
    ensures |ms| <= |rs|
    ensures forall r :: r in ms <==> r in rs && rkey(r) == k
    ensures ms == [] <==> forall r :: r in rs ==> rkey(r) != k
  {
    if rs == [] then []
    else (if rkey(rs[0]) == k then [rs[0]] else []) + Matching(rs[1..], rkey, k)
  }

  /**
   * Every right row occurs among the matches exactly as often as in the
   * table when it has the key, and not at all otherwise: duplicates are kept.
   */
  lemma {:induction false} MatchingCounts<R(!new), K>(rs: seq<R>, rkey: R -> K, k: K)
    ensures forall x :: multiset(Matching(rs, rkey, k))[x] == (if rkey(x) == k then multiset(rs)[x] else 0)
    decreases |rs|
  {
    if rs != [] {
      MatchingCounts(rs[1..], rkey, k);
      assert rs == [rs[0]] + rs[1..];
    }
  }

  /** The matches of a concatenation are the matches of each part, in order. */
  lemma {:induction false} MatchingAppend<R(!new), K>(a: seq<R>, b: seq<R>, rkey: R -> K, k: K)
    ensures Matching(a + b, rkey, k) == Matching(a, rkey, k) + Matching(b, rkey, k)
    decreases |a|
  {
    if a == [] {
      assert a + b == b;
    } else {
      var head := if rkey(a[0]) == k then [a[0]] else [];
      var x, y := Matching(a[1..], rkey, k), Matching(b, rkey, k);
      assert (a + b)[0] == a[0];
      assert (a + b)[1..] == a[1..] + b;
      assert Matching(a + b, rkey, k) == head + Matching(a[1..] + b, rkey, k);
      MatchingAppend(a[1..], b, rkey, k);
      ConcatAssociates(head, x, y);
    }
  }

  /** Concatenation is associative. */
  lemma ConcatAssociates<T>(h: seq<T>, x: seq<T>, y: seq<T>)
    ensures h + (x + y) == (h + x) + y
  {
  }

  /** The block of output rows that one left row produces. */
  function JoinRow<L, R(==,!new), K(==), O>(l: L, rs: seq<R>, lkey: L -> K, rkey: R -> K,
                                       both: (L, R) -> O, alone: L -> O): (os: seq<O>)
    ensures |os| >= 1
    ensures Matching(rs, rkey, lkey(l)) == [] ==> os == [alone(l)]
    ensures Matching(rs, rkey, lkey(l)) != [] ==> |os| == |Matching(rs, rkey, lkey(l))|
  {
    var ms := Matching(rs, rkey, lkey(l));
    if ms == [] then [alone(l)] else seq(|ms|, i requires 0 <= i < |ms| => both(l, ms[i]))
  }

  /** The left join: the blocks of the left rows, one after the other. */
  function LeftJoin<L, R(==,!new), K(==), O>(ls: seq<L>, rs: seq<R>, lkey: L -> K, rkey: R -> K,
                                        both: (L, R) -> O, alone: L -> O): (os: seq<O>)
    ensures |os| >= |ls|
  {
    if ls == [] then []
    else JoinRow(ls[0], rs, lkey, rkey, both, alone) + LeftJoin(ls[1..], rs, lkey, rkey, both, alone)
  }

  /** Joining a concatenation of left tables is concatenating their joins: order is kept. */
  lemma {:induction false} LeftJoinAppend<L, R(!new), K, O>(a: seq<L>, b: seq<L>, rs: seq<R>,
      lkey: L -> K, rkey: R -> K, both: (L, R) -> O, alone: L -> O)
    ensures LeftJoin(a + b, rs, lkey, rkey, both, alone)
         == LeftJoin(a, rs, lkey, rkey, both, alone) + LeftJoin(b, rs, lkey, rkey, both, alone)
    decreases |a|
  {
    if a == [] {
      assert a + b == b;
    } else {
      assert (a + b)[0] == a[0];
      assert (a + b)[1..] == a[1..] + b;
      LeftJoinAppend(a[1..], b, rs, lkey, rkey, both, alone);
    }
  }

  /** A single left row contributes exactly its block. */
  lemma LeftJoinSingle<L, R(!new), K, O>(l: L, rs: seq<R>, lkey: L -> K, rkey: R -> K,
      both: (L, R) -> O, alone: L -> O)
    ensures LeftJoin([l], rs, lkey, rkey, both, alone) == JoinRow(l, rs, lkey, rkey, both, alone)
  {
    assert [l][1..] == [];
  }

  /**
   * The join has exactly as many rows as the left table when, and only when,
   * every left row matches at most one right row.
   */
  lemma {:induction false} LeftJoinKeepsLength<L, R(!new), K, O>(ls: seq<L>, rs: seq<R>,
      lkey: L -> K, rkey: R -> K, both: (L, R) -> O, alone: L -> O)
    ensures |LeftJoin(ls, rs, lkey, rkey, both, alone)| == |ls| <==>
      forall i :: 0 <= i < |ls| ==> |Matching(rs, rkey, lkey(ls[i]))| <= 1
    decreases |ls|
  {
    if ls != [] {
      var tail := ls[1..];
      LeftJoinKeepsLength(tail, rs, lkey, rkey, both, alone);
      var block := JoinRow(ls[0], rs, lkey, rkey, both, alone);
      assert |block| == 1 <==> |Matching(rs, rkey, lkey(ls[0]))| <= 1;
      AtMostOneMatchSplit(ls, rs, lkey, rkey);
    }
  }

  /** Every row of a non-empty left table matches at most once iff its head and its tail do. */
  lemma AtMostOneMatchSplit<L, R(!new), K>(ls: seq<L>, rs: seq<R>, lkey: L -> K, rkey: R -> K)
    requires ls != []
    ensures (forall i :: 0 <= i < |ls| ==> |Matching(rs, rkey, lkey(ls[i]))| <= 1) <==>
      |Matching(rs, rkey, lkey(ls[0]))| <= 1 &&
      (forall i :: 0 <= i < |ls[1..]| ==> |Matching(rs, rkey, lkey(ls[1..][i]))| <= 1)
  {
    forall i | 0 < i < |ls| ensures ls[1..][i - 1] == ls[i] {
    }
  }

  /** No two right rows share a key. */
  ghost predicate UniqueKeys<R, K>(rs: seq<R>, rkey: R -> K)
  {
    forall i, j :: 0 <= i < j < |rs| ==> rkey(rs[i]) != rkey(rs[j])
  }

  /** The first right row with key `k`, if there is one. */
  function Lookup<R(==,!new), K(==)>(rs: seq<R>, rkey: R -> K, k: K): (r: Option<R>)
    ensures r.Some? ==> r.value in rs && rkey(r.value) == k
    ensures r.None? <==> forall x :: x in rs ==> rkey(x) != k
  {
    var ms := Matching(rs, rkey, k);
    if ms == [] then None else Some(ms[0])
  }

  /** With unique keys at most one right row matches any key. */
  lemma {:induction false} MatchingUnique<R(!new), K>(rs: seq<R>, rkey: R -> K, k: K)
    requires UniqueKeys(rs, rkey)
    ensures |Matching(rs, rkey, k)| <= 1
    decreases |rs|
  {
    if rs != [] {
      var tail := rs[1..];
      assert UniqueKeys(tail, rkey) by {
        forall i, j | 0 <= i < j < |tail| ensures rkey(tail[i]) != rkey(tail[j]) {
          assert tail[i] == rs[i + 1] && tail[j] == rs[j + 1];
        }
      }
      MatchingUnique(tail, rkey, k);
      if rkey(rs[0]) == k {
        forall x | x in tail ensures rkey(x) != k {
          var j :| 0 <= j < |tail| && tail[j] == x;
          assert rs[j + 1] == x;
        }
      }
    }
  }

  /** The output row a left row gets when at most one right row can match it. */
  function JoinedWith<L, R, O>(l: L, m: Option<R>, both: (L, R) -> O, alone: L -> O): O
  {
    match m
    case Some(r) => both(l, r)
    case None => alone(l)
  }

  /**
   * With unique right keys the join keeps the left table's length, and the
   * row at each position is the left row completed by its lookup.
   */
  lemma {:induction false} LeftJoinUniqueKeys<L, R(!new), K, O>(ls: seq<L>, rs: seq<R>,
      lkey: L -> K, rkey: R -> K, both: (L, R) -> O, alone: L -> O)
    requires UniqueKeys(rs, rkey)
    ensures |LeftJoin(ls, rs, lkey, rkey, both, alone)| == |ls|
    ensures forall i :: 0 <= i < |ls| ==>
      LeftJoin(ls, rs, lkey, rkey, both, alone)[i] == JoinedWith(ls[i], Lookup(rs, rkey, lkey(ls[i])), both, alone)
    decreases |ls|
  {
    if ls != [] {
      var l := ls[0];
      MatchingUnique(rs, rkey, lkey(l));
      var block := JoinRow(l, rs, lkey, rkey, both, alone);
      assert block == [JoinedWith(l, Lookup(rs, rkey, lkey(l)), both, alone)];
      var rest := LeftJoin(ls[1..], rs, lkey, rkey, both, alone);
      LeftJoinUniqueKeys(ls[1..], rs, lkey, rkey, both, alone);
      var os := LeftJoin(ls, rs, lkey, rkey, both, alone);
      assert os == block + rest;
      forall i | 0 <= i < |ls|
        ensures os[i] == JoinedWith(ls[i], Lookup(rs, rkey, lkey(ls[i])), both, alone)
      {
        if i == 0 {
          assert os[0] == block[0];
        } else {
          assert os[i] == rest[i - 1];
          assert ls[1..][i - 1] == ls[i];
        }
      }
    }
  }

  /**
   * An output row of a block is either a left row completed by a matching
   * right row, or, when none matches, the left row alone.
   */
  lemma JoinRowMembers<L, R(!new), K, O>(o: O, l: L, rs: seq<R>, lkey: L -> K, rkey: R -> K,
      both: (L, R) -> O, alone: L -> O)
    ensures o in JoinRow(l, rs, lkey, rkey, both, alone) <==>
      (exists r :: r in rs && rkey(r) == lkey(l) && o == both(l, r)) ||
      ((forall r :: r in rs ==> rkey(r) != lkey(l)) && o == alone(l))
  {
    var ms := Matching(rs, rkey, lkey(l));
    var os := JoinRow(l, rs, lkey, rkey, both, alone);
    if ms != [] {
      assert ms[0] in rs;
      if exists r :: r in rs && rkey(r) == lkey(l) && o == both(l, r) {
        var r :| r in rs && rkey(r) == lkey(l) && o == both(l, r);
        assert r in ms;
        var i :| 0 <= i < |ms| && ms[i] == r;
        assert os[i] == o;
      }
      if o in os {
        var i :| 0 <= i < |os| && os[i] == o;
        assert ms[i] in ms;
      }
    }
  }

  /** Every output row comes from one left row's block, and every block is in the output. */
  lemma {:induction false} LeftJoinMembers<L, R(!new), K, O>(o: O, ls: seq<L>, rs: seq<R>,
      lkey: L -> K, rkey: R -> K, both: (L, R) -> O, alone: L -> O)
    ensures o in LeftJoin(ls, rs, lkey, rkey, both, alone) <==>
      exists i :: 0 <= i < |ls| && o in JoinRow(ls[i], rs, lkey, rkey, both, alone)
    decreases |ls|
  {
    if ls != [] {
      LeftJoinMembers(o, ls[1..], rs, lkey, rkey, both, alone);
      if exists i :: 0 <= i < |ls| && o in JoinRow(ls[i], rs, lkey, rkey, both, alone) {
        var i :| 0 <= i < |ls| && o in JoinRow(ls[i], rs, lkey, rkey, both, alone);
        if i > 0 {
          assert ls[1..][i - 1] == ls[i];
        }
      }
      if o in LeftJoin(ls[1..], rs, lkey, rkey, both, alone) {
        var i :| 0 <= i < |ls[1..]| && o in JoinRow(ls[1..][i], rs, lkey, rkey, both, alone);
        assert ls[1..][i] == ls[i + 1];
      }
    }
  }
}
