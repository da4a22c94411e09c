/**
 The JSON file behind both local queues, seen through what the code can
 observe of it, and the order-preserving filter both queues use to find their
 pending records.
 */
module Store {

  /**
   The queue file on disk: absent, present but not parseable as a list of
   records, or a list of records in the order they were appended.
   */
  datatype StoreFile<R> = Missing | Corrupt | Records(records: seq<R>)
  {
    /** What a tolerant load returns: the stored list, or `[]` for a missing or unparseable file. */
    function Loaded(): seq<R>
    {
      if Records? then records else []
    }
  }

  /**
   How a whole-file rewrite (`open(path, 'w')` then `json.dump`) ends: it
   completes, the file cannot be opened (the old contents stay), or the dump
   stops part-way after the file was truncated (the file no longer parses).
   */
  datatype WriteOutcome = WriteOk | OpenFailed(reason: string) | WriteInterrupted(reason: string)

  /** The file after trying to rewrite `f` with the list `rs`. */
  function AfterWrite<R>(f: StoreFile<R>, rs: seq<R>, w: WriteOutcome): StoreFile<R>
  {
    match w
    case WriteOk => Records(rs)
    case OpenFailed(_) => f
    case WriteInterrupted(_) => Corrupt
  }

  // ------------------------------------------------------------- filter

  /** A Python list comprehension `[r for r in rs if keep(r)]`. */
  function Filter<R>(rs: seq<R>, keep: R -> bool): (out: seq<R>)
    ensures |out| <= |rs|
    ensures forall x :: x in out ==> x in rs && keep(x)
  {
    if rs == [] then []
    else if keep(rs[0]) then [rs[0]] + Filter(rs[1..], keep)
    else Filter(rs[1..], keep)
  }

  /** `a` can be obtained from `b` by deleting elements: the order of what is kept is preserved. */
  predicate IsSubsequence<R(==)>(a: seq<R>, b: seq<R>)
    decreases |b|
  {
    if a == [] then true
    else if b == [] then false
    else (a[0] == b[0] && IsSubsequence(a[1..], b[1..])) || IsSubsequence(a, b[1..])
  }

  /** No kept element is lost. */
  lemma {:induction false} FilterKeepsEveryKept<R>(rs: seq<R>, keep: R -> bool)
    ensures forall i :: 0 <= i < |rs| && keep(rs[i]) ==> rs[i] in Filter(rs, keep)
  {
    if rs != [] {
      FilterKeepsEveryKept(rs[1..], keep);
      forall i | 1 <= i < |rs| && keep(rs[i]) ensures rs[i] in Filter(rs, keep) {
        assert rs[i] == rs[1..][i - 1];
      }
    }
  }

  /** The filter keeps the original order. */
  lemma {:induction false} FilterIsSubsequence<R>(rs: seq<R>, keep: R -> bool)
    ensures IsSubsequence(Filter(rs, keep), rs)
  {
    if rs != [] {
      FilterIsSubsequence(rs[1..], keep);
      var tail := Filter(rs[1..], keep);
      if keep(rs[0]) {
        assert Filter(rs, keep) == [rs[0]] + tail;
        assert ([rs[0]] + tail)[1..] == tail;
      } else if tail != [] {
        assert IsSubsequence(tail, rs[1..]);
      }
    }
  }

  /** Filtering distributes over concatenation, so it can be computed piecewise. */
  lemma {:induction false} FilterAppend<R>(a: seq<R>, b: seq<R>, keep: R -> bool)
    ensures Filter(a + b, keep) == Filter(a, keep) + Filter(b, keep)
  {
    if a == [] {
      assert a + b == b;
    } else {
      assert (a + b)[0] == a[0] && (a + b)[1..] == a[1..] + b;
      FilterAppend(a[1..], b, keep);
    }
  }

  /** The comprehension keeps every kept element as many times as it occurs, and nothing else. */
  lemma {:induction false} FilterMultiset<R>(rs: seq<R>, keep: R -> bool)
    ensures forall x :: multiset(Filter(rs, keep))[x] == if keep(x) then multiset(rs)[x] else 0
  {
    if rs != [] {
      FilterMultiset(rs[1..], keep);
      assert rs == [rs[0]] + rs[1..];
      assert multiset(rs) == multiset{rs[0]} + multiset(rs[1..]);
    }
  }

  /** Replacing one element splits the list around it. */
  lemma UpdateSplits<R>(rs: seq<R>, i: nat, x: R)
    requires i < |rs|
    ensures rs[i := x] == rs[..i] + [x] + rs[i + 1..]
  {
  }

  /** A one-element list filters to itself or to nothing. */
  lemma FilterSingleton<R>(x: R, keep: R -> bool)
    ensures Filter([x], keep) == if keep(x) then [x] else []
  {
    assert [x][1..] == [];
  }

  /** Filtering what is already filtered changes nothing. */
  lemma {:induction false} FilterIdempotent<R>(rs: seq<R>, keep: R -> bool)
    ensures Filter(Filter(rs, keep), keep) == Filter(rs, keep)
  {
    if rs != [] {
      FilterIdempotent(rs[1..], keep);
      if keep(rs[0]) {
        var f := Filter(rs, keep);
        assert f[0] == rs[0] && f[1..] == Filter(rs[1..], keep);
      }
    }
  }

  /** A list whose every element is kept filters to itself. */
  lemma {:induction false} FilterAllKept<R>(rs: seq<R>, keep: R -> bool)
    requires forall i :: 0 <= i < |rs| ==> keep(rs[i])
    ensures Filter(rs, keep) == rs
  {
    if rs != [] {
      FilterAllKept(rs[1..], keep);
    }
  }
}
