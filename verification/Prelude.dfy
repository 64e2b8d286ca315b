/** Option, the failure-compatible result of kernel operations, and facts about
    duplicate-free sequences that the list-based modules share. */
module Prelude {

  datatype Option<+T> = None | Some(value: T)

  /** Why a kernel operation does not return.  The first four are panics of the kernel, the
      fifth is a write through a null pointer.  The last two mark a point where the kernel
      would run on with a frame it has just evicted, or with a reference count that has
      wrapped; the model stops there. */
  datatype Reason = NoFrame | DiskFull | NoSwapInfo | BadAddress | NullLink | SourceEvicted | RefOverflow

  /** What a kernel operation does: it returns, or it stops the machine. */
  datatype Outcome<+T> = Done(value: T) | Panic(reason: Reason)

  function Min(a: int, b: int): int { if a <= b then a else b }

  ghost predicate Distinct<T>(q: seq<T>) {
    forall i, j :: 0 <= i < j < |q| ==> q[i] != q[j]
  }

  /** The sequence without its occurrences of e. */
  function Without<T(==)>(q: seq<T>, e: T): seq<T> {
    if q == [] then [] else (if q[0] == e then [] else [q[0]]) + Without(q[1..], e)
  }

  function Reverse<T>(q: seq<T>): seq<T> {
    if q == [] then [] else Reverse(q[1..]) + [q[0]]
  }

  lemma {:induction false} WithoutAbsent<T>(q: seq<T>, e: T)
    requires e !in q
    ensures Without(q, e) == q
  {
    if q != [] {
      assert q == [q[0]] + q[1..];
      WithoutAbsent(q[1..], e);
    }
  }

  lemma {:induction false} WithoutAt<T>(q: seq<T>, k: nat)
    requires Distinct(q) && k < |q|
    ensures Without(q, q[k]) == q[..k] + q[k + 1..]
  {
    if k == 0 {
      WithoutAbsent(q[1..], q[0]);
    } else {
      WithoutAt(q[1..], k - 1);
      assert q[..k] == [q[0]] + q[1..][..k - 1];
      assert q[1..][k..] == q[k + 1..];
      assert [q[0]] + (q[1..][..k - 1] + q[k + 1..]) == q[..k] + q[k + 1..];
    }
  }

  /** Removing from a duplicate-free sequence keeps it duplicate-free and loses exactly e. */
  lemma {:induction false} WithoutKeeps<T>(q: seq<T>, e: T)
    requires Distinct(q)
    ensures Distinct(Without(q, e))
    ensures forall x :: x in Without(q, e) <==> x in q && x != e
    ensures |Without(q, e)| == |q| - (if e in q then 1 else 0)
  {
    if e in q {
      var k :| 0 <= k < |q| && q[k] == e;
      WithoutAt(q, k);
      var r := q[..k] + q[k + 1..];
      forall i, j | 0 <= i < j < |r| ensures r[i] != r[j] {
        assert r[i] == q[if i < k then i else i + 1];
        assert r[j] == q[if j < k then j else j + 1];
      }
      forall x ensures x in r <==> x in q && x != e {
        if x in r {
          var i :| 0 <= i < |r| && r[i] == x;
          assert x == q[if i < k then i else i + 1];
        }
        if x in q && x != e {
          var i :| 0 <= i < |q| && q[i] == x;
          assert x == r[if i < k then i else i - 1];
        }
      }
    } else {
      WithoutAbsent(q, e);
    }
  }

  lemma {:induction false} ReverseKeeps<T>(q: seq<T>)
    ensures |Reverse(q)| == |q|
    ensures forall x :: x in Reverse(q) <==> x in q
    ensures Distinct(q) ==> Distinct(Reverse(q))
  {
    if q != [] {
      ReverseKeeps(q[1..]);
      assert q == [q[0]] + q[1..];
      if Distinct(q) {
        assert Distinct(q[1..]);
        assert q[0] !in q[1..];
      }
    }
  }

  lemma {:induction false} ReverseAppend<T>(q: seq<T>, x: T)
    ensures Reverse(q + [x]) == [x] + Reverse(q)
  {
    if q == [] {
      assert [x][1..] == [];
    } else {
      assert (q + [x])[1..] == q[1..] + [x];
      ReverseAppend(q[1..], x);
      assert [x] + Reverse(q[1..]) + [q[0]] == [x] + (Reverse(q[1..]) + [q[0]]);
    }
  }
}
