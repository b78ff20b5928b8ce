/**
 * The Security Hub output: `SecHubProvider.write_findings` sends the findings
 * to `batch_import_findings` in consecutive slices of at most 100, the API's
 * per-call ceiling.
 */
module SecHub {
  import opened Findings

  /** Findings per `batch_import_findings` call. */
  const BatchLimit: nat := 100

  function Min(a: int, b: int): int
  {
    if a <= b then a else b
  }

  /** The slices `s[0:100]`, `s[100:200]`, ... , as a reference definition. */
  function Batches<T>(s: seq<T>): seq<seq<T>>
    decreases |s|
  {
    if s == [] then []
    else
      var n := Min(|s|, BatchLimit);
      [s[..n]] + Batches(s[n..])
  }

  /** Concatenation of a sequence of batches. */
  function Flatten<T>(bs: seq<seq<T>>): seq<T>
  {
    if bs == [] then [] else bs[0] + Flatten(bs[1..])
  }

  /** Nothing dropped, duplicated or reordered: the batches put back together are the input. */
  lemma {:induction false} BatchesFlatten<T>(s: seq<T>)
    ensures Flatten(Batches(s)) == s
  {
    if s != [] {
      var n := Min(|s|, BatchLimit);
      BatchesFlatten(s[n..]);
      assert ([s[..n]] + Batches(s[n..]))[1..] == Batches(s[n..]);
      assert s[..n] + s[n..] == s;
    }
  }

  /** ceil(|s| / 100) batches; every batch is non-empty, at most 100 long, and all but the last exactly 100. */
  lemma {:induction false} BatchesSizes<T>(s: seq<T>)
    ensures |Batches(s)| == (|s| + BatchLimit - 1) / BatchLimit
    ensures forall k :: 0 <= k < |Batches(s)| ==> 0 < |Batches(s)[k]| <= BatchLimit
    ensures forall k :: 0 <= k < |Batches(s)| - 1 ==> |Batches(s)[k]| == BatchLimit
  {
    if s != [] {
      var n := Min(|s|, BatchLimit);
      BatchesSizes(s[n..]);
      var bs := Batches(s);
      assert bs == [s[..n]] + Batches(s[n..]);
      if |s| <= BatchLimit {
        assert s[n..] == [];
      }
      forall k | 0 < k < |bs| ensures bs[k] == Batches(s[n..])[k - 1] {
      }
    }
  }

  /** Batch k is exactly the slice `s[100k : 100k + 100]` (clamped at the end). */
  lemma {:induction false} BatchAt<T>(s: seq<T>, k: nat)
    requires k < |Batches(s)|
    ensures k * BatchLimit < |s|
    ensures Batches(s)[k] == s[k * BatchLimit .. Min(k * BatchLimit + BatchLimit, |s|)]
  {
    var n := Min(|s|, BatchLimit);
    var t := s[n..];
    assert Batches(s) == [s[..n]] + Batches(t);
    if k > 0 {
      assert |Batches(t)| > 0;
      assert n == BatchLimit;
      BatchAt(t, k - 1);
      var lo := (k - 1) * BatchLimit;
      var hi := Min(lo + BatchLimit, |t|);
      assert Batches(s)[k] == Batches(t)[k - 1] == t[lo..hi];
      assert n + lo == k * BatchLimit;
      assert n + hi == Min(k * BatchLimit + BatchLimit, |s|);
      SliceOfSuffix(s, n, lo, hi);
    }
  }

  lemma SliceOfSuffix<T>(s: seq<T>, n: nat, lo: nat, hi: nat)
    requires n <= |s| && lo <= hi <= |s| - n
    ensures s[n..][lo..hi] == s[n + lo .. n + hi]
  {
    var a, b := s[n..][lo..hi], s[n + lo .. n + hi];
    assert |a| == |b|;
    forall i | 0 <= i < |a| ensures a[i] == b[i] {
      assert a[i] == s[n..][lo + i] == s[n + lo + i];
    }
  }

  /** 250 findings go out as three calls of 100, 100 and 50. */
  lemma TwoHundredFiftyFindings<T>(s: seq<T>)
    requires |s| == 250
    ensures |Batches(s)| == 3
    ensures |Batches(s)[0]| == 100 && |Batches(s)[1]| == 100 && |Batches(s)[2]| == 50
  {
    BatchesSizes(s);
    BatchAt(s, 2);
  }

  /**
   * `write_findings(findings)`: nothing at all for an empty list; otherwise a
   * Security Hub client is created and `batch_import_findings` is called once
   * per slice, in order. `calls` is the sequence of batches passed; the source
   * returns None.
   */
  method WriteFindings(findings: seq<Finding>) returns (clientCreated: bool, calls: seq<seq<Finding>>)
    ensures clientCreated <==> findings != []
    ensures calls == Batches(findings)
  {
    clientCreated, calls := false, [];
    if findings != [] {
      clientCreated := true;
      var n := |findings|;
      var i := 0;
      while i < n
        invariant 0 <= i
        invariant calls + Batches(findings[Min(i, n)..]) == Batches(findings)
      {
        var hi := Min(i + BatchLimit, n);
        assert Batches(findings[i..]) == [findings[i..hi]] + Batches(findings[hi..]) by {
          assert findings[i..][..hi - i] == findings[i..hi];
          assert findings[i..][hi - i..] == findings[hi..];
        }
        calls := calls + [findings[i..hi]];
        i := i + BatchLimit;
      }
      assert findings[n..] == [];
    }
  }
}
