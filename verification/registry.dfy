/**
  The expectation registry: the ordered list of live expectations and the append-only
  list of expectations whose validity check failed, with the operations that register
  into it, remove from it and assert over it.
 */
module Registry {
  import opened Expectations

  /** The state of one server: `_expectations` and `errors`. */
  datatype Server = Server(expectations: seq<Expectation>, errors: seq<Expectation>)

  /** A freshly constructed server. */
  const Initial := Server([], [])

  /** `expect`: registers an expectation behind all existing ones. */
  function Expect(s: Server, e: Expectation): (s': Server)
    ensures |s'.expectations| == |s.expectations| + 1
    ensures s'.expectations[|s.expectations|] == e
    ensures s'.expectations[..|s.expectations|] == s.expectations
    ensures s'.errors == s.errors
  {
    s.(expectations := s.expectations + [e])
  }

  /** `Array.prototype.findIndex` by identity: the first position holding the object `ref`, or -1. */
  function FindIndex(xs: seq<Expectation>, ref: nat): (i: int)
    ensures -1 <= i < |xs|
    ensures i >= 0 ==> xs[i].ref == ref
    ensures forall j :: 0 <= j < |xs| && (i == -1 || j < i) ==> xs[j].ref != ref
    decreases |xs|
  {
    if |xs| == 0 then -1
    else if xs[0].ref == ref then 0
    else
      var i := FindIndex(xs[1..], ref);
      if i == -1 then -1 else i + 1
  }

  /** `Array.prototype.splice(start, 1)`: a negative start counts from the end; a start past the end removes nothing. */
  function Splice<T>(xs: seq<T>, start: int): (ys: seq<T>)
    ensures 0 <= start < |xs| ==> |ys| == |xs| - 1
    ensures 0 <= start < |xs| ==> forall j :: 0 <= j < |ys| ==> ys[j] == if j < start then xs[j] else xs[j + 1]
    ensures -|xs| <= start < 0 ==> ys == xs[..|xs| + start] + xs[|xs| + start + 1..]
    ensures start < -|xs| ==> ys == if |xs| == 0 then xs else xs[1..]
    ensures start >= |xs| ==> ys == xs
  {
    var k := if start < 0 then (if |xs| + start < 0 then 0 else |xs| + start)
             else if start > |xs| then |xs| else start;
    if k < |xs| then xs[..k] + xs[k + 1..] else xs
  }

  /** Removal after a match: find the matched object by identity, then splice it out. */
  function RemoveByIdentity(xs: seq<Expectation>, e: Expectation): seq<Expectation>
  {
    Splice(xs, FindIndex(xs, e.ref))
  }

  /** Entries with the same identity are the same object. */
  ghost predicate Coherent(xs: seq<Expectation>)
  {
    forall i, j :: 0 <= i < |xs| && 0 <= j < |xs| && xs[i].ref == xs[j].ref ==> xs[i] == xs[j]
  }

  /**
    Removing by identity removes exactly the entry at `i` when no earlier entry is the
    same object; all other entries keep their relative order.
   */
  lemma RemoveByIdentityAt(xs: seq<Expectation>, i: nat)
    requires Coherent(xs)
    requires i < |xs|
    requires forall j :: 0 <= j < i ==> xs[j] != xs[i]
    ensures RemoveByIdentity(xs, xs[i]) == xs[..i] + xs[i + 1..]
  {
    var k := FindIndex(xs, xs[i].ref);
    assert k == i;
  }

  /** Splicing out one entry keeps the registry coherent. */
  lemma SpliceCoherent(xs: seq<Expectation>, start: int)
    requires Coherent(xs)
    ensures Coherent(Splice(xs, start))
  {
    var ys := Splice(xs, start);
    if |ys| < |xs| {
      var k :| 0 <= k < |xs| && ys == xs[..k] + xs[k + 1..];
      forall a, b | 0 <= a < |ys| && 0 <= b < |ys| && ys[a].ref == ys[b].ref
        ensures ys[a] == ys[b]
      {
        var a' := if a < k then a else a + 1;
        var b' := if b < k then b else b + 1;
        assert ys[a] == xs[a'] && ys[b] == xs[b'];
      }
    }
  }

  /** Registering an object keeps the registry coherent unless another object already uses its identity. */
  lemma ExpectCoherent(s: Server, e: Expectation)
    requires Coherent(s.expectations)
    requires forall j :: 0 <= j < |s.expectations| && s.expectations[j].ref == e.ref ==> s.expectations[j] == e
    ensures Coherent(Expect(s, e).expectations)
  {
  }

  /** The outcome of an assertion call: it returns silently, or throws naming the offending expectations. */
  datatype Verdict = Passed | Raised(offenders: seq<Expectation>)

  /** `validate`: throws iff some matched expectation failed its validity check; the log is not cleared. */
  function Validate(s: Server): (v: Verdict)
    ensures v.Raised? <==> |s.errors| > 0
    ensures v.Raised? ==> v.offenders == s.errors
  {
    if |s.errors| > 0 then Raised(s.errors) else Passed
  }

  /** `allExpectationsMatched`: throws iff some expectation is still registered. */
  function AllExpectationsMatched(s: Server): (v: Verdict)
    ensures v.Raised? <==> |s.expectations| > 0
    ensures v.Raised? ==> v.offenders == s.expectations
  {
    if |s.expectations| > 0 then Raised(s.expectations) else Passed
  }
}
