/**
 * The assertion helpers of both programs as pure functions: each check
 * passes, or fails with a report naming the check and the values compared.
 * A program is its list of checks; it stops at the first failure.
 */
module Checks {
  import opened Wrappers
  import opened Encoding

  datatype Failure =
    | ValueMismatch(name: string, actual: int, expected: int)
    | ElementsMismatch(name: string, actualElements: seq<int>, expectedElements: seq<int>)
    | ByteMismatch(name: string, index: nat, actual: int, expected: int)

  /** assertEqual in Swift and ASSERT_EQUAL in C: fails exactly when actual != expected. */
  function AssertEqual(actual: int, expected: int, name: string): (r: Outcome<Failure>)
    ensures r.Pass? <==> actual == expected
    ensures r.Fail? ==> r.error == ValueMismatch(name, actual, expected)
  {
    if actual != expected then Fail(ValueMismatch(name, actual, expected)) else Pass
  }

  /**
   * Swift's elementsEqual: walk both sequences in step; they are equal when
   * they run out together and every pair of elements matched.
   */
  function ElementsEqual(a: seq<int>, b: seq<int>): (r: bool)
    ensures r <==> |a| == |b| && forall i :: 0 <= i < |a| ==> a[i] == b[i]
  {
    if |a| == 0 || |b| == 0 then |a| == 0 && |b| == 0
    else
      var rest := ElementsEqual(a[1..], b[1..]);
      assert rest <==> |a[1..]| == |b[1..]| && forall i :: 0 <= i < |a[1..]| ==> a[1..][i] == b[1..][i];
      a[0] == b[0] && rest
  }

  /** assertElementsEqual: fails unless both sequences have the same length and elements. */
  function AssertElementsEqual(actual: seq<int>, expected: seq<int>, name: string): (r: Outcome<Failure>)
    ensures r.Pass? <==> actual == expected
    ensures r.Fail? ==> r.error == ElementsMismatch(name, actual, expected)
  {
    if ElementsEqual(actual, expected) then Pass else Fail(ElementsMismatch(name, actual, expected))
  }

  /**
   * ASSERT_BYTES_EQUAL: compare actual[offset + i] with expected[i] for
   * i = 0, 1, ..., n - 1, stopping at the first mismatch, which is reported
   * under the index offset + i into actual.
   */
  function AssertBytesEqual(actual: seq<byte>, offset: nat, expected: seq<byte>, n: nat, name: string): (r: Outcome<Failure>)
    requires offset + n <= |actual| && n <= |expected|
    ensures r.Pass? <==> forall i :: 0 <= i < n ==> actual[offset + i] == expected[i]
    ensures r.Fail? ==> IsFirstByteMismatch(r.error, actual, offset, expected, n, name)
  {
    CompareFrom(actual, offset, expected, n, name, 0)
  }

  /** Comparing n bytes at offset against all n expected bytes passes exactly when that slice is the expected array. */
  lemma BytesEqualIffSlice(actual: seq<byte>, offset: nat, expected: seq<byte>, n: nat, name: string)
    requires offset + n <= |actual| && n == |expected|
    ensures AssertBytesEqual(actual, offset, expected, n, name).Pass? <==> actual[offset..offset + n] == expected
  {
    if actual[offset..offset + n] == expected {
      forall i | 0 <= i < n
        ensures actual[offset + i] == expected[i]
      {
        assert actual[offset..offset + n][i] == actual[offset + i];
      }
    }
    if AssertBytesEqual(actual, offset, expected, n, name).Pass? {
      assert actual[offset..offset + n] == expected;
    }
  }

  /** f reports the first i < n with actual[offset + i] != expected[i]. */
  predicate IsFirstByteMismatch(f: Failure, actual: seq<byte>, offset: nat, expected: seq<byte>, n: nat, name: string)
    requires offset + n <= |actual| && n <= |expected|
  {
    && f.ByteMismatch?
    && f.name == name
    && offset <= f.index < offset + n
    && f.actual == actual[f.index]
    && f.expected == expected[f.index - offset]
    && f.actual != f.expected
    && forall i :: 0 <= i < f.index - offset ==> actual[offset + i] == expected[i]
  }

  /** The comparison loop of ASSERT_BYTES_EQUAL from iteration i on. */
  function CompareFrom(actual: seq<byte>, offset: nat, expected: seq<byte>, n: nat, name: string, i: nat): (r: Outcome<Failure>)
    requires offset + n <= |actual| && n <= |expected| && i <= n
    requires forall j :: 0 <= j < i ==> actual[offset + j] == expected[j]
    ensures r.Pass? <==> forall j :: 0 <= j < n ==> actual[offset + j] == expected[j]
    ensures r.Fail? ==> IsFirstByteMismatch(r.error, actual, offset, expected, n, name)
    decreases n - i
  {
    if i == n then Pass
    else if actual[offset + i] != expected[i] then
      Fail(ByteMismatch(name, offset + i, actual[offset + i], expected[i]))
    else CompareFrom(actual, offset, expected, n, name, i + 1)
  }

  /** A program of checks run in order: the first failure, or Pass when every check passes. */
  function Run(checks: seq<Outcome<Failure>>): (r: Outcome<Failure>)
    ensures r.Pass? <==> forall i :: 0 <= i < |checks| ==> checks[i].Pass?
    ensures r.Fail? ==> exists i :: 0 <= i < |checks| && checks[i] == r && forall j :: 0 <= j < i ==> checks[j].Pass?
  {
    if |checks| == 0 then Pass
    else if checks[0].Fail? then checks[0]
    else
      var rest := Run(checks[1..]);
      assert forall i :: 0 < i < |checks| ==> checks[i] == checks[1..][i - 1];
      rest
  }

  /** Running two programs of checks back to back reports the first one's failure, if any, and otherwise the second one's outcome. */
  lemma {:induction false} RunConcat(a: seq<Outcome<Failure>>, b: seq<Outcome<Failure>>)
    ensures Run(a + b) == if Run(a).Fail? then Run(a) else Run(b)
    decreases |a|
  {
    if |a| == 0 {
      assert a + b == b;
    } else if a[0].Fail? {
      assert (a + b)[0] == a[0];
    } else {
      assert (a + b)[0] == a[0];
      assert (a + b)[1..] == a[1..] + b;
      RunConcat(a[1..], b);
    }
  }

  /** main's exit status: 0 after the last check, 1 at the first failing one. */
  function ExitStatus(r: Outcome<Failure>): (status: int)
    ensures status == 0 <==> r.Pass?
    ensures status == 0 || status == 1
  {
    if r.Pass? then 0 else 1
  }
}
