/** The shape every hand-written `Validate` method of the service has: a
    `switch` whose cases run in order and whose first failing case decides
    the error. */
module Validation {
  import opened Wrappers
  import opened Errors

  /** An optional text field of an update passes when absent or non-empty. */
  predicate PresentText(f: Option<string>)
  {
    f.Some? ==> f.value != ""
  }

  /** An optional number field of an update passes when absent or non-zero. */
  predicate PresentNumber(f: Option<int>)
  {
    f.Some? ==> f.value != 0
  }

  /** One case of a validation switch: whether the input passes it, and the
      error returned when it does not. */
  datatype Check = Check(ok: bool, err: Error)

  /** Every case reports a real error. */
  predicate Reporting(checks: seq<Check>)
  {
    forall i | 0 <= i < |checks| :: checks[i].err != Nil
  }

  /** Different cases report different errors. */
  predicate Distinct(checks: seq<Check>)
  {
    forall i, j | 0 <= i < j < |checks| :: checks[i].err != checks[j].err
  }

  /** All cases before `k` pass. */
  predicate PassBefore(checks: seq<Check>, k: int)
    requires 0 <= k <= |checks|
  {
    forall j | 0 <= j < k :: checks[j].ok
  }

  /** The switch: the error of the first failing case, or nil when all pass.
      With distinct errors, the error names exactly the first failing case. */
  function FirstFailure(checks: seq<Check>): (r: Error)
    requires Reporting(checks)
    ensures r == Nil <==> forall i | 0 <= i < |checks| :: checks[i].ok
    ensures r != Nil ==> exists i | 0 <= i < |checks| ::
      !checks[i].ok && r == checks[i].err && PassBefore(checks, i)
    ensures Distinct(checks) ==> forall k | 0 <= k < |checks| ::
      (r == checks[k].err <==> !checks[k].ok && PassBefore(checks, k))
  {
    if checks == [] then Nil
    else if !checks[0].ok then checks[0].err
    else
      var rest := checks[1..];
      var r := FirstFailure(rest);
      assert r != Nil ==> exists i | 0 <= i < |checks| ::
        !checks[i].ok && r == checks[i].err && PassBefore(checks, i) by {
        if r != Nil {
          var k :| 0 <= k < |rest| && !rest[k].ok && r == rest[k].err && PassBefore(rest, k);
          assert checks[k + 1] == rest[k];
          assert PassBefore(checks, k + 1) by {
            forall j | 0 <= j < k + 1
              ensures checks[j].ok
            {
              if j > 0 {
                assert checks[j] == rest[j - 1];
              }
            }
          }
        }
      }
      assert Distinct(checks) ==> forall k | 0 <= k < |checks| ::
        (r == checks[k].err <==> !checks[k].ok && PassBefore(checks, k)) by {
        if Distinct(checks) {
          assert Distinct(rest);
          forall k | 0 <= k < |checks|
            ensures r == checks[k].err <==> !checks[k].ok && PassBefore(checks, k)
          {
            if k > 0 {
              assert checks[k] == rest[k - 1];
              assert PassBefore(checks, k) <==> PassBefore(rest, k - 1) by {
                assert forall j | 0 <= j < k - 1 :: rest[j] == checks[j + 1];
              }
            }
          }
        }
      }
      r
  }
}
