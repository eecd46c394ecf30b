/** The result-tallying runner `TestRunner` (tests/test_aws_sso.py:21-62). */
module Runner {

  /** How one check ends: it returned without a warning, it returned after
      exactly one warning, or it raised. No check of the suite warns more than
      once, and none warns and then raises. */
  datatype Verdict = Pass | Warned | Fail

  /** The runner's three counters. */
  datatype Counts = Counts(passed: nat, failed: nat, warnings: nat)

  /** The counters once a check with verdict `v` has run its body: a warning
      if it warned, nothing else yet. */
  function Warnings(c: Counts, v: Verdict): Counts
  {
    c.(warnings := c.warnings + (if v == Warned then 1 else 0))
  }

  /** The counters after one more check with verdict `v`: its warning, then
      `passed` or `failed`. */
  function Record(c: Counts, v: Verdict): Counts
  {
    var w := Warnings(c, v);
    if v == Fail then w.(failed := w.failed + 1) else w.(passed := w.passed + 1)
  }

  /** Recording a check moves exactly one of `passed` and `failed`, the latter
      exactly when it failed; it adds a warning exactly when the check warned,
      and a warning only ever comes with a pass. */
  lemma RecordOneMore(c: Counts, v: Verdict)
    ensures var r := Record(c, v);
      && r.passed + r.failed == c.passed + c.failed + 1
      && (r.failed == c.failed + 1 <==> v == Fail)
      && (r.warnings == c.warnings + 1 <==> v == Warned)
      && (r.warnings == c.warnings + 1 ==> r.passed == c.passed + 1)
  {
  }

  /** The counters after running checks with verdicts `vs`, in order, from zero. */
  function Tally(vs: seq<Verdict>): (c: Counts)
    ensures c.passed + c.failed == |vs|
    ensures c.warnings <= c.passed
  {
    if vs == [] then Counts(0, 0, 0)
    else
      var front := vs[..|vs| - 1];
      assert vs == front + [vs[|vs| - 1]];
      Record(Tally(front), vs[|vs| - 1])
  }

  /** Nothing is counted as failed exactly when no check failed. */
  lemma {:induction false} TallyNoFailure(vs: seq<Verdict>)
    ensures Tally(vs).failed == 0 <==> Fail !in vs
  {
    if vs != [] {
      var front := vs[..|vs| - 1];
      assert vs == front + [vs[|vs| - 1]];
      TallyNoFailure(front);
    }
  }

  /** Tallying one more verdict is recording it. */
  lemma TallyAppend(vs: seq<Verdict>, v: Verdict)
    ensures Tally(vs + [v]) == Record(Tally(vs), v)
  {
    assert (vs + [v])[..|vs|] == vs;
  }

  /** The failing verdicts of `vs`, in order. */
  function Fails(vs: seq<Verdict>): seq<Verdict>
  {
    if vs == [] then [] else (if vs[0] == Fail then [Fail] else []) + Fails(vs[1..])
  }

  /** The failure counter counts the failing verdicts. */
  lemma {:induction false} FailsCount(vs: seq<Verdict>)
    ensures Tally(vs).failed == |Fails(vs)|
  {
    if vs != [] {
      FailsCount(vs[1..]);
      TallyPrepend(vs[0], vs[1..]);
      assert vs == [vs[0]] + vs[1..];
    }
  }

  /** Tallying a verdict in front adds its count to the rest. */
  lemma {:induction false} TallyPrepend(v: Verdict, vs: seq<Verdict>)
    ensures Tally([v] + vs).failed == Tally(vs).failed + (if v == Fail then 1 else 0)
    ensures Tally([v] + vs).passed == Tally(vs).passed + (if v == Fail then 0 else 1)
    ensures Tally([v] + vs).warnings == Tally(vs).warnings + (if v == Warned then 1 else 0)
    decreases |vs|
  {
    if vs == [] {
      assert [v] + vs == [] + [v];
      TallyAppend([], v);
    } else {
      var front, last := vs[..|vs| - 1], vs[|vs| - 1];
      assert vs == front + [last];
      assert [v] + vs == ([v] + front) + [last];
      TallyAppend([v] + front, last);
      TallyAppend(front, last);
      TallyPrepend(v, front);
    }
  }

  class TestRunner {
    var passed: nat
    var failed: nat
    var warnings: nat

    /** The counters as a value. */
    function Counters(): Counts
      reads this
    {
      Counts(passed, failed, warnings)
    }

    constructor ()
      ensures Counters() == Counts(0, 0, 0)
    {
      passed, failed, warnings := 0, 0, 0;
    }

    /** `test(name, func)` once `func` has run: a check that raised, whatever the
        exception, counts as failed, one that returned as passed; the result
        says which. */
    method Test(raised: bool) returns (ok: bool)
      modifies this
      ensures ok == !raised
      ensures passed == old(passed) + (if raised then 0 else 1)
      ensures failed == old(failed) + (if raised then 1 else 0)
      ensures warnings == old(warnings)
    {
      if raised {
        failed := failed + 1;
        ok := false;
      } else {
        passed := passed + 1;
        ok := true;
      }
    }

    /** `warn(message)`: only the warning counter moves. */
    method Warn()
      modifies this
      ensures warnings == old(warnings) + 1
      ensures passed == old(passed) && failed == old(failed)
    {
      warnings := warnings + 1;
    }

    /** `summary()`: success exactly when nothing failed, however many warnings. */
    method Summary() returns (success: bool)
      ensures success <==> failed == 0
    {
      success := failed == 0;
    }
  }
}
