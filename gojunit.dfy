/** The result types of the JUnit report reader (gojunit/types.go) and the
    recursive totals of a suite tree. */
module GoJunit {
  import opened Seqs

  const StatusPassed: string := "passed"
  const StatusSkipped: string := "skipped"
  const StatusFailed: string := "failed"
  const StatusError: string := "error"

  /** One of the four statuses the totals know about; the reader may record any other. */
  predicate IsKnownStatus(status: string) {
    status == StatusPassed || status == StatusSkipped || status == StatusFailed || status == StatusError
  }

  datatype Result = Result(status: string, message: string, kind: string, desc: string)

  datatype Test = Test(
    name: string,
    classname: string,
    filename: string,
    durationMs: int,
    result: Result,
    properties: map<string, string>,
    systemOut: string,
    systemErr: string)

  datatype Totals = Totals(tests: int, passed: int, skipped: int, failed: int, error: int, durationMs: int)

  /** A suite is a value: its nested suites are copies, not shared objects. */
  datatype Suite = Suite(
    name: string,
    packageName: string,
    properties: map<string, string>,
    tests: seq<Test>,
    suites: seq<Suite>,
    systemOut: string,
    systemErr: string,
    totals: Totals)

  /** The status of each test, in order. */
  function Statuses(ts: seq<Test>): seq<string> {
    seq(|ts|, k requires 0 <= k < |ts| => ts[k].result.status)
  }

  /** The duration of each test, in order. */
  function Durations(ts: seq<Test>): seq<int> {
    seq(|ts|, k requires 0 <= k < |ts| => ts[k].durationMs)
  }

  function Sum(ds: seq<int>): int {
    if ds == [] then 0 else Sum(ds[..|ds| - 1]) + ds[|ds| - 1]
  }

  lemma {:induction false} SumAppend(a: seq<int>, b: seq<int>)
    ensures Sum(a + b) == Sum(a) + Sum(b)
  {
    if b != [] {
      SumAppend(a, b[..|b| - 1]);
      assert (a + b)[..|a + b| - 1] == a + b[..|b| - 1];
    } else {
      assert a + b == a;
    }
  }

  lemma StatusesAppend(a: seq<Test>, b: seq<Test>)
    ensures Statuses(a + b) == Statuses(a) + Statuses(b)
    ensures Durations(a + b) == Durations(a) + Durations(b)
  {
  }

  /** The four known statuses never count an entry twice, and they account
      for every entry exactly when every status is a known one. */
  lemma {:induction false} CountsPartition(ss: seq<string>)
    ensures Count(ss, StatusPassed) + Count(ss, StatusSkipped) + Count(ss, StatusFailed) + Count(ss, StatusError) <= |ss|
    ensures Count(ss, StatusPassed) + Count(ss, StatusSkipped) + Count(ss, StatusFailed) + Count(ss, StatusError) == |ss|
            <==> forall k :: 0 <= k < |ss| ==> IsKnownStatus(ss[k])
  {
    if ss != [] {
      var init := ss[..|ss| - 1];
      CountsPartition(init);
      if forall k :: 0 <= k < |ss| ==> IsKnownStatus(ss[k]) {
        assert forall k :: 0 <= k < |init| ==> IsKnownStatus(init[k]) by {
          forall k | 0 <= k < |init| ensures IsKnownStatus(init[k]) {
            assert init[k] == ss[k];
          }
        }
      } else {
        var j :| 0 <= j < |ss| && !IsKnownStatus(ss[j]);
        if j < |ss| - 1 {
          assert init[j] == ss[j];
        }
      }
    }
  }

  function Add(a: Totals, b: Totals): Totals {
    Totals(a.tests + b.tests, a.passed + b.passed, a.skipped + b.skipped,
           a.failed + b.failed, a.error + b.error, a.durationMs + b.durationMs)
  }

  /** The totals of `n` tests with statuses `ss` and durations `ds`. */
  function Tally(n: int, ss: seq<string>, ds: seq<int>): Totals {
    Totals(n, Count(ss, StatusPassed), Count(ss, StatusSkipped), Count(ss, StatusFailed),
           Count(ss, StatusError), Sum(ds))
  }

  lemma TallyAppend(n: int, ss: seq<string>, ds: seq<int>, m: int, tt: seq<string>, es: seq<int>)
    ensures Tally(n + m, ss + tt, ds + es) == Add(Tally(n, ss, ds), Tally(m, tt, es))
  {
    CountAppend(ss, tt, StatusPassed);
    CountAppend(ss, tt, StatusSkipped);
    CountAppend(ss, tt, StatusFailed);
    CountAppend(ss, tt, StatusError);
    SumAppend(ds, es);
  }

  /** The totals of a flat list of tests, counted status by status. */
  function TotalsOf(ts: seq<Test>): Totals {
    Tally(|ts|, Statuses(ts), Durations(ts))
  }

  lemma TotalsOfAppend(a: seq<Test>, b: seq<Test>)
    ensures TotalsOf(a + b) == Add(TotalsOf(a), TotalsOf(b))
  {
    StatusesAppend(a, b);
    TallyAppend(|a|, Statuses(a), Durations(a), |b|, Statuses(b), Durations(b));
  }

  /** What Aggregate stores in a suite's Totals: the suite's own tests counted
      directly, plus the recomputed totals of each nested suite. The stored
      `totals` fields of `s` and of its nested suites are never read. */
  function SuiteTotals(s: Suite): Totals
    decreases s
  {
    Add(TotalsOf(s.tests), NestedTotals(s, |s.suites|))
  }

  /** The sum of SuiteTotals over the first `n` nested suites of `s`. */
  function NestedTotals(s: Suite, n: nat): Totals
    requires n <= |s.suites|
    decreases s, n
  {
    if n == 0 then Totals(0, 0, 0, 0, 0, 0)
    else Add(NestedTotals(s, n - 1), SuiteTotals(s.suites[n - 1]))
  }

  /** Every test of the tree in pre-order: the suite's own tests, then those of each nested suite. */
  function AllTests(s: Suite): seq<Test>
    decreases s
  {
    s.tests + NestedTests(s, |s.suites|)
  }

  function NestedTests(s: Suite, n: nat): seq<Test>
    requires n <= |s.suites|
    decreases s, n
  {
    if n == 0 then [] else NestedTests(s, n - 1) + AllTests(s.suites[n - 1])
  }

  /** The recursive sum Aggregate computes equals counting over the whole
      tree at once: Tests is the number of tests anywhere in the tree, each
      status field the number of them with exactly that status, and
      DurationMs the sum of all their durations. */
  lemma {:induction false} SuiteTotalsCountsTree(s: Suite)
    ensures SuiteTotals(s) == TotalsOf(AllTests(s))
    decreases s
  {
    NestedTotalsCountTree(s, |s.suites|);
    TotalsOfAppend(s.tests, NestedTests(s, |s.suites|));
  }

  lemma {:induction false} NestedTotalsCountTree(s: Suite, n: nat)
    requires n <= |s.suites|
    ensures NestedTotals(s, n) == TotalsOf(NestedTests(s, n))
    decreases s, n
  {
    if n > 0 {
      NestedTotalsCountTree(s, n - 1);
      SuiteTotalsCountsTree(s.suites[n - 1]);
      TotalsOfAppend(NestedTests(s, n - 1), AllTests(s.suites[n - 1]));
    }
  }

  /** The relation documented on Totals, Tests == Passed + Skipped + Failed + Error,
      holds exactly when every test in the tree has one of the four known statuses. */
  lemma TotalsBalanced(s: Suite)
    ensures var t := SuiteTotals(s);
      t.passed + t.skipped + t.failed + t.error <= t.tests
    ensures var t := SuiteTotals(s);
      t.tests == t.passed + t.skipped + t.failed + t.error
      <==> forall k :: 0 <= k < |AllTests(s)| ==> IsKnownStatus(AllTests(s)[k].result.status)
  {
    SuiteTotalsCountsTree(s);
    var ts := AllTests(s);
    var ss := Statuses(ts);
    CountsPartition(ss);
    assert forall k :: 0 <= k < |ts| ==> ss[k] == ts[k].result.status;
  }

  /** The stored totals play no part: aggregating again gives the same Totals. */
  lemma {:induction false} AggregateIdempotent(s: Suite, stale: Totals)
    ensures SuiteTotals(s.(totals := stale)) == SuiteTotals(s)
  {
    NestedTotalsIgnoreStored(s, s.(totals := stale), |s.suites|);
  }

  lemma {:induction false} NestedTotalsIgnoreStored(s: Suite, t: Suite, n: nat)
    requires s.suites == t.suites && n <= |s.suites|
    ensures NestedTotals(s, n) == NestedTotals(t, n)
  {
    if n > 0 {
      NestedTotalsIgnoreStored(s, t, n - 1);
    }
  }

  /** The first loop of Suite.Aggregate: Tests is the number of the suite's
      own tests, each status field counts the tests with exactly that status,
      and DurationMs adds up their durations. */
  method CountTests(tests: seq<Test>) returns (totals: Totals)
    ensures totals == TotalsOf(tests)
  {
    totals := Totals(|tests|, 0, 0, 0, 0, 0);
    ghost var ss, ds := Statuses(tests), Durations(tests);
    for i := 0 to |tests|
      invariant totals == Tally(|tests|, ss[..i], ds[..i])
    {
      var test := tests[i];
      PrefixSnoc(ss, i);
      PrefixSnoc(ds, i);
      totals := totals.(durationMs := totals.durationMs + test.durationMs);
      var status := test.result.status;
      if status == StatusPassed {
        totals := totals.(passed := totals.passed + 1);
      } else if status == StatusSkipped {
        totals := totals.(skipped := totals.skipped + 1);
      } else if status == StatusFailed {
        totals := totals.(failed := totals.failed + 1);
      } else if status == StatusError {
        totals := totals.(error := totals.error + 1);
      }
    }
    assert ss[..|tests|] == ss && ds[..|tests|] == ds;
  }

  /** The `*Suite` receiver of Aggregate: a reference to a suite value. */
  class SuiteRef {
    var value: Suite

    constructor (s: Suite)
      ensures value == s
    {
      value := s;
    }

    /** Suite.Aggregate: recomputes the totals from the tests and nested
        suites and assigns them to this suite's Totals; every other field,
        including the nested suites and their stored totals, is unchanged,
        because the nested suites are aggregated on copies. */
    method Aggregate()
      modifies this
      ensures value == old(value).(totals := SuiteTotals(old(value)))
      decreases value
    {
      var s := value;
      var totals := CountTests(s.tests);

      for i := 0 to |s.suites|
        modifies {}
        invariant totals == Add(TotalsOf(s.tests), NestedTotals(s, i))
      {
        var copy := new SuiteRef(s.suites[i]);
        copy.Aggregate();
        var nested := copy.value.totals;
        totals := Totals(totals.tests + nested.tests, totals.passed + nested.passed,
                         totals.skipped + nested.skipped, totals.failed + nested.failed,
                         totals.error + nested.error, totals.durationMs + nested.durationMs);
      }

      value := value.(totals := totals);
    }
  }
}
