/** The report verdicts (parser.go: ParseTests, ParseTestsWithQuarantine)
    and the TestStats record they return (plugin.go). The XML reader is a
    parameter: for each file it yields the parsed suites, or nothing when
    the file cannot be read or parsed. */
module Report {
  import opened Wrappers
  import opened GoStrings
  import opened GoJunit
  import opened Paths
  import opened Dates
  import opened Quarantine
  import opened Seqs

  datatype TestStats = TestStats(testCount: int, failCount: int, passCount: int, skippedCount: int, errorCount: int)

  /** Why a run is rejected. */
  datatype ReportError =
    | FailuresFound(failed: nat, errors: nat)
    | QuarantineViolations(nonQuarantined: nat, expired: nat)

  /** The two counts an error reports, in the order its message gives them. */
  function FirstCount(e: ReportError): nat {
    match e
    case FailuresFound(f, _) => f
    case QuarantineViolations(q, _) => q
  }

  function SecondCount(e: ReportError): nat {
    match e
    case FailuresFound(_, r) => r
    case QuarantineViolations(_, x) => x
  }

  /** The words between the two counts, and after the second. */
  function Middle(e: ReportError): (w: string)
    ensures |w| > 1 && w[0] == ' '
    ensures w[1] == (if e.FailuresFound? then 'f' else 'n')
  {
    if e.FailuresFound? then " failed tests and " else " non-quarantined failed tests and "
  }

  function Ending(e: ReportError): (w: string)
    ensures w != [] && w[0] == ' '
  {
    if e.FailuresFound? then " errors" else " expired tests"
  }

  const Found: string := "found "

  /** The error text: "found %d failed tests and %d errors" for ParseTests,
      "found %d non-quarantined failed tests and %d expired tests" for
      ParseTestsWithQuarantine. It starts with "found ", and the first count
      reads back after it. */
  function Message(e: ReportError): (m: string)
    ensures |Found| <= |m| && m[..|Found|] == Found && ReadNumber(m[|Found|..]) == FirstCount(e)
  {
    CountedReads(Found, FirstCount(e), Middle(e), SecondCount(e), Ending(e));
    Counted(Found, FirstCount(e), Middle(e), SecondCount(e), Ending(e))
  }

  /** Reading the rest of a message: the words of the verdict follow the
      digits of the first count, and the second count reads back after them. */
  lemma MessageDecodes(e: ReportError)
    ensures var words := AfterNumber(Message(e)[|Found|..]);
      |Middle(e)| <= |words| && words[..|Middle(e)|] == Middle(e) &&
      ReadNumber(words[|Middle(e)|..]) == SecondCount(e)
  {
    CountedReads(Found, FirstCount(e), Middle(e), SecondCount(e), Ending(e));
  }

  /** The message determines the error: which verdict failed, and both counts. */
  lemma MessageInjective(a: ReportError, b: ReportError)
    ensures Message(a) == Message(b) ==> a == b
  {
    MessageDecodes(a);
    MessageDecodes(b);
    var words := AfterNumber(Message(a)[|Found|..]);
    if Message(a) == Message(b) {
      assert words[1] == Middle(a)[1] && words[1] == Middle(b)[1];
    }
  }

  /** gojunit.IngestFile: the suites of a report file, or None on error. */
  type Ingest = string -> Option<seq<Suite>>

  // ------------------------------------------------------------ what is counted

  /** The tests the verdicts look at in a list of suites: the direct tests of
      each suite, in order. Nested suites are not visited. */
  function TopLevelTests(suites: seq<Suite>): seq<Test> {
    if suites == [] then []
    else TopLevelTests(suites[..|suites| - 1]) + suites[|suites| - 1].tests
  }

  /** The suites a file contributes: none when it cannot be ingested. */
  function SuitesOf(file: string, ingest: Ingest): seq<Suite> {
    match ingest(file)
    case None => []
    case Some(suites) => suites
  }

  /** The tests counted over `files`, file after file. */
  function CountedTests(files: seq<string>, ingest: Ingest): seq<Test> {
    if files == [] then []
    else CountedTests(files[..|files| - 1], ingest) + TopLevelTests(SuitesOf(files[|files| - 1], ingest))
  }

  /** The statuses of the top-level tests of `suites`. SuiteStatuses and
      FileStatuses follow the suite loop and the file loop of the verdicts,
      one suite and one file per step, so that those loops' invariants are
      stated on them directly; CountedStatuses proves FileStatuses equal to
      Statuses(CountedTests(..)), the definition the verdict lemmas read. */
  function SuiteStatuses(suites: seq<Suite>): seq<string> {
    if suites == [] then []
    else SuiteStatuses(suites[..|suites| - 1]) + Statuses(suites[|suites| - 1].tests)
  }

  /** The statuses of the counted tests over `files`. */
  function FileStatuses(files: seq<string>, ingest: Ingest): seq<string> {
    if files == [] then []
    else FileStatuses(files[..|files| - 1], ingest) + SuiteStatuses(SuitesOf(files[|files| - 1], ingest))
  }

  /** The counters of a list of statuses: every entry raises TestCount, and
      each of the four known statuses its own counter. */
  function StatsOf(ss: seq<string>): TestStats {
    TestStats(|ss|, Count(ss, StatusFailed), Count(ss, StatusPassed), Count(ss, StatusSkipped), Count(ss, StatusError))
  }

  function AddStats(a: TestStats, b: TestStats): TestStats {
    TestStats(a.testCount + b.testCount, a.failCount + b.failCount, a.passCount + b.passCount,
              a.skippedCount + b.skippedCount, a.errorCount + b.errorCount)
  }

  /** The identifiers "classname.name" of the failed tests among the
      top-level tests of `suites`, in order. */
  function SuiteFailedIds(suites: seq<Suite>): seq<string> {
    if suites == [] then []
    else SuiteFailedIds(suites[..|suites| - 1]) + FailedIds(suites[|suites| - 1].tests)
  }

  function FailedIds(ts: seq<Test>): seq<string> {
    if ts == [] then []
    else
      var t := ts[|ts| - 1];
      FailedIds(ts[..|ts| - 1]) + (if t.result.status == StatusFailed then [t.classname + "." + t.name] else [])
  }

  function FileFailedIds(files: seq<string>, ingest: Ingest): seq<string> {
    if files == [] then []
    else FileFailedIds(files[..|files| - 1], ingest) + SuiteFailedIds(SuitesOf(files[|files| - 1], ingest))
  }

  /** How ParseTestsWithQuarantine files a failed test: not quarantined,
      quarantined with an expired quarantine, or quarantined and still covered. */
  datatype FailureClass = NotQuarantined | QuarantineExpired | QuarantineActive

  function Classification(id: string, doc: Document, now: Instant): FailureClass {
    if !Quarantined(id, doc) then NotQuarantined
    else if Expired(id, doc, now) then QuarantineExpired
    else QuarantineActive
  }

  /** The class of each failed test, in order. */
  function Classes(ids: seq<string>, doc: Document, now: Instant): seq<FailureClass> {
    seq(|ids|, k requires 0 <= k < |ids| => Classification(ids[k], doc, now))
  }

  /** Failed tests that no entry quarantines. */
  function NonQuarantinedCount(ids: seq<string>, doc: Document, now: Instant): nat {
    Count(Classes(ids, doc, now), NotQuarantined)
  }

  /** Failed tests that are quarantined but whose quarantine has expired. */
  function ExpiredCount(ids: seq<string>, doc: Document, now: Instant): nat {
    Count(Classes(ids, doc, now), QuarantineExpired)
  }

  /** Failed tests under a quarantine that still holds. */
  function ActiveCount(ids: seq<string>, doc: Document, now: Instant): nat {
    Count(Classes(ids, doc, now), QuarantineActive)
  }

  // ------------------------------------------------------------ counting steps

  lemma StatsSnoc(ss: seq<string>, status: string)
    ensures StatsOf(ss + [status]) ==
      TestStats(|ss| + 1,
                StatsOf(ss).failCount + (if status == StatusFailed then 1 else 0),
                StatsOf(ss).passCount + (if status == StatusPassed then 1 else 0),
                StatsOf(ss).skippedCount + (if status == StatusSkipped then 1 else 0),
                StatsOf(ss).errorCount + (if status == StatusError then 1 else 0))
  {
    CountSnoc(ss, status, StatusFailed);
    CountSnoc(ss, status, StatusPassed);
    CountSnoc(ss, status, StatusSkipped);
    CountSnoc(ss, status, StatusError);
  }

  lemma StatsAppend(a: seq<string>, b: seq<string>)
    ensures StatsOf(a + b) == AddStats(StatsOf(a), StatsOf(b))
  {
    CountAppend(a, b, StatusFailed);
    CountAppend(a, b, StatusPassed);
    CountAppend(a, b, StatusSkipped);
    CountAppend(a, b, StatusError);
    assert StatsOf(a + b) == TestStats(|a| + |b|, Count(a, StatusFailed) + Count(b, StatusFailed),
      Count(a, StatusPassed) + Count(b, StatusPassed), Count(a, StatusSkipped) + Count(b, StatusSkipped),
      Count(a, StatusError) + Count(b, StatusError));
  }

  lemma FailedIdsSnoc(ts: seq<Test>, k: nat)
    requires k < |ts|
    ensures ts[k].result.status == StatusFailed ==>
      FailedIds(ts[..k + 1]) == FailedIds(ts[..k]) + [ts[k].classname + "." + ts[k].name]
    ensures ts[k].result.status != StatusFailed ==> FailedIds(ts[..k + 1]) == FailedIds(ts[..k])
  {
    assert ts[..k + 1][..k] == ts[..k];
    assert FailedIds(ts[..k]) + [] == FailedIds(ts[..k]);
  }

  lemma ClassesAppend(a: seq<string>, b: seq<string>, doc: Document, now: Instant)
    ensures Classes(a + b, doc, now) == Classes(a, doc, now) + Classes(b, doc, now)
  {
  }

  lemma ClassCountsAppend(a: seq<string>, b: seq<string>, doc: Document, now: Instant)
    ensures NonQuarantinedCount(a + b, doc, now) == NonQuarantinedCount(a, doc, now) + NonQuarantinedCount(b, doc, now)
    ensures ExpiredCount(a + b, doc, now) == ExpiredCount(a, doc, now) + ExpiredCount(b, doc, now)
  {
    ClassesAppend(a, b, doc, now);
    CountAppend(Classes(a, doc, now), Classes(b, doc, now), NotQuarantined);
    CountAppend(Classes(a, doc, now), Classes(b, doc, now), QuarantineExpired);
  }

  lemma ClassifySnoc(ids: seq<string>, id: string, doc: Document, now: Instant)
    ensures var c := Classification(id, doc, now);
      NonQuarantinedCount(ids + [id], doc, now) == NonQuarantinedCount(ids, doc, now) + (if c == NotQuarantined then 1 else 0) &&
      ExpiredCount(ids + [id], doc, now) == ExpiredCount(ids, doc, now) + (if c == QuarantineExpired then 1 else 0)
  {
    ClassesAppend(ids, [id], doc, now);
    assert Classes([id], doc, now) == [Classification(id, doc, now)];
    CountSnoc(Classes(ids, doc, now), Classification(id, doc, now), NotQuarantined);
    CountSnoc(Classes(ids, doc, now), Classification(id, doc, now), QuarantineExpired);
  }

  /** One more file: an ingested file adds its suites' statuses and failed
      identifiers; a file that cannot be ingested adds nothing. */
  lemma FileStep(files: seq<string>, i: nat, ingest: Ingest)
    requires i < |files|
    ensures ingest(files[i]).None? ==> FileStatuses(files[..i + 1], ingest) == FileStatuses(files[..i], ingest)
    ensures ingest(files[i]).None? ==> FileFailedIds(files[..i + 1], ingest) == FileFailedIds(files[..i], ingest)
    ensures ingest(files[i]).Some? ==>
      FileStatuses(files[..i + 1], ingest) == FileStatuses(files[..i], ingest) + SuiteStatuses(ingest(files[i]).value)
    ensures ingest(files[i]).Some? ==>
      FileFailedIds(files[..i + 1], ingest) == FileFailedIds(files[..i], ingest) + SuiteFailedIds(ingest(files[i]).value)
  {
    assert files[..i + 1][..i] == files[..i];
    assert FileStatuses(files[..i], ingest) + [] == FileStatuses(files[..i], ingest);
    assert FileFailedIds(files[..i], ingest) + [] == FileFailedIds(files[..i], ingest);
  }

  // ---------------------------------------------------------------- properties

  /** The statuses of the top-level tests, suite after suite. */
  lemma {:induction false} SuiteStatusesTopLevel(suites: seq<Suite>)
    ensures SuiteStatuses(suites) == Statuses(TopLevelTests(suites))
  {
    if suites != [] {
      var init := suites[..|suites| - 1];
      SuiteStatusesTopLevel(init);
      StatusesAppend(TopLevelTests(init), suites[|suites| - 1].tests);
    }
  }

  /** The statuses the verdicts count are those of the counted tests. */
  lemma {:induction false} CountedStatuses(files: seq<string>, ingest: Ingest)
    ensures FileStatuses(files, ingest) == Statuses(CountedTests(files, ingest))
  {
    if files != [] {
      var init := files[..|files| - 1];
      var suites := SuitesOf(files[|files| - 1], ingest);
      CountedStatuses(init, ingest);
      SuiteStatusesTopLevel(suites);
      StatusesAppend(CountedTests(init, ingest), TopLevelTests(suites));
    }
  }

  /** Only the direct tests of each suite are counted: nested suites, stored
      totals and every other field play no part. */
  lemma {:induction false} TopLevelIgnoresNested(a: seq<Suite>, b: seq<Suite>)
    requires |a| == |b| && forall k :: 0 <= k < |a| ==> a[k].tests == b[k].tests
    ensures TopLevelTests(a) == TopLevelTests(b)
  {
    if a != [] {
      TopLevelIgnoresNested(a[..|a| - 1], b[..|b| - 1]);
    }
  }

  /** Every counted test raises TestCount, so the four status counters never
      exceed it; they add up to it exactly when every counted test has one of
      the four known statuses. */
  lemma StatsBalanced(files: seq<string>, ingest: Ingest)
    ensures var st := StatsOf(FileStatuses(files, ingest));
      st.passCount + st.failCount + st.skippedCount + st.errorCount <= st.testCount
    ensures var st := StatsOf(FileStatuses(files, ingest));
      var ts := CountedTests(files, ingest);
      st.passCount + st.failCount + st.skippedCount + st.errorCount == st.testCount
      <==> forall k :: 0 <= k < |ts| ==> IsKnownStatus(ts[k].result.status)
  {
    CountedStatuses(files, ingest);
    var ts := CountedTests(files, ingest);
    CountsPartition(Statuses(ts));
    assert forall k :: 0 <= k < |ts| ==> Statuses(ts)[k] == ts[k].result.status;
  }

  lemma {:induction false} FailedIdsCount(ts: seq<Test>)
    ensures |FailedIds(ts)| == Count(Statuses(ts), StatusFailed)
  {
    if ts != [] {
      FailedIdsCount(ts[..|ts| - 1]);
      assert Statuses(ts)[..|ts| - 1] == Statuses(ts[..|ts| - 1]);
    }
  }

  lemma {:induction false} SuiteFailedIdsCount(suites: seq<Suite>)
    ensures |SuiteFailedIds(suites)| == Count(SuiteStatuses(suites), StatusFailed)
  {
    if suites != [] {
      var init := suites[..|suites| - 1];
      SuiteFailedIdsCount(init);
      FailedIdsCount(suites[|suites| - 1].tests);
      CountAppend(SuiteStatuses(init), Statuses(suites[|suites| - 1].tests), StatusFailed);
    }
  }

  /** One identifier is classified per failed test: as many as FailCount. */
  lemma {:induction false} FileFailedIdsCount(files: seq<string>, ingest: Ingest)
    ensures |FileFailedIds(files, ingest)| == StatsOf(FileStatuses(files, ingest)).failCount
  {
    if files != [] {
      var init := files[..|files| - 1];
      var suites := SuitesOf(files[|files| - 1], ingest);
      FileFailedIdsCount(init, ingest);
      SuiteFailedIdsCount(suites);
      CountAppend(FileStatuses(init, ingest), SuiteStatuses(suites), StatusFailed);
    }
  }

  lemma {:induction false} ClassesPartition(cs: seq<FailureClass>)
    ensures Count(cs, NotQuarantined) + Count(cs, QuarantineExpired) + Count(cs, QuarantineActive) == |cs|
  {
    if cs != [] {
      var init, last := cs[..|cs| - 1], cs[|cs| - 1];
      ClassesPartition(init);
      assert Count(cs, NotQuarantined) == Count(init, NotQuarantined) + (if last == NotQuarantined then 1 else 0);
      assert Count(cs, QuarantineExpired) == Count(init, QuarantineExpired) + (if last == QuarantineExpired then 1 else 0);
      assert Count(cs, QuarantineActive) == Count(init, QuarantineActive) + (if last == QuarantineActive then 1 else 0);
    }
  }

  /** Every failed test falls in exactly one of the three classes. */
  lemma FailuresPartition(ids: seq<string>, doc: Document, now: Instant)
    ensures NonQuarantinedCount(ids, doc, now) + ExpiredCount(ids, doc, now) + ActiveCount(ids, doc, now) == |ids|
  {
    ClassesPartition(Classes(ids, doc, now));
  }

  /** The quarantine verdict passes exactly when every failed test is
      quarantined by some entry and no entry naming it has expired. */
  lemma ViolationFree(ids: seq<string>, doc: Document, now: Instant)
    ensures NonQuarantinedCount(ids, doc, now) == 0 && ExpiredCount(ids, doc, now) == 0
      <==> forall k :: 0 <= k < |ids| ==> Quarantined(ids[k], doc) && !Expired(ids[k], doc, now)
  {
    var cs := Classes(ids, doc, now);
    CountZero(cs, NotQuarantined);
    CountZero(cs, QuarantineExpired);
    assert forall k :: 0 <= k < |ids| ==> cs[k] == Classification(ids[k], doc, now);
  }

  /** Only failed tests can break the quarantine verdict: tests with status
      "error" are never classified, so with no failed test the verdict
      passes whatever the error count, and any violation means ParseTests
      would fail too. */
  lemma QuarantineNeedsFailures(files: seq<string>, ingest: Ingest, doc: Document, now: Instant)
    ensures var ids := FileFailedIds(files, ingest);
      NonQuarantinedCount(ids, doc, now) > 0 || ExpiredCount(ids, doc, now) > 0
      ==> StatsOf(FileStatuses(files, ingest)).failCount > 0
  {
    FileFailedIdsCount(files, ingest);
  }

  // ------------------------------------------------------------------ verdicts

  /** ParseTests: resolve the report files, count the direct tests of every
      suite of every file that can be ingested (files that cannot are
      skipped), and fail when any test failed or errored. With no files the
      counters stay at zero and there is no error. */
  method ParseTests(paths: seq<string>, env: Environment, ingest: Ingest)
    returns (stats: TestStats, err: Option<ReportError>)
    ensures stats == StatsOf(FileStatuses(ResolvedFiles(paths, env), ingest))
    ensures err.Some? <==> stats.failCount > 0 || stats.errorCount > 0
    ensures err.Some? ==> err.value == FailuresFound(stats.failCount, stats.errorCount)
    ensures ResolvedFiles(paths, env) == [] ==> stats == TestStats(0, 0, 0, 0, 0) && err == None
  {
    var files := GetFiles(paths, env);
    stats := TestStats(0, 0, 0, 0, 0);
    if |files| == 0 {
      return stats, None;
    }
    for i := 0 to |files|
      invariant stats == StatsOf(FileStatuses(files[..i], ingest))
    {
      FileStep(files, i, ingest);
      var suites := ingest(files[i]);
      if suites.None? {
        continue;
      }
      var fileStats := CountFile(suites.value);
      StatsAppend(FileStatuses(files[..i], ingest), SuiteStatuses(suites.value));
      stats := AddStats(stats, fileStats);
    }
    assert files[..|files|] == files;
    if stats.failCount > 0 || stats.errorCount > 0 {
      return stats, Some(FailuresFound(stats.failCount, stats.errorCount));
    }
    return stats, None;
  }

  /** ParseTestsWithQuarantine: count as ParseTests does, and classify each
      failed test against the quarantine list; the run fails only when some
      failed test is not quarantined or some quarantined failed test has an
      expired quarantine. Tests with status "error" never fail this verdict. */
  method ParseTestsWithQuarantine(paths: seq<string>, env: Environment, ingest: Ingest,
                                  doc: Document, now: Instant)
    returns (stats: TestStats, err: Option<ReportError>)
    ensures stats == StatsOf(FileStatuses(ResolvedFiles(paths, env), ingest))
    ensures var ids := FileFailedIds(ResolvedFiles(paths, env), ingest);
      err.Some? <==> NonQuarantinedCount(ids, doc, now) > 0 || ExpiredCount(ids, doc, now) > 0
    ensures var ids := FileFailedIds(ResolvedFiles(paths, env), ingest);
      err.Some? ==> err.value == QuarantineViolations(NonQuarantinedCount(ids, doc, now), ExpiredCount(ids, doc, now))
    ensures ResolvedFiles(paths, env) == [] ==> stats == TestStats(0, 0, 0, 0, 0) && err == None
  {
    var files := GetFiles(paths, env);
    stats := TestStats(0, 0, 0, 0, 0);
    var nonQuarantinedFailures := 0;
    var expiredTests := 0;
    if |files| == 0 {
      return stats, None;
    }
    for i := 0 to |files|
      invariant stats == StatsOf(FileStatuses(files[..i], ingest))
      invariant nonQuarantinedFailures == NonQuarantinedCount(FileFailedIds(files[..i], ingest), doc, now)
      invariant expiredTests == ExpiredCount(FileFailedIds(files[..i], ingest), doc, now)
    {
      FileStep(files, i, ingest);
      var suites := ingest(files[i]);
      if suites.None? {
        continue;
      }
      ghost var doneIds := FileFailedIds(files[..i], ingest);
      ClassCountsAppend(doneIds, SuiteFailedIds(suites.value), doc, now);
      var fileStats;
      fileStats, nonQuarantinedFailures, expiredTests :=
        CountFileWithQuarantine(suites.value, doc, now, nonQuarantinedFailures, expiredTests);
      StatsAppend(FileStatuses(files[..i], ingest), SuiteStatuses(suites.value));
      stats := AddStats(stats, fileStats);
    }
    assert files[..|files|] == files;
    if nonQuarantinedFailures > 0 || expiredTests > 0 {
      return stats, Some(QuarantineViolations(nonQuarantinedFailures, expiredTests));
    }
    return stats, None;
  }

  /** The body of the per-file loop of ParseTests: count the direct tests of
      every suite of one ingested file. */
  method CountFile(suites: seq<Suite>) returns (fileStats: TestStats)
    ensures fileStats == StatsOf(SuiteStatuses(suites))
  {
    fileStats := TestStats(0, 0, 0, 0, 0);
    for j := 0 to |suites|
      invariant fileStats == StatsOf(SuiteStatuses(suites[..j]))
    {
      assert suites[..j + 1][..j] == suites[..j];
      StatsAppend(SuiteStatuses(suites[..j]), Statuses(suites[j].tests));
      fileStats := CountSuite(suites[j].tests, fileStats);
    }
    assert suites[..|suites|] == suites;
  }

  /** The innermost loop of ParseTests, over the direct tests of one suite:
      every test raises TestCount and the counter of its status. */
  method CountSuite(tests: seq<Test>, statsIn: TestStats) returns (fileStats: TestStats)
    ensures fileStats == AddStats(statsIn, StatsOf(Statuses(tests)))
  {
    fileStats := statsIn;
    ghost var ss := Statuses(tests);
    for k := 0 to |tests|
      invariant fileStats == AddStats(statsIn, StatsOf(ss[..k]))
    {
      var test := tests[k];
      var status := test.result.status;
      PrefixSnoc(ss, k);
      StatsSnoc(ss[..k], status);
      fileStats := fileStats.(testCount := fileStats.testCount + 1);
      if status == StatusPassed {
        fileStats := fileStats.(passCount := fileStats.passCount + 1);
      } else if status == StatusFailed {
        fileStats := fileStats.(failCount := fileStats.failCount + 1);
      } else if status == StatusSkipped {
        fileStats := fileStats.(skippedCount := fileStats.skippedCount + 1);
      } else if status == StatusError {
        fileStats := fileStats.(errorCount := fileStats.errorCount + 1);
      }
    }
    assert ss[..|tests|] == ss;
  }

  /** The body of the per-file loop of ParseTestsWithQuarantine: count the
      direct tests of every suite of one ingested file, and advance the
      running counters of failed tests that are not quarantined and of
      failed tests whose quarantine has expired. */
  method CountFileWithQuarantine(suites: seq<Suite>, doc: Document, now: Instant,
                                 nonQuarantinedIn: int, expiredIn: int)
    returns (fileStats: TestStats, nonQuarantinedFailures: int, expiredTests: int)
    ensures fileStats == StatsOf(SuiteStatuses(suites))
    ensures nonQuarantinedFailures == nonQuarantinedIn + NonQuarantinedCount(SuiteFailedIds(suites), doc, now)
    ensures expiredTests == expiredIn + ExpiredCount(SuiteFailedIds(suites), doc, now)
  {
    fileStats := TestStats(0, 0, 0, 0, 0);
    nonQuarantinedFailures, expiredTests := nonQuarantinedIn, expiredIn;
    for j := 0 to |suites|
      invariant fileStats == StatsOf(SuiteStatuses(suites[..j]))
      invariant nonQuarantinedFailures == nonQuarantinedIn + NonQuarantinedCount(SuiteFailedIds(suites[..j]), doc, now)
      invariant expiredTests == expiredIn + ExpiredCount(SuiteFailedIds(suites[..j]), doc, now)
    {
      assert suites[..j + 1][..j] == suites[..j];
      ghost var done := SuiteStatuses(suites[..j]);
      ghost var doneIds := SuiteFailedIds(suites[..j]);
      StatsAppend(done, Statuses(suites[j].tests));
      ClassCountsAppend(doneIds, FailedIds(suites[j].tests), doc, now);
      fileStats, nonQuarantinedFailures, expiredTests :=
        CountSuiteWithQuarantine(suites[j].tests, doc, now, fileStats, nonQuarantinedFailures, expiredTests);
    }
    assert suites[..|suites|] == suites;
  }

  /** The innermost loop of ParseTestsWithQuarantine, over the direct tests
      of one suite: every test raises TestCount and the counter of its
      status, and a failed test is classified against the quarantine list. */
  method CountSuiteWithQuarantine(tests: seq<Test>, doc: Document, now: Instant,
                                  statsIn: TestStats, nonQuarantinedIn: int, expiredIn: int)
    returns (fileStats: TestStats, nonQuarantinedFailures: int, expiredTests: int)
    ensures fileStats == AddStats(statsIn, StatsOf(Statuses(tests)))
    ensures nonQuarantinedFailures == nonQuarantinedIn + NonQuarantinedCount(FailedIds(tests), doc, now)
    ensures expiredTests == expiredIn + ExpiredCount(FailedIds(tests), doc, now)
  {
    fileStats, nonQuarantinedFailures, expiredTests := statsIn, nonQuarantinedIn, expiredIn;
    ghost var ss := Statuses(tests);
    ghost var ids := [];
    for k := 0 to |tests|
      invariant fileStats == AddStats(statsIn, StatsOf(ss[..k]))
      invariant ids == FailedIds(tests[..k])
      invariant nonQuarantinedFailures == nonQuarantinedIn + NonQuarantinedCount(ids, doc, now)
      invariant expiredTests == expiredIn + ExpiredCount(ids, doc, now)
    {
      var test := tests[k];
      var status := test.result.status;
      var testIdentifier := test.classname + "." + test.name;
      PrefixSnoc(ss, k);
      StatsSnoc(ss[..k], status);
      FailedIdsSnoc(tests, k);
      fileStats := fileStats.(testCount := fileStats.testCount + 1);
      if status == StatusPassed {
        fileStats := fileStats.(passCount := fileStats.passCount + 1);
      } else if status == StatusFailed {
        ClassifySnoc(ids, testIdentifier, doc, now);
        ids := ids + [testIdentifier];
        nonQuarantinedFailures, expiredTests := Classify(testIdentifier, doc, now, nonQuarantinedFailures, expiredTests);
        fileStats := fileStats.(failCount := fileStats.failCount + 1);
      } else if status == StatusSkipped {
        fileStats := fileStats.(skippedCount := fileStats.skippedCount + 1);
      } else if status == StatusError {
        fileStats := fileStats.(errorCount := fileStats.errorCount + 1);
      }
    }
    assert ss[..|tests|] == ss && tests[..|tests|] == tests;
  }

  /** The "failed" case of ParseTestsWithQuarantine: a failed test that no
      entry quarantines raises the non-quarantined counter; a quarantined one
      whose quarantine has expired raises the expired counter. */
  method Classify(testIdentifier: string, doc: Document, now: Instant,
                  nonQuarantinedIn: int, expiredIn: int)
    returns (nonQuarantinedFailures: int, expiredTests: int)
    ensures var c := Classification(testIdentifier, doc, now);
      nonQuarantinedFailures == nonQuarantinedIn + (if c == NotQuarantined then 1 else 0) &&
      expiredTests == expiredIn + (if c == QuarantineExpired then 1 else 0)
  {
    nonQuarantinedFailures, expiredTests := nonQuarantinedIn, expiredIn;
    var quarantined := IsQuarantined(testIdentifier, doc);
    if !quarantined {
      nonQuarantinedFailures := nonQuarantinedFailures + 1;
    } else {
      var expired := IsExpired(testIdentifier, doc, now);
      if expired {
        expiredTests := expiredTests + 1;
      }
    }
  }
}
