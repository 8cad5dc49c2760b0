/**
  Building the JUnit report tree: one `testcase` per example, one
  `testsuite` per suite, and the `testsuites` root.
 */
module ReportBuilder {
  import opened Metadata
  import opened Summary
  import opened Xml
  import opened Decoding

  /** The `failure` element of a failed example. */
  function FailureElement(test: Example): (f: Element)
    ensures f.name == "failure" && f.children == []
  {
    Element("failure",
      [Attribute("message", StringValue("failed " + test.fullDescription)), Attribute("type", StringValue("failed"))],
      [], Some(FailureDetailsFor(test)))
  }

  /** A reader takes the `failure` element as the example's failure, carrying its details. */
  lemma FailureElementReads(test: Example)
    ensures ReadVerdict([FailureElement(test)], test.fullDescription) == Some(Failed(FailureDetailsFor(test)))
  {
    var failure := FailureElement(test);
    assert Lookup(failure.attributes, "message") == Some(StringValue("failed " + test.fullDescription));
    assert Lookup(failure.attributes[1..], "type") == Some(StringValue("failed"));
  }

  /**
    `build_test`: a `testcase` named by the full description and timed by the
    run time, whose body depends on the status.
   */
  function BuildTest(test: Example): (t: Element)
    ensures t.name == "testcase"
    ensures t.attributes == [Attribute("name", StringValue(test.fullDescription)), Attribute("time", FloatValue(test.runTime))]
    ensures test.status == "pending" <==> t.children == [EmptyElement("skipped")]
    ensures test.status == "failed" <==> t.children == [FailureElement(test)]
    ensures test.status != "pending" && test.status != "failed" <==> t.children == []
  {
    Element("testcase",
      [Attribute("name", StringValue(test.fullDescription)), Attribute("time", FloatValue(test.runTime))],
      if test.status == "pending" then [EmptyElement("skipped")]
      else if test.status == "failed" then [FailureElement(test)]
      else [],
      None)
  }

  /** A reader gets back from a `testcase` the example's name, run time and verdict. */
  lemma BuildTestReads(test: Example)
    ensures ReadCase(BuildTest(test)) == Some(CaseViewOf(test))
  {
    var t := BuildTest(test);
    assert Lookup(t.attributes, "name") == Some(StringValue(test.fullDescription));
    assert Lookup(t.attributes[1..], "time") == Some(FloatValue(test.runTime));
    FailureElementReads(test);
  }

  function BuildTests(tests: seq<Example>): (ts: seq<Element>)
    ensures |ts| == |tests| && forall i :: 0 <= i < |tests| ==> ts[i] == BuildTest(tests[i])
  {
    seq(|tests|, i requires 0 <= i < |tests| => BuildTest(tests[i]))
  }

  /** The attributes of a `testsuite`, in the order the formatter writes them. */
  function SuiteAttributes(suiteName: string, tests: seq<Example>): (attributes: seq<Attribute>)
    ensures DistinctKeys(attributes)
    ensures forall i :: 0 <= i < |attributes| ==> Lookup(attributes, attributes[i].key) == Some(attributes[i].value)
  {
    var attributes :=
    [ Attribute("name", StringValue(suiteName)),
      Attribute("tests", IntValue(|tests|)),
      Attribute("errors", IntValue(0)),
      Attribute("failures", IntValue(FailCount(tests))),
      Attribute("skipped", IntValue(SkippedCount(tests))) ];
    EveryKeyFound(attributes);
    attributes
  }

  lemma SuiteCountersAgree(suiteName: string, tests: seq<Example>, cases: seq<CaseView>)
    requires |cases| == |tests| && CountFailed(cases) == FailCount(tests) && CountSkipped(cases) == SkippedCount(tests)
    ensures Lookup(SuiteAttributes(suiteName, tests), "name") == Some(StringValue(suiteName))
    ensures CountersAgree(SuiteAttributes(suiteName, tests), cases)
  {
    var attributes := SuiteAttributes(suiteName, tests);
    LookupFinds(attributes, 0);
    LookupFinds(attributes, 1);
    LookupFinds(attributes, 2);
    LookupFinds(attributes, 3);
    LookupFinds(attributes, 4);
  }

  /** A `testsuite` element whose cases read back as `cases` reads back as that suite when its counters match them. */
  lemma SuiteElementReads(suiteName: string, tests: seq<Example>, ts: seq<Element>, cases: seq<CaseView>)
    requires ReadCases(ts) == Some(cases)
    requires |cases| == |tests| && CountFailed(cases) == FailCount(tests) && CountSkipped(cases) == SkippedCount(tests)
    ensures ReadSuite(Element("testsuite", SuiteAttributes(suiteName, tests), [EmptyElement("properties")] + ts, None))
            == Some(SuiteView(suiteName, cases))
  {
    var s := Element("testsuite", SuiteAttributes(suiteName, tests), [EmptyElement("properties")] + ts, None);
    assert s.children[1..] == ts;
    SuiteCountersAgree(suiteName, tests, cases);
  }

  /**
    `build_test_suite`: an empty `properties`, then one `testcase` per example
    in recorded order; the counters are the suite's own.
   */
  function BuildTestSuite(suiteName: string, tests: seq<Example>): (s: Element)
    ensures s.name == "testsuite" && s.attributes == SuiteAttributes(suiteName, tests)
    ensures |s.children| == |tests| + 1 && s.children[0] == EmptyElement("properties")
    ensures forall i :: 0 <= i < |tests| ==> s.children[i + 1] == BuildTest(tests[i])
  {
    Element("testsuite", SuiteAttributes(suiteName, tests), [EmptyElement("properties")] + BuildTests(tests), None)
  }

  /**
    A reader gets back from a `testsuite` its name and every example's case in
    recorded order, and finds its counters consistent with those cases.
   */
  lemma BuildTestSuiteReads(suiteName: string, tests: seq<Example>)
    ensures ReadSuite(BuildTestSuite(suiteName, tests)) == Some(SuiteView(suiteName, CaseViewsOf(tests)))
  {
    forall i | 0 <= i < |tests| ensures ReadCase(BuildTests(tests)[i]) == Some(CaseViewsOf(tests)[i]) {
      BuildTestReads(tests[i]);
    }
    ReadCasesPointwise(BuildTests(tests), CaseViewsOf(tests));
    CountsOfViews(tests);
    SuiteElementReads(suiteName, tests, BuildTests(tests), CaseViewsOf(tests));
  }

  /** The attributes of the root `testsuites`, in the order the formatter writes them. */
  function SummaryAttributes(duration: real, exampleCount: int, failureCount: int, pendingCount: int, timestamp: string)
    : (attributes: seq<Attribute>)
    ensures DistinctKeys(attributes)
    ensures forall i :: 0 <= i < |attributes| ==> Lookup(attributes, attributes[i].key) == Some(attributes[i].value)
  {
    var attributes :=
    [ Attribute("errors", IntValue(0)),
      Attribute("failures", IntValue(failureCount)),
      Attribute("skipped", IntValue(pendingCount)),
      Attribute("tests", IntValue(exampleCount)),
      Attribute("time", FloatValue(duration)),
      Attribute("timestamp", StringValue(timestamp)) ];
    EveryKeyFound(attributes);
    attributes
  }

  /** A `testsuites` element whose suites read back as `views` reads back as a report with the given totals. */
  lemma ReportElementReads(duration: real, exampleCount: int, failureCount: int, pendingCount: int, timestamp: string,
                           ss: seq<Element>, views: seq<SuiteView>)
    requires ReadSuites(ss) == Some(views)
    ensures ReadReport(Element("testsuites", SummaryAttributes(duration, exampleCount, failureCount, pendingCount, timestamp), ss, None))
            == Some(ReportView(failureCount, pendingCount, exampleCount, duration, timestamp, views))
  {
    var attributes := SummaryAttributes(duration, exampleCount, failureCount, pendingCount, timestamp);
    LookupFinds(attributes, 0);
    LookupFinds(attributes, 1);
    LookupFinds(attributes, 2);
    LookupFinds(attributes, 3);
    LookupFinds(attributes, 4);
    LookupFinds(attributes, 5);
  }

  /** The views a reader gets back from the suites named by `order`. */
  function SuiteViewsOf(order: seq<string>, suites: map<string, seq<Example>>): (views: seq<SuiteView>)
    requires forall n :: n in order ==> n in suites
    ensures |views| == |order|
    ensures forall i :: 0 <= i < |order| ==> views[i] == SuiteView(order[i], CaseViewsOf(suites[order[i]]))
  {
    seq(|order|, i requires 0 <= i < |order| => SuiteView(order[i], CaseViewsOf(suites[order[i]])))
  }

  /**
    The document `dump_summary` writes: a `testsuites` root carrying the
    host's run totals, with one `testsuite` per suite name in `order`.
   */
  function Report(order: seq<string>, suites: map<string, seq<Example>>,
                  duration: real, exampleCount: int, failureCount: int, pendingCount: int, timestamp: string): (doc: Element)
    requires forall n :: n in order ==> n in suites
    ensures doc.name == "testsuites" && doc.attributes == SummaryAttributes(duration, exampleCount, failureCount, pendingCount, timestamp)
    ensures |doc.children| == |order|
    ensures forall i :: 0 <= i < |order| ==> doc.children[i] == BuildTestSuite(order[i], suites[order[i]])
  {
    Element("testsuites", SummaryAttributes(duration, exampleCount, failureCount, pendingCount, timestamp),
      seq(|order|, i requires 0 <= i < |order| => BuildTestSuite(order[i], suites[order[i]])), None)
  }

  /**
    A reader gets back from the report the host's totals unchanged, zero
    errors, and every suite of `order`, in that order, with its cases.
   */
  lemma ReportReads(order: seq<string>, suites: map<string, seq<Example>>,
                    duration: real, exampleCount: int, failureCount: int, pendingCount: int, timestamp: string)
    requires forall n :: n in order ==> n in suites
    ensures ReadReport(Report(order, suites, duration, exampleCount, failureCount, pendingCount, timestamp))
            == Some(ReportView(failureCount, pendingCount, exampleCount, duration, timestamp, SuiteViewsOf(order, suites)))
  {
    var doc := Report(order, suites, duration, exampleCount, failureCount, pendingCount, timestamp);
    forall i | 0 <= i < |order| ensures ReadSuite(doc.children[i]) == Some(SuiteViewsOf(order, suites)[i]) {
      BuildTestSuiteReads(order[i], suites[order[i]]);
    }
    ReadSuitesPointwise(doc.children, SuiteViewsOf(order, suites));
    ReportElementReads(duration, exampleCount, failureCount, pendingCount, timestamp, doc.children, SuiteViewsOf(order, suites));
  }
}
