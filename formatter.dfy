/**
  The `JUnit` formatter object: the three example notifications record into
  `@test_suite_results`, and `dump_summary` turns what was recorded into the
  report.
 */
module Formatter {
  import opened Metadata
  import opened Hierarchy
  import opened Collector
  import opened Summary
  import opened Xml
  import opened Decoding
  import opened ReportBuilder

  class JUnit {
    /** The keys of `@test_suite_results`, in insertion order. */
    var suiteOrder: seq<string>
    /** `@test_suite_results`: each suite name's examples. */
    var testSuiteResults: map<string, seq<Example>>

    function Results(): Collected
      reads this
    {
      Collected(suiteOrder, testSuiteResults)
    }

    ghost predicate Valid()
      reads this
    {
      WellFormed(Results())
    }

    constructor ()
      ensures Valid() && Results() == NoResults
    {
      suiteOrder := [];
      testSuiteResults := map[];
    }

    /**
      `add_to_test_suite_results`: file the example under its root group's
      description, starting that suite if the name is new, and return that
      suite's list. An example without a group fails before anything changes.
     */
    method AddToTestSuiteResults(example: Example) returns (r: Result<seq<Example>>)
      requires Valid()
      modifies this
      ensures Valid()
      ensures r.Ok? <==> SuiteNameOf(example).Ok?
      ensures r.Ok? ==> var name := SuiteNameOf(example).value;
                        && Results() == Add(old(Results()), name, example)
                        && r.value == testSuiteResults[name]
      ensures r.Err? ==> r == Err(MalformedTestMetadata) && Results() == old(Results())
    {
      var name := RootGroupNameFor(example);
      if name.Err? {
        return Err(name.error);
      }
      var suiteName := name.value;
      if suiteName !in testSuiteResults {
        suiteOrder := suiteOrder + [suiteName];
        testSuiteResults := testSuiteResults[suiteName := []];
      }
      testSuiteResults := testSuiteResults[suiteName := testSuiteResults[suiteName] + [example]];
      r := Ok(testSuiteResults[suiteName]);
    }

    /** `example_passed`: record the example, returning its suite's list. */
    method ExamplePassed(example: Example) returns (r: Result<seq<Example>>)
      requires Valid()
      modifies this
      ensures Valid()
      ensures r.Ok? <==> SuiteNameOf(example).Ok?
      ensures r.Ok? ==> var name := SuiteNameOf(example).value;
                        && Results() == Add(old(Results()), name, example)
                        && r.value == testSuiteResults[name]
      ensures r.Err? ==> r == Err(MalformedTestMetadata) && Results() == old(Results())
    {
      r := AddToTestSuiteResults(example);
    }

    /** `example_failed`: record the example, returning its suite's list. */
    method ExampleFailed(example: Example) returns (r: Result<seq<Example>>)
      requires Valid()
      modifies this
      ensures Valid()
      ensures r.Ok? <==> SuiteNameOf(example).Ok?
      ensures r.Ok? ==> var name := SuiteNameOf(example).value;
                        && Results() == Add(old(Results()), name, example)
                        && r.value == testSuiteResults[name]
      ensures r.Err? ==> r == Err(MalformedTestMetadata) && Results() == old(Results())
    {
      r := AddToTestSuiteResults(example);
    }

    /** `example_pending`: record the example, returning its suite's list. */
    method ExamplePending(example: Example) returns (r: Result<seq<Example>>)
      requires Valid()
      modifies this
      ensures Valid()
      ensures r.Ok? <==> SuiteNameOf(example).Ok?
      ensures r.Ok? ==> var name := SuiteNameOf(example).value;
                        && Results() == Add(old(Results()), name, example)
                        && r.value == testSuiteResults[name]
      ensures r.Err? ==> r == Err(MalformedTestMetadata) && Results() == old(Results())
    {
      r := AddToTestSuiteResults(example);
    }

    /**
      `dump_summary`: the `testsuites` root with the host's totals, and one
      `testsuite` per recorded suite in insertion order.
     */
    method DumpSummary(duration: real, exampleCount: int, failureCount: int, pendingCount: int, timestamp: string)
      returns (doc: Element)
      requires Valid()
      ensures doc == Report(suiteOrder, testSuiteResults, duration, exampleCount, failureCount, pendingCount, timestamp)
      ensures |doc.children| == |suiteOrder|
      ensures forall i :: 0 <= i < |suiteOrder| ==> doc.children[i] == BuildTestSuite(suiteOrder[i], testSuiteResults[suiteOrder[i]])
    {
      var suites: seq<Element> := [];
      var i := 0;
      while i < |suiteOrder|
        invariant 0 <= i <= |suiteOrder|
        invariant |suites| == i
        invariant forall k :: 0 <= k < i ==> suites[k] == BuildTestSuite(suiteOrder[k], testSuiteResults[suiteOrder[k]])
      {
        var suiteName := suiteOrder[i];
        suites := suites + [BuildTestSuite(suiteName, testSuiteResults[suiteName])];
        i := i + 1;
      }
      doc := Element("testsuites", SummaryAttributes(duration, exampleCount, failureCount, pendingCount, timestamp), suites, None);
      assert suites == Report(suiteOrder, testSuiteResults, duration, exampleCount, failureCount, pendingCount, timestamp).children;
    }
  }

  /**
    What a reader gets back from the report after `examples` were recorded:
    one suite per root group in first-seen order, each listing its examples'
    names, times and verdicts in recording order; the document's errors are zero.
   */
  lemma ReportOfRecordings(examples: seq<Example>, duration: real, exampleCount: int, failureCount: int, pendingCount: int, timestamp: string)
    requires Collect(examples).Ok?
    ensures WellFormed(Collect(examples).value)
    ensures var c := Collect(examples).value;
            var v := ReadReport(Report(c.order, c.suites, duration, exampleCount, failureCount, pendingCount, timestamp));
            && v.Some?
            && v.value.failures == failureCount && v.value.skipped == pendingCount && v.value.tests == exampleCount
            && v.value.time == duration && v.value.timestamp == timestamp
            && (forall n :: n in c.order <==> Occurs(examples, n))
            && (forall i, j, k :: 0 <= i < j < |c.order| && 0 <= k < |examples| && SuiteNameOf(examples[k]) == Ok(c.order[j])
                  ==> Occurs(examples[..k], c.order[i]))
            && |v.value.suites| == |c.order|
            && forall i :: 0 <= i < |c.order| ==> v.value.suites[i] == SuiteView(c.order[i], CaseViewsOf(ExamplesOf(examples, c.order[i])))
  {
    var c := Collect(examples).value;
    CollectWellFormed(examples);
    CollectSuites(examples);
    CollectKeys(examples);
    CollectFirstSeenOrder(examples);
    ReportReads(c.order, c.suites, duration, exampleCount, failureCount, pendingCount, timestamp);
  }

  /**
    A passing and then a failing example under one root group "Calculator"
    are filed, in recording order, under one suite of that name.
   */
  lemma CalculatorRecorded()
    ensures
      var calculator := Group("Calculator", None);
      var adds := Example("adds numbers", "passed", 0.01, None, Some(calculator));
      var divides := Example("Calculator divides", "failed", 0.02,
                             Some(Exception("divide by zero", ["a.rb:10"])), Some(calculator));
      Collect([adds, divides]) == Ok(Collected(["Calculator"], map["Calculator" := [adds, divides]]))
  {
    var calculator := Group("Calculator", None);
    var adds := Example("adds numbers", "passed", 0.01, None, Some(calculator));
    var divides := Example("Calculator divides", "failed", 0.02,
                           Some(Exception("divide by zero", ["a.rb:10"])), Some(calculator));
    var both := [adds, divides];
    assert both[..1] == [adds];
    assert [adds][..0] == [];
    assert SuiteNameOf(adds) == Ok("Calculator") && SuiteNameOf(divides) == Ok("Calculator");
    var first := Add(NoResults, "Calculator", adds);
    assert [] + [adds] == [adds];
    assert first.suites.Keys == {"Calculator"} && first.suites["Calculator"] == [adds];
    assert first == Collected(["Calculator"], map["Calculator" := [adds]]);
    assert Collect([adds]) == Ok(first);
    var second := Add(first, "Calculator", divides);
    assert second.suites.Keys == {"Calculator"} && second.suites["Calculator"] == [adds, divides];
    assert second == Collected(["Calculator"], map["Calculator" := [adds, divides]]);
    assert Collect(both) == Ok(second);
  }

  /**
    The suite built for that run counts two tests, one failure and no skips;
    the passing case has no body and the failure carries the message and the
    backtrace line.
   */
  lemma CalculatorSuite()
    ensures
      var calculator := Group("Calculator", None);
      var adds := Example("adds numbers", "passed", 0.01, None, Some(calculator));
      var divides := Example("Calculator divides", "failed", 0.02,
                             Some(Exception("divide by zero", ["a.rb:10"])), Some(calculator));
      && BuildTestSuite("Calculator", [adds, divides]).attributes
         == [ Attribute("name", StringValue("Calculator")), Attribute("tests", IntValue(2)), Attribute("errors", IntValue(0)),
              Attribute("failures", IntValue(1)), Attribute("skipped", IntValue(0)) ]
      && BuildTestSuite("Calculator", [adds, divides]).children
         == [ EmptyElement("properties"), BuildTest(adds), BuildTest(divides) ]
      && BuildTest(adds).children == []
      && BuildTest(divides).children[0].cdata == Some("divide by zero\na.rb:10")
  {
    var calculator := Group("Calculator", None);
    var adds := Example("adds numbers", "passed", 0.01, None, Some(calculator));
    var divides := Example("Calculator divides", "failed", 0.02,
                           Some(Exception("divide by zero", ["a.rb:10"])), Some(calculator));
    var both := [adds, divides];
    assert both[1..] == [divides] && both[1..][1..] == [];
    assert WithStatus(both, "failed") == [divides];
    assert WithStatus(both, "pending") == [];
    assert FailCount(both) == 1 && SkippedCount(both) == 0;
    assert BuildTests(both) == [BuildTest(adds), BuildTest(divides)];
    assert Join(["a.rb:10"], "\n") == "a.rb:10";
    assert FailureDetailsFor(divides) == "divide by zero\na.rb:10";
  }
}
