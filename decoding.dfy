/**
  What a consumer of a JUnit report reads back from it: per test case its
  name, time and verdict; per suite its name and cases, checked against the
  suite's counters; and the document's own counters. This reader is the
  reference the report builder is proved against.
 */
module Decoding {
  import opened Metadata
  import opened Summary
  import opened Xml

  datatype Verdict = Passed | Skipped | Failed(details: string)

  datatype CaseView = CaseView(name: string, time: real, verdict: Verdict)

  datatype SuiteView = SuiteView(name: string, cases: seq<CaseView>)

  datatype ReportView = ReportView(failures: int, skipped: int, tests: int, time: real, timestamp: string, suites: seq<SuiteView>)

  /** What a report should say about one recorded example. */
  function CaseViewOf(e: Example): CaseView
  {
    CaseView(e.fullDescription, e.runTime,
      if e.status == "pending" then Skipped
      else if e.status == "failed" then Failed(FailureDetailsFor(e))
      else Passed)
  }

  function CaseViewsOf(tests: seq<Example>): (views: seq<CaseView>)
    ensures |views| == |tests| && forall i :: 0 <= i < |tests| ==> views[i] == CaseViewOf(tests[i])
  {
    seq(|tests|, i requires 0 <= i < |tests| => CaseViewOf(tests[i]))
  }

  function CountFailed(cases: seq<CaseView>): nat
  {
    if cases == [] then 0 else (if cases[0].verdict.Failed? then 1 else 0) + CountFailed(cases[1..])
  }

  function CountSkipped(cases: seq<CaseView>): nat
  {
    if cases == [] then 0 else (if cases[0].verdict.Skipped? then 1 else 0) + CountSkipped(cases[1..])
  }

  /** The body of a test case: nothing, one empty `skipped`, or one `failure` about the named case. */
  function ReadVerdict(body: seq<Element>, name: string): Option<Verdict>
  {
    if body == [] then Some(Passed)
    else if |body| != 1 then None
    else if body[0] == EmptyElement("skipped") then Some(Skipped)
    else if && body[0].name == "failure"
            && body[0].children == []
            && body[0].cdata.Some?
            && Lookup(body[0].attributes, "message") == Some(StringValue("failed " + name))
            && Lookup(body[0].attributes, "type") == Some(StringValue("failed"))
    then Some(Failed(body[0].cdata.value))
    else None
  }

  function ReadCase(t: Element): Option<CaseView>
  {
    if t.name != "testcase" || t.cdata != None then None
    else
      match (Lookup(t.attributes, "name"), Lookup(t.attributes, "time"))
      case (Some(StringValue(n)), Some(FloatValue(d))) =>
        (match ReadVerdict(t.children, n)
         case Some(v) => Some(CaseView(n, d, v))
         case None => None)
      case _ => None
  }

  function ReadCases(ts: seq<Element>): (r: Option<seq<CaseView>>)
    ensures r.Some? ==> |r.value| == |ts|
  {
    if ts == [] then Some([])
    else
      match (ReadCase(ts[0]), ReadCases(ts[1..]))
      case (Some(c), Some(cs)) => Some([c] + cs)
      case _ => None
  }

  /**
    A suite: an empty `properties` first, then its test cases, with `tests`,
    `errors`, `failures` and `skipped` agreeing with those cases.
   */
  function ReadSuite(s: Element): Option<SuiteView>
  {
    if s.name != "testsuite" || s.cdata != None || |s.children| == 0 || s.children[0] != EmptyElement("properties") then None
    else
      var name := Lookup(s.attributes, "name");
      var cases := ReadCases(s.children[1..]);
      if name.Some? && name.value.StringValue? && cases.Some? && CountersAgree(s.attributes, cases.value)
      then Some(SuiteView(name.value.s, cases.value))
      else None
  }

  /** A suite's `tests`, `errors`, `failures` and `skipped` agree with its cases. */
  predicate CountersAgree(attributes: seq<Attribute>, cases: seq<CaseView>)
  {
    && Lookup(attributes, "tests") == Some(IntValue(|cases|))
    && Lookup(attributes, "errors") == Some(IntValue(0))
    && Lookup(attributes, "failures") == Some(IntValue(CountFailed(cases)))
    && Lookup(attributes, "skipped") == Some(IntValue(CountSkipped(cases)))
  }

  function ReadSuites(ss: seq<Element>): (r: Option<seq<SuiteView>>)
    ensures r.Some? ==> |r.value| == |ss|
  {
    if ss == [] then Some([])
    else
      match (ReadSuite(ss[0]), ReadSuites(ss[1..]))
      case (Some(s), Some(rest)) => Some([s] + rest)
      case _ => None
  }

  /** The root `testsuites` element, whose `errors` must be zero. */
  function ReadReport(doc: Element): Option<ReportView>
  {
    if doc.name != "testsuites" || doc.cdata != None || Lookup(doc.attributes, "errors") != Some(IntValue(0)) then None
    else
      match (Lookup(doc.attributes, "failures"), Lookup(doc.attributes, "skipped"), Lookup(doc.attributes, "tests"),
             Lookup(doc.attributes, "time"), Lookup(doc.attributes, "timestamp"), ReadSuites(doc.children))
      case (Some(IntValue(f)), Some(IntValue(p)), Some(IntValue(t)), Some(FloatValue(d)), Some(StringValue(ts)), Some(ss)) =>
        Some(ReportView(f, p, t, d, ts, ss))
      case _ => None
  }

  lemma {:induction false} ReadCasesPointwise(ts: seq<Element>, views: seq<CaseView>)
    requires |ts| == |views|
    requires forall i :: 0 <= i < |ts| ==> ReadCase(ts[i]) == Some(views[i])
    ensures ReadCases(ts) == Some(views)
  {
    if ts != [] {
      ReadCasesPointwise(ts[1..], views[1..]);
      assert [views[0]] + views[1..] == views;
    }
  }

  lemma {:induction false} ReadSuitesPointwise(ss: seq<Element>, views: seq<SuiteView>)
    requires |ss| == |views|
    requires forall i :: 0 <= i < |ss| ==> ReadSuite(ss[i]) == Some(views[i])
    ensures ReadSuites(ss) == Some(views)
  {
    if ss != [] {
      ReadSuitesPointwise(ss[1..], views[1..]);
      assert [views[0]] + views[1..] == views;
    }
  }

  /** Counting failed and skipped verdicts agrees with counting by status. */
  lemma {:induction false} CountsOfViews(tests: seq<Example>)
    ensures CountFailed(CaseViewsOf(tests)) == FailCount(tests)
    ensures CountSkipped(CaseViewsOf(tests)) == SkippedCount(tests)
  {
    if tests != [] {
      CountsOfViews(tests[1..]);
      assert CaseViewsOf(tests)[1..] == CaseViewsOf(tests[1..]);
    }
  }
}
