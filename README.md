# yarjuf JUnit formatter — Dafny model

This project models the `JUnit` formatter of yarjuf, an RSpec formatter that
writes a JUnit-style XML report. As a run goes on, the host notifies the
formatter of every example that passed, failed or is pending. The formatter
files each example under the description of its outermost example group (the
*suite*), keeping suites in the order they were first seen. At the end of the
run, `dump_summary` emits one `testsuites` document:

- the root carries the host's totals;
- there is one `testsuite` per recorded suite, with its own test, failure and
  skip counters and an empty `properties` child;
- there is one `testcase` per example, whose body is empty, a `skipped`
  marker, or a `failure` element whose character data is the exception
  message followed by the backtrace lines.

Modules, following the structure of `lib/yarjuf.rb`:

- `Metadata`: the example metadata the formatter reads (description, status,
  run time, exception, enclosing group chain). It also holds `Option`,
  `Result` and the one error, `MalformedTestMetadata`.
- `Hierarchy`: `group_hierarchy_for` and `root_group_name_for`, as loops over
  the parent links, proved against a recursive `Ancestry` and `Outermost`.
- `Summary`: `fail_count_for_suite`, `skipped_count_for_suite` and
  `failure_details_for`, with Ruby's `Array#join` and its inverse `Split`.
- `Xml`: the report as an element tree (name, ordered attributes, children,
  optional character data) in place of Builder's markup text.
- `Decoding`: a reader of such trees, which recovers each case's name, time
  and verdict and checks every suite's counters against its cases. It is the
  independent reference that the builder is proved against.
- `ReportBuilder`: `build_test`, `build_test_suite` and the `testsuites` root
  of `dump_summary`, as functions that build trees, each with a lemma that
  reading the tree back gives the expected view.
- `Collector`: `@test_suite_results` as a value (the key order plus the map)
  and the fold `Collect` of a whole run of notifications. It carries lemmas
  about which suites exist, what each holds, the first-seen order, and the
  total count.
- `Formatter`: the `JUnit` class. Its fields are the hash's key order and its
  map. Its notification methods update them in place, and `DumpSummary` is a
  loop over the suites in insertion order.

A Ruby `Hash` enumerates its keys in insertion order, so the class keeps that
order as an explicit `suiteOrder` sequence next to the map.

## Model

| member | source | states |
|---|---|---|
| Hierarchy.GroupHierarchyFor | lib/yarjuf.rb:33-41 | the walk up the parent links, prepending each group, returns exactly the chain from the outermost group down to the example's own group (empty when there is none) |
| Hierarchy.AncestryCharacterised | lib/yarjuf.rb:33-41 | a sequence is a top-down parent chain ending at the example's group if and only if it is that group's ancestry, so the hierarchy is unique |
| Hierarchy.AncestryStartsAtOutermost | lib/yarjuf.rb:30 | the first entry of the hierarchy is the group reached by following parents until there are none |
| Hierarchy.SuiteNameOf | lib/yarjuf.rb:29-31 | resolving the suite name fails exactly when the example has no enclosing group |
| Hierarchy.RootGroupNameFor | lib/yarjuf.rb:29-31 | `.first[:description]` of the hierarchy is the outermost group's description, or the error when the hierarchy is empty |
| Summary.WithStatus | lib/yarjuf.rb:49 | `select` keeps exactly the examples with the given status and never grows the suite |
| Summary.FailCount | lib/yarjuf.rb:48-50 | the failure count is at most the suite's size |
| Summary.SkippedCount | lib/yarjuf.rb:52-54 | the skip count is at most the suite's size |
| Summary.WithStatusCountsOccurrences | lib/yarjuf.rb:49 | the selected count equals the number of occurrences of that status in the suite's statuses |
| Summary.SuiteCounts | lib/yarjuf.rb:48-54 | failures count the "failed" statuses, skips count the "pending" ones, and together they never exceed the suite size |
| Summary.DistinctStatusesBound | lib/yarjuf.rb:48-54 | selections by two different statuses are disjoint, so their sizes add up to at most the suite size |
| Summary.Split | lib/yarjuf.rb:45 | reference definition, the inverse of the join at line 45: cutting text at a separator always yields at least one piece |
| Summary.SplitJoin | lib/yarjuf.rb:45 | the join at line 45 is undone by the reference `Split`: joining non-empty lists of separator-free lines with `"\n"` can be undone by splitting |
| Summary.JoinSplit | lib/yarjuf.rb:45 | reference definition, the inverse of the join at line 45: splitting any text and joining the pieces gives the text back |
| Summary.FailureDetailsFor | lib/yarjuf.rb:43-46 | the details are empty exactly when the example has no exception |
| Summary.FailureDetailsLines | lib/yarjuf.rb:43-46 | no exception gives empty details; otherwise the details are the message, a newline, and then the backtrace lines joined by newlines. When the backtrace lines hold no newline, that rest splits back into exactly those lines (one empty line when the backtrace is empty). When the message holds no newline either, the whole details split into the message line and then the backtrace lines |
| Xml.LookupFinds | lib/yarjuf.rb:59 | reference definition of how a reader finds an attribute written at line 59: an attribute whose key does not appear earlier is the one found when that key is looked up |
| Decoding.CaseViewsOf | lib/yarjuf.rb:70-72 | reference definition of what a reader should get for the cases written at lines 70-72: one case view per example, in order |
| Decoding.ReadCases | lib/yarjuf.rb:70-72 | reference reader of the elements written at lines 70-72: a successful read of test cases yields one view per element |
| Decoding.ReadSuites | lib/yarjuf.rb:60-62 | reference reader of the elements written at lines 60-62: a successful read of suites yields one view per element |
| Decoding.ReadCasesPointwise | lib/yarjuf.rb:70-72 | reference reader of the elements written at lines 70-72: test cases that each read back give the list of their views |
| Decoding.ReadSuitesPointwise | lib/yarjuf.rb:60-62 | reference reader of the elements written at lines 60-62: suites that each read back give the list of their views |
| Decoding.CountsOfViews | lib/yarjuf.rb:68 | counting failed and skipped verdicts of the case views agrees with the status counts of the examples |
| ReportBuilder.FailureElement | lib/yarjuf.rb:81-83 | a `failure` element with no child elements |
| ReportBuilder.FailureElementReads | lib/yarjuf.rb:81-83 | a reader takes the `failure` element, with its message naming the example and type "failed", as that example's failure carrying the failure details |
| ReportBuilder.BuildTest | lib/yarjuf.rb:76-86 | a `testcase` with name and time; its body is `skipped` exactly for pending, a `failure` about that example exactly for failed, and empty exactly for any other status |
| ReportBuilder.BuildTestReads | lib/yarjuf.rb:76-86 | reading the test case back gives the example's name, run time and verdict, the failure carrying the failure details |
| ReportBuilder.BuildTests | lib/yarjuf.rb:70-72 | one test case per example, in recording order |
| Xml.EveryKeyFound | lib/yarjuf.rb:59 | reference lemma for reading attribute lists: with distinct keys, every attribute is the one found under its key |
| ReportBuilder.SuiteAttributes | lib/yarjuf.rb:68 | the suite's attributes have distinct keys, so each one is what a reader finds under its key |
| ReportBuilder.SuiteCountersAgree | lib/yarjuf.rb:68 | the suite's `name`, `tests`, `errors`, `failures` and `skipped` attributes are found with the suite name, size, zero and the two counts |
| ReportBuilder.SuiteElementReads | lib/yarjuf.rb:67-74 | a `testsuite` with those attributes, `properties` first and readable cases reads back as that suite |
| ReportBuilder.BuildTestSuite | lib/yarjuf.rb:67-74 | a `testsuite` with the suite's attributes, `properties` first, then one test case per example in order |
| ReportBuilder.BuildTestSuiteReads | lib/yarjuf.rb:67-74 | reading the suite back gives its name and the views of all its examples, with counters that agree |
| ReportBuilder.SummaryAttributes | lib/yarjuf.rb:59 | the root's attributes have distinct keys, so each one is what a reader finds under its key |
| ReportBuilder.ReportElementReads | lib/yarjuf.rb:59 | the root's `errors` is zero and its failures, skipped, tests, time and timestamp read back as the values passed in |
| ReportBuilder.SuiteViewsOf | lib/yarjuf.rb:60-62 | one suite view per suite name, in order |
| ReportBuilder.Report | lib/yarjuf.rb:59-63 | a `testsuites` root with the totals, one `testsuite` per suite in key order |
| ReportBuilder.ReportReads | lib/yarjuf.rb:56-63 | reading the whole document back gives the totals passed in and every suite's view in key order |
| Collector.Collect | lib/yarjuf.rb:11-27 | the fold of a run's notifications: a successful run never holds more suites than examples (what it holds is stated by the lemmas below) |
| Collector.Add | lib/yarjuf.rb:23-27 | a new name is appended to the key order and starts an empty list, a known one keeps its place; the example goes at the end of its suite; other suites are untouched; a well-formed hash stays well-formed |
| Collector.TotalOverIgnoresOthers | lib/yarjuf.rb:23-27 | replacing a suite that is not counted leaves the total unchanged |
| Collector.TotalOverReplaces | lib/yarjuf.rb:23-27 | replacing a counted suite changes the total by the difference in size |
| Collector.TotalAfterAdd | lib/yarjuf.rb:23-27 | recording one example raises the number of recorded examples by exactly one |
| Collector.CollectSucceeds | lib/yarjuf.rb:11-31 | a run of notifications can be recorded exactly when every example has an enclosing group |
| Collector.CollectWellFormed | lib/yarjuf.rb:11-27 | after a run each suite name is listed once in the key order, the suites hold as many examples in total as were recorded, and every example in a suite resolves to that suite's name |
| Collector.OccursSnoc | lib/yarjuf.rb:23-27 | a suite name occurs in a run extended by one example when it occurred before or is that example's name |
| Collector.CollectKeys | lib/yarjuf.rb:23-27 | the recorded suite names are exactly the root-group names of the run's examples |
| Collector.CollectSuites | lib/yarjuf.rb:23-27 | each suite holds exactly the examples with its root-group name, in recording order |
| Collector.ExamplesOfMembers | lib/yarjuf.rb:23-27 | a suite's examples all resolve to that suite's name |
| Collector.ExamplesOfAbsent | lib/yarjuf.rb:23-27 | a name that no example carries has no examples |
| Collector.FirstSeenBefore | lib/yarjuf.rb:25 | an earlier suite in the key order was seen before any example of a later suite |
| Collector.CollectFirstSeenOrder | lib/yarjuf.rb:25 | the key order is first-seen order: for every earlier suite, some example of it comes before every example of each later suite |
| Collector.ExamplesOfSplit | lib/yarjuf.rb:26 | the examples of a suite in two runs one after the other are those of the first run, then those of the second |
| Collector.ExamplesOfSingle | lib/yarjuf.rb:26 | one example belongs to a suite exactly when its root-group name is that suite's name |
| Collector.ExamplesOfAround | lib/yarjuf.rb:26 | a suite's examples are those before a position, then the one at it if it belongs, then those after it |
| Collector.ExampleInItsSuite | lib/yarjuf.rb:23-27 | every recorded example sits in its own suite, after the earlier examples of that suite and before the later ones |
| Formatter.JUnit.constructor | lib/yarjuf.rb:6-9 | a new formatter starts with no suites |
| Formatter.JUnit.AddToTestSuiteResults | lib/yarjuf.rb:23-27 | succeeds exactly when the example has a group; then the recorded state becomes `Add` of the old state under the example's suite name and the result is that suite's new list, as `<<` returns it; with no group the state is unchanged and the error is returned |
| Formatter.JUnit.ExamplePassed | lib/yarjuf.rb:11-13 | records the example and returns what `add_to_test_suite_results` returns |
| Formatter.JUnit.ExampleFailed | lib/yarjuf.rb:15-17 | records the example and returns what `add_to_test_suite_results` returns |
| Formatter.JUnit.ExamplePending | lib/yarjuf.rb:19-21 | records the example and returns what `add_to_test_suite_results` returns |
| Formatter.JUnit.DumpSummary | lib/yarjuf.rb:56-65 | the loop over the suites in insertion order builds the report document: totals on the root, one `testsuite` per recorded suite in that order |
| Formatter.ReportOfRecordings | lib/yarjuf.rb:11-86 | for any run that records, the report reads back with the host's totals, time and timestamp; the suite names are exactly the run's root groups, in first-seen order; each suite lists the views of exactly its examples, in recording order |
| Formatter.CalculatorRecorded | lib/yarjuf.rb:23-27 | a passing then a failing example under one root group are filed, in that order, under one suite named after it |
| Formatter.CalculatorSuite | lib/yarjuf.rb:67-86 | that suite counts two tests, one failure and no skips; the passing case has no body, and the failure's data is the message, a newline and the backtrace line |

## Left out

- The clock: `Time.now.iso8601` (line 59) is the `timestamp` parameter of `DumpSummary` and `Report`.
- Floating point: `run_time` and `duration` are `real` values that are only copied into attributes. Ruby's float formatting is not modelled.
- `format_backtrace` (line 45) belongs to the RSpec base formatter and is not part of this model. Backtrace lines enter the model already formatted.
- Builder's text rendering is not modelled: the XML declaration (line 58), two-space indentation, attribute escaping and how `cdata!` writes text containing `]]>`. The report is the element tree those calls describe.
- `output.puts` (line 64) is output. `DumpSummary` returns the document instead of writing it, and a failed write (the sink failing) is not modelled.
- The RSpec `BaseFormatter` superclass and the `output` stream handed to `initialize` are not part of this model.
- A missing example group: the code calls `[:description]` on the `nil` that `.first` returns for an empty hierarchy, and so raises before the hash is touched. The model returns `Err(MalformedTestMetadata)` and leaves the state unchanged. `MalformedTestMetadata` is the model's name for this error; the Ruby code raises a `NoMethodError` on `nil`.
- Formatter.JUnit.DumpSummary: the totals are the host's arguments, passed through unchecked, as in the code. The model does not relate them to the recorded examples.
- Formatter.JUnit.AddToTestSuiteResults, Formatter.JUnit.ExamplePassed, Formatter.JUnit.ExampleFailed, Formatter.JUnit.ExamplePending: the code files a reference to the example object and reads its description, status, run time and exception only when `dump_summary` runs (lines 77-82). The model files an immutable `Example` value at notification time, so a later change to an example's metadata is not captured.
- Status strings other than "passed", "failed" and "pending" are kept as they are; like the code, the model gives them an empty test case body.
