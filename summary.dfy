/**
  The per-suite summary: the failed and pending counts of a suite and the
  text of a failed example's failure details.
 */
module Summary {
  import opened Metadata

  /** The examples of `suite` whose status is `status`, in recorded order (Ruby's `select`). */
  function WithStatus(suite: seq<Example>, status: string): (r: seq<Example>)
    ensures |r| <= |suite|
    ensures forall x :: x in r <==> x in suite && x.status == status
  {
    if suite == [] then []
    else (if suite[0].status == status then [suite[0]] else []) + WithStatus(suite[1..], status)
  }

  /** `fail_count_for_suite`: how many examples of the suite failed. */
  function FailCount(suite: seq<Example>): (n: nat)
    ensures n <= |suite|
  {
    |WithStatus(suite, "failed")|
  }

  /** `skipped_count_for_suite`: how many examples of the suite are pending. */
  function SkippedCount(suite: seq<Example>): (n: nat)
    ensures n <= |suite|
  {
    |WithStatus(suite, "pending")|
  }

  /** The statuses of a suite, in order. */
  function Statuses(suite: seq<Example>): (r: seq<string>)
    ensures |r| == |suite| && forall i :: 0 <= i < |suite| ==> r[i] == suite[i].status
  {
    seq(|suite|, i requires 0 <= i < |suite| => suite[i].status)
  }

  /** Selecting by status keeps exactly as many examples as the status occurs in the suite. */
  lemma {:induction false} WithStatusCountsOccurrences(suite: seq<Example>, status: string)
    ensures |WithStatus(suite, status)| == multiset(Statuses(suite))[status]
  {
    if suite != [] {
      WithStatusCountsOccurrences(suite[1..], status);
      assert Statuses(suite) == [suite[0].status] + Statuses(suite[1..]);
    }
  }

  /** Selecting by two different statuses never picks more examples than there are. */
  lemma {:induction false} DistinctStatusesBound(suite: seq<Example>, a: string, b: string)
    requires a != b
    ensures |WithStatus(suite, a)| + |WithStatus(suite, b)| <= |suite|
  {
    if suite != [] {
      DistinctStatusesBound(suite[1..], a, b);
    }
  }

  /** The failed and the pending counts of a suite are multiplicities of its statuses and together fit in it. */
  lemma SuiteCounts(suite: seq<Example>)
    ensures FailCount(suite) == multiset(Statuses(suite))["failed"]
    ensures SkippedCount(suite) == multiset(Statuses(suite))["pending"]
    ensures FailCount(suite) + SkippedCount(suite) <= |suite|
  {
    WithStatusCountsOccurrences(suite, "failed");
    WithStatusCountsOccurrences(suite, "pending");
    DistinctStatusesBound(suite, "failed", "pending");
  }

  /** Ruby's `Array#join(sep)`. */
  function Join(lines: seq<string>, sep: string): string
  {
    if lines == [] then ""
    else if |lines| == 1 then lines[0]
    else lines[0] + sep + Join(lines[1..], sep)
  }

  /** Cuts `s` at every occurrence of `sep`, keeping empty pieces: the inverse of joining. */
  function Split(s: string, sep: char): (parts: seq<string>)
    ensures |parts| >= 1
  {
    if s == [] then [""]
    else
      var rest := Split(s[1..], sep);
      if s[0] == sep then [""] + rest
      else [[s[0]] + rest[0]] + rest[1..]
  }

  lemma {:induction false} SplitWithoutSeparator(a: string, sep: char)
    requires sep !in a
    ensures Split(a, sep) == [a]
  {
    if a != [] {
      SplitWithoutSeparator(a[1..], sep);
      assert [a[0]] + a[1..] == a;
    }
  }

  lemma {:induction false} SplitAtSeparator(a: string, sep: char, b: string)
    requires sep !in a
    ensures Split(a + [sep] + b, sep) == [a] + Split(b, sep)
  {
    if a == [] {
      assert a + [sep] + b == [sep] + b;
      assert ([sep] + b)[1..] == b;
    } else {
      assert (a + [sep] + b)[1..] == a[1..] + [sep] + b;
      SplitAtSeparator(a[1..], sep, b);
      assert [a[0]] + a[1..] == a;
    }
  }

  /** Splitting a join of separator-free lines gives the lines back. */
  lemma {:induction false} SplitJoin(lines: seq<string>, sep: char)
    requires |lines| > 0
    requires forall i :: 0 <= i < |lines| ==> sep !in lines[i]
    ensures Split(Join(lines, [sep]), sep) == lines
  {
    if |lines| == 1 {
      SplitWithoutSeparator(lines[0], sep);
    } else {
      SplitJoin(lines[1..], sep);
      SplitAtSeparator(lines[0], sep, Join(lines[1..], [sep]));
      assert [lines[0]] + lines[1..] == lines;
    }
  }

  /** Joining the pieces of a split gives the text back. */
  lemma {:induction false} JoinSplit(s: string, sep: char)
    ensures Join(Split(s, sep), [sep]) == s
  {
    if s != [] {
      var rest := Split(s[1..], sep);
      JoinSplit(s[1..], sep);
      if s[0] == sep {
        assert Split(s, sep) == [""] + rest;
        assert ([""] + rest)[1..] == rest;
        assert s == [sep] + s[1..];
      } else {
        var parts := [[s[0]] + rest[0]] + rest[1..];
        assert Split(s, sep) == parts;
        assert parts[1..] == rest[1..];
        if |rest| == 1 {
          assert Join(rest, [sep]) == rest[0];
        } else {
          assert Join(rest, [sep]) == rest[0] + [sep] + Join(rest[1..], [sep]);
        }
        assert s == [s[0]] + s[1..];
      }
    }
  }

  /**
    `failure_details_for`: empty without an exception, otherwise the message,
    a newline, and the formatted backtrace lines joined by newlines.
   */
  function FailureDetailsFor(example: Example): (details: string)
    ensures details == "" <==> example.exception == None
  {
    match example.exception
    case None => ""
    case Some(x) => x.message + "\n" + Join(x.backtrace, "\n")
  }

  /**
    Read line by line, the details are the message followed by the backtrace
    (a lone empty line when the backtrace is empty), provided none of them
    holds a newline of its own; and they are empty without an exception.
   */
  lemma FailureDetailsLines(example: Example)
    ensures example.exception == None ==> FailureDetailsFor(example) == ""
    ensures example.exception.Some? ==>
              var message := example.exception.value.message;
              var details := FailureDetailsFor(example);
              |details| > |message| && details[..|message|] == message && details[|message|] == '\n'
              && details[|message| + 1..] == Join(example.exception.value.backtrace, "\n")
    ensures example.exception.Some? && (forall i :: 0 <= i < |example.exception.value.backtrace| ==> '\n' !in example.exception.value.backtrace[i])
            ==> var details := FailureDetailsFor(example);
                Split(details[|example.exception.value.message| + 1..], '\n')
                == (if example.exception.value.backtrace == [] then [""] else example.exception.value.backtrace)
    ensures example.exception.Some? && '\n' !in example.exception.value.message
            && (forall i :: 0 <= i < |example.exception.value.backtrace| ==> '\n' !in example.exception.value.backtrace[i])
            ==> Split(FailureDetailsFor(example), '\n') ==
                [example.exception.value.message]
                + (if example.exception.value.backtrace == [] then [""] else example.exception.value.backtrace)
  {
    match example.exception
    case None =>
    case Some(x) =>
      var details := FailureDetailsFor(example);
      assert details[|x.message| + 1..] == Join(x.backtrace, "\n");
      if x.backtrace != [] && forall i :: 0 <= i < |x.backtrace| ==> '\n' !in x.backtrace[i] {
        SplitJoin(x.backtrace, '\n');
      }
      if '\n' !in x.message && forall i :: 0 <= i < |x.backtrace| ==> '\n' !in x.backtrace[i] {
        SplitAtSeparator(x.message, '\n', Join(x.backtrace, "\n"));
        assert x.message + "\n" + Join(x.backtrace, "\n") == x.message + ['\n'] + Join(x.backtrace, "\n");
        if x.backtrace != [] {
          SplitJoin(x.backtrace, '\n');
        }
      }
  }
}
