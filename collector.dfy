/**
  The formatter's `@test_suite_results` as a value: the suite names in the
  order they were first seen, and each name's list of examples. The class
  in module Formatter holds exactly this state; this module defines one
  recording step and what a whole sequence of recordings produces.
 */
module Collector {
  import opened Metadata
  import opened Hierarchy

  datatype Collected = Collected(order: seq<string>, suites: map<string, seq<Example>>)

  /** The state before the first example is recorded. */
  const NoResults: Collected := Collected([], map[])

  predicate NoDuplicates(s: seq<string>)
  {
    forall i, j :: 0 <= i < j < |s| ==> s[i] != s[j]
  }

  /** The key order lists each key of the map exactly once. */
  ghost predicate WellFormed(c: Collected)
  {
    && NoDuplicates(c.order)
    && (forall n :: n in c.suites <==> n in c.order)
  }

  /**
    One recording under `name`: an empty list is started when the name is
    not yet a key (and the name goes to the end of the key order), then the
    example is appended to that name's list.
   */
  function Add(c: Collected, name: string, e: Example): (c': Collected)
    ensures WellFormed(c) ==> WellFormed(c')
    ensures c'.order == if name in c.suites then c.order else c.order + [name]
    ensures c'.suites.Keys == c.suites.Keys + {name}
    ensures c'.suites[name] == (if name in c.suites then c.suites[name] else []) + [e]
    ensures forall n :: n in c.suites && n != name ==> c'.suites[n] == c.suites[n]
  {
    var started := if name in c.suites then c else Collected(c.order + [name], c.suites[name := []]);
    Collected(started.order, started.suites[name := started.suites[name] + [e]])
  }

  /** The number of examples held in the suites named by `order`. */
  function TotalOver(order: seq<string>, suites: map<string, seq<Example>>): nat
  {
    if order == [] then 0
    else
      var last := order[|order| - 1];
      TotalOver(order[..|order| - 1], suites) + (if last in suites then |suites[last]| else 0)
  }

  /** The number of examples recorded across all suites. */
  function Total(c: Collected): nat
  {
    TotalOver(c.order, c.suites)
  }

  lemma {:induction false} TotalOverIgnoresOthers(order: seq<string>, suites: map<string, seq<Example>>, name: string, v: seq<Example>)
    requires name !in order
    ensures TotalOver(order, suites[name := v]) == TotalOver(order, suites)
  {
    if order != [] {
      TotalOverIgnoresOthers(order[..|order| - 1], suites, name, v);
    }
  }

  lemma {:induction false} TotalOverReplaces(order: seq<string>, suites: map<string, seq<Example>>, name: string, v: seq<Example>)
    requires NoDuplicates(order) && name in order && name in suites
    ensures TotalOver(order, suites[name := v]) == TotalOver(order, suites) - |suites[name]| + |v|
  {
    var init, last := order[..|order| - 1], order[|order| - 1];
    assert NoDuplicates(init);
    if last == name {
      assert name !in init;
      TotalOverIgnoresOthers(init, suites, name, v);
    } else {
      assert name in init;
      TotalOverReplaces(init, suites, name, v);
    }
  }

  /** There is no de-duplication: every recording adds exactly one example to the total. */
  lemma TotalAfterAdd(c: Collected, name: string, e: Example)
    requires WellFormed(c)
    ensures Total(Add(c, name, e)) == Total(c) + 1
  {
    if name in c.suites {
      var v := c.suites[name] + [e];
      assert Add(c, name, e) == Collected(c.order, c.suites[name := v]);
      TotalOverReplaces(c.order, c.suites, name, v);
    } else {
      assert [] + [e] == [e];
      var order' := c.order + [name];
      assert Add(c, name, e) == Collected(order', c.suites[name := [e]]);
      assert order'[..|order'| - 1] == c.order;
      TotalOverIgnoresOthers(c.order, c.suites, name, [e]);
    }
  }

  /**
    The state after recording `examples` one by one from the start, or the
    error of the first example that has no enclosing group. Stopping at that
    error stands for the run's reporting being aborted there: the recording
    raises, so nothing after it is recorded. (A single call to
    `JUnit.AddToTestSuiteResults` reports the same error and leaves the state
    as it was.) There are never more suites than examples.
   */
  function Collect(examples: seq<Example>): (r: Result<Collected>)
    ensures r.Ok? ==> |r.value.order| <= |examples|
  {
    if examples == [] then Ok(NoResults)
    else
      var prior := Collect(examples[..|examples| - 1]);
      var last := examples[|examples| - 1];
      if prior.Err? then prior
      else if last.group == None then Err(MalformedTestMetadata)
      else Ok(Add(prior.value, SuiteNameOf(last).value, last))
  }

  /** Recording fails exactly when some example has no enclosing group. */
  lemma {:induction false} CollectSucceeds(examples: seq<Example>)
    ensures Collect(examples).Ok? <==> forall k :: 0 <= k < |examples| ==> examples[k].group.Some?
  {
    if examples != [] {
      var init := examples[..|examples| - 1];
      CollectSucceeds(init);
      assert examples == init + [examples[|examples| - 1]];
    }
  }

  /** Recording keeps the key order and the keys in agreement, and loses or duplicates no example. */
  lemma {:induction false} CollectWellFormed(examples: seq<Example>)
    requires Collect(examples).Ok?
    ensures WellFormed(Collect(examples).value)
    ensures Total(Collect(examples).value) == |examples|
    ensures var c := Collect(examples).value;
            forall n, x :: n in c.suites && x in c.suites[n] ==> SuiteNameOf(x) == Ok(n)
  {
    CollectSuites(examples);
    forall n | n in Collect(examples).value.suites {
      ExamplesOfMembers(examples, n);
    }
    if examples != [] {
      var init, last := examples[..|examples| - 1], examples[|examples| - 1];
      CollectWellFormed(init);
      TotalAfterAdd(Collect(init).value, SuiteNameOf(last).value, last);
    }
  }

  /** Some example among `examples` resolves to the suite `name`. */
  ghost predicate Occurs(examples: seq<Example>, name: string)
  {
    exists k :: 0 <= k < |examples| && SuiteNameOf(examples[k]) == Ok(name)
  }

  lemma OccursSnoc(init: seq<Example>, last: Example, name: string)
    ensures Occurs(init + [last], name) <==> Occurs(init, name) || SuiteNameOf(last) == Ok(name)
  {
    var es := init + [last];
    if Occurs(es, name) {
      var k :| 0 <= k < |es| && SuiteNameOf(es[k]) == Ok(name);
      if k < |init| {
        assert es[k] == init[k];
      }
    }
    if Occurs(init, name) {
      var k :| 0 <= k < |init| && SuiteNameOf(init[k]) == Ok(name);
      assert es[k] == init[k];
    }
    if SuiteNameOf(last) == Ok(name) {
      assert es[|init|] == last;
    }
  }

  /** The examples resolving to the suite `name`, in recording order. */
  function ExamplesOf(examples: seq<Example>, name: string): seq<Example>
  {
    if examples == [] then []
    else
      var last := examples[|examples| - 1];
      ExamplesOf(examples[..|examples| - 1], name) + (if SuiteNameOf(last) == Ok(name) then [last] else [])
  }

  /** Only examples resolving to `name` are among its examples. */
  lemma {:induction false} ExamplesOfMembers(examples: seq<Example>, name: string)
    ensures forall x :: x in ExamplesOf(examples, name) ==> SuiteNameOf(x) == Ok(name)
  {
    if examples != [] {
      ExamplesOfMembers(examples[..|examples| - 1], name);
    }
  }

  /** After recording `examples`, the suites are exactly the names some example resolves to. */
  lemma {:induction false} CollectKeys(examples: seq<Example>)
    requires Collect(examples).Ok?
    ensures forall n :: n in Collect(examples).value.suites <==> Occurs(examples, n)
  {
    if examples != [] {
      var init, last := examples[..|examples| - 1], examples[|examples| - 1];
      assert examples == init + [last];
      CollectKeys(init);
      var c := Collect(init).value;
      var c' := Add(c, SuiteNameOf(last).value, last);
      assert Collect(examples) == Ok(c');
      forall n ensures n in c'.suites <==> Occurs(examples, n) {
        OccursSnoc(init, last, n);
      }
    }
  }

  /** After recording `examples`, each suite holds exactly its examples, in recording order. */
  lemma {:induction false} CollectSuites(examples: seq<Example>)
    requires Collect(examples).Ok?
    ensures forall n :: n in Collect(examples).value.suites ==> Collect(examples).value.suites[n] == ExamplesOf(examples, n)
  {
    if examples != [] {
      var init, last := examples[..|examples| - 1], examples[|examples| - 1];
      CollectSuites(init);
      CollectKeys(init);
      var c := Collect(init).value;
      var name := SuiteNameOf(last).value;
      var c' := Add(c, name, last);
      assert Collect(examples) == Ok(c');
      forall n | n in c'.suites
        ensures c'.suites[n] == ExamplesOf(examples, n)
      {
        assert ExamplesOf(examples, n) == ExamplesOf(init, n) + (if n == name then [last] else []);
        if n == name && n !in c.suites {
          assert !Occurs(init, n);
          ExamplesOfAbsent(init, n);
        }
      }
    }
  }

  lemma {:induction false} ExamplesOfAbsent(examples: seq<Example>, name: string)
    requires !Occurs(examples, name)
    ensures ExamplesOf(examples, name) == []
  {
    if examples != [] {
      var init, last := examples[..|examples| - 1], examples[|examples| - 1];
      assert examples == init + [last];
      OccursSnoc(init, last, name);
      ExamplesOfAbsent(init, name);
    }
  }

  /** One instance of first-seen order, by induction on the recordings. */
  lemma {:induction false} FirstSeenBefore(examples: seq<Example>, i: nat, j: nat, k: nat)
    requires Collect(examples).Ok?
    requires i < j < |Collect(examples).value.order| && k < |examples|
    requires SuiteNameOf(examples[k]) == Ok(Collect(examples).value.order[j])
    ensures Occurs(examples[..k], Collect(examples).value.order[i])
  {
    var init, last := examples[..|examples| - 1], examples[|examples| - 1];
    var c := Collect(init).value;
    var order := Add(c, SuiteNameOf(last).value, last).order;
    assert Collect(examples).value.order == order;
    assert i < |c.order| && order[i] == c.order[i];
    CollectKeys(init);
    assert c.order[i] in c.suites by {
      CollectWellFormed(init);
    }
    if k < |init| {
      assert examples[k] == init[k];
      assert examples[..k] == init[..k];
      if j == |c.order| {
        assert Occurs(init, order[j]);
        CollectWellFormed(init);
        assert false;
      }
      FirstSeenBefore(init, i, j, k);
    } else {
      assert examples[..k] == init;
    }
  }

  /**
    Suites keep first-seen order: whenever an example of a later suite is
    recorded, some example of every earlier suite was recorded before it.
   */
  lemma CollectFirstSeenOrder(examples: seq<Example>)
    requires Collect(examples).Ok?
    ensures var order := Collect(examples).value.order;
            forall i, j, k :: 0 <= i < j < |order| && 0 <= k < |examples| && SuiteNameOf(examples[k]) == Ok(order[j])
              ==> Occurs(examples[..k], order[i])
  {
    var order := Collect(examples).value.order;
    forall i, j, k | 0 <= i < j < |order| && 0 <= k < |examples| && SuiteNameOf(examples[k]) == Ok(order[j])
      ensures Occurs(examples[..k], order[i])
    {
      FirstSeenBefore(examples, i, j, k);
    }
  }

  /** Filtering by suite distributes over concatenation. */
  lemma {:induction false} ExamplesOfSplit(a: seq<Example>, b: seq<Example>, name: string)
    ensures ExamplesOf(a + b, name) == ExamplesOf(a, name) + ExamplesOf(b, name)
    decreases |b|
  {
    if b != [] {
      var ab := a + b;
      assert ab[..|ab| - 1] == a + b[..|b| - 1];
      assert ab[|ab| - 1] == b[|b| - 1];
      ExamplesOfSplit(a, b[..|b| - 1], name);
    } else {
      assert a + b == a;
    }
  }

  lemma ExamplesOfSingle(e: Example, name: string)
    ensures ExamplesOf([e], name) == if SuiteNameOf(e) == Ok(name) then [e] else []
  {
    assert [e][..0] == [];
  }

  lemma ExamplesOfAround(examples: seq<Example>, k: nat, name: string)
    requires k < |examples|
    ensures ExamplesOf(examples, name) == ExamplesOf(examples[..k], name) + ExamplesOf([examples[k]], name) + ExamplesOf(examples[k + 1..], name)
  {
    assert examples == examples[..k] + examples[k..];
    ExamplesOfSplit(examples[..k], examples[k..], name);
    assert examples[k..] == [examples[k]] + examples[k + 1..];
    ExamplesOfSplit([examples[k]], examples[k + 1..], name);
  }

  /**
    Every recorded example sits in the suite it resolves to, after that
    suite's earlier examples and before its later ones.
   */
  lemma ExampleInItsSuite(examples: seq<Example>, k: nat)
    requires Collect(examples).Ok? && k < |examples|
    ensures SuiteNameOf(examples[k]).Ok?
    ensures var n := SuiteNameOf(examples[k]).value;
            && n in Collect(examples).value.suites
            && Collect(examples).value.suites[n] == ExamplesOf(examples[..k], n) + [examples[k]] + ExamplesOf(examples[k + 1..], n)
  {
    CollectSucceeds(examples);
    var n := SuiteNameOf(examples[k]).value;
    assert Occurs(examples, n);
    CollectKeys(examples);
    CollectSuites(examples);
    ExamplesOfAround(examples, k, n);
    ExamplesOfSingle(examples[k], n);
  }
}
