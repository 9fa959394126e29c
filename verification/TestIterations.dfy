/**
 Turning per-test iterations into suite counts: of several iterations of a test only one is reported,
 and it should be a successful one if there is any.
 */
module TestIterations {
  import opened Wrappers

  datatype Iteration = Iteration(success: bool, output: string)

  // ------------------------------------------------------------ scores

  const RunHeader := "[ RUN      ] "
  const Markers := ["Stack Trace:", "Expected:", "Actual:"]

  predicate Contains(s: string, part: string) {
    exists i :: 0 <= i <= |s| && part <= s[i..]
  }

  predicate IsNameChar(c: char) {
    'a' <= c <= 'z' || 'A' <= c <= 'Z' || '0' <= c <= '9' || c == '_' || c == '/' || c == '#' || c == '.'
  }

  /** The output begins with the line that announces this test, under any suite name. */
  predicate StartsThisTest(output: string, testCase: string) {
    RunHeader <= output
    && exists k :: |RunHeader| <= k <= |output|
         && (forall j :: |RunHeader| <= j < k ==> IsNameChar(output[j])) && testCase + "\n" <= output[k..]
  }

  function MarkerScore(output: string, markers: seq<string>): nat {
    if markers == [] then 0
    else MarkerScore(output, markers[..|markers| - 1]) + (if Contains(output, markers[|markers| - 1]) then 2500 else 0)
  }

  function Score(testCase: string, it: Iteration): nat {
    (if it.success then 1000000 else 0) + |it.output|
    + (if StartsThisTest(it.output, testCase) then 7500 else 0) + MarkerScore(it.output, Markers)
  }

  method ComputeScore(testCase: string, it: Iteration) returns (score: nat)
    ensures score == Score(testCase, it)
  {
    score := if it.success then 1000000 else 0;
    score := score + |it.output|;
    score := score + if StartsThisTest(it.output, testCase) then 7500 else 0;
    var marks := CountMarkers(it.output, Markers);
    score := score + marks;
  }

  /** The loop over the marker texts. */
  method CountMarkers(output: string, markers: seq<string>) returns (score: nat)
    ensures score == MarkerScore(output, markers)
  {
    score := 0;
    var i := 0;
    while i < |markers|
      invariant 0 <= i <= |markers|
      invariant score == MarkerScore(output, markers[..i])
    {
      assert markers[..i + 1][..i] == markers[..i];
      score := score + if Contains(output, markers[i]) then 2500 else 0;
      i := i + 1;
    }
    assert markers[..i] == markers;
  }

  lemma {:induction false} MarkerScoreIsBounded(output: string, markers: seq<string>)
    ensures MarkerScore(output, markers) <= 2500 * |markers|
    ensures (forall m :: m in markers ==> Contains(output, m)) ==> MarkerScore(output, markers) == 2500 * |markers|
    decreases |markers|
  {
    if markers != [] {
      MarkerScoreIsBounded(output, markers[..|markers| - 1]);
    }
  }

  /** Letters, digits and the few signs a suite prefix is made of. */
  predicate IsPrefix(prefix: string) {
    forall j :: 0 <= j < |prefix| ==>
      || 'a' <= prefix[j] <= 'z' || 'A' <= prefix[j] <= 'Z' || '0' <= prefix[j] <= '9'
      || prefix[j] in ['_', '/', '#', '.']
  }

  predicate Announces(output: string, prefix: string, testCase: string, rest: string) {
    IsPrefix(prefix) && output == "[ RUN      ] " + prefix + (testCase + "\n" + rest)
  }

  lemma {:induction false} StartedIsAnnounced(output: string, testCase: string, k: nat)
    requires |RunHeader| <= k <= |output| && RunHeader <= output && testCase + "\n" <= output[k..]
    requires forall j :: |RunHeader| <= j < k ==> IsNameChar(output[j])
    ensures Announces(output, output[|RunHeader|..k], testCase, output[k..][|testCase| + 1..])
  {
    assert output[k..] == testCase + "\n" + output[k..][|testCase| + 1..];
    assert output == output[..|RunHeader|] + output[|RunHeader|..k] + output[k..];
  }

  /** An output starts this test exactly when it is the announcement with any suite prefix, the name of the
      test, the end of the line and anything after that. */
  lemma {:induction false} StartsThisTestIff(output: string, testCase: string)
    ensures StartsThisTest(output, testCase) <==> exists prefix, rest :: Announces(output, prefix, testCase, rest)
  {
    if StartsThisTest(output, testCase) {
      var k :| |RunHeader| <= k <= |output| && testCase + "\n" <= output[k..]
               && forall j :: |RunHeader| <= j < k ==> IsNameChar(output[j]);
      StartedIsAnnounced(output, testCase, k);
    } else if prefix, rest :| Announces(output, prefix, testCase, rest) {
      AnnouncedStarts(output, prefix, testCase, rest);
    }
  }

  lemma {:induction false} AnnouncedStarts(output: string, prefix: string, testCase: string, rest: string)
    requires Announces(output, prefix, testCase, rest)
    ensures StartsThisTest(output, testCase)
  {
    var k := |RunHeader| + |prefix|;
    assert output[k..] == testCase + "\n" + rest;
    forall j | |RunHeader| <= j < k
      ensures IsNameChar(output[j])
    {
      assert output[j] == prefix[j - |RunHeader|];
    }
  }

  /** What each feature of an iteration adds to its score. */
  lemma {:induction false} ScoreAddsUp(testCase: string, it: Iteration)
    ensures Score(testCase, it)
         == (if it.success then 1000000 else 0) + |it.output|
          + (if StartsThisTest(it.output, testCase) then 7500 else 0)
          + (if Contains(it.output, "Stack Trace:") then 2500 else 0)
          + (if Contains(it.output, "Expected:") then 2500 else 0)
          + (if Contains(it.output, "Actual:") then 2500 else 0)
  {
    assert Markers[..2][..1] == Markers[..1] && Markers[..1][..0] == [];
    assert MarkerScore(it.output, Markers[..1]) == if Contains(it.output, "Stack Trace:") then 2500 else 0;
    assert MarkerScore(it.output, Markers[..2])
        == MarkerScore(it.output, Markers[..1]) + if Contains(it.output, "Expected:") then 2500 else 0;
  }

  // ------------------------------------------------------------ picking

  /** Puts `x` before everything that does not score higher. */
  function Insert(testCase: string, x: Iteration, sorted: seq<Iteration>): (r: seq<Iteration>)
    ensures multiset(r) == multiset(sorted) + multiset{x}
  {
    if sorted == [] || Score(testCase, sorted[0]) <= Score(testCase, x) then [x] + sorted
    else
      assert sorted == [sorted[0]] + sorted[1..];
      [sorted[0]] + Insert(testCase, x, sorted[1..])
  }

  /** The stable sort by descending score. */
  function SortedByScore(testCase: string, its: seq<Iteration>): (r: seq<Iteration>)
    ensures multiset(r) == multiset(its)
    ensures |r| == |its|
  {
    if its == [] then []
    else
      assert its == [its[0]] + its[1..];
      var r := Insert(testCase, its[0], SortedByScore(testCase, its[1..]));
      assert |multiset(r)| == |multiset(its)|;
      r
  }

  /** Picking from no iterations at all fails. */
  function Pick(testCase: string, its: seq<Iteration>): Option<Iteration> {
    if its == [] then None else Some(SortedByScore(testCase, its)[0])
  }

  /** The first `k` are ahead of `x`, and it goes somewhere into the rest. */
  ghost predicate GoesPast(testCase: string, x: Iteration, sorted: seq<Iteration>, k: nat)
    requires k <= |sorted|
  {
    Insert(testCase, x, sorted) == sorted[..k] + Insert(testCase, x, sorted[k..])
  }

  lemma {:induction false} GoesPastOneMore(testCase: string, x: Iteration, sorted: seq<Iteration>, k: nat)
    requires k < |sorted| && Score(testCase, x) < Score(testCase, sorted[k]) && GoesPast(testCase, x, sorted, k)
    ensures GoesPast(testCase, x, sorted, k + 1)
  {
    InsertStep(testCase, x, sorted[k..]);
    assert sorted[k..][1..] == sorted[k + 1..];
    assert sorted[..k + 1] == sorted[..k] + [sorted[k]];
    var after := Insert(testCase, x, sorted[k + 1..]);
    assert sorted[..k] + ([sorted[k]] + after) == sorted[..k] + [sorted[k]] + after;
  }

  lemma {:induction false} InsertStep(testCase: string, x: Iteration, rest: seq<Iteration>)
    requires rest != [] && Score(testCase, x) < Score(testCase, rest[0])
    ensures Insert(testCase, x, rest) == [rest[0]] + Insert(testCase, x, rest[1..])
  {
  }

  lemma {:induction false} GoesHere(testCase: string, x: Iteration, sorted: seq<Iteration>, k: nat)
    requires k <= |sorted| && GoesPast(testCase, x, sorted, k)
    requires k < |sorted| ==> Score(testCase, sorted[k]) <= Score(testCase, x)
    ensures Insert(testCase, x, sorted) == sorted[..k] + [x] + sorted[k..]
  {
    assert k < |sorted| ==> sorted[k..][0] == sorted[k];
    assert sorted[..k] + ([x] + sorted[k..]) == sorted[..k] + [x] + sorted[k..];
  }

  /** Puts one iteration into a list in descending order. */
  method InsertByScore(testCase: string, x: Iteration, sorted: seq<Iteration>) returns (r: seq<Iteration>)
    ensures r == Insert(testCase, x, sorted)
  {
    var score := ComputeScore(testCase, x);
    var k := 0;
    assert sorted[0..] == sorted && sorted[..0] == [];
    while k < |sorted|
      invariant 0 <= k <= |sorted| && GoesPast(testCase, x, sorted, k)
    {
      var other := ComputeScore(testCase, sorted[k]);
      if other <= score {
        GoesHere(testCase, x, sorted, k);
        return sorted[..k] + [x] + sorted[k..];
      }
      GoesPastOneMore(testCase, x, sorted, k);
      k := k + 1;
    }
    GoesHere(testCase, x, sorted, k);
    return sorted[..k] + [x] + sorted[k..];
  }

  /** The stable sort, written out, and its first element. */
  method PickIteration(testCase: string, its: seq<Iteration>) returns (it: Iteration)
    requires its != []
    ensures Pick(testCase, its) == Some(it)
  {
    var sorted: seq<Iteration> := [];
    var i := |its|;
    while 0 < i
      invariant 0 <= i <= |its| && sorted == SortedByScore(testCase, its[i..])
    {
      i := i - 1;
      assert its[i..][1..] == its[i + 1..];
      sorted := InsertByScore(testCase, its[i], sorted);
    }
    assert its[i..] == its;
    it := sorted[0];
  }

  ghost predicate IsFirstBest(testCase: string, its: seq<Iteration>, i: nat)
    requires i < |its|
  {
    && (forall j :: 0 <= j < |its| ==> Score(testCase, its[j]) <= Score(testCase, its[i]))
    && (forall j :: 0 <= j < i ==> Score(testCase, its[j]) < Score(testCase, its[i]))
  }

  /** The one picked is the first of those with the highest score. */
  lemma {:induction false} PickIsFirstBest(testCase: string, its: seq<Iteration>) returns (i: nat)
    requires its != []
    ensures i < |its| && IsFirstBest(testCase, its, i) && SortedByScore(testCase, its)[0] == its[i]
    decreases |its|
  {
    if |its| == 1 {
      i := 0;
    } else {
      var k := PickIsFirstBest(testCase, its[1..]);
      i := if Score(testCase, its[1 + k]) <= Score(testCase, its[0]) then 0 else 1 + k;
      forall j | 0 <= j < |its|
        ensures Score(testCase, its[j]) <= Score(testCase, its[i])
        ensures j < i ==> Score(testCase, its[j]) < Score(testCase, its[i])
      {
        if 0 < j {
          assert its[1..][j - 1] == its[j];
        }
      }
    }
  }

  /** Successful iteration `i` is ahead of every failed one. */
  ghost predicate Outscores(testCase: string, its: seq<Iteration>, i: nat)
    requires i < |its|
  {
    forall j :: 0 <= j < |its| && !its[j].success ==>
      Score(testCase, its[j]) < Score(testCase, its[i])
      || (Score(testCase, its[j]) == Score(testCase, its[i]) && i < j)
  }

  /** A successful iteration is picked exactly when one is ahead of every failed one. */
  lemma SuccessPickedIff(testCase: string, its: seq<Iteration>)
    requires its != []
    ensures Pick(testCase, its).value.success <==>
            exists i :: 0 <= i < |its| && its[i].success && Outscores(testCase, its, i)
  {
    var p := PickIsFirstBest(testCase, its);
    if its[p].success {
      assert Outscores(testCase, its, p);
    }
  }

  lemma BonusIsBounded(testCase: string, it: Iteration)
    ensures var plain := (if it.success then 1000000 else 0) + |it.output|;
            plain <= Score(testCase, it) <= plain + 15000
  {
    MarkerScoreIsBounded(it.output, Markers);
  }

  /** As long as every failed iteration printed less than 985000 characters, a successful one is picked
      whenever there is one. */
  lemma SuccessPickedBelowBound(testCase: string, its: seq<Iteration>)
    requires forall j :: 0 <= j < |its| && !its[j].success ==> |its[j].output| < 985000
    requires its != []
    ensures Pick(testCase, its).value.success <==> exists i :: 0 <= i < |its| && its[i].success
  {
    SuccessPickedIff(testCase, its);
    if i :| 0 <= i < |its| && its[i].success {
      BonusIsBounded(testCase, its[i]);
      forall j | 0 <= j < |its| && !its[j].success
        ensures Score(testCase, its[j]) < Score(testCase, its[i])
      {
        BonusIsBounded(testCase, its[j]);
      }
      assert Outscores(testCase, its, i);
    }
  }

  /** The bound is tight: a failed iteration of that length that names the test and has all markers ties
      with a successful one that printed nothing, and the earlier one is picked. */
  lemma BoundIsTight(testCase: string, failed: Iteration)
    requires !failed.success && |failed.output| == 985000 && StartsThisTest(failed.output, testCase)
    requires forall m :: m in Markers ==> Contains(failed.output, m)
    ensures Pick(testCase, [failed, Iteration(true, "")]) == Some(failed)
  {
    var its := [failed, Iteration(true, "")];
    var p := PickIsFirstBest(testCase, its);
    MarkerScoreIsBounded(failed.output, Markers);
    NothingPrinted(testCase);
  }

  function Padding(n: nat): string {
    seq(n, _ => ' ')
  }

  /** An output of exactly the length of the bound, made up of everything that scores. */
  function WorstOutput(testCase: string): string
    requires |testCase| <= 984958
  {
    RunHeader + testCase + "\n" + Markers[0] + Markers[1] + Markers[2] + Padding(984958 - |testCase|)
  }

  lemma ContainsAt(s: string, part: string, i: nat)
    requires i + |part| <= |s| && s[i..i + |part|] == part
    ensures Contains(s, part)
  {
    assert part <= s[i..];
  }

  lemma WorstOutputContains(testCase: string)
    requires |testCase| <= 984958
    ensures |WorstOutput(testCase)| == 985000 && (forall m :: m in Markers ==> Contains(WorstOutput(testCase), m))
  {
    var out, n := WorstOutput(testCase), |RunHeader| + |testCase| + 1;
    ContainsAt(out, Markers[0], n);
    ContainsAt(out, Markers[1], n + |Markers[0]|);
    ContainsAt(out, Markers[2], n + |Markers[0]| + |Markers[1]|);
  }

  lemma WorstOutputStarts(testCase: string)
    requires |testCase| <= 984958
    ensures StartsThisTest(WorstOutput(testCase), testCase)
  {
    var out, rest := WorstOutput(testCase), Markers[0] + Markers[1] + Markers[2] + Padding(984958 - |testCase|);
    assert out == RunHeader + (testCase + "\n" + rest);
    assert out[|RunHeader|..] == testCase + "\n" + rest;
  }

  /** Such an output exists for every test name that leaves room for it. */
  lemma BoundIsReached(testCase: string)
    requires |testCase| <= 984958
    ensures Pick(testCase, [Iteration(false, WorstOutput(testCase)), Iteration(true, "")])
         == Some(Iteration(false, WorstOutput(testCase)))
    ensures |WorstOutput(testCase)| == 985000
  {
    WorstOutputContains(testCase);
    WorstOutputStarts(testCase);
    BoundIsTight(testCase, Iteration(false, WorstOutput(testCase)));
  }

  lemma NothingPrinted(testCase: string)
    ensures Score(testCase, Iteration(true, "")) == 1000000
  {
    assert forall m :: m in Markers ==> !Contains("", m);
    NoMarkers(Markers);
  }

  lemma {:induction false} NoMarkers(markers: seq<string>)
    requires forall m :: m in markers ==> !Contains("", m)
    ensures MarkerScore("", markers) == 0
    decreases |markers|
  {
    if markers != [] {
      NoMarkers(markers[..|markers| - 1]);
    }
  }

  /** Beyond a million characters a failed iteration is reported although the test passed once. */
  lemma LongFailureIsPicked(testCase: string, failed: Iteration)
    requires !failed.success && |failed.output| > 1015000
    ensures Pick(testCase, [Iteration(true, ""), failed]) == Some(failed)
  {
    var its := [Iteration(true, ""), failed];
    var p := PickIsFirstBest(testCase, its);
    BonusIsBounded(testCase, its[0]);
    BonusIsBounded(testCase, its[1]);
  }

  // ------------------------------------------------------------ suites

  datatype Test = Test(fullName: string, iterations: seq<Iteration>)

  datatype Counts = Counts(tests: nat, failures: nat)

  function Delimiter(name: string): char {
    if '#' in name then '#' else if '/' in name then '/' else '.'
  }

  /** Where the last delimiter is; the length of the name when it has none. */
  function LastDelimiter(name: string, delimiter: char): nat {
    if name == [] then 0
    else if name[|name| - 1] == delimiter then |name| - 1
    else
      var k := LastDelimiter(name[..|name| - 1], delimiter);
      if k == |name| - 1 then |name| else k
  }

  lemma {:induction false} LastDelimiterIsLast(name: string, delimiter: char)
    ensures var k := LastDelimiter(name, delimiter);
            && k <= |name| && (k == |name| <==> delimiter !in name)
            && (k < |name| ==> name[k] == delimiter && delimiter !in name[k + 1..])
    decreases |name|
  {
    if name != [] && name[|name| - 1] != delimiter {
      var n := |name| - 1;
      LastDelimiterIsLast(name[..n], delimiter);
      var k := LastDelimiter(name[..n], delimiter);
      assert name == name[..n] + [name[n]];
      if k < n {
        assert name[k + 1..] == name[..n][k + 1..] + [name[n]];
      }
    }
  }

  /** Names without any delimiter cannot be taken apart, and a test without iterations has nothing to pick. */
  predicate Readable(t: Test) {
    Delimiter(t.fullName) in t.fullName && t.iterations != []
  }

  function Suite(t: Test): string
    requires Readable(t)
  {
    LastDelimiterIsLast(t.fullName, Delimiter(t.fullName));
    t.fullName[..LastDelimiter(t.fullName, Delimiter(t.fullName))]
  }

  function Case(t: Test): string
    requires Readable(t)
  {
    LastDelimiterIsLast(t.fullName, Delimiter(t.fullName));
    t.fullName[LastDelimiter(t.fullName, Delimiter(t.fullName)) + 1..]
  }

  /** A test can be read exactly when it has iterations and one of the three delimiters in its name. */
  lemma ReadableIff(t: Test)
    ensures Readable(t) <==>
              t.iterations != [] && ('#' in t.fullName || '/' in t.fullName || '.' in t.fullName)
  {
  }

  /** The name is the suite, a delimiter and the case: it is taken apart at the last '#' if there is one,
      otherwise at the last '/' if there is one, otherwise at the last dot. */
  lemma {:induction false} NameIsTakenApart(t: Test) returns (d: char)
    requires Readable(t)
    ensures d == if '#' in t.fullName then '#' else if '/' in t.fullName then '/' else '.'
    ensures t.fullName == Suite(t) + [d] + Case(t) && d !in Case(t)
  {
    d := Delimiter(t.fullName);
    LastDelimiterIsLast(t.fullName, d);
    var k := LastDelimiter(t.fullName, d);
    assert t.fullName == t.fullName[..k] + [t.fullName[k]] + t.fullName[k + 1..];
  }

  predicate Fails(t: Test)
    requires Readable(t)
  {
    !Pick(Case(t), t.iterations).value.success
  }

  predicate AllReadable(ts: seq<Test>) {
    forall i :: 0 <= i < |ts| ==> Readable(ts[i])
  }

  /** How many of the tests are in one of the suites, and how many of those fail. */
  function CountIn(ts: seq<Test>, suites: set<string>): Counts
    requires AllReadable(ts)
  {
    if ts == [] then Counts(0, 0)
    else
      var c, t := CountIn(ts[..|ts| - 1], suites), ts[|ts| - 1];
      if Suite(t) in suites then Counts(c.tests + 1, c.failures + if Fails(t) then 1 else 0) else c
  }

  function Suites(ts: seq<Test>): set<string>
    requires AllReadable(ts)
  {
    set i | 0 <= i < |ts| :: Suite(ts[i])
  }

  /** One more test for its suite; a suite is entered when its first test comes. */
  function Record(output: map<string, Counts>, t: Test): map<string, Counts>
    requires Readable(t)
  {
    var c := if Suite(t) in output then output[Suite(t)] else Counts(0, 0);
    output[Suite(t) := Counts(c.tests + 1, c.failures + if Fails(t) then 1 else 0)]
  }

  ghost predicate Counted(output: map<string, Counts>, ts: seq<Test>) {
    && AllReadable(ts)
    && output.Keys == Suites(ts)
    && forall s :: s in output ==> output[s] == CountIn(ts, {s})
  }

  lemma {:induction false} CountSnoc(ts: seq<Test>, t: Test, s: string)
    requires AllReadable(ts) && Readable(t)
    ensures AllReadable(ts + [t])
    ensures var c, c' := CountIn(ts, {s}), CountIn(ts + [t], {s});
            c' == if Suite(t) == s then Counts(c.tests + 1, c.failures + if Fails(t) then 1 else 0) else c
  {
  }

  lemma RecordedSuite(output: map<string, Counts>, ts: seq<Test>, t: Test, s: string)
    requires Counted(output, ts) && Readable(t) && s in Record(output, t)
    ensures AllReadable(ts + [t]) && Record(output, t)[s] == CountIn(ts + [t], {s})
  {
    CountSnoc(ts, t, s);
    if s == Suite(t) && s !in output {
      NewSuiteIsEmpty(ts, s);
    }
  }

  lemma RecordedSuites(output: map<string, Counts>, ts: seq<Test>, t: Test)
    requires Counted(output, ts) && Readable(t)
    ensures AllReadable(ts + [t]) && Record(output, t).Keys == Suites(ts + [t])
  {
    var now := ts + [t];
    assert now[..|ts|] == ts && now[|ts|] == t && AllReadable(now);
    SuitesSnoc(ts, now);
    assert Record(output, t).Keys == output.Keys + {Suite(t)};
  }

  lemma RecordCounts(output: map<string, Counts>, ts: seq<Test>, t: Test)
    requires Counted(output, ts) && Readable(t)
    ensures Counted(Record(output, t), ts + [t])
  {
    RecordedSuites(output, ts, t);
    forall s | s in Record(output, t)
      ensures Record(output, t)[s] == CountIn(ts + [t], {s})
    {
      RecordedSuite(output, ts, t, s);
    }
  }

  lemma CountNext(output: map<string, Counts>, tests: seq<Test>, i: nat)
    requires i < |tests| && Counted(output, tests[..i]) && Readable(tests[i])
    ensures Counted(Record(output, tests[i]), tests[..i + 1])
  {
    RecordCounts(output, tests[..i], tests[i]);
    assert tests[..i + 1] == tests[..i] + [tests[i]];
  }

  method CountTest(output: map<string, Counts>, t: Test) returns (r: map<string, Counts>)
    requires Readable(t)
    ensures r == Record(output, t)
  {
    var suite := Suite(t);
    var iteration := PickIteration(Case(t), t.iterations);
    var c := if suite in output then output[suite] else Counts(0, 0);
    c := c.(tests := c.tests + 1);
    if !iteration.success {
      c := c.(failures := c.failures + 1);
    }
    r := output[suite := c];
  }

  /** Reading the results fails exactly when some test is unreadable; otherwise every suite that occurs,
      and no other, gets the number of its tests and of those reported as failed. */
  method Transform(tests: seq<Test>) returns (r: Option<map<string, Counts>>)
    ensures r.Some? <==> AllReadable(tests)
    ensures r.Some? <==> forall i :: 0 <= i < |tests| ==>
              && tests[i].iterations != []
              && ('#' in tests[i].fullName || '/' in tests[i].fullName || '.' in tests[i].fullName)
    ensures r.Some? ==> Counted(r.value, tests)
  {
    var output: map<string, Counts> := map[];
    var i := 0;
    while i < |tests|
      invariant 0 <= i <= |tests| && Counted(output, tests[..i])
    {
      var t := tests[i];
      if !(Delimiter(t.fullName) in t.fullName) || t.iterations == [] {
        assert !Readable(tests[i]);
        return None;
      }
      CountNext(output, tests, i);
      output := CountTest(output, t);
      i := i + 1;
    }
    assert tests[..i] == tests;
    return Some(output);
  }

  lemma SuitesSnoc(before: seq<Test>, now: seq<Test>)
    requires AllReadable(now) && |now| == |before| + 1 && now[..|before|] == before
    ensures AllReadable(before) && Suites(now) == Suites(before) + {Suite(now[|before|])}
  {
  }

  lemma {:induction false} NewSuiteIsEmpty(ts: seq<Test>, suite: string)
    requires AllReadable(ts)
    ensures suite !in Suites(ts) ==> CountIn(ts, {suite}) == Counts(0, 0)
    decreases |ts|
  {
    if ts != [] {
      var n := |ts| - 1;
      SuitesSnoc(ts[..n], ts);
      NewSuiteIsEmpty(ts[..n], suite);
    }
  }

  lemma {:induction false} CountsAdd(ts: seq<Test>, suites: set<string>, s: string)
    requires AllReadable(ts) && s !in suites
    ensures CountIn(ts, suites + {s}).tests == CountIn(ts, suites).tests + CountIn(ts, {s}).tests
    ensures CountIn(ts, suites + {s}).failures == CountIn(ts, suites).failures + CountIn(ts, {s}).failures
    decreases |ts|
  {
    if ts != [] {
      CountsAdd(ts[..|ts| - 1], suites, s);
    }
  }

  lemma {:induction false} NoSuites(ts: seq<Test>)
    requires AllReadable(ts)
    ensures CountIn(ts, {}) == Counts(0, 0)
    decreases |ts|
  {
    if ts != [] {
      NoSuites(ts[..|ts| - 1]);
    }
  }

  function Failing(ts: seq<Test>): nat
    requires AllReadable(ts)
  {
    if ts == [] then 0 else Failing(ts[..|ts| - 1]) + (if Fails(ts[|ts| - 1]) then 1 else 0)
  }

  lemma {:induction false} AllSuites(ts: seq<Test>, suites: set<string>)
    requires AllReadable(ts) && Suites(ts) <= suites
    ensures CountIn(ts, suites) == Counts(|ts|, Failing(ts))
    decreases |ts|
  {
    if ts != [] {
      SuitesSnoc(ts[..|ts| - 1], ts);
      AllSuites(ts[..|ts| - 1], suites);
    }
  }

  /** The totals that head the report: the sums over all suites are the number of tests and the number of
      tests reported as failed. */
  method Totals(tests: seq<Test>, output: map<string, Counts>) returns (total: Counts)
    requires Counted(output, tests)
    ensures total == Counts(|tests|, Failing(tests))
  {
    total := Counts(0, 0);
    var rest := output.Keys;
    NoSuites(tests);
    assert output.Keys - rest == {};
    while rest != {}
      invariant rest <= output.Keys
      invariant total == CountIn(tests, output.Keys - rest)
      decreases rest
    {
      var s :| s in rest;
      CountsAdd(tests, output.Keys - rest, s);
      assert output.Keys - (rest - {s}) == output.Keys - rest + {s};
      total := Counts(total.tests + output[s].tests, total.failures + output[s].failures);
      rest := rest - {s};
    }
    assert output.Keys - rest == Suites(tests);
    AllSuites(tests, Suites(tests));
  }

  predicate NeverSucceeds(t: Test) {
    forall i :: 0 <= i < |t.iterations| ==> !t.iterations[i].success
  }

  function Hopeless(ts: seq<Test>): nat {
    if ts == [] then 0 else Hopeless(ts[..|ts| - 1]) + (if NeverSucceeds(ts[|ts| - 1]) then 1 else 0)
  }

  /** As long as no failed iteration printed 985000 characters or more, the reported failures are exactly
      the tests without any successful iteration. */
  lemma {:induction false} FailuresAreHopeless(ts: seq<Test>)
    requires AllReadable(ts)
    requires forall i, j :: 0 <= i < |ts| && 0 <= j < |ts[i].iterations| && !ts[i].iterations[j].success ==>
               |ts[i].iterations[j].output| < 985000
    ensures Failing(ts) == Hopeless(ts)
    decreases |ts|
  {
    if ts != [] {
      var t := ts[|ts| - 1];
      FailuresAreHopeless(ts[..|ts| - 1]);
      SuccessPickedBelowBound(Case(t), t.iterations);
    }
  }
}
