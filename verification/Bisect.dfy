/**
 The search for the first release with a problem. The answers come from an oracle: `works[i]` says
 whether release `i` works, and it says the same whenever it is asked.
 */
module Bisect {
  import opened Wrappers

  /** `Found` carries the position of the reported release and the reported number of attempts. */
  datatype Outcome =
    | Found(index: nat, attempts: nat)
    | NotEnoughVersions
    | ExpectedToWork(index: nat)
    | ExpectedToFail(index: nat)
    | TestIndexUnset

  /** The first broken release after a working one. */
  predicate IsBreak(works: seq<bool>, i: nat)
    requires i < |works|
  {
    0 < i && !works[i] && works[i - 1]
  }

  predicate Monotone(works: seq<bool>) {
    forall i, j :: 0 <= i < j < |works| && works[j] ==> works[i]
  }

  /** The releases the search tries as long as every answer is yes. */
  function YesPath(worksFrom: int, left: int, right: int): seq<int>
    requires worksFrom <= left <= worksFrom + 1
    decreases right - worksFrom, right - left
  {
    if right - worksFrom <= 1 then [] else
      var m := (left + right) / 2;
      [m] + YesPath(m, m + 1, right)
  }

  ghost predicate HasBroken(works: seq<bool>, path: seq<int>) {
    exists k :: 0 <= k < |path| && 0 <= path[k] < |works| && !works[path[k]]
  }

  /** A broken release lies on that path: what decides whether the search will find a break. */
  ghost predicate MeetsBroken(works: seq<bool>, first: nat, last: nat) {
    HasBroken(works, YesPath(first, first, last))
  }

  lemma {:induction false} YesPathEnds(worksFrom: int, left: int, right: int)
    requires worksFrom <= left <= worksFrom + 1 && 1 < right - worksFrom
    ensures right - 1 in YesPath(worksFrom, left, right)
    ensures forall m :: m in YesPath(worksFrom, left, right) ==> left <= m < right
    decreases right - worksFrom, right - left
  {
    var m := (left + right) / 2;
    if 1 < right - m {
      YesPathEnds(m, m + 1, right);
    }
  }

  function Log2(n: nat): nat {
    if n < 2 then 0 else 1 + Log2(n / 2)
  }

  function Pow2(k: nat): nat {
    if k == 0 then 1 else 2 * Pow2(k - 1)
  }

  lemma {:induction false} Log2IsFloor(n: nat)
    ensures n < Pow2(Log2(n) + 1) && (0 < n ==> Pow2(Log2(n)) <= n)
    decreases n
  {
    if 2 <= n {
      Log2IsFloor(n / 2);
    }
  }

  /** With `budget` halvings in hand, either answer leaves at most half of the releases to be tried. */
  lemma Halves(left: int, right: int, m: int, budget: nat)
    requires left < right && m == (left + right) / 2 && right - left + 1 < Pow2(budget + 1)
    ensures left <= m < right && 0 < budget
    ensures right - m < Pow2(budget) && m - left < Pow2(budget)
  {
    assert Pow2(budget + 1) == 2 * Pow2(budget);
  }

  /** All answers were yes so far: the probes were the beginning of the path, and the rest is ahead. */
  ghost predicate Along(works: seq<bool>, path: seq<int>, probes: nat, worksFrom: int, left: int, last: int)
    requires worksFrom <= left <= worksFrom + 1
  {
    && probes <= |path| && path[probes..] == YesPath(worksFrom, left, last)
    && forall k :: 0 <= k < probes ==> 0 <= path[k] < |works| && works[path[k]]
  }

  lemma OneStepAlong(works: seq<bool>, path: seq<int>, probes: nat, worksFrom: int, left: int, last: int)
    requires worksFrom <= left <= worksFrom + 1 && 1 < last - worksFrom
    requires Along(works, path, probes, worksFrom, left, last)
    ensures var m := (left + last) / 2;
            && probes < |path| && path[probes] == m
            && (0 <= m < |works| && works[m] ==> Along(works, path, probes + 1, m, m + 1, last))
  {
  }

  /** What the search knows between two probes of releases `first` to `last`, the last probe being of
      release `m`. The brackets (worksFrom, failsAt) and (left, right) drift apart by one. */
  datatype Brackets = Brackets(worksFrom: int, failsAt: int, left: int, right: int, probes: nat, m: int)

  /** The brackets after a probe of `m`. */
  function Next(b: Brackets, m: int, result: bool): Brackets {
    if result then Brackets(if b.worksFrom < m then m else b.worksFrom, b.failsAt, m + 1, b.right, b.probes + 1, m)
    else Brackets(b.worksFrom, if m < b.failsAt then m else b.failsAt, b.left, m - 1, b.probes + 1, m)
  }

  ghost predicate Knows(works: seq<bool>, path: seq<int>, first: nat, last: nat, b: Brackets)
    requires first + 2 <= last < |works|
  {
    var allYes := b.failsAt == last;
    && first <= b.worksFrom <= b.failsAt <= last
    && (b.worksFrom == b.failsAt ==> b.worksFrom == first && !works[first])
    && b.worksFrom <= b.left <= b.worksFrom + 1
    && b.right == (if allYes then b.failsAt else b.failsAt - 1)
    && (b.worksFrom == first || works[b.worksFrom])
    && (allYes || !works[b.failsAt])
    && (if allYes then Along(works, path, b.probes, b.worksFrom, b.left, last) else HasBroken(works, path))
    && (b.probes == 0 ==> b.left == b.worksFrom == first && allYes)
    && (0 < b.probes ==> if allYes then b.m == b.worksFrom && works[b.m]
                         else b.failsAt - b.worksFrom <= 1 ==> b.m == b.failsAt)
  }

  /** A probe between different ends keeps what is known, and leaves at most half of the releases. */
  lemma Narrows(works: seq<bool>, path: seq<int>, first: nat, last: nat, b: Brackets, m: int, budget: nat)
    requires first + 2 <= last < |works| && Knows(works, path, first, last, b)
    requires b.failsAt - b.worksFrom > 1 && b.left < b.right && m == (b.left + b.right) / 2
    requires b.right - b.left + 1 < Pow2(budget + 1)
    ensures 0 < budget && first <= m <= last
    ensures var b' := Next(b, m, works[m]);
            Knows(works, path, first, last, b') && b'.right - b'.left + 1 < Pow2(budget)
  {
    Halves(b.left, b.right, m, budget);
    if works[m] {
      Yes(works, path, first, last, b, m);
    } else {
      No(works, path, first, last, b, m);
    }
  }

  lemma Yes(works: seq<bool>, path: seq<int>, first: nat, last: nat, b: Brackets, m: int)
    requires first + 2 <= last < |works| && Knows(works, path, first, last, b)
    requires b.failsAt - b.worksFrom > 1 && b.left < b.right && m == (b.left + b.right) / 2 && works[m]
    ensures Knows(works, path, first, last, Next(b, m, true))
  {
  }

  lemma No(works: seq<bool>, path: seq<int>, first: nat, last: nat, b: Brackets, m: int)
    requires first + 2 <= last < |works| && Knows(works, path, first, last, b)
    requires b.failsAt - b.worksFrom > 1 && b.left < b.right && m == (b.left + b.right) / 2 && !works[m]
    ensures Knows(works, path, first, last, Next(b, m, false))
  {
    if b.failsAt == last {
      OneStepAlong(works, path, b.probes, b.worksFrom, b.left, last);
      assert HasBroken(works, path);
    }
  }

  /** What the search reports, whatever the answers: a first broken release when it met a broken one,
      the release before the last when every answer was yes. */
  ghost predicate IsReport(works: seq<bool>, path: seq<int>, first: nat, last: nat, index: int)
    requires first + 2 <= last < |works|
  {
    && first <= index <= last && (works[first] ==> first < index)
    && (works[first] && !works[last] && HasBroken(works, path) ==> IsBreak(works, index))
    && (!HasBroken(works, path) ==> index == last - 1 && works[index])
  }

  /** When one release is left to try, an earlier answer was no, and its neighbours are known. */
  lemma OneLeft(works: seq<bool>, path: seq<int>, first: nat, last: nat, b: Brackets)
    requires first + 2 <= last < |works| && Knows(works, path, first, last, b)
    requires b.failsAt - b.worksFrom > 1 && b.left == b.right
    ensures HasBroken(works, path) && 0 < b.left < last
    ensures IsReport(works, path, first, last, if works[b.left] then b.failsAt else b.left)
  {
  }

  /** When the brackets have met, the release tried last is reported. */
  lemma NoneLeft(works: seq<bool>, path: seq<int>, first: nat, last: nat, b: Brackets)
    requires first + 2 <= last < |works| && Knows(works, path, first, last, b) && b.failsAt - b.worksFrom <= 1
    ensures 0 < b.probes && IsReport(works, path, first, last, b.m)
  {
  }

  /** The loop, between two releases at least two apart; an end may be tried again. `probes` counts the
      releases tried, and `early` says that the search ended inside the loop. */
  method Search(works: seq<bool>, first: nat, last: nat, attempt: nat)
      returns (index: nat, attempts: nat, ghost probes: nat, ghost early: bool)
    requires first + 2 <= last < |works|
    ensures IsReport(works, YesPath(first, first, last), first, last, index)
    ensures early ==> MeetsBroken(works, first, last)
    ensures 0 < probes <= Log2(last - first + 1) + 1
    ensures attempts == attempt + probes - if early then 1 else 0
  {
    var left: int, right: int, worksFrom, failsAt, testIndex := first, last, first, last, 0;
    ghost var path: seq<int>, budget := YesPath(first, first, last), Log2(last - first + 1);
    Log2IsFloor(last - first + 1);
    attempts, probes, early := attempt, 0, false;
    ghost var b := Brackets(worksFrom, failsAt, left, right, probes, testIndex);
    while failsAt - worksFrom > 1
      invariant b == Brackets(worksFrom, failsAt, left, right, probes, testIndex)
      invariant Knows(works, path, first, last, b)
      invariant probes + budget == Log2(last - first + 1) && right - left + 1 < Pow2(budget + 1)
      invariant attempts == attempt + probes
      decreases right - left
    {
      testIndex := (left + right) / 2;
      var result := works[testIndex];
      probes := probes + 1;
      if left == right {
        OneLeft(works, path, first, last, b);
        early := true;
        if result {
          return failsAt, attempts, probes, early;
        }
        return testIndex, attempts, probes, early;
      }
      Narrows(works, path, first, last, b, testIndex, budget);
      if result {
        worksFrom := if worksFrom < testIndex then testIndex else worksFrom;
        left := testIndex + 1;
      } else {
        failsAt := if testIndex < failsAt then testIndex else failsAt;
        right := testIndex - 1;
      }
      b, budget := Next(b, testIndex, result), budget - 1;
      attempts := attempts + 1;
    }
    NoneLeft(works, path, first, last, b);
    index := testIndex;
  }

  /** The whole of find_first_broken_version. `good` and `bad` are the positions found for the versions
      given on the command line, if any; a position at the end of the list counts as not given. `tested`
      counts the releases that were really tried. */
  method FindFirstBrokenVersion(works: seq<bool>, good: Option<nat>, bad: Option<nat>)
      returns (r: Outcome, ghost tested: nat, ghost early: bool)
    requires good.Some? ==> good.value < |works|
    requires bad.Some? ==> bad.value < |works|
    ensures r == NotEnoughVersions <==> |works| < 2
    ensures 2 <= |works| ==>
              var first := if good.Some? then good.value else 0;
              var last := if bad.Some? then bad.value else |works| - 1;
              && (r == ExpectedToWork(first) <==> first == 0 && !works[first])
              && (r == ExpectedToFail(last) <==> (first == 0 ==> works[first]) && last == |works| - 1 && works[last])
              && (r.ExpectedToWork? ==> r.index == first) && (r.ExpectedToFail? ==> r.index == last)
              && (r == TestIndexUnset <==>
                    (first == 0 ==> works[first]) && (last == |works| - 1 ==> !works[last]) && last - first <= 1)
              && (r.Found? ==>
                    && first + 2 <= last && first <= r.index <= last
                    && (works[first] && !works[last] ==> (IsBreak(works, r.index) <==> MeetsBroken(works, first, last)))
                    && (!MeetsBroken(works, first, last) ==> r.index == last - 1)
                    && r.attempts == tested + (if early then 0 else 1)
                    && tested <= (if first == 0 then 1 else 0) + (if last == |works| - 1 then 1 else 0)
                                 + Log2(last - first + 1) + 1
                    && (Monotone(works) && works[first] && !works[last] ==>
                          forall broken :: first < broken <= last && IsBreak(works, broken) ==>
                            && (r.index == broken <==> broken < last)
                            && (broken == last ==> works[r.index])))
  {
    tested, early := 0, false;
    var left, right := 0, |works| - 1;
    if left >= right {
      r := NotEnoughVersions;
      return;
    }
    var goodGiven, badGiven := false, false;
    if good.Some? {
      left := good.value;
      goodGiven := left != 0;
    }
    if bad.Some? {
      right := bad.value;
      badGiven := right != |works| - 1;
    }
    var attempt := 1;
    if !goodGiven {
      tested, attempt := tested + 1, attempt + 1;
      if !works[left] {
        r := ExpectedToWork(left);
        return;
      }
    }
    if !badGiven {
      tested, attempt := tested + 1, attempt + 1;
      if works[right] {
        r := ExpectedToFail(right);
        return;
      }
    }
    if right - left <= 1 {
      r := TestIndexUnset;
      return;
    }
    var index, attempts, probes, e := Search(works, left, right, attempt);
    tested, early := tested + probes, e;
    r := Found(index, attempts);
    if Monotone(works) && works[left] && !works[right] {
      forall broken: nat | left < broken <= right && IsBreak(works, broken)
        ensures index == broken <==> broken < right
        ensures broken == right ==> works[index]
      {
        ReportIsFirstBroken(works, left, right, index, broken);
      }
    }
  }

  /** When releases stay broken once they are, the path meets a broken one exactly when the release
      before the last is broken. */
  lemma MonotoneMeetsBroken(works: seq<bool>, first: nat, last: nat)
    requires Monotone(works) && first + 2 <= last < |works|
    ensures MeetsBroken(works, first, last) <==> !works[last - 1]
  {
    var path := YesPath(first, first, last);
    YesPathEnds(first, first, last);
    var e :| 0 <= e < |path| && path[e] == last - 1;
    if k :| 0 <= k < |path| && 0 <= path[k] < |works| && !works[path[k]] {
      assert path[k] in path && path[k] <= last - 1;
    }
  }

  /** Then a break is the first broken release. */
  lemma MonotoneBreak(works: seq<bool>, i: nat)
    requires Monotone(works) && i < |works| && IsBreak(works, i)
    ensures forall j :: 0 <= j < |works| ==> (works[j] <==> j < i)
  {
  }

  /** So the report is right for such releases exactly when the release before the last is broken;
      when only the last one is, the report names the one before it, which works. */
  lemma ReportIsFirstBroken(works: seq<bool>, first: nat, last: nat, reported: nat, broken: nat)
    requires Monotone(works) && first + 2 <= last < |works| && works[first] && !works[last]
    requires first < broken <= last && IsBreak(works, broken)
    requires first < reported <= last
    requires IsBreak(works, reported) <==> MeetsBroken(works, first, last)
    requires !MeetsBroken(works, first, last) ==> reported == last - 1
    ensures reported == broken <==> broken < last
    ensures broken == last ==> reported == last - 1 && works[reported]
  {
    MonotoneMeetsBroken(works, first, last);
    MonotoneBreak(works, broken);
  }

  /** Two working releases and a broken one: the search reports the second. */
  method ReportsWorkingRelease() returns (works: seq<bool>, r: Outcome)
    ensures works == [true, true, false] && Monotone(works) && IsBreak(works, 2)
    ensures r.Found? && r.index == 1
  {
    works := [true, true, false];
    ghost var tested, early;
    r, tested, early := FindFirstBrokenVersion(works, None, None);
    assert IsBreak(works, 2);
    assert r.Found? && r.index != 2 && works[r.index] && r.index != 0;
  }
}
