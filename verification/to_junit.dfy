/** `ToJunit`: the script that turns the test runner's console output into a
    JUnit report. Each line is cleaned of colour codes and split into words;
    a two-word line "<name> passed" or "<name> FAILED" records a verdict,
    and a name that ever passed is not reported as failed. The report is a
    `testsuite` element with one `testcase` per name, failures first.

    Reading the input and the failure logs, and writing the XML text, are not
    modelled: the failure log of each test is a parameter. */
module ToJunit {
  import opened Text

  const Esc: char := '\U{1B}'
  const Reset: string := [Esc] + "[0m"
  const Green: string := [Esc] + "[32m"
  const Red: string := [Esc] + "[31m"

  /** The line stripped, then cleared of the reset, green and red codes. */
  function Clean(line: string): string {
    RemoveAll(RemoveAll(RemoveAll(Strip(line), Reset), Green), Red)
  }

  datatype Verdict = Passed(name: string) | Failed(name: string) | Ignored

  /** A line of exactly two words whose second word is "passed" or "FAILED"
      gives a verdict on the first word; every other line is ignored. */
  function Classify(line: string): (v: Verdict)
    ensures !v.Ignored? ==> |Split(Clean(line))| == 2 && v.name == Split(Clean(line))[0]
    ensures v.Passed? <==> |Split(Clean(line))| == 2 && Split(Clean(line))[1] == "passed"
    ensures v.Failed? <==> |Split(Clean(line))| == 2 && Split(Clean(line))[1] == "FAILED"
  {
    var pieces := Split(Clean(line));
    if |pieces| != 2 then Ignored
    else if pieces[1] == "passed" then Passed(pieces[0])
    else if pieces[1] == "FAILED" then Failed(pieces[0])
    else Ignored
  }

  predicate NoEsc(s: string) {
    forall i :: 0 <= i < |s| ==> s[i] != Esc
  }

  /** A string without the escape character holds none of the codes. */
  lemma NoEscNoCode(s: string, code: string)
    requires NoEsc(s) && |code| > 0 && code[0] == Esc
    ensures !Occurs(code, s)
  {
    forall i | OccursAt(code, s, i)
      ensures false
    {
    }
  }

  /** Text before the first possible start of the pattern is kept as it is. */
  lemma {:induction false} RemoveAllSkip(a: string, b: string, pat: string)
    requires |pat| > 0
    requires forall i :: 0 <= i < |a| ==> a[i] != pat[0]
    ensures RemoveAll(a + b, pat) == a + RemoveAll(b, pat)
    decreases |a|
  {
    if |a| == 0 {
      assert a + b == b;
    } else {
      var s := a + b;
      if |s| < |pat| {
        assert RemoveAll(b, pat) == b;
      } else {
        assert s[..|pat|][0] == a[0];
        assert s[1..] == a[1..] + b;
        RemoveAllSkip(a[1..], b, pat);
        assert [a[0]] + a[1..] == a;
      }
    }
  }

  /** A string whose ends are not whitespace is its own strip. */
  lemma StripUntrimmed(s: string)
    requires |s| > 0 && !IsSpace(s[0]) && !IsSpace(s[|s| - 1])
    ensures Strip(s) == s
  {
  }

  /** The plain form of a verdict line: "<name> passed" is a pass, "<name>
      FAILED" a failure, for a name without whitespace or escapes. */
  lemma ClassifyPlain(name: string)
    requires |name| > 0 && NoSpace(name) && NoEsc(name)
    ensures Classify(name + " passed") == Passed(name)
    ensures Classify(name + " FAILED") == Failed(name)
  {
    PlainLine(name, "passed");
    assert name + " " + "passed" == name + " passed";
    PlainLine(name, "FAILED");
    assert name + " " + "FAILED" == name + " FAILED";
  }

  lemma PlainLine(name: string, word: string)
    requires |name| > 0 && NoSpace(name) && NoEsc(name)
    requires word == "passed" || word == "FAILED"
    ensures Split(Clean(name + " " + word)) == [name, word]
  {
    var line := name + " " + word;
    assert NoEsc(line);
    CleanUntouched(line);
    assert Join([name, word]) == line;
    SplitJoin([name, word]);
  }

  /** A line without escapes or surrounding whitespace is already clean. */
  lemma CleanUntouched(line: string)
    requires |line| > 0 && !IsSpace(line[0]) && !IsSpace(line[|line| - 1]) && NoEsc(line)
    ensures Clean(line) == line
  {
    StripUntrimmed(line);
    NoEscNoCode(line, Reset);
    RemoveAllAbsent(line, Reset);
    NoEscNoCode(line, Green);
    RemoveAllAbsent(line, Green);
    NoEscNoCode(line, Red);
    RemoveAllAbsent(line, Red);
  }

  /** The coloured form the runner prints, "<name> <green>passed<reset>", is
      classified as a pass. */
  lemma ClassifyColoured(name: string)
    requires |name| > 0 && NoSpace(name) && NoEsc(name)
    ensures Classify(name + " " + Green + "passed" + Reset) == Passed(name)
  {
    CleanColoured(name);
    assert Join([name, "passed"]) == name + " passed";
    SplitJoin([name, "passed"]);
  }

  lemma CleanColoured(name: string)
    requires |name| > 0 && NoSpace(name) && NoEsc(name)
    ensures Clean(name + " " + Green + "passed" + Reset) == name + " passed"
  {
    var line := name + " " + Green + "passed" + Reset;
    StripUntrimmed(line);
    ResetRemoved(name);
    GreenRemoved(name);
    var plain := name + " passed";
    assert NoEsc(plain);
    NoEscNoCode(plain, Red);
    RemoveAllAbsent(plain, Red);
  }

  /** The reset code goes; the green code is not mistaken for it. */
  lemma ResetRemoved(name: string)
    requires NoEsc(name)
    ensures RemoveAll(name + " " + Green + "passed" + Reset, Reset) == (name + " ") + (Green + "passed")
  {
    var front := name + " ";
    assert name + " " + Green + "passed" + Reset == front + (Green + "passed" + Reset);
    RemoveAllSkip(front, Green + "passed" + Reset, Reset);
    ResetAfterGreen();
  }

  /** The green code goes. */
  lemma GreenRemoved(name: string)
    requires NoEsc(name)
    ensures RemoveAll((name + " ") + (Green + "passed"), Green) == name + " passed"
  {
    var front := name + " ";
    RemoveAllSkip(front, Green + "passed", Green);
    GreenBeforeWord();
  }

  lemma ResetAfterGreen()
    ensures RemoveAll(Green + "passed" + Reset, Reset) == Green + "passed"
  {
    var tail := Green + "passed" + Reset;
    assert tail[..|Reset|] != Reset by { assert tail[2] == '3' && Reset[2] == '0'; }
    assert tail[1..] == (Green[1..] + "passed") + Reset;
    RemoveAllSkip(Green[1..] + "passed", Reset, Reset);
    assert RemoveAll(Reset, Reset) == "" by { assert Reset[|Reset|..] == ""; }
    assert [Esc] + (Green[1..] + "passed") == Green + "passed";
  }

  lemma GreenBeforeWord()
    ensures RemoveAll(Green + "passed", Green) == "passed"
  {
    assert (Green + "passed")[..|Green|] == Green;
    assert (Green + "passed")[|Green|..] == "passed";
    NoEscNoCode("passed", Green);
    RemoveAllAbsent("passed", Green);
  }

  // ---------------------------------------------------------------- Verdicts

  /** The verdict of every input line. */
  function Verdicts(lines: seq<string>): (vs: seq<Verdict>)
    ensures |vs| == |lines| && forall i :: 0 <= i < |lines| ==> vs[i] == Classify(lines[i])
  {
    seq(|lines|, i requires 0 <= i < |lines| => Classify(lines[i]))
  }

  /** The names given a pass among `vs`. */
  function PassedNames(vs: seq<Verdict>): set<string> {
    if |vs| == 0 then {}
    else PassedNames(vs[..|vs| - 1]) + (if vs[|vs| - 1].Passed? then {vs[|vs| - 1].name} else {})
  }

  /** The names given a failure among `vs`. */
  function FailedNames(vs: seq<Verdict>): set<string> {
    if |vs| == 0 then {}
    else FailedNames(vs[..|vs| - 1]) + (if vs[|vs| - 1].Failed? then {vs[|vs| - 1].name} else {})
  }

  /** A name passed exactly when some verdict says it passed, and failed
      exactly when some verdict says it failed. */
  lemma {:induction false} NamesFromVerdicts(vs: seq<Verdict>, n: string)
    ensures n in PassedNames(vs) <==> Passed(n) in vs
    ensures n in FailedNames(vs) <==> Failed(n) in vs
  {
    if |vs| > 0 {
      var init := vs[..|vs| - 1];
      NamesFromVerdicts(init, n);
      assert vs == init + [vs[|vs| - 1]];
    }
  }

  /** The loop over the input: collect passes and failures, then drop from the
      failures every name that also passed. */
  method Collect(lines: seq<string>) returns (passed: set<string>, failed: set<string>)
    ensures passed == PassedNames(Verdicts(lines))
    ensures failed == FailedNames(Verdicts(lines)) - PassedNames(Verdicts(lines))
    ensures passed !! failed
  {
    passed, failed := {}, {};
    var vs := Verdicts(lines);
    var i := 0;
    while i < |lines|
      invariant 0 <= i <= |lines|
      invariant passed == PassedNames(vs[..i])
      invariant failed == FailedNames(vs[..i])
    {
      assert vs[..i + 1][..i] == vs[..i];
      var v := Classify(lines[i]);
      if v.Passed? {
        passed := passed + {v.name};
      }
      if v.Failed? {
        failed := failed + {v.name};
      }
      i := i + 1;
    }
    assert vs[..|lines|] == vs;
    failed := failed - passed;
  }

  /** A name with a passing line is reported as passed, and never as failed,
      whatever other lines say about it; a name with only failing lines is
      reported as failed. */
  lemma PassWins(lines: seq<string>, n: string)
    ensures (exists i :: 0 <= i < |lines| && Classify(lines[i]) == Passed(n)) <==> n in PassedNames(Verdicts(lines))
    ensures n in FailedNames(Verdicts(lines)) - PassedNames(Verdicts(lines)) <==>
              (exists i :: 0 <= i < |lines| && Classify(lines[i]) == Failed(n))
              && !(exists i :: 0 <= i < |lines| && Classify(lines[i]) == Passed(n))
  {
    var vs := Verdicts(lines);
    NamesFromVerdicts(vs, n);
    if Passed(n) in vs {
      var i :| 0 <= i < |vs| && vs[i] == Passed(n);
      assert Classify(lines[i]) == Passed(n);
    }
    if Failed(n) in vs {
      var i :| 0 <= i < |vs| && vs[i] == Failed(n);
      assert Classify(lines[i]) == Failed(n);
    }
  }

  // ---------------------------------------------------------------- Report

  /** An XML element: tag, attributes in writing order, children and text. */
  datatype Element = Element(tag: string, attrs: seq<(string, string)>, children: seq<Element>, text: string)

  function Testcase(name: string): Element {
    Element("testcase", [("time", "0"), ("name", name)], [], "")
  }

  function FailedTestcase(name: string, log: string): Element {
    Element("testcase", [("time", "0"), ("name", name)],
            [Element("failure", [("type", "failure"), ("message", "Check log")], [], log)], "")
  }

  predicate Distinct(names: seq<string>) {
    forall i, j :: 0 <= i < j < |names| ==> names[i] != names[j]
  }

  /** A set's elements in the order iteration visits them: each exactly once. */
  method Enumerate(s: set<string>) returns (order: seq<string>)
    ensures |order| == |s| && Distinct(order)
    ensures forall x :: x in order <==> x in s
  {
    order := [];
    var rest := s;
    while rest != {}
      invariant forall x :: x in s <==> x in rest || x in order
      invariant forall x :: x in rest ==> x !in order
      invariant |order| + |rest| == |s| && Distinct(order)
      decreases |rest|
    {
      var x :| x in rest;
      order := order + [x];
      rest := rest - {x};
    }
  }

  /** The number of testcases that carry a failure. */
  function Failures(cases: seq<Element>): nat {
    if |cases| == 0 then 0
    else Failures(cases[..|cases| - 1]) + (if |cases[|cases| - 1].children| > 0 then 1 else 0)
  }

  lemma {:induction false} FailuresAppend(a: seq<Element>, b: seq<Element>)
    ensures Failures(a + b) == Failures(a) + Failures(b)
    decreases |b|
  {
    if |b| == 0 {
      assert a + b == a;
    } else {
      assert (a + b)[..|a + b| - 1] == a + b[..|b| - 1];
      FailuresAppend(a, b[..|b| - 1]);
    }
  }

  lemma {:induction false} FailuresAll(cases: seq<Element>, failing: bool)
    requires forall i :: 0 <= i < |cases| ==> (|cases[i].children| > 0 <==> failing)
    ensures Failures(cases) == if failing then |cases| else 0
  {
    if |cases| > 0 {
      FailuresAll(cases[..|cases| - 1], failing);
    }
  }

  function FailedCases(order: seq<string>, log: string -> string): (cases: seq<Element>)
    ensures |cases| == |order| && forall i :: 0 <= i < |order| ==> cases[i] == FailedTestcase(order[i], log(order[i]))
  {
    seq(|order|, i requires 0 <= i < |order| => FailedTestcase(order[i], log(order[i])))
  }

  function PassedCases(order: seq<string>): (cases: seq<Element>)
    ensures |cases| == |order| && forall i :: 0 <= i < |order| ==> cases[i] == Testcase(order[i])
  {
    seq(|order|, i requires 0 <= i < |order| => Testcase(order[i]))
  }

  /** Exactly the failed names' testcases carry a failure. */
  lemma CountFailures(failedOrder: seq<string>, passedOrder: seq<string>, log: string -> string)
    ensures Failures(FailedCases(failedOrder, log) + PassedCases(passedOrder)) == |failedOrder|
  {
    FailuresAppend(FailedCases(failedOrder, log), PassedCases(passedOrder));
    FailuresAll(FailedCases(failedOrder, log), true);
    FailuresAll(PassedCases(passedOrder), false);
  }

  /** The failing testcases come first, then the passing ones. */
  lemma CasesLayout(failedOrder: seq<string>, passedOrder: seq<string>, log: string -> string)
    ensures var cases := FailedCases(failedOrder, log) + PassedCases(passedOrder);
            |cases| == |failedOrder| + |passedOrder|
            && (forall i :: 0 <= i < |failedOrder| ==> cases[i] == FailedTestcase(failedOrder[i], log(failedOrder[i])))
            && (forall i :: 0 <= i < |passedOrder| ==> cases[|failedOrder| + i] == Testcase(passedOrder[i]))
  {
    var failing := FailedCases(failedOrder, log);
    var passing := PassedCases(passedOrder);
    var cases := failing + passing;
    forall i | 0 <= i < |failedOrder| ensures cases[i] == FailedTestcase(failedOrder[i], log(failedOrder[i])) {
      assert cases[i] == failing[i];
    }
    forall i | 0 <= i < |passedOrder| ensures cases[|failedOrder| + i] == Testcase(passedOrder[i]) {
      assert cases[|failedOrder| + i] == passing[i];
    }
  }

  /** The test suite element: counts as attributes, a failing testcase (with
      its log) for every failed name, then a testcase for every passed name.
      `failedOrder` and `passedOrder` are the orders the sets were visited in. */
  method Report(passed: set<string>, failed: set<string>, log: string -> string)
    returns (suite: Element, failedOrder: seq<string>, passedOrder: seq<string>)
    requires passed !! failed
    ensures suite.tag == "testsuite" && |suite.attrs| == 5
    ensures suite.attrs[0] == ("errors", "0") && suite.attrs[2] == ("time", "0") && suite.attrs[4] == ("name", "tests")
    ensures suite.attrs[1] == ("tests", NatToString(|suite.children|))
    ensures suite.attrs[3] == ("failures", NatToString(|failed|))
    ensures Failures(suite.children) == |failed|
    ensures |suite.children| == |failed| + |passed|
    ensures |failedOrder| == |failed| && Distinct(failedOrder) && forall x :: x in failedOrder <==> x in failed
    ensures |passedOrder| == |passed| && Distinct(passedOrder) && forall x :: x in passedOrder <==> x in passed
    ensures forall i :: 0 <= i < |failedOrder| ==> suite.children[i] == FailedTestcase(failedOrder[i], log(failedOrder[i]))
    ensures forall i :: 0 <= i < |passedOrder| ==> suite.children[|failedOrder| + i] == Testcase(passedOrder[i])
  {
    failedOrder := Enumerate(failed);
    passedOrder := Enumerate(passed);
    var cases := FailedCases(failedOrder, log) + PassedCases(passedOrder);
    CasesLayout(failedOrder, passedOrder, log);
    CountFailures(failedOrder, passedOrder, log);
    var attrs := [("errors", "0"), ("tests", NatToString(|passed| + |failed|)), ("time", "0"),
                  ("failures", NatToString(|failed|)), ("name", "tests")];
    suite := Element("testsuite", attrs, cases, "");
  }

  /** The whole script on its input lines: every name gets exactly one
      testcase, and the counts agree with the testcases written. */
  method ToJunit(lines: seq<string>, log: string -> string) returns (suite: Element)
    ensures suite.tag == "testsuite" && |suite.attrs| == 5
    ensures |suite.children| == |PassedNames(Verdicts(lines)) + FailedNames(Verdicts(lines))|
    ensures suite.attrs[1] == ("tests", NatToString(|suite.children|))
    ensures suite.attrs[3] == ("failures", NatToString(Failures(suite.children)))
  {
    var passed, failed := Collect(lines);
    var failedOrder, passedOrder;
    suite, failedOrder, passedOrder := Report(passed, failed, log);
    assert PassedNames(Verdicts(lines)) + FailedNames(Verdicts(lines)) == passed + failed;
  }
}
