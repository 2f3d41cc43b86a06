/**
 * The shape every front-end `validate` shares: an ordered list of checks,
 * each with the message shown when it fails; the result is the message of
 * the first failing check, or nothing when all pass.
 */
module Rules {
  import opened Wrappers

  datatype Rule = Rule(passes: bool, message: string)

  /** Rule `i` fails with message `m` and every rule before it passes. */
  predicate FailsFirstAt(rules: seq<Rule>, i: nat, m: string) {
    i < |rules| && !rules[i].passes && rules[i].message == m
    && forall j | 0 <= j < i :: rules[j].passes
  }

  /** The message of the first failing rule, or `None` when every rule passes. */
  function FirstFailure(rules: seq<Rule>): (r: Option<string>)
    ensures r.None? <==> forall i | 0 <= i < |rules| :: rules[i].passes
    ensures r.Some? ==> exists i: nat :: FailsFirstAt(rules, i, r.value)
  {
    if rules == [] then None
    else if !rules[0].passes then
      assert FailsFirstAt(rules, 0, rules[0].message);
      Some(rules[0].message)
    else
      var r := FirstFailure(rules[1..]);
      FirstFailureTail(rules);
      if r.Some? then
        ShiftFailure(rules, r.value);
        r
      else
        r
  }

  /** Past a passing first rule, all rules pass exactly when the tail's do. */
  lemma FirstFailureTail(rules: seq<Rule>)
    requires rules != [] && rules[0].passes
    ensures (forall i | 0 <= i < |rules| :: rules[i].passes)
        <==> (forall i | 0 <= i < |rules[1..]| :: rules[1..][i].passes)
  {
    if forall i | 0 <= i < |rules[1..]| :: rules[1..][i].passes {
      forall i | 0 <= i < |rules| ensures rules[i].passes {
        if i > 0 { assert rules[i] == rules[1..][i - 1]; }
      }
    }
  }

  /** Past a passing first rule, the tail's first failure is the chain's. */
  lemma ShiftFailure(rules: seq<Rule>, m: string)
    requires rules != [] && rules[0].passes
    requires exists i: nat :: FailsFirstAt(rules[1..], i, m)
    ensures exists i: nat :: FailsFirstAt(rules, i, m)
  {
    var i: nat :| FailsFirstAt(rules[1..], i, m);
    forall j | 0 <= j < i + 1 ensures rules[j].passes {
      if j > 0 { assert rules[j] == rules[1..][j - 1]; }
    }
    assert FailsFirstAt(rules, i + 1, m);
  }

  /** When the rule at `k` fails and all before it pass, its message is the
      result: the order of the checks decides which message is shown. */
  lemma {:induction false} FirstFailureAt(rules: seq<Rule>, k: nat)
    requires k < |rules| && !rules[k].passes
    requires forall j | 0 <= j < k :: rules[j].passes
    ensures FirstFailure(rules) == Some(rules[k].message)
  {
    if k > 0 {
      assert rules[0].passes;
      FirstFailureAt(rules[1..], k - 1);
    }
  }

  /** A chain made of two chains fails first in the first one when that one
      fails at all, and otherwise where the second one does. */
  lemma {:induction false} FirstFailureAppend(a: seq<Rule>, b: seq<Rule>)
    ensures FirstFailure(a + b) == if FirstFailure(a).Some? then FirstFailure(a) else FirstFailure(b)
  {
    if a == [] {
      assert a + b == b;
    } else {
      assert (a + b)[0] == a[0];
      assert (a + b)[1..] == a[1..] + b;
      if a[0].passes {
        FirstFailureAppend(a[1..], b);
      }
    }
  }
}
