/**
 * The overall pass/fail of an execution (index.js, getOverallResultOutcome). The data of a
 * test execution is one result object; the data of a suite execution is a list of them. The
 * outcome of a list is a JavaScript `&&` chain over the entries' `passing` flags, starting from
 * `true` (or `null` for an empty list).
 */
module Outcome {
  import opened Js

  /**
   * The `data` of an API reply: missing (undefined or null), a result object whose other
   * properties are summarised by `body`, or a list.
   */
  datatype Data = Nothing | Record(body: string, passing: JsValue) | Records(entries: seq<Data>)

  /** Only `true` is truthy among the four values of `passing` in the model. */
  predicate IsTruthy(v: JsValue)
  {
    v == JTrue
  }

  /** `d.passing`: a TypeError on undefined or null, `undefined` on a list. */
  function PassingOf(d: Data): (r: Result<JsValue>)
    ensures r.Err? <==> d.Nothing?
    ensures r.Err? ==> r.error == TypeError
    ensures d.Records? ==> r == Ok(JUndefined)
  {
    match d
    case Nothing => Err(TypeError)
    case Record(_, p) => Ok(p)
    case Records(_) => Ok(JUndefined)
  }

  /**
   * `for (entry of es) passing = passing && entry.passing`, from `acc` on: `&&` reads
   * `entry.passing` only while the value so far is truthy.
   */
  function Fold(acc: JsValue, es: seq<Data>): (r: Result<JsValue>)
    decreases |es|
    ensures r.Err? ==> r.error == TypeError
  {
    if es == [] then Ok(acc)
    else if IsTruthy(acc) then
      match PassingOf(es[0])
      case Err(e) => Err(e)
      case Ok(p) => Fold(p, es[1..])
    else Fold(acc, es[1..])
  }

  /** The value getOverallResultOutcome returns, or the error it throws. */
  function OverallOutcome(data: Data): (r: Result<JsValue>)
    ensures r.Err? ==> r.error == TypeError
  {
    match data
    case Records(es) => Fold(if |es| > 0 then JTrue else JNull, es)
    case Record(_, p) => Ok(if p == JUndefined then JNull else p)
    case Nothing => Err(TypeError)
  }

  /** getOverallResultOutcome */
  method GetOverallResultOutcome(data: Data) returns (r: Result<JsValue>)
    ensures r == OverallOutcome(data)
  {
    if data.Records? {
      var es := data.entries;
      var passing := if |es| > 0 then JTrue else JNull;
      var i := 0;
      while i < |es|
        invariant 0 <= i <= |es|
        invariant Fold(passing, es[i..]) == OverallOutcome(data)
      {
        assert es[i..][0] == es[i] && es[i..][1..] == es[i + 1..];
        if IsTruthy(passing) {
          var p := PassingOf(es[i]);
          if p.Err? {
            return Err(p.error);
          }
          passing := p.value;
        }
        i := i + 1;
      }
      return Ok(passing);
    } else if data.Record? {
      return Ok(if data.passing == JUndefined then JNull else data.passing);
    } else {
      return Err(TypeError);
    }
  }

  /** An empty list has no outcome: `null`. */
  lemma EmptyListIsNull()
    ensures OverallOutcome(Records([])) == Ok(JNull)
  {
  }

  /** Once the value so far is not `true`, no further entry is looked at and it is the result. */
  lemma {:induction false} FoldStuck(acc: JsValue, es: seq<Data>)
    requires !IsTruthy(acc)
    ensures Fold(acc, es) == Ok(acc)
    decreases |es|
  {
    if es != [] {
      FoldStuck(acc, es[1..]);
    }
  }

  /** Entry `i` passed: it is a result object whose `passing` is `true`. */
  predicate Passed(es: seq<Data>, i: nat)
    requires i < |es|
  {
    PassingOf(es[i]) == Ok(JTrue)
  }

  /** From `true` on, a list of passed entries leaves `true`. */
  lemma {:induction false} FoldAllPassed(es: seq<Data>)
    requires forall i :: 0 <= i < |es| ==> Passed(es, i)
    ensures Fold(JTrue, es) == Ok(JTrue)
    decreases |es|
  {
    if es != [] {
      assert Passed(es, 0);
      forall i | 0 <= i < |es[1..]| ensures Passed(es[1..], i) {
        assert es[1..][i] == es[i + 1] && Passed(es, i + 1);
      }
      FoldAllPassed(es[1..]);
    }
  }

  /**
   * From `true` on, the result is what reading `passing` on the first entry that did not pass
   * gives: its flag, `undefined` for a list, or a TypeError for a missing entry.
   */
  lemma {:induction false} FoldFirstNotPassed(es: seq<Data>, k: nat)
    requires k < |es| && !Passed(es, k)
    requires forall i :: 0 <= i < k ==> Passed(es, i)
    ensures Fold(JTrue, es) == PassingOf(es[k])
    decreases k
  {
    if k == 0 {
      match PassingOf(es[0])
      case Err(_) =>
      case Ok(p) => FoldStuck(p, es[1..]);
    } else {
      assert Passed(es, 0);
      forall i | 0 <= i < k - 1 ensures Passed(es[1..], i) {
        assert es[1..][i] == es[i + 1] && Passed(es, i + 1);
      }
      assert es[1..][k - 1] == es[k];
      FoldFirstNotPassed(es[1..], k - 1);
    }
  }

  /**
   * The outcome of a non-empty list is `true` when every entry passed, and otherwise the
   * `passing` of the first entry that did not.
   */
  lemma ListOutcome(es: seq<Data>)
    requires |es| > 0
    ensures (forall i :: 0 <= i < |es| ==> Passed(es, i)) ==> OverallOutcome(Records(es)) == Ok(JTrue)
    ensures forall k :: 0 <= k < |es| && !Passed(es, k) && (forall i :: 0 <= i < k ==> Passed(es, i)) ==>
      OverallOutcome(Records(es)) == PassingOf(es[k])
  {
    if forall i :: 0 <= i < |es| ==> Passed(es, i) {
      FoldAllPassed(es);
    }
    forall k | 0 <= k < |es| && !Passed(es, k) && (forall i :: 0 <= i < k ==> Passed(es, i))
      ensures OverallOutcome(Records(es)) == PassingOf(es[k])
    {
      FoldFirstNotPassed(es, k);
    }
  }

  /** A false flag is final: every later entry is skipped, even a missing one. */
  lemma FalseIsFinal(es: seq<Data>, k: nat)
    requires k < |es| && PassingOf(es[k]) == Ok(JFalse)
    requires forall i :: 0 <= i < k ==> Passed(es, i)
    ensures OverallOutcome(Records(es)) == Ok(JFalse)
  {
    FoldFirstNotPassed(es, k);
  }

  /** A missing flag before a false one makes the outcome `undefined`, not `false`. */
  lemma MissingBeforeFalse(a: string, b: string)
    ensures OverallOutcome(Records([Record(a, JUndefined), Record(b, JFalse)])) == Ok(JUndefined)
  {
    var es := [Record(a, JUndefined), Record(b, JFalse)];
    FoldFirstNotPassed(es, 0);
  }

  /** A single result object gives its flag, with a missing flag read as `null`. */
  lemma RecordOutcome(body: string, p: JsValue)
    ensures OverallOutcome(Record(body, p)).Ok?
    ensures OverallOutcome(Record(body, p)).value == p || (p == JUndefined && OverallOutcome(Record(body, p)).value == JNull)
    ensures OverallOutcome(Record(body, p)).value != JUndefined
  {
  }

  /** The outcomes of a few typical replies: `true`, `false`, `null` for an empty list, `null` for a missing flag. */
  lemma TypicalOutcomes(a: string, b: string)
    ensures OverallOutcome(Record(a, JTrue)) == Ok(JTrue)
    ensures OverallOutcome(Records([Record(a, JTrue), Record(b, JFalse)])) == Ok(JFalse)
    ensures OverallOutcome(Records([])) == Ok(JNull)
    ensures OverallOutcome(Record(a, JUndefined)) == Ok(JNull)
  {
    var es := [Record(a, JTrue), Record(b, JFalse)];
    assert Passed(es, 0);
    FoldFirstNotPassed(es, 1);
  }
}
