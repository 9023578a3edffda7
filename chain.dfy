/**
 * The message discipline every validator kind shares: a check that fails
 * overwrites `message`, a check that passes leaves it alone, and nothing
 * short-circuits. A chain of checks is therefore a left fold of `Step`, and
 * `validate()` reports the message of the last check that failed.
 */
module Chain {
  import opened Common

  /** One check: `if (<fails>) this.message = msg`. */
  function Step(message: Option<string>, fails: bool, msg: string): Option<string> {
    if fails then Some(msg) else message
  }

  /** The message after running `checks` in order, each given as (fails, msg), starting from `message`. */
  function Run(message: Option<string>, checks: seq<(bool, string)>): Option<string>
    decreases |checks|
  {
    if checks == [] then message
    else Step(Run(message, checks[..|checks| - 1]), checks[|checks| - 1].0, checks[|checks| - 1].1)
  }

  /** No check ever clears a recorded message. */
  lemma {:induction false} RunNeverClears(message: Option<string>, checks: seq<(bool, string)>)
    requires message.Some?
    ensures Run(message, checks).Some?
    decreases |checks|
  {
    if checks != [] {
      RunNeverClears(message, checks[..|checks| - 1]);
    }
  }

  /** When no check fails, the starting message survives the whole chain. */
  lemma {:induction false} AllPassedKeeps(message: Option<string>, checks: seq<(bool, string)>)
    requires forall i | 0 <= i < |checks| :: !checks[i].0
    ensures Run(message, checks) == message
    decreases |checks|
  {
    if checks != [] {
      var init := checks[..|checks| - 1];
      assert forall i | 0 <= i < |init| :: init[i] == checks[i];
      AllPassedKeeps(message, init);
    }
  }

  /** The last failing check wins: its message is the chain's result, whatever came before. */
  lemma {:induction false} LastFailureWins(message: Option<string>, checks: seq<(bool, string)>, i: nat)
    requires i < |checks| && checks[i].0
    requires forall j | i < j < |checks| :: !checks[j].0
    ensures Run(message, checks) == Some(checks[i].1)
    decreases |checks|
  {
    var n := |checks| - 1;
    if i < n {
      var init := checks[..n];
      assert forall j | 0 <= j < |init| :: init[j] == checks[j];
      LastFailureWins(message, init, i);
    }
  }

  /** Started from no message, a chain reports nothing exactly when every check passed. */
  lemma NoMessageIffAllPassed(checks: seq<(bool, string)>)
    ensures Run(None, checks) == None <==> forall i | 0 <= i < |checks| :: !checks[i].0
  {
    if i :| 0 <= i < |checks| && checks[i].0 {
      var k := LastFailing(checks, i);
      LastFailureWins(None, checks, k);
    } else {
      AllPassedKeeps(None, checks);
    }
  }

  /** The index of the last failing check at or after `i`, given one fails at `i`. */
  lemma {:induction false} LastFailing(checks: seq<(bool, string)>, i: nat) returns (k: nat)
    requires i < |checks| && checks[i].0
    ensures i <= k < |checks| && checks[k].0
    ensures forall j | k < j < |checks| :: !checks[j].0
    decreases |checks| - i
  {
    if j :| i < j < |checks| && checks[j].0 {
      k := LastFailing(checks, j);
    } else {
      k := i;
    }
  }
}
