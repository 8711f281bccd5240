/**
 * A machine that reads a document line by line: a step function takes the
 * state, the line and the line's 1-based number, and either yields the next
 * state or fails.  The first failure ends the run.  The configuration parser
 * is such a machine; the facts here hold for every step function.
 */
module LineMachine {
  import opened Wrappers

  /** The state after the given lines, or the first error among them. */
  function Run<S, E>(step: (S, string, int) -> Result<S, E>, init: S, lines: seq<string>): Result<S, E>
    decreases |lines|
  {
    if lines == [] then Ok(init)
    else match Run(step, init, lines[..|lines| - 1])
      case Err(e) => Err(e)
      case Ok(s) => step(s, lines[|lines| - 1], |lines|)
  }

  /** One more line is one more step, numbered after the lines before it. */
  lemma RunSnoc<S, E>(step: (S, string, int) -> Result<S, E>, init: S, lines: seq<string>, line: string)
    ensures Run(step, init, lines + [line]) == match Run(step, init, lines)
                                                case Err(e) => Err(e)
                                                case Ok(s) => step(s, line, |lines| + 1)
  {
    assert (lines + [line])[..|lines|] == lines;
  }

  /** The same, for the prefixes of one document: the first `k + 1` lines are the first `k` and then line `k`. */
  lemma RunNext<S, E>(step: (S, string, int) -> Result<S, E>, init: S, lines: seq<string>, k: nat)
    requires k < |lines|
    ensures Run(step, init, lines[..k + 1]) == match Run(step, init, lines[..k])
                                                case Err(e) => Err(e)
                                                case Ok(s) => step(s, lines[k], k + 1)
  {
    assert lines[..k + 1] == lines[..k] + [lines[k]];
    RunSnoc(step, init, lines[..k], lines[k]);
  }

  /** A line accepted in the state the lines before it reach moves the run to its new state. */
  lemma RunAccepts<S, E>(step: (S, string, int) -> Result<S, E>, init: S, lines: seq<string>, line: string, s: S, t: S)
    requires Run(step, init, lines) == Ok(s) && step(s, line, |lines| + 1) == Ok(t)
    ensures Run(step, init, lines + [line]) == Ok(t)
  {
    RunSnoc(step, init, lines, line);
  }

  /** Four lines, each accepted in the state the one before it leaves. */
  lemma RunFour<S, E>(step: (S, string, int) -> Result<S, E>, init: S, lines: seq<string>,
                      a: string, b: string, c: string, d: string, s0: S, s1: S, s2: S, s3: S, s4: S)
    requires Run(step, init, lines) == Ok(s0)
    requires step(s0, a, |lines| + 1) == Ok(s1) && step(s1, b, |lines| + 2) == Ok(s2)
    requires step(s2, c, |lines| + 3) == Ok(s3) && step(s3, d, |lines| + 4) == Ok(s4)
    ensures Run(step, init, lines + [a, b, c, d]) == Ok(s4)
  {
    RunAccepts(step, init, lines, a, s0, s1);
    RunAccepts(step, init, lines + [a], b, s1, s2);
    RunAccepts(step, init, lines + [a] + [b], c, s2, s3);
    RunAccepts(step, init, lines + [a] + [b] + [c], d, s3, s4);
    assert lines + [a] + [b] + [c] + [d] == lines + [a, b, c, d];
  }

  /** A step that, whenever it succeeds, agrees with another makes a successful run that agrees with the other's. */
  lemma {:induction false} RunAgrees<S, E>(step: (S, string, int) -> Result<S, E>, fixed: (S, string, int) -> Result<S, E>,
                                           init: S, lines: seq<string>)
    requires forall s, line, n :: fixed(s, line, n).Ok? ==> step(s, line, n) == fixed(s, line, n)
    requires Run(fixed, init, lines).Ok?
    ensures Run(step, init, lines) == Run(fixed, init, lines)
    decreases |lines|
  {
    if lines != [] {
      var prefix := lines[..|lines| - 1];
      assert Run(fixed, init, prefix).Ok?;
      RunAgrees(step, fixed, init, prefix);
      var s := Run(fixed, init, prefix).value;
      var line := lines[|lines| - 1];
      assert Run(fixed, init, lines) == fixed(s, line, |lines|);
      assert Run(step, init, lines) == step(s, line, |lines|);
      AgreesOne(step, fixed, s, line, |lines|);
    }
  }

  lemma AgreesOne<S, E>(step: (S, string, int) -> Result<S, E>, fixed: (S, string, int) -> Result<S, E>, s: S, line: string, n: int)
    requires forall s, line, n :: fixed(s, line, n).Ok? ==> step(s, line, n) == fixed(s, line, n)
    requires fixed(s, line, n).Ok?
    ensures step(s, line, n) == fixed(s, line, n)
  {
  }

  /** Once a prefix of the document fails, the whole document fails with the same error. */
  lemma {:induction false} RunStops<S, E>(step: (S, string, int) -> Result<S, E>, init: S, lines: seq<string>, k: nat)
    requires k <= |lines|
    requires Run(step, init, lines[..k]).Err?
    ensures Run(step, init, lines) == Run(step, init, lines[..k])
    decreases |lines| - k
  {
    if k == |lines| {
      assert lines[..k] == lines;
    } else {
      assert lines[..k + 1] == lines[..k] + [lines[k]];
      RunSnoc(step, init, lines[..k], lines[k]);
      RunStops(step, init, lines, k + 1);
    }
  }

  /** A line on which the step fails ends the run with that line's error. */
  lemma FailsAt<S, E>(step: (S, string, int) -> Result<S, E>, init: S, lines: seq<string>, k: nat, s: S)
    requires k < |lines| && Run(step, init, lines[..k]) == Ok(s)
    requires step(s, lines[k], k + 1).Err?
    ensures Run(step, init, lines) == step(s, lines[k], k + 1)
  {
    assert lines[..k + 1] == lines[..k] + [lines[k]];
    RunSnoc(step, init, lines[..k], lines[k]);
    RunStops(step, init, lines, k + 1);
  }

  /** A failed run failed on some line, reached with every line before it accepted. */
  lemma {:induction false} FirstFailure<S, E>(step: (S, string, int) -> Result<S, E>, init: S, lines: seq<string>)
    returns (k: nat)
    requires Run(step, init, lines).Err?
    ensures k < |lines| && Run(step, init, lines[..k]).Ok?
    ensures step(Run(step, init, lines[..k]).value, lines[k], k + 1) == Run(step, init, lines)
    decreases |lines|
  {
    var prefix := lines[..|lines| - 1];
    if Run(step, init, prefix).Err? {
      k := FirstFailure(step, init, prefix);
      assert prefix[..k] == lines[..k];
    } else {
      k := |lines| - 1;
      assert lines[..k] == prefix;
    }
  }

  /** A property of states that every accepted step keeps holds of every state a run reaches. */
  lemma {:induction false} RunKeeps<S, E>(step: (S, string, int) -> Result<S, E>, init: S, inv: S -> bool, lines: seq<string>)
    requires inv(init)
    requires forall s, line, n :: inv(s) && step(s, line, n).Ok? ==> inv(step(s, line, n).value)
    ensures Run(step, init, lines).Ok? ==> inv(Run(step, init, lines).value)
    decreases |lines|
  {
    if lines != [] {
      var prefix := lines[..|lines| - 1];
      RunKeeps(step, init, inv, prefix);
      if Run(step, init, prefix).Ok? {
        var s := Run(step, init, prefix).value;
        if step(s, lines[|lines| - 1], |lines|).Ok? {
          KeepsOne(step, inv, s, lines[|lines| - 1], |lines|);
        }
      }
    }
  }

  lemma KeepsOne<S, E>(step: (S, string, int) -> Result<S, E>, inv: S -> bool, s: S, line: string, n: int)
    requires forall s, line, n :: inv(s) && step(s, line, n).Ok? ==> inv(step(s, line, n).value)
    requires inv(s) && step(s, line, n).Ok?
    ensures inv(step(s, line, n).value)
  {
  }

  /** Lines that leave the state as it is can be run without effect. */
  lemma {:induction false} RunIdle<S, E>(step: (S, string, int) -> Result<S, E>, init: S, lines: seq<string>)
    requires forall k :: 0 <= k < |lines| ==> step(init, lines[k], k + 1) == Ok(init)
    ensures Run(step, init, lines) == Ok(init)
    decreases |lines|
  {
    if lines != [] {
      var prefix := lines[..|lines| - 1];
      assert forall k :: 0 <= k < |prefix| ==> prefix[k] == lines[k];
      RunIdle(step, init, prefix);
    }
  }
}
