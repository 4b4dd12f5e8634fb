/**
 * The argument scan all three scripts share:
 * `process.argv.slice(2).forEach(function (option) { option = option.trim(); ... })`,
 * where a `process.exit` inside the callback ends the scan at that token.
 */
module Cli {
  import opened Results
  import opened Js

  /** Feed each trimmed argument, left to right, to `step`; the first error wins. */
  function Scan<S, E>(step: (S, string) -> Result<S, E>, st: S, args: seq<string>): (r: Result<S, E>)
    ensures |args| == 0 ==> r == Ok(st)
    decreases |args|
  {
    if |args| == 0 then Ok(st)
    else
      match step(st, Trim(args[0]))
      case Err(e) => Err(e)
      case Ok(st') => Scan(step, st', args[1..])
  }

  /** Scanning `a + b` scans `a`, then goes on with `b` from where `a` left off. */
  lemma {:induction false} ScanAppend<S, E>(step: (S, string) -> Result<S, E>, st: S, a: seq<string>, b: seq<string>)
    ensures Scan(step, st, a + b) ==
      match Scan(step, st, a)
      case Err(e) => Err(e)
      case Ok(st') => Scan(step, st', b)
    decreases |a|
  {
    if |a| == 0 {
      assert a + b == b;
    } else {
      assert (a + b)[0] == a[0];
      assert (a + b)[1..] == a[1..] + b;
      match step(st, Trim(a[0]))
      case Err(e) =>
      case Ok(st') => ScanAppend(step, st', a[1..], b);
    }
  }

  /** A property every successful step preserves holds of the scan's result. */
  lemma {:induction false} ScanInvariant<S, E>(step: (S, string) -> Result<S, E>, inv: S -> bool, st: S, args: seq<string>)
    requires forall s, t :: inv(s) && step(s, t).Ok? ==> inv(step(s, t).value)
    requires inv(st)
    ensures Scan(step, st, args).Ok? ==> inv(Scan(step, st, args).value)
    decreases |args|
  {
    if |args| > 0 {
      match step(st, Trim(args[0]))
      case Err(e) =>
      case Ok(st') => ScanInvariant(step, inv, st', args[1..]);
    }
  }

  /** Every token a step sees is trimmed. */
  lemma {:induction false} ScanSeesTrimmed<S, E>(step: (S, string) -> Result<S, E>, inv: S -> bool, st: S, args: seq<string>)
    requires forall s, t :: inv(s) && Trim(t) == t && step(s, t).Ok? ==> inv(step(s, t).value)
    requires inv(st)
    ensures Scan(step, st, args).Ok? ==> inv(Scan(step, st, args).value)
    decreases |args|
  {
    if |args| > 0 {
      TrimIdempotent(args[0]);
      match step(st, Trim(args[0]))
      case Err(e) =>
      case Ok(st') => ScanSeesTrimmed(step, inv, st', args[1..]);
    }
  }

  /** A token whose step fails ends the scan with that error, whatever follows. */
  lemma ScanStops<S, E>(step: (S, string) -> Result<S, E>, st: S, before: seq<string>, token: string, after: seq<string>)
    requires Scan(step, st, before).Ok?
    requires step(Scan(step, st, before).value, Trim(token)).Err?
    ensures Scan(step, st, before + [token] + after) == step(Scan(step, st, before).value, Trim(token))
  {
    ScanAppend(step, st, before, [token] + after);
    assert before + [token] + after == before + ([token] + after);
    assert ([token] + after)[0] == token;
  }

  /** A token whose step succeeds hands its state on to the rest of the scan. */
  lemma ScanGoesOn<S, E>(step: (S, string) -> Result<S, E>, st: S, before: seq<string>, token: string, after: seq<string>)
    requires Scan(step, st, before).Ok?
    requires step(Scan(step, st, before).value, Trim(token)).Ok?
    ensures Scan(step, st, before + [token] + after) ==
      Scan(step, step(Scan(step, st, before).value, Trim(token)).value, after)
  {
    ScanAppend(step, st, before, [token] + after);
    assert before + [token] + after == before + ([token] + after);
    assert ([token] + after)[0] == token;
    assert ([token] + after)[1..] == after;
  }
}
