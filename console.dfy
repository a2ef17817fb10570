/**
 * Standard output as the script uses it: a run of `puts` calls, each of
 * which first computes its line and may raise instead, which ends the run
 * with the lines written so far.
 */
module Console {
  import opened Wrappers
  import opened Errors

  /** The lines printed, and the exception that stopped the run, if one did. */
  datatype Output = Output(lines: seq<string>, raised: Option<Error>)

  /** Runs `puts` over `steps` in order, stopping at the first step that raises. */
  function Execute(steps: seq<Result<string, Error>>): (out: Output)
    ensures |out.lines| <= |steps|
    ensures forall i :: 0 <= i < |out.lines| ==> steps[i] == Ok(out.lines[i])
    ensures out.raised.None? <==> |out.lines| == |steps|
    ensures out.raised.Some? ==> steps[|out.lines|] == Err(out.raised.value)
  {
    if steps == [] then Output([], None)
    else
      match steps[0]
      case Err(e) => Output([], Some(e))
      case Ok(line) =>
        var rest := Execute(steps[1..]);
        Output([line] + rest.lines, rest.raised)
  }

  /** `first` followed by `next`; `next` only runs (and prints) when `first` did not raise. */
  function Then(first: Output, next: Output): (out: Output)
    ensures first.raised.Some? ==> out == first
    ensures first.raised.None? ==> out.lines == first.lines + next.lines && out.raised == next.raised
  {
    if first.raised.Some? then first else Output(first.lines + next.lines, next.raised)
  }

  /** Running two blocks of steps is running the first, then the second if the first did not raise. */
  lemma {:induction false} ExecuteAppend(a: seq<Result<string, Error>>, b: seq<Result<string, Error>>)
    ensures Execute(a + b) == Then(Execute(a), Execute(b))
  {
    if a == [] {
      assert a + b == b;
    } else {
      assert (a + b)[0] == a[0] && (a + b)[1..] == a[1..] + b;
      ExecuteAppend(a[1..], b);
      if a[0].Ok? && Execute(a[1..]).raised.None? {
        assert [a[0].value] + (Execute(a[1..]).lines + Execute(b).lines)
            == ([a[0].value] + Execute(a[1..]).lines) + Execute(b).lines;
      }
    }
  }

  /** Steps that all succeed print their lines and nothing else. */
  function Lines(lines: seq<string>): (steps: seq<Result<string, Error>>)
    ensures |steps| == |lines|
  {
    Map(line => Ok(line), lines)
  }

  lemma LinesAt(lines: seq<string>)
    ensures forall i :: 0 <= i < |lines| ==> Lines(lines)[i] == Ok(lines[i])
  {
  }

  lemma LinesAppend(lines: seq<string>, line: string)
    ensures Lines(lines + [line]) == Lines(lines) + [Ok(line)]
  {
    LinesConcat(lines, [line]);
    assert Lines([line]) == [Ok(line)];
  }

  lemma LinesConcat(a: seq<string>, b: seq<string>)
    ensures Lines(a + b) == Lines(a) + Lines(b)
  {
    assert forall i :: 0 <= i < |a| ==> (a + b)[i] == a[i];
    assert forall i :: 0 <= i < |b| ==> (a + b)[|a| + i] == b[i];
  }

  /** Steps that all succeed print exactly their lines. */
  lemma {:induction false} ExecuteLines(lines: seq<string>)
    ensures Execute(Lines(lines)) == Output(lines, None)
  {
    if lines != [] {
      ExecuteLines(lines[1..]);
      assert Lines(lines)[1..] == Lines(lines[1..]);
      assert [lines[0]] + lines[1..] == lines;
    }
  }

  /** Split the first line off the steps still to run. */
  lemma LinesSplit(line: string, rest: seq<string>, after: seq<Result<string, Error>>, todo: seq<Result<string, Error>>)
    requires todo == Lines([line] + rest) + after
    ensures todo != [] && todo[0] == Ok(line) && todo[1..] == Lines(rest) + after
  {
    assert ([line] + rest)[1..] == rest;
  }

  /** Printing the next line of a run: it moves from the steps still to do to the lines done. */
  lemma Advance(steps: seq<Result<string, Error>>, done: seq<string>, todo: seq<Result<string, Error>>, line: string)
    requires steps == Lines(done) + todo && todo != [] && todo[0] == Ok(line)
    ensures steps == Lines(done + [line]) + todo[1..]
  {
    LinesAppend(done, line);
    assert todo == [Ok(line)] + todo[1..];
  }

  /** A run whose next step raises ends with the lines done so far and that error. */
  lemma StopsAt(steps: seq<Result<string, Error>>, done: seq<string>, todo: seq<Result<string, Error>>)
    requires steps == Lines(done) + todo && todo != [] && todo[0].Err?
    ensures Execute(steps) == Output(done, Some(todo[0].error))
  {
    ExecuteAppend(Lines(done), todo);
    ExecuteLines(done);
  }

  /** Running three blocks in order does not depend on how they are grouped. */
  lemma ThenAssociates(a: Output, b: Output, c: Output)
    ensures Then(Then(a, b), c) == Then(a, Then(b, c))
  {
    if a.raised.None? && b.raised.None? {
      assert a.lines + b.lines + c.lines == a.lines + (b.lines + c.lines);
    }
  }
}
