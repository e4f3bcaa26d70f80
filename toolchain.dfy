/**
 * A handle on a `reproto` executable and the two ways of running it: with its JSON log
 * records copied to an output channel, or with its standard output captured.
 */
module Toolchain {
  import opened Wrappers
  import opened Text
  import opened Lines
  import opened Editor
  import opened Protocol

  /** A program to start, its arguments and the directory to start it in. */
  datatype Invocation = Invocation(program: string, args: seq<string>, cwd: Option<string>)

  /** An executable, and the directory its commands run in. */
  datatype Reproto = Reproto(path: string, rootPath: Option<string>) {
    /** A handle prints as the executable's path. */
    function ToString(): (r: string)
      ensures r == path
    {
      path
    }

    /** `reproto --version`, run in the handle's directory. */
    function VersionCommand(): (c: Invocation)
      ensures c.program == path && c.cwd == rootPath
      ensures c.args == ["--version"]
    {
      Invocation(path, ["--version"], rootPath)
    }

    /** `reproto --output-format json init`, run in the handle's directory. */
    function InitCommand(): (c: Invocation)
      ensures c.program == path && c.cwd == rootPath
      ensures c.args == ["--output-format", "json", "init"]
    {
      Invocation(path, ["--output-format", "json", "init"], rootPath)
    }
  }

  /** Why a run failed: a stdout line that is not JSON, or an exit status other than 0 (None: killed by a signal). */
  datatype Failure = IllegalJson | NonZeroExit(code: Option<int>)

  /** How a promise settled. */
  datatype Outcome<T> = Resolved(value: T) | Rejected(reason: Failure)

  /** A promise settles once: the first settlement stands and later ones are ignored. */
  function Settle<T>(current: Option<Outcome<T>>, next: Outcome<T>): (r: Option<Outcome<T>>)
    ensures r.Some?
    ensures current.Some? ==> r == current
    ensures current.None? ==> r == Some(next)
  {
    if current.Some? then current else Some(next)
  }

  /** What the exit of the process settles a run with: success exactly on status 0. */
  function ExitOutcome<T>(code: Option<int>, value: T): (r: Outcome<T>)
    ensures r.Resolved? <==> code == Some(0)
    ensures r.Resolved? ==> r.value == value
    ensures r.Rejected? ==> r.reason == NonZeroExit(code)
  {
    if code == Some(0) then Resolved(value) else Rejected(NonZeroExit(code))
  }

  /** The output line a record produces. */
  function LogLine(rec: Record): string {
    rec.level + ": " + rec.message
  }

  /** The output lines of the "log" records, in order; other records produce none. */
  function LogLines(recs: seq<Record>): seq<string> {
    if recs == [] then []
    else
      var last := recs[|recs| - 1];
      LogLines(recs[..|recs| - 1]) + (if last.tag == "log" then [LogLine(last)] else [])
  }

  /** Exactly the "log" records produce a line each, "<level>: <message>", in order. */
  lemma {:induction false} LogLinesSpec(recs: seq<Record>, line: string)
    ensures line in LogLines(recs) <==> exists k :: 0 <= k < |recs| && recs[k].tag == "log" && line == LogLine(recs[k])
  {
    if recs != [] {
      var init := recs[..|recs| - 1];
      LogLinesSpec(init, line);
      assert forall k :: 0 <= k < |init| ==> init[k] == recs[k];
      if line in LogLines(recs) && line !in LogLines(init) {
        assert recs[|recs| - 1].tag == "log" && line == LogLine(recs[|recs| - 1]);
      }
    }
  }

  lemma {:induction false} LogLinesAppend(a: seq<Record>, b: seq<Record>)
    ensures LogLines(a + b) == LogLines(a) + LogLines(b)
    decreases |b|
  {
    if b == [] {
      assert a + b == a;
    } else {
      assert (a + b)[..|a + b| - 1] == a + b[..|b| - 1];
      LogLinesAppend(a, b[..|b| - 1]);
    }
  }

  /** What handling one more line adds to the log, and whether the run stays free of bad lines. */
  lemma {:induction false} LogStep(parse: string -> Option<Record>, done: seq<string>, line: string)
    ensures AllParse(parse, done + [line]) == (AllParse(parse, done) && parse(line).Some?)
    ensures Unlines(LogLines(Decoded(parse, done + [line]))) ==
      Unlines(LogLines(Decoded(parse, done))) +
      (if parse(line).Some? && parse(line).value.tag == "log" then LogLine(parse(line).value) + "\n" else "")
  {
    assert (done + [line])[..|done|] == done;
    match parse(line)
    case None =>
    case Some(rec) =>
      assert Decoded(parse, done + [line]) == Decoded(parse, done) + [rec];
      LogLinesAppend(Decoded(parse, done), [rec]);
      assert [rec][..0] == [];
      if rec.tag == "log" {
        UnlinesSnoc(LogLines(Decoded(parse, done)), LogLine(rec));
      } else {
        assert LogLines([rec]) == [];
        assert LogLines(Decoded(parse, done)) + [] == LogLines(Decoded(parse, done));
      }
  }

  lemma {:induction false} LogAppend(parse: string -> Option<Record>, a: seq<string>, b: seq<string>)
    ensures Unlines(LogLines(Decoded(parse, a + b))) == Unlines(LogLines(Decoded(parse, a))) + Unlines(LogLines(Decoded(parse, b)))
  {
    DecodedAppend(parse, a, b);
    LogLinesAppend(Decoded(parse, a), Decoded(parse, b));
    UnlinesAppend(LogLines(Decoded(parse, a)), LogLines(Decoded(parse, b)));
  }

  /**
   * One run of a command whose standard output is a stream of JSON records: every complete
   * line is taken off the buffer before it is parsed, so a line that is not JSON rejects
   * the run and is skipped, and the lines after it are still handled.
   */
  class LoggedRun {
    const parse: string -> Option<Record>
    const out: OutputChannel
    var buffer: string
    var outcome: Option<Outcome<()>>
    /** Everything read from standard output so far. */
    ghost var received: string
    /** The complete lines received so far, all of them handled. */
    ghost var consumed: seq<string>

    /** The buffer holds what follows the handled lines, and no line is left in it. */
    ghost predicate Valid()
      reads this
    {
      Framed() && '\n' !in buffer
    }

    /** The handled lines, then the buffer, make up what was received. */
    ghost predicate Framed()
      reads this
    {
      && Unlines(consumed) + buffer == received
      && (forall k :: 0 <= k < |consumed| ==> '\n' !in consumed[k])
    }

    /**
     * Since line `start`, the log gained the "log" records among the handled lines, and the
     * run was rejected if one of them was not JSON.
     */
    ghost predicate LoggedSince(start: nat, text: string, outcome0: Option<Outcome<()>>)
      reads this, out
    {
      && start <= |consumed|
      && out.text == text + Unlines(LogLines(Decoded(parse, consumed[start..])))
      && outcome == if AllParse(parse, consumed[start..]) then outcome0 else Settle(outcome0, Rejected(IllegalJson))
    }

    constructor(parse: string -> Option<Record>, out: OutputChannel)
      ensures Valid()
      ensures this.parse == parse && this.out == out
      ensures received == "" && consumed == [] && buffer == "" && outcome == None
    {
      this.parse := parse;
      this.out := out;
      buffer := "";
      outcome := None;
      received := "";
      consumed := [];
    }

    /**
     * A chunk of standard output: each line it completes is logged if it is a "log"
     * record, and rejects the run if it is not JSON.
     */
    method OnData(chunk: string)
      requires Valid()
      modifies this, out
      ensures Valid()
      ensures received == old(received) + chunk
      ensures old(consumed) <= consumed
      ensures out.text == old(out.text) + Unlines(LogLines(Decoded(parse, consumed[|old(consumed)|..])))
      ensures outcome == if AllParse(parse, consumed[|old(consumed)|..]) then old(outcome)
                         else Settle(old(outcome), Rejected(IllegalJson))
    {
      ghost var start := |consumed|;
      buffer := buffer + chunk;
      received := received + chunk;
      while true
        invariant Framed() && LoggedSince(start, old(out.text), old(outcome))
        invariant received == old(received) + chunk
        invariant old(consumed) <= consumed && start == |old(consumed)|
        decreases |buffer|
      {
        var index := IndexOfChar(buffer, '\n');
        if index < 0 {
          break;
        }
        NextLine(index, start, old(out.text), old(outcome));
      }
    }

    /** Handles the first line of the buffer, keeping the framing and the log up to date. */
    method NextLine(index: int, ghost start: nat, ghost text: string, ghost outcome0: Option<Outcome<()>>)
      requires Framed() && LoggedSince(start, text, outcome0)
      requires 0 <= index < |buffer| && buffer[index] == '\n' && '\n' !in buffer[..index]
      modifies this, out
      ensures Framed() && LoggedSince(start, text, outcome0)
      ensures received == old(received) && old(consumed) <= consumed && |buffer| < old(|buffer|)
    {
      ghost var done := consumed[start..];
      ghost var line := buffer[..index];
      ghost var logged := Unlines(LogLines(Decoded(parse, done)));
      ghost var added := if parse(line).Some? && parse(line).value.tag == "log" then LogLine(parse(line).value) + "\n" else "";
      TakeLine(consumed, buffer, received, index);
      LogStep(parse, done, line);
      HandleLine(index);
      assert consumed[start..] == done + [line];
      Associative(text, logged, added);
    }

    /** Takes the first line off the buffer, then logs it if it is a "log" record or rejects the run if it is not JSON. */
    method HandleLine(index: int)
      requires 0 <= index < |buffer| && buffer[index] == '\n'
      modifies this, out
      ensures consumed == old(consumed) + [old(buffer)[..index]]
      ensures buffer == old(buffer)[index + 1..]
      ensures received == old(received)
      ensures var rec := parse(old(buffer)[..index]);
        && out.text == old(out.text) + (if rec.Some? && rec.value.tag == "log" then LogLine(rec.value) + "\n" else "")
        && outcome == if rec.Some? then old(outcome) else Settle(old(outcome), Rejected(IllegalJson))
    {
      var json := buffer[..index];
      buffer := buffer[index + 1..];
      consumed := consumed + [json];
      match parse(json)
      case None =>
        outcome := Settle(outcome, Rejected(IllegalJson));
      case Some(rec) =>
        if rec.tag == "log" {
          out.AppendLine(LogLine(rec));
        }
    }

    /** The exit of the process settles the run unless a bad line already rejected it. */
    method OnClose(code: Option<int>)
      modifies this
      ensures outcome == Settle(old(outcome), ExitOutcome(code, ()))
      ensures buffer == old(buffer) && received == old(received) && consumed == old(consumed)
    {
      outcome := Settle(outcome, ExitOutcome(code, ()));
    }
  }

  /**
   * A whole logged run, the output arriving in the given chunks: the output channel gains
   * one line per "log" record among the complete lines, and the run succeeds exactly when
   * every complete line is JSON and the process exits with status 0.
   */
  method RunLogged(parse: string -> Option<Record>, out: OutputChannel, chunks: seq<string>, code: Option<int>)
    returns (outcome: Outcome<()>)
    modifies out
    ensures var lines := SplitLines(Concat(chunks)).lines;
      && out.text == old(out.text) + Unlines(LogLines(Decoded(parse, lines)))
      && outcome == if AllParse(parse, lines) then ExitOutcome(code, ()) else Rejected(IllegalJson)
  {
    var run := new LoggedRun(parse, out);
    var i := 0;
    while i < |chunks|
      invariant 0 <= i <= |chunks|
      invariant run.Valid() && run.received == Concat(chunks[..i])
      invariant run.parse == parse && run.out == out
      invariant out.text == old(out.text) + Unlines(LogLines(Decoded(parse, run.consumed)))
      invariant run.outcome == if AllParse(parse, run.consumed) then None else Some(Rejected(IllegalJson))
    {
      ghost var before := run.consumed;
      run.OnData(chunks[i]);
      ghost var added := run.consumed[|before|..];
      assert run.consumed == before + added;
      LogAppend(parse, before, added);
      AllParseAppend(parse, before, added);
      Associative(old(out.text), Unlines(LogLines(Decoded(parse, before))), Unlines(LogLines(Decoded(parse, added))));
      assert chunks[..i + 1][..i] == chunks[..i];
      i := i + 1;
    }
    assert chunks[..i] == chunks;
    SplitLinesUnique(run.consumed, run.buffer);
    run.OnClose(code);
    outcome := run.outcome.value;
  }

  /** One run of a command whose standard output is captured whole. */
  class CaptureRun {
    var buffer: string
    var outcome: Option<Outcome<string>>

    constructor()
      ensures buffer == "" && outcome == None
    {
      buffer := "";
      outcome := None;
    }

    method OnData(chunk: string)
      modifies this
      ensures buffer == old(buffer) + chunk && outcome == old(outcome)
    {
      buffer := buffer + chunk;
    }

    /** The exit of the process resolves with everything captured, or rejects on a status other than 0. */
    method OnClose(code: Option<int>)
      modifies this
      ensures outcome == Settle(old(outcome), ExitOutcome(code, buffer))
      ensures buffer == old(buffer)
    {
      outcome := Settle(outcome, ExitOutcome(code, buffer));
    }
  }

  /** A whole captured run: the whole standard output on status 0, a rejection otherwise. */
  method RunCapture(chunks: seq<string>, code: Option<int>) returns (outcome: Outcome<string>)
    ensures outcome == ExitOutcome(code, Concat(chunks))
  {
    var run := new CaptureRun();
    var i := 0;
    while i < |chunks|
      invariant 0 <= i <= |chunks|
      invariant run.buffer == Concat(chunks[..i]) && run.outcome == None
    {
      run.OnData(chunks[i]);
      assert chunks[..i + 1][..i] == chunks[..i];
      i := i + 1;
    }
    assert chunks[..i] == chunks;
    run.OnClose(code);
    outcome := run.outcome.value;
  }

  /** The reported version: the captured output of `--version` with surrounding whitespace removed. */
  function Version(captured: Outcome<string>): (r: Outcome<string>)
    ensures r.Resolved? <==> captured.Resolved?
    ensures r.Resolved? ==> Unpadded(r.value)
    ensures r.Rejected? ==> r == captured
  {
    match captured
    case Resolved(s) => Resolved(Trim(s))
    case Rejected(e) => Rejected(e)
  }

  /** A version line printed with any surrounding whitespace, e.g. a trailing newline, is reported as printed. */
  lemma {:induction false} VersionTrims(pad1: string, line: string, pad2: string)
    requires AllSpace(pad1) && AllSpace(pad2) && Unpadded(line)
    ensures Version(Resolved(pad1 + line + pad2)) == Resolved(line)
  {
    TrimPadded(pad1, line, pad2);
  }
}
