/**
 * The newline-delimited record stream both stdout readers consume: the text is cut
 * at every '\n', each complete line is handed on, and the unterminated remainder
 * waits in a buffer for the next chunk.
 */
module Lines {
  import opened Wrappers
  import opened Text

  /** The complete lines of a text (without their terminators) and its unterminated remainder. */
  datatype LineSplit = LineSplit(lines: seq<string>, rest: string)

  /** Each line followed by its '\n' terminator, one after another. */
  function Unlines(lines: seq<string>): string {
    if lines == [] then "" else lines[0] + "\n" + Unlines(lines[1..])
  }

  /**
   * What repeatedly taking the text up to the first '\n' yields: the lines in order and
   * the rest. Together they give back the text, and the rest holds no '\n'.
   */
  function SplitLines(s: string): (r: LineSplit)
    ensures Unlines(r.lines) + r.rest == s
    ensures '\n' !in r.rest
    ensures forall k :: 0 <= k < |r.lines| ==> '\n' !in r.lines[k]
    decreases |s|
  {
    var nl := IndexOfChar(s, '\n');
    if nl < 0 then LineSplit([], s)
    else
      var tail := SplitLines(s[nl + 1..]);
      CutAtNewline(s, nl);
      UnlinesPrepend(s[..nl], tail.lines, tail.rest, s[nl + 1..], s);
      LineSplit([s[..nl]] + tail.lines, tail.rest)
  }

  lemma {:induction false} CutAtNewline(s: string, i: int)
    requires 0 <= i < |s| && s[i] == '\n'
    ensures s == s[..i] + "\n" + s[i + 1..]
  {
    assert s == s[..i] + s[i..];
    assert s[i..] == "\n" + s[i + 1..];
  }

  lemma {:induction false} UnlinesPrepend(head: string, lines: seq<string>, rest: string, tail: string, s: string)
    requires Unlines(lines) + rest == tail
    requires s == head + "\n" + tail
    ensures Unlines([head] + lines) + rest == s
  {
    var all := [head] + lines;
    assert all[0] == head && all[1..] == lines;
  }

  lemma {:induction false} UnlinesAppend(a: seq<string>, b: seq<string>)
    ensures Unlines(a + b) == Unlines(a) + Unlines(b)
  {
    if a == [] {
      assert a + b == b;
    } else {
      assert (a + b)[0] == a[0] && (a + b)[1..] == a[1..] + b;
      UnlinesAppend(a[1..], b);
    }
  }

  lemma {:induction false} UnlinesCons(lines: seq<string>, j: nat)
    requires j < |lines|
    ensures Unlines(lines[j..]) == lines[j] + "\n" + Unlines(lines[j + 1..])
  {
    assert lines[j..][0] == lines[j] && lines[j..][1..] == lines[j + 1..];
  }

  /** A line that holds no '\n', once terminated, is the first line of whatever follows it. */
  lemma {:induction false} SplitLinesCons(head: string, tail: string)
    requires '\n' !in head
    ensures SplitLines(head + "\n" + tail) == LineSplit([head] + SplitLines(tail).lines, SplitLines(tail).rest)
  {
    var s := head + "\n" + tail;
    assert s[|head|] == '\n' && s[..|head|] == head;
    assert IndexOfChar(s, '\n') == |head|;
    assert s[|head| + 1..] == tail;
  }

  /** A text that is terminated lines followed by an unterminated rest splits back into exactly those. */
  lemma {:induction false} SplitLinesUnique(lines: seq<string>, rest: string)
    requires forall k :: 0 <= k < |lines| ==> '\n' !in lines[k]
    requires '\n' !in rest
    ensures SplitLines(Unlines(lines) + rest) == LineSplit(lines, rest)
  {
    if lines == [] {
      assert Unlines(lines) + rest == rest;
    } else {
      var tail := Unlines(lines[1..]) + rest;
      assert [lines[0]] + lines[1..] == lines;
      assert Unlines(lines) == lines[0] + "\n" + Unlines(lines[1..]);
      Associative(lines[0] + "\n", Unlines(lines[1..]), rest);
      SplitLinesCons(lines[0], tail);
      SplitLinesUnique(lines[1..], rest);
    }
  }

  /** Splitting a text in two: the lines of the first part, then those of its rest joined to the second part. */
  lemma {:induction false} SplitLinesAppend(a: string, b: string)
    ensures SplitLines(a + b).lines == SplitLines(a).lines + SplitLines(SplitLines(a).rest + b).lines
    ensures SplitLines(a + b).rest == SplitLines(SplitLines(a).rest + b).rest
  {
    var first := SplitLines(a);
    var second := SplitLines(first.rest + b);
    var u1, u2 := Unlines(first.lines), Unlines(second.lines);
    Associative(u1, first.rest, b);
    Associative(u1, u2, second.rest);
    UnlinesAppend(first.lines, second.lines);
    assert a + b == Unlines(first.lines + second.lines) + second.rest;
    var all := first.lines + second.lines;
    forall k | 0 <= k < |all| ensures '\n' !in all[k] {
      if k >= |first.lines| {
        assert all[k] == second.lines[k - |first.lines|];
      }
    }
    SplitLinesUnique(first.lines + second.lines, second.rest);
  }

  lemma {:induction false} UnlinesSnoc(lines: seq<string>, line: string)
    ensures Unlines(lines + [line]) == Unlines(lines) + line + "\n"
  {
    UnlinesAppend(lines, [line]);
    assert [line][1..] == [];
  }

  lemma {:induction false} Associative(a: string, b: string, c: string)
    ensures a + b + c == a + (b + c)
  {
  }

  /** Taking the first line off the buffer moves it to the handled lines. */
  lemma {:induction false} TakeLine(consumed: seq<string>, buffer: string, received: string, index: int)
    requires Unlines(consumed) + buffer == received
    requires 0 <= index < |buffer| && buffer[index] == '\n'
    ensures Unlines(consumed + [buffer[..index]]) + buffer[index + 1..] == received
  {
    var line := buffer[..index];
    CutAtNewline(buffer, index);
    calc {
      Unlines(consumed + [line]) + buffer[index + 1..];
      { UnlinesSnoc(consumed, line); }
      Unlines(consumed) + line + "\n" + buffer[index + 1..];
      Unlines(consumed) + (line + "\n" + buffer[index + 1..]);
      Unlines(consumed) + buffer;
    }
  }

  /** What one stdout chunk does to (the lines handed on so far, the buffer). */
  function Feed(state: LineSplit, chunk: string): LineSplit {
    var t := SplitLines(state.rest + chunk);
    LineSplit(state.lines + t.lines, t.rest)
  }

  /** The lines handed on and the buffer left after a whole sequence of chunks. */
  function FeedAll(chunks: seq<string>): LineSplit {
    if chunks == [] then LineSplit([], "")
    else Feed(FeedAll(chunks[..|chunks| - 1]), chunks[|chunks| - 1])
  }

  function Concat(chunks: seq<string>): string {
    if chunks == [] then "" else Concat(chunks[..|chunks| - 1]) + chunks[|chunks| - 1]
  }

  /** However the output is cut into chunks, the line buffer yields the lines and the rest of the whole text. */
  lemma {:induction false} FeedAllSplits(chunks: seq<string>)
    ensures FeedAll(chunks) == SplitLines(Concat(chunks))
  {
    if chunks == [] {
      SplitLinesUnique([], "");
    } else {
      var init := chunks[..|chunks| - 1];
      FeedAllSplits(init);
      SplitLinesAppend(Concat(init), chunks[|chunks| - 1]);
    }
  }

  /** Two chunkings of the same text produce the same lines and leave the same buffer. */
  lemma {:induction false} ChunkingInvariant(chunks1: seq<string>, chunks2: seq<string>)
    requires Concat(chunks1) == Concat(chunks2)
    ensures FeedAll(chunks1) == FeedAll(chunks2)
  {
    FeedAllSplits(chunks1);
    FeedAllSplits(chunks2);
  }

  // ---------------------------------------------------------------------------
  // Decoding the lines

  /**
   * The records of the longest run of lines, from the first, that all parse: a reader
   * that stops at the first line it cannot parse hands on exactly these.
   */
  function ParsedPrefix<T>(parse: string -> Option<T>, lines: seq<string>): (r: seq<T>)
    ensures |r| <= |lines|
  {
    if lines == [] then []
    else match parse(lines[0])
      case None => []
      case Some(x) => [x] + ParsedPrefix(parse, lines[1..])
  }

  /** The records handed on are those of the first lines, and decoding stops exactly at a line that does not parse. */
  lemma {:induction false} ParsedPrefixSpec<T>(parse: string -> Option<T>, lines: seq<string>)
    ensures forall k :: 0 <= k < |ParsedPrefix(parse, lines)| ==> parse(lines[k]) == Some(ParsedPrefix(parse, lines)[k])
    ensures |ParsedPrefix(parse, lines)| < |lines| ==> parse(lines[|ParsedPrefix(parse, lines)|]).None?
  {
    if lines != [] && parse(lines[0]).Some? {
      ParsedPrefixSpec(parse, lines[1..]);
    }
  }

  /** Records that parse from the first lines, up to a line that does not parse or the end, are exactly what a stopping reader hands on. */
  lemma {:induction false} ParsedPrefixUnique<T>(parse: string -> Option<T>, lines: seq<string>, recs: seq<T>)
    requires |recs| <= |lines|
    requires forall k :: 0 <= k < |recs| ==> parse(lines[k]) == Some(recs[k])
    requires |recs| < |lines| ==> parse(lines[|recs|]).None?
    ensures ParsedPrefix(parse, lines) == recs
  {
    if recs != [] {
      assert parse(lines[0]) == Some(recs[0]);
      ParsedPrefixUnique(parse, lines[1..], recs[1..]);
      assert [recs[0]] + recs[1..] == recs;
    }
  }

  lemma {:induction false} ParsedPrefixStep<T>(parse: string -> Option<T>, lines: seq<string>, j: nat, x: T)
    requires j < |lines| && parse(lines[j]) == Some(x)
    ensures ParsedPrefix(parse, lines[j..]) == [x] + ParsedPrefix(parse, lines[j + 1..])
  {
    assert lines[j..][0] == lines[j] && lines[j..][1..] == lines[j + 1..];
  }

  /** More lines after a line that fails to parse change nothing: decoding has stopped. */
  lemma {:induction false} ParsedPrefixAppend<T>(parse: string -> Option<T>, a: seq<string>, b: seq<string>)
    ensures ParsedPrefix(parse, a + b) ==
      ParsedPrefix(parse, a) + (if |ParsedPrefix(parse, a)| == |a| then ParsedPrefix(parse, b) else [])
  {
    if a == [] {
      assert a + b == b;
    } else {
      var ab := a + b;
      assert ab[0] == a[0];
      match parse(a[0])
      case None =>
      case Some(x) =>
        var more := if |ParsedPrefix(parse, a[1..])| == |a[1..]| then ParsedPrefix(parse, b) else [];
        calc {
          ParsedPrefix(parse, ab);
          [x] + ParsedPrefix(parse, ab[1..]);
          { assert ab[1..] == a[1..] + b; }
          [x] + ParsedPrefix(parse, a[1..] + b);
          { ParsedPrefixAppend(parse, a[1..], b); }
          [x] + (ParsedPrefix(parse, a[1..]) + more);
          ([x] + ParsedPrefix(parse, a[1..])) + more;
        }
    }
  }

  /** One malformed line hides every line after it from a reader that stops there. */
  lemma {:induction false} MalformedLineStalls<T>(parse: string -> Option<T>, before: seq<string>, bad: string, after: seq<string>)
    requires parse(bad).None?
    ensures ParsedPrefix(parse, before + [bad] + after) == ParsedPrefix(parse, before)
  {
    ParsedPrefixAppend(parse, before, [bad] + after);
    assert before + [bad] + after == before + ([bad] + after);
    if |ParsedPrefix(parse, before)| == |before| {
      assert ParsedPrefix(parse, [bad] + after) == [];
    }
  }

  /** The records of every line that parses, in order; a line that does not parse is skipped. */
  function Decoded<T>(parse: string -> Option<T>, lines: seq<string>): seq<T> {
    if lines == [] then []
    else
      var init := Decoded(parse, lines[..|lines| - 1]);
      match parse(lines[|lines| - 1])
      case None => init
      case Some(x) => init + [x]
  }

  lemma {:induction false} DecodedAppend<T>(parse: string -> Option<T>, a: seq<string>, b: seq<string>)
    ensures Decoded(parse, a + b) == Decoded(parse, a) + Decoded(parse, b)
    decreases |b|
  {
    if b == [] {
      assert a + b == a;
    } else {
      assert (a + b)[..|a + b| - 1] == a + b[..|b| - 1];
      DecodedAppend(parse, a, b[..|b| - 1]);
    }
  }

  /** A malformed line between others is skipped: the lines around it are decoded as if it were absent. */
  lemma {:induction false} MalformedLineSkipped<T>(parse: string -> Option<T>, before: seq<string>, bad: string, after: seq<string>)
    requires parse(bad).None?
    ensures Decoded(parse, before + [bad] + after) == Decoded(parse, before) + Decoded(parse, after)
  {
    DecodedAppend(parse, before + [bad], after);
    DecodedAppend(parse, before, [bad]);
    assert [bad][..0] == [];
  }

  /** Each line gives at most one record, and no line is lost exactly when every line parses. */
  lemma {:induction false} DecodedCount<T>(parse: string -> Option<T>, lines: seq<string>)
    ensures |Decoded(parse, lines)| <= |lines|
    ensures |Decoded(parse, lines)| == |lines| <==> AllParse(parse, lines)
  {
    if lines != [] {
      DecodedCount(parse, lines[..|lines| - 1]);
    }
  }

  /** Whether every line parses. */
  function AllParse<T>(parse: string -> Option<T>, lines: seq<string>): bool {
    if lines == [] then true
    else AllParse(parse, lines[..|lines| - 1]) && parse(lines[|lines| - 1]).Some?
  }

  lemma {:induction false} AllParseIff<T>(parse: string -> Option<T>, lines: seq<string>)
    ensures AllParse(parse, lines) <==> forall k :: 0 <= k < |lines| ==> parse(lines[k]).Some?
  {
    if lines != [] {
      var init := lines[..|lines| - 1];
      AllParseIff(parse, init);
      assert forall k :: 0 <= k < |init| ==> init[k] == lines[k];
    }
  }

  lemma {:induction false} AllParseAppend<T>(parse: string -> Option<T>, a: seq<string>, b: seq<string>)
    ensures AllParse(parse, a + b) == (AllParse(parse, a) && AllParse(parse, b))
    decreases |b|
  {
    if b == [] {
      assert a + b == a;
    } else {
      assert (a + b)[..|a + b| - 1] == a + b[..|b| - 1];
      AllParseAppend(parse, a, b[..|b| - 1]);
    }
  }

  lemma {:induction false} DecodedAllParse<T>(parse: string -> Option<T>, lines: seq<string>)
    requires AllParse(parse, lines)
    ensures |Decoded(parse, lines)| == |lines|
    ensures forall k :: 0 <= k < |lines| ==> parse(lines[k]) == Some(Decoded(parse, lines)[k])
  {
    if lines != [] {
      var init := lines[..|lines| - 1];
      DecodedAllParse(parse, init);
      assert forall k :: 0 <= k < |init| ==> init[k] == lines[k];
    }
  }

  /**
   * When every line parses, a reader that stops at a bad line and a reader that skips it
   * hand on the same records; otherwise the stopping reader hands on fewer.
   */
  lemma {:induction false} ReadersAgree<T>(parse: string -> Option<T>, lines: seq<string>)
    ensures AllParse(parse, lines) ==> ParsedPrefix(parse, lines) == Decoded(parse, lines)
    ensures !AllParse(parse, lines) ==> |ParsedPrefix(parse, lines)| < |lines|
  {
    ParsedPrefixSpec(parse, lines);
    AllParseIff(parse, lines);
    if AllParse(parse, lines) {
      DecodedAllParse(parse, lines);
      ParsedPrefixUnique(parse, lines, Decoded(parse, lines));
    }
  }

  /** A text made of handled lines followed by a buffer splits into the handled lines, then the buffer's lines. */
  lemma {:induction false} SplitAfterHandled(handled: seq<string>, buffer: string)
    requires forall k :: 0 <= k < |handled| ==> '\n' !in handled[k]
    ensures SplitLines(Unlines(handled) + buffer) == LineSplit(handled + SplitLines(buffer).lines, SplitLines(buffer).rest)
  {
    var b := SplitLines(buffer);
    var all := handled + b.lines;
    assert forall k :: 0 <= k < |all| ==> '\n' !in all[k] by {
      forall k | 0 <= k < |all| ensures '\n' !in all[k] {
        if k >= |handled| {
          assert all[k] == b.lines[k - |handled|];
        }
      }
    }
    UnlinesAppend(handled, b.lines);
    Associative(Unlines(handled), Unlines(b.lines), b.rest);
    SplitLinesUnique(all, b.rest);
  }

  /** The first line of a buffer that holds a '\n' is the text before its first '\n'. */
  lemma {:induction false} FirstLine(buffer: string)
    ensures '\n' !in buffer <==> SplitLines(buffer).lines == []
    ensures '\n' in buffer ==> SplitLines(buffer).lines[0] == buffer[..IndexOfChar(buffer, '\n')]
  {
  }

  /**
   * A reader that routes lines until one does not parse, and keeps that line at the head of
   * its buffer, has routed exactly the records a stopping reader hands on for the whole
   * text; it has routed every complete line exactly when no '\n' is left in its buffer.
   */
  lemma {:induction false} StoppedReader<T>(parse: string -> Option<T>, handled: seq<string>, recs: seq<T>, buffer: string)
    requires forall k :: 0 <= k < |handled| ==> '\n' !in handled[k]
    requires |recs| == |handled|
    requires forall k :: 0 <= k < |handled| ==> parse(handled[k]) == Some(recs[k])
    requires '\n' in buffer ==> parse(buffer[..IndexOfChar(buffer, '\n')]).None?
    ensures ParsedPrefix(parse, SplitLines(Unlines(handled) + buffer).lines) == recs
    ensures |recs| == |SplitLines(Unlines(handled) + buffer).lines| <==> '\n' !in buffer
  {
    SplitAfterHandled(handled, buffer);
    FirstLine(buffer);
    var all := handled + SplitLines(buffer).lines;
    assert forall k :: 0 <= k < |handled| ==> all[k] == handled[k];
    if '\n' in buffer {
      assert all[|recs|] == SplitLines(buffer).lines[0];
    }
    ParsedPrefixUnique(parse, all, recs);
  }
}
