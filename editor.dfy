/**
 * The parts of the editor's API the extension touches, as plain values, plus the two
 * editor objects it updates in place: the diagnostic collection and the output channel.
 */
module Editor {
  import opened Lines

  /** A file URI. `Uri.file(p).toString()` is modelled by the path it wraps, so distinct paths give distinct keys. */
  datatype Uri = File(path: string)

  datatype Position = Position(line: int, character: int)

  datatype Range = Range(start: Position, end: Position)

  datatype Severity = Error | Warning | Information | Hint

  datatype Diagnostic = Diagnostic(range: Range, message: string, severity: Severity)

  /** The symbol kinds of the editor the extension produces. */
  datatype SymbolKind = Class | Interface | Enum | Array | Constant

  datatype Location = Location(uri: Uri, range: Range)

  datatype SymbolInformation = SymbolInformation(name: string, kind: SymbolKind, containerName: string, location: Location)

  /** A workspace folder; `uri.path` is its file-system path. */
  datatype WorkspaceFolder = WorkspaceFolder(uri: Uri)

  /** The problems shown per document. */
  class DiagnosticCollection {
    var entries: map<Uri, seq<Diagnostic>>

    constructor()
      ensures entries == map[]
    {
      entries := map[];
    }

    /** Removes the problems of every document. */
    method Clear()
      modifies this
      ensures entries == map[]
    {
      entries := map[];
    }

    /** Replaces the problems of one document. */
    method Set(uri: Uri, diagnostics: seq<Diagnostic>)
      modifies this
      ensures entries == old(entries)[uri := diagnostics]
    {
      entries := entries[uri := diagnostics];
    }
  }

  /** A text panel that only ever grows. */
  class OutputChannel {
    var text: string

    constructor()
      ensures text == ""
    {
      text := "";
    }

    method Append(s: string)
      modifies this
      ensures text == old(text) + s
    {
      text := text + s;
    }

    method AppendLine(s: string)
      modifies this
      ensures text == old(text) + s + "\n"
    {
      text := text + s + "\n";
    }

    /** `appendLine` of each line in turn. */
    method AppendLines(lines: seq<string>)
      modifies this
      ensures text == old(text) + Unlines(lines)
    {
      var i := 0;
      while i < |lines|
        invariant 0 <= i <= |lines|
        invariant text == old(text) + Unlines(lines[..i])
      {
        ghost var done := Unlines(lines[..i]);
        UnlinesSnoc(lines[..i], lines[i]);
        assert lines[..i + 1] == lines[..i] + [lines[i]];
        Associative(old(text), done, lines[i]);
        Associative(old(text), done + lines[i], "\n");
        AppendLine(lines[i]);
        i := i + 1;
      }
      assert lines[..i] == lines;
    }
  }
}
