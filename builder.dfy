/**
 * The simple builder: on every save of a `.reproto` document it runs `reproto build` in
 * the document's workspace folder, routes the JSON records the build prints, and when
 * the build exits publishes the diagnostics and, on success, the symbols.
 */
module Builder {
  import opened Wrappers
  import opened Text
  import opened Lines
  import opened Paths
  import opened Editor
  import opened Protocol
  import opened SymbolIndex
  import opened Toolchain

  // ---------------------------------------------------------------------------
  // What a session gathers, as a function of the records it routed

  /** The diagnostics by reported path, the symbols in order, and the symbols by document. */
  datatype Gathered = Gathered(
    updates: map<string, seq<Diagnostic>>,
    symbols: seq<SymbolInformation>,
    byUri: map<Uri, seq<SymbolInformation>>)

  /** Appends to the list under a key, starting the list if the key is new. */
  function Push<K, V>(m: map<K, seq<V>>, k: K, v: V): (r: map<K, seq<V>>)
    ensures r.Keys == m.Keys + {k}
    ensures r[k] == (if k in m then m[k] else []) + [v]
    ensures forall j :: j in m && j != k ==> r[j] == m[j]
  {
    if k in m then m[k := m[k] + [v]] else m[k := [v]]
  }

  /** What routing one record does: diagnostics and symbols are gathered, every other record is ignored. */
  function Route(g: Gathered, rec: Record): Gathered {
    if rec.tag == "diagnostics" then
      g.(updates := Push(g.updates, rec.path, DiagnosticOf(rec)))
    else if rec.tag == "symbol" then
      var info := SymbolOf(rec);
      g.(symbols := g.symbols + [info], byUri := Push(g.byUri, info.location.uri, info))
    else g
  }

  /** What routing the given records in order gathers, starting from nothing. */
  function Gather(recs: seq<Record>): Gathered {
    if recs == [] then Gathered(map[], [], map[])
    else Route(Gather(recs[..|recs| - 1]), recs[|recs| - 1])
  }

  /** The diagnostics reported for one path, in order. */
  function DiagnosticsFor(recs: seq<Record>, path: string): seq<Diagnostic> {
    if recs == [] then []
    else
      var last := recs[|recs| - 1];
      DiagnosticsFor(recs[..|recs| - 1], path) + (if last.tag == "diagnostics" && last.path == path then [DiagnosticOf(last)] else [])
  }

  /** The symbols reported, in order. */
  function SymbolsReported(recs: seq<Record>): seq<SymbolInformation> {
    if recs == [] then []
    else
      var last := recs[|recs| - 1];
      SymbolsReported(recs[..|recs| - 1]) + (if last.tag == "symbol" then [SymbolOf(last)] else [])
  }

  /** The symbols reported in one document, in order. */
  function SymbolsIn(recs: seq<Record>, uri: Uri): seq<SymbolInformation> {
    if recs == [] then []
    else
      var last := recs[|recs| - 1];
      SymbolsIn(recs[..|recs| - 1], uri) + (if last.tag == "symbol" && File(last.path) == uri then [SymbolOf(last)] else [])
  }

  /**
   * What a session gathers: every path with a diagnostic has the list of its diagnostics
   * in arrival order, the symbol list holds every symbol in arrival order, and every
   * document with a symbol has the list of its symbols in arrival order.
   */
  lemma {:induction false} GatherSpec(recs: seq<Record>)
    ensures Gather(recs).symbols == SymbolsReported(recs)
    ensures forall p :: p in Gather(recs).updates <==> DiagnosticsFor(recs, p) != []
    ensures forall p :: p in Gather(recs).updates ==> Gather(recs).updates[p] == DiagnosticsFor(recs, p)
    ensures forall u :: u in Gather(recs).byUri <==> SymbolsIn(recs, u) != []
    ensures forall u :: u in Gather(recs).byUri ==> Gather(recs).byUri[u] == SymbolsIn(recs, u)
  {
    if recs != [] {
      var init := recs[..|recs| - 1];
      var last := recs[|recs| - 1];
      GatherSpec(init);
      var g := Gather(init);
      forall p ensures (p in Gather(recs).updates <==> DiagnosticsFor(recs, p) != [])
        && (p in Gather(recs).updates ==> Gather(recs).updates[p] == DiagnosticsFor(recs, p))
      {
        if last.tag == "diagnostics" && last.path == p {
          assert p in Gather(recs).updates;
        }
      }
      forall u ensures (u in Gather(recs).byUri <==> SymbolsIn(recs, u) != [])
        && (u in Gather(recs).byUri ==> Gather(recs).byUri[u] == SymbolsIn(recs, u))
      {
        if last.tag == "symbol" && File(last.path) == u {
          assert u in Gather(recs).byUri;
        }
      }
    }
  }

  /** Every diagnostic gathered is an error. */
  lemma {:induction false} GatheredDiagnosticsAreErrors(recs: seq<Record>, path: string)
    ensures forall d :: d in DiagnosticsFor(recs, path) ==> d.severity == Error
  {
    if recs != [] {
      GatheredDiagnosticsAreErrors(recs[..|recs| - 1], path);
    }
  }

  /** The diagnostic collection's content for a folder: each reported path joined onto the folder. */
  function DiagnosticEntries(root: string, updates: map<string, seq<Diagnostic>>): (r: map<Uri, seq<Diagnostic>>)
    requires root != ""
  {
    JoinInjectiveAll(root);
    map k | k in updates :: File(Join(root, k)) := updates[k]
  }

  /** Each reported path is published, under the folder, with exactly its diagnostics, and nothing else is published. */
  lemma {:induction false} DiagnosticEntriesSpec(root: string, updates: map<string, seq<Diagnostic>>, path: string)
    requires root != ""
    ensures File(Join(root, path)) in DiagnosticEntries(root, updates) <==> path in updates
    ensures path in updates ==> DiagnosticEntries(root, updates)[File(Join(root, path))] == updates[path]
    ensures forall u :: u in DiagnosticEntries(root, updates) ==> exists k :: k in updates && u == File(Join(root, k))
  {
    JoinInjectiveAll(root);
  }

  lemma {:induction false} DiagnosticEntriesAdd(root: string, updates: map<string, seq<Diagnostic>>, keys: set<string>, k: string)
    requires root != "" && k in keys && keys <= updates.Keys
    ensures DiagnosticEntries(root, updates - (keys - {k}))
         == DiagnosticEntries(root, updates - keys)[File(Join(root, k)) := updates[k]]
  {
    JoinInjectiveAll(root);
    var a := DiagnosticEntries(root, updates - (keys - {k}));
    var b := DiagnosticEntries(root, updates - keys)[File(Join(root, k)) := updates[k]];
    forall u | u in a ensures u in b && a[u] == b[u] {
      var j :| j in updates - (keys - {k}) && u == File(Join(root, j));
      if j != k {
        assert j in updates - keys;
      }
    }
    forall u | u in b ensures u in a {
      if u != File(Join(root, k)) {
        var j :| j in updates - keys && u == File(Join(root, j));
        assert j in updates - (keys - {k});
      }
    }
    assert a == b;
  }

  // ---------------------------------------------------------------------------
  // A build session

  /** The arguments of the build command. */
  const BuildArgs: seq<string> := ["--output-format", "json", "build"]

  /** The build of a workspace folder: the configured executable, run in the folder. */
  function BuildCommand(reproto: Reproto, root: WorkspaceFolder): (c: Invocation)
    ensures c.program == reproto.path && c.cwd == Some(root.uri.path)
    ensures c.args == ["--output-format", "json", "build"]
  {
    Invocation(reproto.path, BuildArgs, Some(root.uri.path))
  }

  /**
   * The output received is the handled lines followed by the buffer, each handled line
   * parsed to its routed record, and `g` is what those records gather.
   */
  ghost predicate Accounted(parse: string -> Option<Record>, received: string, handled: seq<string>, line: string,
                            routed: seq<Record>, g: Gathered)
  {
    && Unlines(handled) + line == received
    && (forall k :: 0 <= k < |handled| ==> '\n' !in handled[k])
    && |routed| == |handled|
    && (forall k :: 0 <= k < |handled| ==> parse(handled[k]) == Some(routed[k]))
    && g == Gather(routed)
  }

  /** Routing the first complete line of the buffer keeps the account. */
  lemma {:induction false} AccountedStep(parse: string -> Option<Record>, received: string, handled: seq<string>, line: string,
                                         routed: seq<Record>, g: Gathered, nl: int, m: Record)
    requires Accounted(parse, received, handled, line, routed, g)
    requires 0 <= nl < |line| && line[nl] == '\n' && '\n' !in line[..nl] && parse(line[..nl]) == Some(m)
    ensures Accounted(parse, received, handled + [line[..nl]], line[nl + 1..], routed + [m], Route(g, m))
  {
    FramedStep(handled, line, received, nl);
    RoutedStep(parse, handled, routed, line[..nl], m);
  }

  /** Taking the first line off the buffer keeps the handled lines and the buffer adding up to what was received. */
  lemma {:induction false} FramedStep(handled: seq<string>, line: string, received: string, nl: int)
    requires Unlines(handled) + line == received
    requires forall k :: 0 <= k < |handled| ==> '\n' !in handled[k]
    requires 0 <= nl < |line| && line[nl] == '\n' && '\n' !in line[..nl]
    ensures Unlines(handled + [line[..nl]]) + line[nl + 1..] == received
    ensures forall k :: 0 <= k < |handled| + 1 ==> '\n' !in (handled + [line[..nl]])[k]
  {
    TakeLine(handled, line, received, nl);
    forall k | 0 <= k < |handled| + 1 ensures '\n' !in (handled + [line[..nl]])[k] {
      if k < |handled| {
        assert (handled + [line[..nl]])[k] == handled[k];
      }
    }
  }

  /** Routing the record of one more line extends the records line for line and the gathered state by one step. */
  lemma {:induction false} RoutedStep(parse: string -> Option<Record>, handled: seq<string>, routed: seq<Record>, l: string, m: Record)
    requires |routed| == |handled|
    requires forall k :: 0 <= k < |handled| ==> parse(handled[k]) == Some(routed[k])
    requires parse(l) == Some(m)
    ensures forall k :: 0 <= k < |handled| + 1 ==> parse((handled + [l])[k]) == Some((routed + [m])[k])
    ensures Gather(routed + [m]) == Route(Gather(routed), m)
  {
    assert (routed + [m])[..|routed|] == routed;
    forall k | 0 <= k < |handled| + 1 ensures parse((handled + [l])[k]) == Some((routed + [m])[k]) {
      if k < |handled| {
        assert (handled + [l])[k] == handled[k] && (routed + [m])[k] == routed[k];
      }
    }
  }

  /**
   * The state of one build: the line buffer and what the routed records gathered. A line
   * that is not JSON makes the data handler throw before the buffer moves past it, so it
   * stays at the head of the buffer and every later chunk stops on it again.
   */
  class BuildSession {
    const root: WorkspaceFolder
    /** The process whose output this session reads. */
    const command: Invocation
    const parse: string -> Option<Record>
    const provider: SymbolProvider
    const diagnostics: DiagnosticCollection
    const out: OutputChannel

    var line: string
    var updates: map<string, seq<Diagnostic>>
    var symbolUpdates: seq<SymbolInformation>
    var symbolUpdatesByUri: map<Uri, seq<SymbolInformation>>

    /** Everything read from standard output so far. */
    ghost var received: string
    /** The lines routed so far, and their records. */
    ghost var handled: seq<string>
    ghost var routed: seq<Record>

    /**
     * The buffer is what is left of the output after the routed lines, each routed line
     * parsed to its record, and the gathered state is what those records gather.
     */
    ghost predicate Consistent()
      reads this
    {
      && root.uri.path != ""
      && Accounted(parse, received, handled, line, routed, Gathered(updates, symbolUpdates, symbolUpdatesByUri))
    }

    /** Between chunks, moreover, a complete line left in the buffer is one that does not parse. */
    ghost predicate Valid()
      reads this
    {
      && Consistent()
      && ('\n' in line ==> parse(line[..IndexOfChar(line, '\n')]).None?)
    }

    constructor(root: WorkspaceFolder, command: Invocation, parse: string -> Option<Record>, provider: SymbolProvider,
                diagnostics: DiagnosticCollection, out: OutputChannel)
      requires root.uri.path != ""
      ensures Valid()
      ensures this.root == root && this.command == command && this.parse == parse && this.provider == provider
      ensures this.diagnostics == diagnostics && this.out == out
      ensures received == "" && routed == [] && line == ""
    {
      this.root := root;
      this.command := command;
      this.parse := parse;
      this.provider := provider;
      this.diagnostics := diagnostics;
      this.out := out;
      line := "";
      updates := map[];
      symbolUpdates := [];
      symbolUpdatesByUri := map[];
      received := "";
      handled := [];
      routed := [];
    }

    /** A diagnostic record: its diagnostic is appended to the list of its path. */
    method HandleDiagnostics(rec: Record)
      modifies this
      ensures updates == Push(old(updates), rec.path, DiagnosticOf(rec))
      ensures symbolUpdates == old(symbolUpdates) && symbolUpdatesByUri == old(symbolUpdatesByUri)
      ensures line == old(line) && received == old(received) && handled == old(handled) && routed == old(routed)
    {
      var d := DiagnosticOf(rec);
      if rec.path !in updates {
        updates := updates[rec.path := [d]];
      } else {
        updates := updates[rec.path := updates[rec.path] + [d]];
      }
    }

    /** A symbol record: its symbol is appended to the symbol list and to the list of its document. */
    method HandleSymbol(rec: Record)
      modifies this
      ensures symbolUpdates == old(symbolUpdates) + [SymbolOf(rec)]
      ensures symbolUpdatesByUri == Push(old(symbolUpdatesByUri), File(rec.path), SymbolOf(rec))
      ensures updates == old(updates)
      ensures line == old(line) && received == old(received) && handled == old(handled) && routed == old(routed)
    {
      var info := SymbolOf(rec);
      symbolUpdates := symbolUpdates + [info];
      var uriKey := info.location.uri;
      if uriKey !in symbolUpdatesByUri {
        symbolUpdatesByUri := symbolUpdatesByUri[uriKey := [info]];
      } else {
        symbolUpdatesByUri := symbolUpdatesByUri[uriKey := symbolUpdatesByUri[uriKey] + [info]];
      }
    }

    /** Routes a record by its "type" field. */
    method Message(rec: Record)
      modifies this
      ensures Gathered(updates, symbolUpdates, symbolUpdatesByUri)
           == Route(old(Gathered(updates, symbolUpdates, symbolUpdatesByUri)), rec)
      ensures line == old(line) && received == old(received) && handled == old(handled) && routed == old(routed)
    {
      if rec.tag == "diagnostics" {
        HandleDiagnostics(rec);
        return;
      }
      if rec.tag == "symbol" {
        HandleSymbol(rec);
        return;
      }
    }

    /**
     * A chunk of standard output. Complete lines are routed in order until one does not
     * parse; then the handler throws, leaving that line at the head of the buffer.
     */
    method OnData(chunk: string) returns (threw: bool)
      requires Valid()
      modifies this
      ensures Valid()
      ensures received == old(received) + chunk
      ensures old(routed) <= routed
      ensures threw <==> '\n' in line
    {
      Associative(Unlines(handled), line, chunk);
      line := line + chunk;
      received := received + chunk;
      threw := false;
      while true
        invariant Consistent()
        invariant received == old(received) + chunk
        invariant old(routed) <= routed
        invariant !threw
        decreases |line|
      {
        var nl := IndexOfChar(line, '\n');
        if nl < 0 {
          break;
        }
        match parse(line[..nl])
        case None =>
          threw := true;
          return;
        case Some(m) =>
          RouteLine(nl, m);
      }
    }

    /** Takes the first complete line off the buffer and routes its record. */
    method RouteLine(nl: int, m: Record)
      requires Consistent()
      requires 0 <= nl < |line| && line[nl] == '\n' && '\n' !in line[..nl] && parse(line[..nl]) == Some(m)
      modifies this
      ensures Consistent()
      ensures line == old(line)[nl + 1..]
      ensures routed == old(routed) + [m]
      ensures received == old(received)
    {
      AccountedStep(parse, received, handled, line, routed, Gathered(updates, symbolUpdates, symbolUpdatesByUri), nl, m);
      Message(m);
      handled := handled + [line[..nl]];
      routed := routed + [m];
      line := line[nl + 1..];
    }

    /** The whole output so far: the records routed are those of the lines before the first one that does not parse. */
    lemma {:induction false} RoutedPrefix()
      requires Valid()
      ensures routed == ParsedPrefix(parse, SplitLines(received).lines)
      ensures '\n' in line <==> |routed| < |SplitLines(received).lines|
    {
      StoppedReader(parse, handled, routed, line);
    }

    /** Standard error is copied to the output channel as it arrives. */
    method OnStderr(chunk: string)
      modifies out
      ensures out.text == old(out.text) + chunk
    {
      out.Append(chunk);
    }

    /** The diagnostic collection is cleared, for every folder, and then holds each reported path's diagnostics. */
    method PublishDiagnostics()
      requires root.uri.path != ""
      modifies diagnostics
      ensures diagnostics.entries == DiagnosticEntries(root.uri.path, updates)
    {
      diagnostics.Clear();
      var keys := updates.Keys;
      while keys != {}
        invariant keys <= updates.Keys
        invariant diagnostics.entries == DiagnosticEntries(root.uri.path, updates - keys)
        decreases keys
      {
        var k :| k in keys;
        DiagnosticEntriesAdd(root.uri.path, updates, keys, k);
        diagnostics.Set(File(Join(root.uri.path, k)), updates[k]);
        keys := keys - {k};
      }
      assert updates - {} == updates;
    }

    /** The folder's symbols are replaced by a copy of the symbol list, and each reported document's symbols by its list. */
    method PublishSymbols()
      requires provider.Valid()
      modifies provider
      ensures provider.Valid()
      ensures provider.symbols == old(provider.symbols)[root.uri := symbolUpdates]
      ensures provider.roots == (if root.uri in old(provider.symbols) then old(provider.roots) else old(provider.roots) + [root.uri])
      ensures provider.byUri == old(provider.byUri) + symbolUpdatesByUri
    {
      provider.SetSymbols(root.uri, symbolUpdates);
      var uris := symbolUpdatesByUri.Keys;
      while uris != {}
        invariant uris <= symbolUpdatesByUri.Keys
        invariant provider.Valid()
        invariant provider.symbols == old(provider.symbols)[root.uri := symbolUpdates]
        invariant provider.roots == (if root.uri in old(provider.symbols) then old(provider.roots) else old(provider.roots) + [root.uri])
        invariant provider.byUri == old(provider.byUri) + (symbolUpdatesByUri - uris)
        decreases uris
      {
        var uriKey :| uriKey in uris;
        provider.SetDocumentSymbols(uriKey, symbolUpdatesByUri[uriKey]);
        assert old(provider.byUri) + (symbolUpdatesByUri - (uris - {uriKey}))
            == (old(provider.byUri) + (symbolUpdatesByUri - uris))[uriKey := symbolUpdatesByUri[uriKey]];
        uris := uris - {uriKey};
      }
      assert symbolUpdatesByUri - {} == symbolUpdatesByUri;
    }

    /**
     * The exit of the build. The diagnostic collection is cleared (for every folder) and
     * then holds each reported path's diagnostics; on status 0 the folder's symbols and
     * the symbols of every reported document are replaced, otherwise the symbol index is
     * left alone. The symbol list is emptied.
     */
    method OnExit(status: Option<int>)
      requires Valid() && provider.Valid()
      modifies this, diagnostics, provider
      ensures provider.Valid()
      ensures diagnostics.entries == DiagnosticEntries(root.uri.path, old(updates))
      ensures status == Some(0) ==>
        && provider.symbols == old(provider.symbols)[root.uri := old(symbolUpdates)]
        && provider.roots == (if root.uri in old(provider.symbols) then old(provider.roots) else old(provider.roots) + [root.uri])
        && provider.byUri == old(provider.byUri) + old(symbolUpdatesByUri)
      ensures status != Some(0) ==>
        && provider.symbols == old(provider.symbols)
        && provider.roots == old(provider.roots)
        && provider.byUri == old(provider.byUri)
      ensures symbolUpdates == []
      ensures updates == old(updates) && symbolUpdatesByUri == old(symbolUpdatesByUri) && line == old(line)
    {
      PublishDiagnostics();
      if status == Some(0) {
        PublishSymbols();
      }
      symbolUpdates := [];
    }
  }

  // ---------------------------------------------------------------------------
  // The builder

  class ReprotoBuilder {
    const reproto: Reproto
    const provider: SymbolProvider
    const out: OutputChannel
    const diagnostics: DiagnosticCollection

    constructor(reproto: Reproto, provider: SymbolProvider, out: OutputChannel, diagnostics: DiagnosticCollection)
      ensures this.reproto == reproto && this.provider == provider
      ensures this.out == out && this.diagnostics == diagnostics
    {
      this.reproto := reproto;
      this.provider := provider;
      this.out := out;
      this.diagnostics := diagnostics;
    }

    /**
     * Starts a build of a workspace folder, unless the folder has no `reproto.toml`
     * manifest directly inside it; starting one changes no existing state.
     */
    method BuildWorkspace(root: WorkspaceFolder, present: string -> bool, parse: string -> Option<Record>)
      returns (session: Option<BuildSession>)
      requires root.uri.path != ""
      ensures session.Some? <==> present(Join(root.uri.path, "reproto.toml"))
      ensures session.Some? ==>
        && fresh(session.value)
        && session.value.Valid()
        && session.value.received == "" && session.value.routed == []
        && session.value.root == root && session.value.command == BuildCommand(reproto, root) && session.value.parse == parse
        && session.value.provider == provider && session.value.diagnostics == diagnostics && session.value.out == out
    {
      if !present(Join(root.uri.path, "reproto.toml")) {
        return None;
      }
      var s := new BuildSession(root, BuildCommand(reproto, root), parse, provider, diagnostics, out);
      session := Some(s);
    }

    /**
     * A saved document: a build of its workspace folder starts only if the document's
     * extension is exactly ".reproto", it lies in a workspace folder and that folder has
     * a manifest.
     */
    method Rebuild(uri: Uri, folderOf: Uri -> Option<WorkspaceFolder>, present: string -> bool, parse: string -> Option<Record>)
      returns (session: Option<BuildSession>)
      requires folderOf(uri).Some? ==> folderOf(uri).value.uri.path != ""
      ensures session.Some? <==>
        && ExtName(uri.path) == ".reproto"
        && folderOf(uri).Some?
        && present(Join(folderOf(uri).value.uri.path, "reproto.toml"))
      ensures session.Some? ==> fresh(session.value) && session.value.Valid() && session.value.root == folderOf(uri).value
      ensures session.Some? ==> session.value.command == BuildCommand(reproto, folderOf(uri).value)
    {
      var ext := ExtName(uri.path);
      if ext != ".reproto" {
        return None;
      }
      var rootPath := folderOf(uri);
      if rootPath.None? {
        return None;
      }
      session := BuildWorkspace(rootPath.value, present, parse);
    }
  }

  /**
   * A whole build of a folder that has a manifest, its standard output arriving in the given
   * chunks: the diagnostics of the records before the first line that does not parse are
   * published, and on status 0 the symbols of those records replace the folder's symbols.
   */
  method RunBuild(builder: ReprotoBuilder, root: WorkspaceFolder, present: string -> bool,
                  parse: string -> Option<Record>, chunks: seq<string>, status: Option<int>)
    requires root.uri.path != "" && builder.provider.Valid()
    requires present(Join(root.uri.path, "reproto.toml"))
    modifies builder.provider, builder.diagnostics
    ensures builder.provider.Valid()
    ensures var g := Gather(ParsedPrefix(parse, SplitLines(Concat(chunks)).lines));
      && builder.diagnostics.entries == DiagnosticEntries(root.uri.path, g.updates)
      && (status == Some(0) ==>
            && builder.provider.symbols == old(builder.provider.symbols)[root.uri := g.symbols]
            && builder.provider.roots == (if root.uri in old(builder.provider.symbols) then old(builder.provider.roots) else old(builder.provider.roots) + [root.uri])
            && builder.provider.byUri == old(builder.provider.byUri) + g.byUri)
      && (status != Some(0) ==>
            && builder.provider.symbols == old(builder.provider.symbols)
            && builder.provider.roots == old(builder.provider.roots)
            && builder.provider.byUri == old(builder.provider.byUri))
  {
    var started := builder.BuildWorkspace(root, present, parse);
    var session := started.value;
    var i := 0;
    while i < |chunks|
      invariant 0 <= i <= |chunks|
      invariant session.Valid() && session.received == Concat(chunks[..i])
      invariant session.root == root && session.parse == parse
      invariant session.provider == builder.provider && session.diagnostics == builder.diagnostics
      invariant builder.provider.Valid()
      invariant unchanged(builder.provider, builder.diagnostics)
    {
      var _ := session.OnData(chunks[i]);
      assert chunks[..i + 1][..i] == chunks[..i];
      i := i + 1;
    }
    assert chunks[..i] == chunks;
    session.RoutedPrefix();
    session.OnExit(status);
  }
}
