/**
 * The symbol index the builder fills and the editor queries: the symbols of every
 * workspace root, and the symbols of every document.
 */
module SymbolIndex {
  import opened Text
  import opened Editor

  /** Whether a symbol matches a workspace query: its lower-cased name contains the lower-cased query. */
  predicate Matches(query: string, s: SymbolInformation) {
    IndexOf(ToLower(s.name), ToLower(query)) != -1
  }

  /** The symbols that match a query, in their order. */
  function Search(query: string, syms: seq<SymbolInformation>): seq<SymbolInformation> {
    if syms == [] then []
    else
      var init := Search(query, syms[..|syms| - 1]);
      if Matches(query, syms[|syms| - 1]) then init + [syms[|syms| - 1]] else init
  }

  /** A symbol is found exactly when it is stored and its lower-cased name contains the lower-cased query. */
  lemma {:induction false} SearchMembers(query: string, syms: seq<SymbolInformation>, s: SymbolInformation)
    ensures s in Search(query, syms) <==> s in syms && IsSubstring(ToLower(query), ToLower(s.name))
  {
    if syms != [] {
      var init := syms[..|syms| - 1];
      SearchMembers(query, init, s);
      assert syms == init + [syms[|syms| - 1]];
    }
  }

  /** The empty query matches every symbol. */
  lemma {:induction false} SearchEmpty(syms: seq<SymbolInformation>)
    ensures Search("", syms) == syms
  {
    if syms != [] {
      SearchEmpty(syms[..|syms| - 1]);
      IndexOfEmpty(ToLower(syms[|syms| - 1].name));
      assert syms == syms[..|syms| - 1] + [syms[|syms| - 1]];
    }
  }

  /** Searching a concatenation searches each part in turn: the order of the parts is kept. */
  lemma {:induction false} SearchAppend(query: string, a: seq<SymbolInformation>, b: seq<SymbolInformation>)
    ensures Search(query, a + b) == Search(query, a) + Search(query, b)
    decreases |b|
  {
    if b == [] {
      assert a + b == a;
    } else {
      assert (a + b)[..|a + b| - 1] == a + b[..|b| - 1];
      SearchAppend(query, a, b[..|b| - 1]);
    }
  }

  /** `a` is `b` with some elements left out, the rest kept in order. */
  predicate SubsequenceOf<T(==)>(a: seq<T>, b: seq<T>)
    decreases |b|
  {
    if a == [] then true
    else if b == [] then false
    else if a[|a| - 1] == b[|b| - 1] then SubsequenceOf(a[..|a| - 1], b[..|b| - 1])
    else SubsequenceOf(a, b[..|b| - 1])
  }

  /** The results are the stored symbols with the non-matching ones left out, in stored order. */
  lemma {:induction false} SearchSubsequence(query: string, syms: seq<SymbolInformation>)
    ensures SubsequenceOf(Search(query, syms), syms)
  {
    if syms != [] {
      var init := syms[..|syms| - 1];
      SearchSubsequence(query, init);
      var r := Search(query, init);
      if Matches(query, syms[|syms| - 1]) {
        assert (r + [syms[|syms| - 1]])[..|r|] == r;
      } else {
        SubsequenceDropLast(r, syms);
      }
    }
  }

  /** A subsequence of a prefix of `b` is a subsequence of `b`. */
  lemma {:induction false} SubsequenceDropLast<T>(a: seq<T>, b: seq<T>)
    requires b != [] && SubsequenceOf(a, b[..|b| - 1])
    ensures SubsequenceOf(a, b)
    decreases |b|, 0
  {
    if a != [] && a[|a| - 1] == b[|b| - 1] {
      SubsequenceWeaken(a, b[..|b| - 1]);
    }
  }

  /** Dropping the last element of a subsequence keeps it a subsequence. */
  lemma {:induction false} SubsequenceWeaken<T>(a: seq<T>, b: seq<T>)
    requires a != [] && SubsequenceOf(a, b)
    ensures SubsequenceOf(a[..|a| - 1], b)
    decreases |b|, 1
  {
    var a' := a[..|a| - 1];
    var b' := b[..|b| - 1];
    if a[|a| - 1] != b[|b| - 1] {
      SubsequenceWeaken(a, b');
    }
    if a' != [] {
      SubsequenceDropLast(a', b);
    }
  }

  /** The symbols of the given roots, one root after another. */
  function Flatten(roots: seq<Uri>, symbols: map<Uri, seq<SymbolInformation>>): seq<SymbolInformation> {
    if roots == [] then []
    else Flatten(roots[..|roots| - 1], symbols) + (if roots[|roots| - 1] in symbols then symbols[roots[|roots| - 1]] else [])
  }

  class SymbolProvider {
    /** The symbols of every built workspace root. */
    var symbols: map<Uri, seq<SymbolInformation>>
    /** The keys of `symbols` in the order they were first assigned, which is the order they are enumerated in. */
    var roots: seq<Uri>
    /** The symbols of every document, by document URI. */
    var byUri: map<Uri, seq<SymbolInformation>>

    ghost predicate Valid()
      reads this
    {
      && (forall i, j :: 0 <= i < j < |roots| ==> roots[i] != roots[j])
      && (forall k :: k in symbols <==> k in roots)
    }

    /** A new provider knows no symbols. */
    constructor()
      ensures Valid()
      ensures symbols == map[] && byUri == map[] && roots == []
    {
      symbols := map[];
      roots := [];
      byUri := map[];
    }

    /**
     * Assigns the symbols of one root: an existing root keeps its place in the enumeration
     * order, a new one goes last.
     */
    method SetSymbols(root: Uri, syms: seq<SymbolInformation>)
      requires Valid()
      modifies this
      ensures Valid()
      ensures symbols == old(symbols)[root := syms]
      ensures roots == if root in old(symbols) then old(roots) else old(roots) + [root]
      ensures byUri == old(byUri)
    {
      if root !in symbols {
        roots := roots + [root];
      }
      symbols := symbols[root := syms];
    }

    /** Assigns the symbols of one document. */
    method SetDocumentSymbols(uri: Uri, syms: seq<SymbolInformation>)
      modifies this
      ensures byUri == old(byUri)[uri := syms]
      ensures symbols == old(symbols) && roots == old(roots)
    {
      byUri := byUri[uri := syms];
    }

    /** Every stored symbol, root after root in enumeration order. */
    function AllSymbols(): seq<SymbolInformation>
      reads this
    {
      Flatten(roots, symbols)
    }

    /** The symbols of one document: those stored for it, or none. */
    function ProvideDocumentSymbols(uri: Uri): (r: seq<SymbolInformation>)
      reads this
      ensures uri in byUri ==> r == byUri[uri]
      ensures uri !in byUri ==> r == []
    {
      if uri in byUri then byUri[uri] else []
    }

    /** The stored symbols whose name contains the query, ignoring case, root after root. */
    method ProvideWorkspaceSymbols(query: string) returns (out: seq<SymbolInformation>)
      ensures out == Search(query, AllSymbols())
    {
      out := [];
      var q := ToLower(query);
      var i := 0;
      while i < |roots|
        invariant 0 <= i <= |roots|
        invariant out == Search(query, Flatten(roots[..i], symbols))
      {
        var k := roots[i];
        var list := if k in symbols then symbols[k] else [];
        var j := 0;
        while j < |list|
          invariant 0 <= j <= |list|
          invariant out == Search(query, Flatten(roots[..i], symbols)) + Search(query, list[..j])
        {
          var s := list[j];
          assert list[..j + 1] == list[..j] + [s];
          if IndexOf(ToLower(s.name), q) != -1 {
            out := out + [s];
          }
          j := j + 1;
        }
        assert list[..j] == list;
        assert roots[..i + 1][..i] == roots[..i];
        SearchAppend(query, Flatten(roots[..i], symbols), list);
        i := i + 1;
      }
      assert roots[..i] == roots;
    }
  }
}
