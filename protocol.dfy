/**
 * The JSON records `reproto --output-format json` prints one per line, and how the
 * builder turns them into editor diagnostics and symbols.
 */
module Protocol {
  import opened Editor

  /** A source span as the compiler reports it. */
  datatype RawRange = RawRange(lineStart: int, colStart: int, lineEnd: int, colEnd: int)

  /**
   * One decoded record. `tag` is its "type" field as the reader compares it. The builder
   * compares with `==`, so a value that is not a string but converts to "diagnostics" or
   * "symbol" (a one-element array, say) carries that tag; `executeLogged` compares with
   * `===`, so only the string "log" is tag "log" there. A record without a "type" field
   * has a tag that matches no route. The other fields are those the
   * routes read: diagnostics use `path`, `message` and `range`; symbols use `kind`, `name`,
   * `package`, `path` and `range`; log records use `level` and `message`.
   */
  datatype Record = Record(
    tag: string,
    path: string,
    message: string,
    range: RawRange,
    kind: string,
    name: string,
    package: string,
    level: string)

  /** The symbol kinds the compiler reports, with their wire names. */
  datatype ReprotoSymbolKind = TypeKind | InterfaceKind | EnumKind | TupleKind | ServiceKind {
    /** The wire name; note that the enum kind is the only capitalised one. */
    function Value(): string {
      match this
      case TypeKind => "type"
      case InterfaceKind => "interface"
      case EnumKind => "Enum"
      case TupleKind => "tuple"
      case ServiceKind => "service"
    }

    /** The editor kind a symbol of this kind is shown as. */
    function EditorKind(): SymbolKind {
      match this
      case TypeKind => Class
      case InterfaceKind => Interface
      case EnumKind => Enum
      case TupleKind => Array
      case ServiceKind => Class
    }
  }

  /** The `switch` over a symbol's kind: its editor kind, or Constant for an unknown wire name. */
  function KindOf(kind: string): (r: SymbolKind) {
    match kind
    case "type" => Class
    case "interface" => Interface
    case "Enum" => Enum
    case "tuple" => Array
    case "service" => Class
    case _ => Constant
  }

  /** The switch agrees with the enum on every wire name the enum defines, and maps every other name to Constant. */
  lemma {:induction false} KindOfAgrees(kind: string)
    ensures forall k: ReprotoSymbolKind :: k.Value() == kind ==> KindOf(kind) == k.EditorKind()
    ensures (forall k: ReprotoSymbolKind :: k.Value() != kind) ==> KindOf(kind) == Constant
  {
    if kind !in {"type", "interface", "Enum", "tuple", "service"} {
      assert forall k: ReprotoSymbolKind :: k.Value() != kind;
    } else {
      var k: ReprotoSymbolKind :| k.Value() == kind by {
        if kind == "type" {
          assert TypeKind.Value() == kind;
        } else if kind == "interface" {
          assert InterfaceKind.Value() == kind;
        } else if kind == "Enum" {
          assert EnumKind.Value() == kind;
        } else if kind == "tuple" {
          assert TupleKind.Value() == kind;
        } else {
          assert ServiceKind.Value() == kind;
        }
      }
    }
  }

  /** Only the capitalised wire name "Enum" is shown as an enum; the lower-case "enum" falls through to Constant. */
  lemma {:induction false} EnumIsCapitalised()
    ensures KindOf("Enum") == Enum
    ensures KindOf("enum") == Constant
  {
  }

  /** Two wire names never coincide, so each record names at most one kind. */
  lemma {:induction false} ValueInjective(a: ReprotoSymbolKind, b: ReprotoSymbolKind)
    requires a.Value() == b.Value()
    ensures a == b
  {
  }

  function RangeOf(raw: RawRange): Range {
    Range(Position(raw.lineStart, raw.colStart), Position(raw.lineEnd, raw.colEnd))
  }

  /** The editor diagnostic a "diagnostics" record stands for: always an error, at the reported span. */
  function DiagnosticOf(rec: Record): (d: Diagnostic)
    ensures d.severity == Error
    ensures d.message == rec.message
    ensures d.range.start == Position(rec.range.lineStart, rec.range.colStart)
    ensures d.range.end == Position(rec.range.lineEnd, rec.range.colEnd)
  {
    Diagnostic(RangeOf(rec.range), rec.message, Error)
  }

  /** The editor symbol a "symbol" record stands for, located in the file it names. */
  function SymbolOf(rec: Record): (s: SymbolInformation)
    ensures s.name == rec.name && s.containerName == rec.package
    ensures s.location.uri == File(rec.path)
    ensures s.kind == KindOf(rec.kind)
    ensures s.location.range == RangeOf(rec.range)
  {
    SymbolInformation(rec.name, KindOf(rec.kind), rec.package, Location(File(rec.path), RangeOf(rec.range)))
  }
}
