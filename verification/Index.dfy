/** The in-memory index of one translation unit: the public records of include/semindex.h. */
module Index {
  newtype byte = x: int | 0 <= x < 256

  /** A C string without its terminator; NULL and "" are the same value. */
  type Text = seq<byte>

  type uint32 = x: int | 0 <= x < 0x1_0000_0000
  type int32 = x: int | -0x8000_0000 <= x < 0x8000_0000
  type uint64 = x: int | 0 <= x < 0x1_0000_0000_0000_0000

  const DOT: byte := 46
  const COLON: byte := 58

  datatype Symbol = Symbol(
    kind: int32,
    name: Text,
    owner: Text,
    declaredType: Text,
    canonicalType: Text,
    typeKind: int32,
    typeSymbol: Text,
    typeUsrId: uint64,
    usr: Text,
    usrId: uint64,
    context: Text,
    file: Text,
    fileIndex: nat,
    line: uint32,
    column: uint32,
    local: bool,
    definition: bool,
    properties: uint64)

  datatype Use = Use(
    kind: int32,
    symbolKind: int32,
    mode: uint32,
    name: Text,
    owner: Text,
    usr: Text,
    usrId: uint64,
    context: Text,
    contextUsr: Text,
    contextUsrId: uint64,
    file: Text,
    fileIndex: nat,
    line: uint32,
    column: uint32,
    local: bool)

  datatype Parameter = Parameter(
    name: Text,
    declaredType: Text,
    canonicalType: Text,
    typeKind: int32,
    typeSymbol: Text,
    typeUsrId: uint64)

  datatype Signature = Signature(
    name: Text,
    owner: Text,
    usr: Text,
    usrId: uint64,
    returnType: Text,
    canonicalReturnType: Text,
    parameters: seq<Parameter>,
    file: Text,
    fileIndex: nat,
    variadic: bool)

  /** One element of the index, in the order in which the writer stages and the fingerprints hash. */
  datatype Item =
    | SymbolItem(symbol: Symbol)
    | UseItem(use: Use)
    | SignatureItem(signature: Signature)
  {
    function FileIndex(): nat {
      match this
      case SymbolItem(s) => s.fileIndex
      case UseItem(u) => u.fileIndex
      case SignatureItem(g) => g.fileIndex
    }

    function File(): Text {
      match this
      case SymbolItem(s) => s.file
      case UseItem(u) => u.file
      case SignatureItem(g) => g.file
    }

    predicate Local() {
      match this
      case SymbolItem(s) => s.local
      case UseItem(u) => u.local
      case SignatureItem(_) => false
    }
  }

  datatype Index = Index(symbols: seq<Symbol>, uses: seq<Use>, signatures: seq<Signature>)
  {
    function Items(): seq<Item> {
      seq(|symbols|, i requires 0 <= i < |symbols| => SymbolItem(symbols[i]))
      + seq(|uses|, i requires 0 <= i < |uses| => UseItem(uses[i]))
      + seq(|signatures|, i requires 0 <= i < |signatures| => SignatureItem(signatures[i]))
    }
  }
}
