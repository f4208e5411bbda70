/** What a store leaves for the queries: the rows of a file whose rows it replaced, read off the symbols, uses and
    signatures of the index, column by column. */
module StoreQueries {
  import opened Wrappers
  import opened Index
  import opened Tables
  import opened Staging
  import opened RowLemmas
  import opened StoreResults
  import opened StagedFiles

  // ---- names ----

  predicate HasScope(owner: Text) {
    exists i | 1 <= i < |owner| :: owner[i - 1] == 58 && owner[i] == 58
  }

  /** owner::name when the owner is itself qualified that way, owner.name otherwise, and name without an owner. */
  predicate Qualified(owner: Text, name: Text, symbol: Text) {
    if owner == [] then symbol == name
    else |symbol| >= |owner| && symbol[..|owner|] == owner
         && symbol[|owner|..] == (if HasScope(owner) then [58, 58] else [46]) + name
  }

  lemma QualifiedIs(owner: Text, name: Text, symbol: Text)
    ensures Qualified(owner, name, symbol) <==> symbol == QualifiedName(owner, name)
  {
    ScopeIs(owner);
    var separator := if HasScope(owner) then [58, 58] else [46];
    if owner != [] {
      assert owner + separator + name == owner + (separator + name);
      if Qualified(owner, name, symbol) {
        assert symbol == symbol[..|owner|] + symbol[|owner|..];
      }
    }
  }

  lemma ScopeIs(owner: Text)
    ensures HasScope(owner) <==> ContainsScope(owner)
  {
    if HasScope(owner) {
      var i :| 1 <= i < |owner| && owner[i - 1] == 58 && owner[i] == 58;
      var j := i - 1;
      assert owner[j] == COLON && owner[j + 1] == COLON;
    }
    if ContainsScope(owner) {
      var i :| 0 <= i < |owner| - 1 && owner[i] == COLON && owner[i + 1] == COLON;
      var j := i + 1;
      assert owner[j - 1] == 58 && owner[j] == 58;
    }
  }

  // ---- rows of items ----

  /** An item of the index gives the row (k, v) to the path. */
  ghost predicate Given<K, V>(r: Request, items: seq<Item>, rowsOf: Item -> seq<(K, V)>, path: Text, k: K, v: V) {
    exists item ::
      item in items && !Skips(r, {}, item) && ItemPath(r, item) == path && (k, v) in rowsOf(item)
  }

  lemma {:induction false} GivenMore<K, V>(r: Request, front: seq<Item>, last: Item, rowsOf: Item -> seq<(K, V)>,
                                           path: Text, k: K, v: V)
    ensures Given(r, front + [last], rowsOf, path, k, v) <==>
              || Given(r, front, rowsOf, path, k, v)
              || (!Skips(r, {}, last) && ItemPath(r, last) == path && (k, v) in rowsOf(last))
  {
    hide Skips, ItemPath;
    if Given(r, front, rowsOf, path, k, v) {
      var item :| item in front && !Skips(r, {}, item) && ItemPath(r, item) == path && (k, v) in rowsOf(item);
      assert item in front + [last];
    }
    assert last in front + [last];
  }

  lemma ItemGives<K, V>(r: Request, item: Item, rowsOf: Item -> seq<(K, V)>, path: Text, k: K)
    ensures var first := First(ItemRows(r, {}, item, rowsOf), (path, k));
            && (first.Some? ==> !Skips(r, {}, item) && ItemPath(r, item) == path && (k, first.value) in rowsOf(item))
            && (first.None? ==> forall v ::
                  !(!Skips(r, {}, item) && ItemPath(r, item) == path && (k, v) in rowsOf(item)))
  {
    var rows, given := ItemRows(r, {}, item, rowsOf), rowsOf(item);
    hide Skips, ItemPath, First;
    FirstHasRow(rows, (path, k));
    if First(rows, (path, k)).Some? {
      var i :| 0 <= i < |rows| && rows[i].0 == (path, k) && rows[i].1 == First(rows, (path, k)).value;
      assert given[i] == (k, rows[i].1);
    }
    if !Skips(r, {}, item) && ItemPath(r, item) == path {
      forall v | (k, v) in given ensures First(rows, (path, k)).Some? {
        var i :| 0 <= i < |given| && given[i] == (k, v);
        assert rows[i].0 == (path, k);
      }
    }
  }

  /** The first row of a key is one that an item gives, and there is one when any is given. */
  lemma {:induction false} FirstIsGiven<K, V>(r: Request, items: seq<Item>, rowsOf: Item -> seq<(K, V)>, path: Text,
                                              k: K)
    ensures var first := First(AllRows(r, {}, items, rowsOf), (path, k));
            && (first.Some? ==> Given(r, items, rowsOf, path, k, first.value))
            && (first.None? ==> forall v :: !Given(r, items, rowsOf, path, k, v))
  {
    if items != [] {
      var front, last := items[..|items| - 1], items[|items| - 1];
      assert items == front + [last];
      hide First, ItemRows, Given, Skips, ItemPath;
      FirstIsGiven(r, front, rowsOf, path, k);
      ItemGives(r, last, rowsOf, path, k);
      FirstConcat(AllRows(r, {}, front, rowsOf), ItemRows(r, {}, last, rowsOf), (path, k));
      forall v
        ensures Given(r, items, rowsOf, path, k, v) <==>
                  || Given(r, front, rowsOf, path, k, v)
                  || (!Skips(r, {}, last) && ItemPath(r, last) == path && (k, v) in rowsOf(last))
      {
        GivenMore(r, front, last, rowsOf, path, k, v);
      }
    }
  }

  // ---- what the index says about a path ----

  /** Records of this file are stored under the path, and local ones only on demand. */
  predicate StoredAt(r: Request, path: Text, local: bool, fileIndex: nat, file: Text) {
    (local ==> r.includeLocal) && path == if fileIndex < |r.files| then r.files[fileIndex].path else file
  }

  predicate IdIs(usr: Text, id: uint64, stored: Option<uint64>) {
    if usr == [] then stored.None? else stored == Some(id)
  }

  predicate SymbolRecord(s: Symbol, k: RecordKey, d: RecordData) {
    && Qualified(s.owner, s.name, k.symbol) && k.record == 0 && k.action == (if s.definition then 1 else 0)
    && k.kind == s.kind && k.mode == 0 && k.line == s.line && k.column == s.column
    && d.context == s.context && IdIs(s.usr, s.usrId, d.usrId) && d.contextUsrId.None? && d.local == s.local
  }

  predicate UseRecord(u: Use, k: RecordKey, d: RecordData) {
    && Qualified(u.owner, u.name, k.symbol) && k.record == 1 && k.action == u.kind
    && k.kind == u.symbolKind && k.mode == u.mode && k.line == u.line && k.column == u.column
    && d.context == u.context && IdIs(u.usr, u.usrId, d.usrId) && IdIs(u.contextUsr, u.contextUsrId, d.contextUsrId)
    && d.local == u.local
  }

  predicate TypeKindIs(kind: int32, id: uint64, stored: int) {
    if id == 0 then stored == -1 else stored == kind
  }

  predicate TypeRecord(s: Symbol, k: SymbolTypeKey) {
    && s.usr != [] && s.declaredType != []
    && Qualified(s.owner, s.name, k.symbol) && k.kind == s.kind && k.usrId == s.usrId
    && k.declaredType == s.declaredType && k.canonicalType == s.canonicalType && k.typeSymbol == s.typeSymbol
    && TypeKindIs(s.typeKind, s.typeUsrId, k.typeKind) && k.typeUsrId == s.typeUsrId
  }

  predicate FunctionNamed(g: Signature, k: FunctionTypeKey) {
    g.usr != [] && Qualified(g.owner, g.name, k.symbol) && k.usrId == g.usrId
  }

  predicate ReturnRecord(g: Signature, k: FunctionTypeKey, d: FunctionTypeData) {
    && FunctionNamed(g, k) && k.position == -1
    && k.declaredType == g.returnType && k.canonicalType == g.canonicalReturnType
    && k.typeSymbol == [] && k.typeKind == -1 && k.typeUsrId == 0
    && d.name == [] && d.variadic == g.variadic
  }

  predicate ParameterRecord(g: Signature, i: nat, k: FunctionTypeKey, d: FunctionTypeData)
    requires i < |g.parameters|
  {
    var p := g.parameters[i];
    && FunctionNamed(g, k) && k.position == i
    && k.declaredType == p.declaredType && k.canonicalType == p.canonicalType && k.typeSymbol == p.typeSymbol
    && TypeKindIs(p.typeKind, p.typeUsrId, k.typeKind) && k.typeUsrId == p.typeUsrId
    && d.name == p.name && !d.variadic
  }

  ghost predicate RecordSaid(r: Request, path: Text, k: RecordKey, d: RecordData) {
    || (exists s :: s in r.index.symbols && StoredAt(r, path, s.local, s.fileIndex, s.file) && SymbolRecord(s, k, d))
    || (exists u :: u in r.index.uses && StoredAt(r, path, u.local, u.fileIndex, u.file) && UseRecord(u, k, d))
  }

  ghost predicate TypeSaid(r: Request, path: Text, k: SymbolTypeKey) {
    exists s :: s in r.index.symbols && StoredAt(r, path, s.local, s.fileIndex, s.file) && TypeRecord(s, k)
  }

  ghost predicate FunctionSaid(r: Request, path: Text, k: FunctionTypeKey, d: FunctionTypeData) {
    exists g :: g in r.index.signatures && StoredAt(r, path, false, g.fileIndex, g.file) && SignatureRecord(g, k, d)
  }

  ghost predicate SignatureRecord(g: Signature, k: FunctionTypeKey, d: FunctionTypeData) {
    ReturnRecord(g, k, d) || exists i :: 0 <= i < |g.parameters| && ParameterRecord(g, i, k, d)
  }

  lemma ItemsAre(index: Index, item: Item)
    ensures item in index.Items() <==>
              match item
              case SymbolItem(s) => s in index.symbols
              case UseItem(u) => u in index.uses
              case SignatureItem(g) => g in index.signatures
  {
    var a := seq(|index.symbols|, i requires 0 <= i < |index.symbols| => SymbolItem(index.symbols[i]));
    var b := seq(|index.uses|, i requires 0 <= i < |index.uses| => UseItem(index.uses[i]));
    var c := seq(|index.signatures|, i requires 0 <= i < |index.signatures| => SignatureItem(index.signatures[i]));
    assert index.Items() == a + b + c;
    match item
    case SymbolItem(s) =>
      if s in index.symbols {
        var i :| 0 <= i < |index.symbols| && index.symbols[i] == s;
        assert a[i] == item;
      }
    case UseItem(u) =>
      if u in index.uses {
        var i :| 0 <= i < |index.uses| && index.uses[i] == u;
        assert b[i] == item;
      }
    case SignatureItem(g) =>
      if g in index.signatures {
        var i :| 0 <= i < |index.signatures| && index.signatures[i] == g;
        assert c[i] == item;
      }
  }

  lemma ItemPlace(r: Request, item: Item, path: Text)
    ensures !Skips(r, {}, item) && ItemPath(r, item) == path <==>
              StoredAt(r, path, item.Local(), item.FileIndex(), item.File())
  {
  }

  lemma SymbolRowIs(s: Symbol, k: RecordKey, d: RecordData)
    ensures (k, d) in RecordRows(SymbolItem(s)) <==> SymbolRecord(s, k, d)
  {
    hide QualifiedName, Qualified;
    QualifiedIs(s.owner, s.name, k.symbol);
  }

  lemma UseRowIs(u: Use, k: RecordKey, d: RecordData)
    ensures (k, d) in RecordRows(UseItem(u)) <==> UseRecord(u, k, d)
  {
    hide QualifiedName, Qualified;
    QualifiedIs(u.owner, u.name, k.symbol);
  }

  lemma RecordGiven(r: Request, path: Text, k: RecordKey, d: RecordData)
    ensures Given(r, r.index.Items(), RecordRows, path, k, d) <==> RecordSaid(r, path, k, d)
  {
    hide RecordRows, SymbolRecord, UseRecord, StoredAt, Skips, ItemPath;
    if Given(r, r.index.Items(), RecordRows, path, k, d) {
      var item :| item in r.index.Items() && !Skips(r, {}, item) && ItemPath(r, item) == path
                  && (k, d) in RecordRows(item);
      ItemsAre(r.index, item);
      ItemPlace(r, item, path);
      match item
      case SymbolItem(s) => SymbolRowIs(s, k, d);
      case UseItem(u) => UseRowIs(u, k, d);
      case SignatureItem(g) => NoRecordRow(g);
    }
    if s :| s in r.index.symbols && StoredAt(r, path, s.local, s.fileIndex, s.file) && SymbolRecord(s, k, d) {
      SymbolRowIs(s, k, d);
      ItemIsGiven(r, SymbolItem(s), RecordRows, path, k, d);
    }
    if u :| u in r.index.uses && StoredAt(r, path, u.local, u.fileIndex, u.file) && UseRecord(u, k, d) {
      UseRowIs(u, k, d);
      ItemIsGiven(r, UseItem(u), RecordRows, path, k, d);
    }
  }

  lemma NoRecordRow(g: Signature)
    ensures RecordRows(SignatureItem(g)) == []
  {
  }

  lemma ItemIsGiven<K, V>(r: Request, item: Item, rowsOf: Item -> seq<(K, V)>, path: Text, k: K, v: V)
    requires match item
             case SymbolItem(s) => s in r.index.symbols
             case UseItem(u) => u in r.index.uses
             case SignatureItem(g) => g in r.index.signatures
    requires StoredAt(r, path, item.Local(), item.FileIndex(), item.File()) && (k, v) in rowsOf(item)
    ensures Given(r, r.index.Items(), rowsOf, path, k, v)
  {
    hide StoredAt, Skips, ItemPath;
    ItemsAre(r.index, item);
    ItemPlace(r, item, path);
  }

  lemma TypeRowIs(item: Item, k: SymbolTypeKey)
    ensures (k, ()) in SymbolTypeRows(item) <==> item.SymbolItem? && TypeRecord(item.symbol, k)
  {
    hide QualifiedName, Qualified;
    if item.SymbolItem? {
      QualifiedIs(item.symbol.owner, item.symbol.name, k.symbol);
    }
  }

  lemma TypeGiven(r: Request, path: Text, k: SymbolTypeKey)
    ensures Given(r, r.index.Items(), SymbolTypeRows, path, k, ()) <==> TypeSaid(r, path, k)
  {
    hide SymbolTypeRows, TypeRecord, StoredAt, Skips, ItemPath;
    if Given(r, r.index.Items(), SymbolTypeRows, path, k, ()) {
      var item :| item in r.index.Items() && !Skips(r, {}, item) && ItemPath(r, item) == path
                  && (k, ()) in SymbolTypeRows(item);
      ItemsAre(r.index, item);
      ItemPlace(r, item, path);
      TypeRowIs(item, k);
    }
    if s :| s in r.index.symbols && StoredAt(r, path, s.local, s.fileIndex, s.file) && TypeRecord(s, k) {
      TypeRowIs(SymbolItem(s), k);
      ItemIsGiven(r, SymbolItem(s), SymbolTypeRows, path, k, ());
    }
  }

  lemma ReturnRowIs(g: Signature, k: FunctionTypeKey, d: FunctionTypeData)
    ensures g.usr != [] ==> ((k, d) == ReturnRow(g) <==> ReturnRecord(g, k, d))
  {
    hide QualifiedName, Qualified;
    QualifiedIs(g.owner, g.name, k.symbol);
  }

  lemma ParameterRowIs(g: Signature, i: nat, k: FunctionTypeKey, d: FunctionTypeData)
    requires i < |g.parameters|
    ensures g.usr != [] ==> ((k, d) == ParameterRow(g, i) <==> ParameterRecord(g, i, k, d))
  {
    hide QualifiedName, Qualified;
    QualifiedIs(g.owner, g.name, k.symbol);
  }

  lemma FunctionRowIs(item: Item, k: FunctionTypeKey, d: FunctionTypeData)
    ensures (k, d) in FunctionTypeRows(item) <==> item.SignatureItem? && SignatureRecord(item.signature, k, d)
  {
    if item.SignatureItem? {
      var g := item.signature;
      if g.usr != [] {
        var rows := FunctionTypeRows(item);
        assert rows[0] == ReturnRow(g) && |rows| == |g.parameters| + 1;
        assert forall i | 0 <= i < |g.parameters| :: rows[i + 1] == ParameterRow(g, i);
        hide FunctionTypeRows, ReturnRow, ParameterRow, ReturnRecord, ParameterRecord;
        ReturnRowIs(g, k, d);
        forall i | 0 <= i < |g.parameters|
          ensures (k, d) == ParameterRow(g, i) <==> ParameterRecord(g, i, k, d)
        {
          ParameterRowIs(g, i, k, d);
        }
        if (k, d) in rows {
          var j :| 0 <= j < |rows| && rows[j] == (k, d);
          assert j > 0 ==> rows[j - 1 + 1] == ParameterRow(g, j - 1);
        }
      }
    }
  }

  lemma FunctionGiven(r: Request, path: Text, k: FunctionTypeKey, d: FunctionTypeData)
    ensures Given(r, r.index.Items(), FunctionTypeRows, path, k, d) <==> FunctionSaid(r, path, k, d)
  {
    hide FunctionTypeRows, SignatureRecord, StoredAt, Skips, ItemPath;
    if Given(r, r.index.Items(), FunctionTypeRows, path, k, d) {
      var item :| item in r.index.Items() && !Skips(r, {}, item) && ItemPath(r, item) == path
                  && (k, d) in FunctionTypeRows(item);
      ItemsAre(r.index, item);
      ItemPlace(r, item, path);
      FunctionRowIs(item, k, d);
    }
    if g :| g in r.index.signatures && StoredAt(r, path, false, g.fileIndex, g.file) && SignatureRecord(g, k, d) {
      FunctionRowIs(SignatureItem(g), k, d);
      ItemIsGiven(r, SignatureItem(g), FunctionTypeRows, path, k, d);
    }
  }

  // ---- masks ----

  /** The number that a set of bits stands for. */
  function BitsValue(bits: Bits, n: nat): nat {
    if n == 0 then 0 else BitsValue(bits, n - 1) + if n - 1 in bits then Pow2(n - 1) else 0
  }

  lemma {:induction false} Multiples(a: nat, b: nat, p: nat)
    requires a <= b
    ensures a * p <= b * p
    decreases b
  {
    if a < b {
      Multiples(a, b - 1, p);
      assert b * p == (b - 1) * p + p;
    }
  }

  lemma Remainder(m: nat, p: nat, h: nat, r: nat)
    requires m == h * p + r && r < p
    ensures m % p == r
  {
    var d, e := m / p, m % p;
    assert m == d * p + e && e < p;
    SameQuotient(p, h, r, d, e);
  }

  lemma SameQuotient(p: nat, h: nat, r: nat, d: nat, e: nat)
    requires h * p + r == d * p + e && r < p && e < p
    ensures r == e
  {
    if d < h {
      OneMultipleMore(d, h, p);
    } else if d > h {
      OneMultipleMore(h, d, p);
    }
  }

  lemma OneMultipleMore(d: nat, h: nat, p: nat)
    requires d < h
    ensures d * p + p <= h * p
  {
    Multiples(d + 1, h, p);
    assert (d + 1) * p == d * p + p;
  }

  lemma Doubled(q: nat, h: nat, b: nat, p: nat)
    requires q == 2 * h + b
    ensures q * p == h * (2 * p) + b * p
  {
  }

  lemma SplitBit(m: nat, p: nat)
    requires p > 0
    ensures m % (2 * p) == m % p + (m / p) % 2 * p
  {
    var q, r := m / p, m % p;
    var h, b := q / 2, q % 2;
    assert m == q * p + r;
    Doubled(q, h, b, p);
    Remainder(m, 2 * p, h, b * p + r);
  }

  lemma {:induction false} LowBits(mask: uint64, n: nat)
    requires n <= 64
    ensures BitsValue(OneBits(mask), n) == mask % Pow2(n)
  {
    if n > 0 {
      LowBits(mask, n - 1);
      SplitBit(mask, Pow2(n - 1));
    }
  }

  /** A mask and its set of bits determine each other. */
  lemma MaskRoundTrip(mask: uint64)
    ensures BitsValue(OneBits(mask), 64) == mask && forall b | b in OneBits(mask) :: b < 64
  {
    LowBits(mask, 64);
    Pow64();
  }

  lemma Pow64()
    ensures Pow2(64) == 0x1_0000_0000_0000_0000
  {
    assert Pow2(8) == 256;
    assert Pow2(16) == 256 * 256;
    assert Pow2(24) == 256 * 256 * 256;
    assert Pow2(32) == 0x1_0000_0000;
    assert Pow2(40) == 0x1_0000_0000 * 256;
    assert Pow2(48) == 0x1_0000_0000 * 256 * 256;
    assert Pow2(56) == 0x1_0000_0000 * 256 * 256 * 256;
  }

  predicate PropertyRecord(s: Symbol, k: PropertyKey) {
    && s.usr != [] && s.properties != 0
    && Qualified(s.owner, s.name, k.symbol) && k.kind == s.kind && k.usrId == s.usrId
  }

  ghost predicate PropertySaid(r: Request, path: Text, k: PropertyKey, bits: Bits) {
    exists s ::
      && s in r.index.symbols && StoredAt(r, path, s.local, s.fileIndex, s.file)
      && PropertyRecord(s, k) && bits == OneBits(s.properties)
  }

  lemma PropertyRowIs(item: Item, k: PropertyKey, bits: Bits)
    ensures (k, bits) in PropertyRows(item) <==>
              item.SymbolItem? && PropertyRecord(item.symbol, k) && bits == OneBits(item.symbol.properties)
  {
    hide QualifiedName, Qualified, OneBits;
    if item.SymbolItem? {
      QualifiedIs(item.symbol.owner, item.symbol.name, k.symbol);
    }
  }

  lemma PropertyGiven(r: Request, path: Text, k: PropertyKey, bits: Bits)
    ensures Given(r, r.index.Items(), PropertyRows, path, k, bits) <==> PropertySaid(r, path, k, bits)
  {
    hide PropertyRows, PropertyRecord, StoredAt, Skips, ItemPath, OneBits;
    if Given(r, r.index.Items(), PropertyRows, path, k, bits) {
      var item :| item in r.index.Items() && !Skips(r, {}, item) && ItemPath(r, item) == path
                  && (k, bits) in PropertyRows(item);
      ItemsAre(r.index, item);
      ItemPlace(r, item, path);
      PropertyRowIs(item, k, bits);
    }
    if PropertySaid(r, path, k, bits) {
      var s :| s in r.index.symbols && StoredAt(r, path, s.local, s.fileIndex, s.file)
               && PropertyRecord(s, k) && bits == OneBits(s.properties);
      PropertyRowIs(SymbolItem(s), k, bits);
      ItemIsGiven(r, SymbolItem(s), PropertyRows, path, k, bits);
    }
  }

  lemma {:induction false} MaskHasRow(rows: seq<((Text, PropertyKey), Bits)>, key: (Text, PropertyKey), b: nat)
    ensures b in Mask(rows, key) <==> exists bits :: (key, bits) in rows && b in bits
  {
    if rows != [] {
      var front, last := rows[..|rows| - 1], rows[|rows| - 1];
      MaskHasRow(front, key, b);
      assert rows == front + [last];
      if bits :| (key, bits) in rows && b in bits {
        assert (key, bits) in front || (key, bits) == last;
      }
      if last.0 == key && b in last.1 {
        assert (key, last.1) in rows;
      }
    }
  }

  lemma {:induction false} AllRowsGiven<K, V>(r: Request, items: seq<Item>, rowsOf: Item -> seq<(K, V)>, path: Text,
                                              k: K, v: V)
    ensures ((path, k), v) in AllRows(r, {}, items, rowsOf) <==> Given(r, items, rowsOf, path, k, v)
  {
    if items != [] {
      var front, last := items[..|items| - 1], items[|items| - 1];
      assert items == front + [last];
      hide Given, Skips, ItemPath;
      AllRowsGiven(r, front, rowsOf, path, k, v);
      GivenMore(r, front, last, rowsOf, path, k, v);
      OneItemRows(r, last, rowsOf, path, k, v);
    }
  }

  lemma OneItemRows<K, V>(r: Request, item: Item, rowsOf: Item -> seq<(K, V)>, path: Text, k: K, v: V)
    ensures ((path, k), v) in ItemRows(r, {}, item, rowsOf) <==>
              !Skips(r, {}, item) && ItemPath(r, item) == path && (k, v) in rowsOf(item)
  {
    var rows, given := ItemRows(r, {}, item, rowsOf), rowsOf(item);
    hide Skips, ItemPath;
    if !Skips(r, {}, item) && ItemPath(r, item) == path && (k, v) in given {
      var i :| 0 <= i < |given| && given[i] == (k, v);
      assert rows[i] == ((path, k), v);
    }
  }

  lemma MaskIsSaid(r: Request, path: Text, k: PropertyKey, b: nat)
    ensures b in Mask(AllRows(r, {}, r.index.Items(), PropertyRows), (path, k)) <==>
              exists bits :: PropertySaid(r, path, k, bits) && b in bits
  {
    var rows := AllRows(r, {}, r.index.Items(), PropertyRows);
    hide *;
    MaskHasRow(rows, (path, k), b);
    forall bits ensures ((path, k), bits) in rows <==> PropertySaid(r, path, k, bits) {
      AllRowsGiven(r, r.index.Items(), PropertyRows, path, k, bits);
      PropertyGiven(r, path, k, bits);
    }
  }

  // ---- after a store ----

  /** The store leaves nothing of what was stored for f before: f is the main file, or was found changed, or is new. */
  ghost predicate Rewritten(db: Database, r: Request, f: FileId) {
    && f.variant == r.variant
    && (|| IsMainPath(r, f.path) || Changed(db, r, f)
        || (f !in db.files && exists mtime, size :: SeenBy(r, f.path, mtime, size)))
  }

  lemma RewrittenReplaces(db: Database, r: Request, f: FileId)
    requires Rewritten(db, r, f)
    ensures Replaces(db, r, f)
  {
    StagedFileIs(r, f.path);
    hide IsMainPath, SeenBy, FreshFiles, FingerprintOf;
  }

  lemma StoreRewrites(db: Database, r: Request, f: FileId)
    requires HasFiles(db) && Rewritten(db, r, f)
    ensures ReplacedRows(FullStore(db, r), r, f)
  {
    hide *;
    FullStoreIsStoreOf(db, r);
    RewrittenReplaces(db, r, f);
    RowsReplacedBy(db, r, FullStore(db, r), f);
  }

  lemma RecordsReplaced(db: Database, r: Request, f: FileId)
    requires ReplacedRows(FullStore(db, r), r, f)
    ensures HoldsFirstRows(FullStore(db, r).records, f, AllRows(r, {}, r.index.Items(), RecordRows))
    ensures HoldsFirstRows(FullStore(db, r).symbolTypes, f, AllRows(r, {}, r.index.Items(), SymbolTypeRows))
    ensures HoldsFirstRows(FullStore(db, r).functionTypes, f, AllRows(r, {}, r.index.Items(), FunctionTypeRows))
    ensures HoldsMasks(FullStore(db, r).properties, f, AllRows(r, {}, r.index.Items(), PropertyRows))
  {
    hide FullStore, HoldsFirstRows, HoldsMasks, AllRows;
  }

  lemma RowsGiven<K(!new), V>(t: FileTable<K, V>, r: Request, f: FileId, rowsOf: Item -> seq<(K, V)>, k: K)
    requires HoldsFirstRows(t, f, AllRows(r, {}, r.index.Items(), rowsOf))
    ensures (f, k) in t ==> Given(r, r.index.Items(), rowsOf, f.path, k, t[(f, k)])
    ensures (f, k) !in t ==> forall v :: !Given(r, r.index.Items(), rowsOf, f.path, k, v)
  {
    hide AllRows, First, Given;
    FirstIsGiven(r, r.index.Items(), rowsOf, f.path, k);
  }

  /** The records of a rewritten file are those of the symbols and uses in it. */
  lemma RecordsAfterStore(db: Database, r: Request, f: FileId, k: RecordKey)
    requires HasFiles(db) && Rewritten(db, r, f)
    ensures var after := FullStore(db, r).records;
            && ((f, k) in after <==> exists d :: RecordSaid(r, f.path, k, d))
            && ((f, k) in after ==> RecordSaid(r, f.path, k, after[(f, k)]))
  {
    hide *;
    StoreRewrites(db, r, f);
    RecordsReplaced(db, r, f);
    RowsGiven(FullStore(db, r).records, r, f, RecordRows, k);
    forall d ensures Given(r, r.index.Items(), RecordRows, f.path, k, d) <==> RecordSaid(r, f.path, k, d) {
      RecordGiven(r, f.path, k, d);
    }
  }

  /** Its types are those of the symbols in it that have an identity and a type. */
  lemma TypesAfterStore(db: Database, r: Request, f: FileId, k: SymbolTypeKey)
    requires HasFiles(db) && Rewritten(db, r, f)
    ensures (f, k) in FullStore(db, r).symbolTypes <==> TypeSaid(r, f.path, k)
  {
    hide *;
    StoreRewrites(db, r, f);
    RecordsReplaced(db, r, f);
    RowsGiven(FullStore(db, r).symbolTypes, r, f, SymbolTypeRows, k);
    TypeGiven(r, f.path, k);
    if (f, k) in FullStore(db, r).symbolTypes {
      assert FullStore(db, r).symbolTypes[(f, k)] == ();
    }
  }

  /** Its signature rows are those of the signatures in it that have an identity: the return type at position -1 and
      every parameter at its own. */
  lemma FunctionsAfterStore(db: Database, r: Request, f: FileId, k: FunctionTypeKey)
    requires HasFiles(db) && Rewritten(db, r, f)
    ensures var after := FullStore(db, r).functionTypes;
            && ((f, k) in after <==> exists d :: FunctionSaid(r, f.path, k, d))
            && ((f, k) in after ==> FunctionSaid(r, f.path, k, after[(f, k)]))
  {
    hide *;
    StoreRewrites(db, r, f);
    RecordsReplaced(db, r, f);
    RowsGiven(FullStore(db, r).functionTypes, r, f, FunctionTypeRows, k);
    forall d ensures Given(r, r.index.Items(), FunctionTypeRows, f.path, k, d) <==> FunctionSaid(r, f.path, k, d) {
      FunctionGiven(r, f.path, k, d);
    }
  }

  /** Its masks are the OR of the masks of the symbols in it that have an identity. */
  lemma MasksAfterStore(db: Database, r: Request, f: FileId, k: PropertyKey)
    requires HasFiles(db) && Rewritten(db, r, f)
    ensures var after := FullStore(db, r).properties;
            && ((f, k) in after <==> exists bits :: PropertySaid(r, f.path, k, bits))
            && ((f, k) in after ==>
                  forall b :: b in after[(f, k)] <==> exists bits :: PropertySaid(r, f.path, k, bits) && b in bits)
  {
    hide *;
    StoreRewrites(db, r, f);
    RecordsReplaced(db, r, f);
    MasksGiven(FullStore(db, r).properties, r, f, k);
    forall b
      ensures b in Mask(AllRows(r, {}, r.index.Items(), PropertyRows), (f.path, k)) <==>
                exists bits :: PropertySaid(r, f.path, k, bits) && b in bits
    {
      MaskIsSaid(r, f.path, k, b);
    }
    forall bits ensures Given(r, r.index.Items(), PropertyRows, f.path, k, bits) <==> PropertySaid(r, f.path, k, bits) {
      PropertyGiven(r, f.path, k, bits);
    }
  }

  lemma MasksGiven(t: FileTable<PropertyKey, Bits>, r: Request, f: FileId, k: PropertyKey)
    requires HoldsMasks(t, f, AllRows(r, {}, r.index.Items(), PropertyRows))
    ensures (f, k) in t <==> exists bits :: Given(r, r.index.Items(), PropertyRows, f.path, k, bits)
    ensures (f, k) in t ==> t[(f, k)] == Mask(AllRows(r, {}, r.index.Items(), PropertyRows), (f.path, k))
  {
    hide AllRows, First, Given, Mask;
    FirstIsGiven(r, r.index.Items(), PropertyRows, f.path, k);
  }
}
