/** The byte stream that is hashed for each file (lib/semindex_parser/index_context.cpp): it determines the
    records it was made from, and the lazily forked accumulator equals a full second pass. */
module Fingerprints {
  import opened Index
  import opened Tables
  import opened Staging
  import CacheSoundness
  import StoreResults

  const TWO64 := 0x1_0000_0000_0000_0000

  // ---- the encoding ----

  datatype Field = IntField(value: uint64) | TextField(text: Text)

  function LittleEndian(value: nat, n: nat): (bytes: seq<byte>)
    ensures |bytes| == n
  {
    if n == 0 then [] else [(value % 256) as byte] + LittleEndian(value / 256, n - 1)
  }

  /** The conversion of an int argument to uint64_t. */
  function Widen(v: int32): uint64 {
    if v < 0 then v + TWO64 else v
  }

  function EncodeField(f: Field): seq<byte> {
    match f
    case IntField(v) => LittleEndian(v, 8)
    case TextField(t) => LittleEndian(|t| % TWO64, 8) + t
  }

  function EncodeFields(fields: seq<Field>): seq<byte> {
    if fields == [] then [] else EncodeField(fields[0]) + EncodeFields(fields[1..])
  }

  function Flag(b: bool): uint64 {
    if b then 1 else 0
  }

  function ParameterFields(g: Signature, k: nat): seq<Field>
    requires k < |g.parameters|
  {
    var p := g.parameters[k];
    [IntField(k % TWO64), TextField(p.name), TextField(p.declaredType), TextField(p.canonicalType),
     TextField(p.typeSymbol), IntField(Widen(TypeKind32(p.typeKind, p.typeUsrId))), IntField(p.typeUsrId)]
  }

  function TypeKind32(kind: int32, usrId: uint64): int32 {
    if usrId != 0 then kind else -1
  }

  /** The fields of the first n parameters. */
  function ParametersFields(g: Signature, n: nat): seq<Field>
    requires n <= |g.parameters|
  {
    if n == 0 then [] else ParametersFields(g, n - 1) + ParameterFields(g, n - 1)
  }

  function SignatureHeader(g: Signature): seq<Field> {
    [IntField(2), TextField(g.name), IntField(g.usrId), TextField(g.returnType), TextField(g.canonicalReturnType),
     IntField(Flag(g.variadic)), IntField(|g.parameters| % TWO64)]
  }

  /** What is hashed for one record or signature. */
  function ItemFields(item: Item): seq<Field> {
    match item
    case SymbolItem(s) =>
      [IntField(0), IntField(Flag(s.definition)), IntField(Widen(s.kind)), IntField(0), TextField(s.owner),
       TextField(s.name), IntField(s.line), IntField(s.column), TextField(s.context), IntField(s.usrId), IntField(0),
       IntField(Flag(s.local)), TextField(s.declaredType), TextField(s.canonicalType), TextField(s.typeSymbol),
       IntField(Widen(TypeKind32(s.typeKind, s.typeUsrId))), IntField(s.typeUsrId), IntField(s.properties)]
    case UseItem(u) =>
      [IntField(1), IntField(Widen(u.kind)), IntField(Widen(u.symbolKind)), IntField(u.mode), TextField(u.owner),
       TextField(u.name), IntField(u.line), IntField(u.column), TextField(u.context), IntField(u.usrId),
       IntField(u.contextUsrId), IntField(Flag(u.local)), TextField([]), TextField([]), TextField([]),
       IntField(Widen(-1)), IntField(0), IntField(0)]
    case SignatureItem(g) => SignatureHeader(g) + ParametersFields(g, |g.parameters|)
  }

  function EncodeItem(item: Item): seq<byte> {
    EncodeFields(ItemFields(item))
  }

  function EncodeItems(items: seq<Item>): seq<byte> {
    if items == [] then [] else EncodeItem(items[0]) + EncodeItems(items[1..])
  }

  /** The items of one file that an index with or without local symbols stores. */
  function Filter(items: seq<Item>, file: nat, includeLocal: bool): seq<Item> {
    if items == [] then []
    else
      var last := items[|items| - 1];
      Filter(items[..|items| - 1], file, includeLocal)
      + (if last.FileIndex() == file && (includeLocal || !last.Local()) then [last] else [])
  }

  /** A string length or a count is a size_t. */
  predicate Sized(item: Item) {
    && (forall k | 0 <= k < |ItemFields(item)| ::
          ItemFields(item)[k].TextField? ==> |ItemFields(item)[k].text| < TWO64)
    && (item.SignatureItem? ==> |item.signature.parameters| < TWO64)
  }

  // ---- unique decodability ----

  lemma {:induction false} LittleEndianInjective(a: nat, b: nat, n: nat)
    requires LittleEndian(a, n) == LittleEndian(b, n)
    requires a < Pow256(n) && b < Pow256(n)
    ensures a == b
  {
    if n != 0 {
      assert LittleEndian(a, n)[0] == LittleEndian(b, n)[0];
      assert LittleEndian(a, n)[1..] == LittleEndian(a / 256, n - 1);
      assert LittleEndian(b, n)[1..] == LittleEndian(b / 256, n - 1);
      LittleEndianInjective(a / 256, b / 256, n - 1);
    }
  }

  function Pow256(n: nat): nat {
    if n == 0 then 1 else 256 * Pow256(n - 1)
  }

  lemma Integers64(a: uint64, b: uint64, s: seq<byte>, t: seq<byte>)
    requires LittleEndian(a, 8) + s == LittleEndian(b, 8) + t
    ensures a == b && s == t
  {
    assert (LittleEndian(a, 8) + s)[..8] == LittleEndian(a, 8);
    assert (LittleEndian(b, 8) + t)[..8] == LittleEndian(b, 8);
    assert (LittleEndian(a, 8) + s)[8..] == s;
    assert (LittleEndian(b, 8) + t)[8..] == t;
    assert Pow256(8) == TWO64 by {
      assert Pow256(4) == 0x1_0000_0000;
    }
    LittleEndianInjective(a, b, 8);
  }

  predicate SameShape(fs: seq<Field>, gs: seq<Field>) {
    |fs| == |gs| && forall k | 0 <= k < |fs| :: fs[k].IntField? <==> gs[k].IntField?
  }

  predicate SizedFields(fs: seq<Field>) {
    forall k | 0 <= k < |fs| && fs[k].TextField? :: |fs[k].text| < TWO64
  }

  lemma FieldPrefixFree(f: Field, g: Field, s: seq<byte>, t: seq<byte>)
    requires (f.IntField? <==> g.IntField?) && SizedFields([f]) && SizedFields([g])
    requires EncodeField(f) + s == EncodeField(g) + t
    ensures f == g && s == t
  {
    hide LittleEndian;
    match f
    case IntField(v) => Integers64(v, g.value, s, t);
    case TextField(x) =>
      assert [f][0] == f && [g][0] == g;
      var y := g.text;
      assert EncodeField(f) + s == LittleEndian(|x|, 8) + (x + s);
      assert EncodeField(g) + t == LittleEndian(|y|, 8) + (y + t);
      Integers64(|x|, |y|, x + s, y + t);
      assert (x + s)[..|x|] == x && (y + t)[..|y|] == y;
      assert (x + s)[|x|..] == s && (y + t)[|y|..] == t;
  }

  lemma {:induction false} FieldsPrefixFree(fs: seq<Field>, gs: seq<Field>, s: seq<byte>, t: seq<byte>)
    requires SameShape(fs, gs) && SizedFields(fs) && SizedFields(gs)
    requires EncodeFields(fs) + s == EncodeFields(gs) + t
    ensures fs == gs && s == t
  {
    hide LittleEndian, EncodeField;
    if fs != [] {
      assert EncodeFields(fs) + s == EncodeField(fs[0]) + (EncodeFields(fs[1..]) + s);
      assert EncodeFields(gs) + t == EncodeField(gs[0]) + (EncodeFields(gs[1..]) + t);
      assert SizedFields([fs[0]]) && SizedFields([gs[0]]);
      FieldPrefixFree(fs[0], gs[0], EncodeFields(fs[1..]) + s, EncodeFields(gs[1..]) + t);
      FieldsPrefixFree(fs[1..], gs[1..], s, t);
    } else {
      assert EncodeFields(fs) + s == s && EncodeFields(gs) + t == t;
    }
  }

  lemma {:induction false} EncodeFieldsConcat(fs: seq<Field>, gs: seq<Field>)
    ensures EncodeFields(fs + gs) == EncodeFields(fs) + EncodeFields(gs)
  {
    hide LittleEndian, EncodeField;
    if fs == [] {
      assert fs + gs == gs;
    } else {
      assert (fs + gs)[1..] == fs[1..] + gs;
      EncodeFieldsConcat(fs[1..], gs);
    }
  }

  lemma {:induction false} ParametersShape(g: Signature, h: Signature, n: nat)
    requires n <= |g.parameters| && n <= |h.parameters|
    ensures SameShape(ParametersFields(g, n), ParametersFields(h, n))
  {
    if n != 0 {
      ParametersShape(g, h, n - 1);
    }
  }

  lemma EncodeFirst(fs: seq<Field>, s: seq<byte>)
    requires fs != []
    ensures EncodeFields(fs) + s == EncodeField(fs[0]) + (EncodeFields(fs[1..]) + s)
  {
    hide EncodeField;
  }

  /** The first hashed number tells symbols, uses and signatures apart. */
  lemma TagsAgree(fs: seq<Field>, gs: seq<Field>, s: seq<byte>, t: seq<byte>)
    requires fs != [] && gs != [] && fs[0].IntField? && gs[0].IntField?
    requires EncodeFields(fs) + s == EncodeFields(gs) + t
    ensures fs[0] == gs[0]
  {
    hide LittleEndian, EncodeFields;
    EncodeFirst(fs, s);
    EncodeFirst(gs, t);
    Integers64(fs[0].value, gs[0].value, EncodeFields(fs[1..]) + s, EncodeFields(gs[1..]) + t);
  }

  lemma SizedParts(fs: seq<Field>, gs: seq<Field>)
    requires SizedFields(fs + gs)
    ensures SizedFields(fs) && SizedFields(gs)
  {
    assert forall k | 0 <= k < |fs| :: (fs + gs)[k] == fs[k];
    assert forall k | 0 <= k < |gs| :: (fs + gs)[|fs| + k] == gs[k];
  }

  lemma SignaturePrefixFree(g: Signature, h: Signature, s: seq<byte>, t: seq<byte>)
    requires |g.parameters| < TWO64 && |h.parameters| < TWO64
    requires SizedFields(ItemFields(SignatureItem(g))) && SizedFields(ItemFields(SignatureItem(h)))
    requires EncodeItem(SignatureItem(g)) + s == EncodeItem(SignatureItem(h)) + t
    ensures ItemFields(SignatureItem(g)) == ItemFields(SignatureItem(h)) && s == t
  {
    hide EncodeFields, EncodeField, SizedFields, ParametersFields;
    var ps, qs := ParametersFields(g, |g.parameters|), ParametersFields(h, |h.parameters|);
    EncodeFieldsConcat(SignatureHeader(g), ps);
    EncodeFieldsConcat(SignatureHeader(h), qs);
    assert EncodeItem(SignatureItem(g)) + s == EncodeFields(SignatureHeader(g)) + (EncodeFields(ps) + s);
    assert EncodeItem(SignatureItem(h)) + t == EncodeFields(SignatureHeader(h)) + (EncodeFields(qs) + t);
    SizedParts(SignatureHeader(g), ps);
    SizedParts(SignatureHeader(h), qs);
    FieldsPrefixFree(SignatureHeader(g), SignatureHeader(h), EncodeFields(ps) + s, EncodeFields(qs) + t);
    assert SignatureHeader(g)[6].value == SignatureHeader(h)[6].value;
    ParametersShape(g, h, |g.parameters|);
    FieldsPrefixFree(ps, qs, s, t);
  }

  /** Two items whose encodings start a common stream are hashed from equal fields. */
  lemma ItemPrefixFree(x: Item, y: Item, s: seq<byte>, t: seq<byte>)
    requires Sized(x) && Sized(y) && EncodeItem(x) + s == EncodeItem(y) + t
    ensures ItemFields(x) == ItemFields(y) && s == t
  {
    hide EncodeFields, EncodeField;
    var fs, gs := ItemFields(x), ItemFields(y);
    assert SizedFields(fs) && SizedFields(gs);
    TagsAgree(fs, gs, s, t);
    if x.SignatureItem? {
      assert y.SignatureItem?;
      SignaturePrefixFree(x.signature, y.signature, s, t);
    } else {
      FieldsPrefixFree(fs, gs, s, t);
    }
  }

  lemma ItemEncodingNotEmpty(x: Item)
    ensures |EncodeItem(x)| >= 8
  {
  }

  /** Unique decodability: equal streams were made from equal hashed fields, item by item. */
  lemma {:induction false} StreamInjective(xs: seq<Item>, ys: seq<Item>)
    requires (forall x | x in xs :: Sized(x)) && (forall y | y in ys :: Sized(y))
    requires EncodeItems(xs) == EncodeItems(ys)
    ensures |xs| == |ys| && forall k | 0 <= k < |xs| :: ItemFields(xs[k]) == ItemFields(ys[k])
  {
    if xs == [] {
      if ys != [] {
        ItemEncodingNotEmpty(ys[0]);
      }
    } else {
      ItemEncodingNotEmpty(xs[0]);
      assert ys != [];
      ItemPrefixFree(xs[0], ys[0], EncodeItems(xs[1..]), EncodeItems(ys[1..]));
      StreamInjective(xs[1..], ys[1..]);
    }
  }

  // ---- from equal streams to equal stored content ----

  /** Identities: the id of a non-empty USR is not zero. */
  predicate SaneIds(item: Item) {
    match item
    case SymbolItem(s) => s.usr == [] <==> s.usrId == 0
    case UseItem(u) => (u.usr == [] <==> u.usrId == 0) && (u.contextUsr == [] <==> u.contextUsrId == 0)
    case SignatureItem(g) => g.usr == [] <==> g.usrId == 0
  }

  /** A USR determines its owner, which is not hashed for signatures. */
  predicate SameOwners(x: Item, y: Item) {
    && x.SignatureItem? && y.SignatureItem? && x.signature.usr != [] && y.signature.usr != []
    && x.signature.usrId == y.signature.usrId ==>
      x.signature.owner == y.signature.owner
  }

  lemma WidenInjective(a: int32, b: int32)
    requires Widen(a) == Widen(b)
    ensures a == b
  {
  }

  lemma SameSymbols(x: Item, y: Item)
    requires x.SymbolItem? && y.SymbolItem? && ItemFields(x) == ItemFields(y) && SaneIds(x) && SaneIds(y)
    ensures RecordRows(x) == RecordRows(y) && SymbolTypeRows(x) == SymbolTypeRows(y)
    ensures PropertyRows(x) == PropertyRows(y) && FunctionTypeRows(x) == FunctionTypeRows(y)
  {
    var fs, gs, s, u := ItemFields(x), ItemFields(y), x.symbol, y.symbol;
    assert forall k | 0 <= k < 18 :: fs[k] == gs[k];
    assert s.definition == u.definition by { assert fs[1] == gs[1]; }
    assert s.kind == u.kind by { assert fs[2] == gs[2]; WidenInjective(s.kind, u.kind); }
    assert s.owner == u.owner && s.name == u.name by { assert fs[4] == gs[4] && fs[5] == gs[5]; }
    assert s.line == u.line && s.column == u.column by { assert fs[6] == gs[6] && fs[7] == gs[7]; }
    assert s.context == u.context && s.usrId == u.usrId by { assert fs[8] == gs[8] && fs[9] == gs[9]; }
    assert s.local == u.local && s.declaredType == u.declaredType by { assert fs[11] == gs[11] && fs[12] == gs[12]; }
    assert s.canonicalType == u.canonicalType && s.typeSymbol == u.typeSymbol by {
      assert fs[13] == gs[13] && fs[14] == gs[14];
    }
    assert TypeKind(s.typeKind, s.typeUsrId) == TypeKind(u.typeKind, u.typeUsrId) by {
      assert fs[15] == gs[15];
      WidenInjective(TypeKind32(s.typeKind, s.typeUsrId), TypeKind32(u.typeKind, u.typeUsrId));
    }
    assert s.typeUsrId == u.typeUsrId && s.properties == u.properties by {
      assert fs[16] == gs[16] && fs[17] == gs[17];
    }
  }

  lemma SameUses(x: Item, y: Item)
    requires x.UseItem? && y.UseItem? && ItemFields(x) == ItemFields(y) && SaneIds(x) && SaneIds(y)
    ensures RecordRows(x) == RecordRows(y) && SymbolTypeRows(x) == SymbolTypeRows(y)
    ensures PropertyRows(x) == PropertyRows(y) && FunctionTypeRows(x) == FunctionTypeRows(y)
  {
    var fs, gs, s, u := ItemFields(x), ItemFields(y), x.use, y.use;
    assert forall k | 0 <= k < 18 :: fs[k] == gs[k];
    assert s.kind == u.kind by { assert fs[1] == gs[1]; WidenInjective(s.kind, u.kind); }
    assert s.symbolKind == u.symbolKind by { assert fs[2] == gs[2]; WidenInjective(s.symbolKind, u.symbolKind); }
    assert s.mode == u.mode && s.owner == u.owner && s.name == u.name by {
      assert fs[3] == gs[3] && fs[4] == gs[4] && fs[5] == gs[5];
    }
    assert s.line == u.line && s.column == u.column by { assert fs[6] == gs[6] && fs[7] == gs[7]; }
    assert s.context == u.context && s.usrId == u.usrId by { assert fs[8] == gs[8] && fs[9] == gs[9]; }
    assert s.contextUsrId == u.contextUsrId && s.local == u.local by { assert fs[10] == gs[10] && fs[11] == gs[11]; }
  }

  lemma {:induction false} SameParameters(g: Signature, h: Signature, n: nat, k: nat)
    requires k < n <= |g.parameters| && n <= |h.parameters| && ParametersFields(g, n) == ParametersFields(h, n)
    ensures ParameterFields(g, k) == ParameterFields(h, k)
  {
    hide ParameterFields;
    ParametersShape(g, h, n - 1);
    var fs, gs := ParametersFields(g, n - 1), ParametersFields(h, n - 1);
    assert ParametersFields(g, n)[..|fs|] == fs && ParametersFields(h, n)[..|gs|] == gs;
    assert ParametersFields(g, n)[|fs|..] == ParameterFields(g, n - 1);
    assert ParametersFields(h, n)[|gs|..] == ParameterFields(h, n - 1);
    if k < n - 1 {
      SameParameters(g, h, n - 1, k);
    }
  }

  lemma SameParameterRow(g: Signature, h: Signature, k: nat)
    requires k < |g.parameters| && k < |h.parameters| && ParameterFields(g, k) == ParameterFields(h, k)
    requires g.owner == h.owner && g.name == h.name && g.usrId == h.usrId
    ensures ParameterRow(g, k) == ParameterRow(h, k)
  {
    var fs, gs, p, q := ParameterFields(g, k), ParameterFields(h, k), g.parameters[k], h.parameters[k];
    assert p.name == q.name by { assert fs[1] == gs[1]; }
    assert p.declaredType == q.declaredType by { assert fs[2] == gs[2]; }
    assert p.canonicalType == q.canonicalType by { assert fs[3] == gs[3]; }
    assert p.typeSymbol == q.typeSymbol by { assert fs[4] == gs[4]; }
    assert p.typeUsrId == q.typeUsrId by { assert fs[6] == gs[6]; }
    assert TypeKind(p.typeKind, p.typeUsrId) == TypeKind(q.typeKind, q.typeUsrId) by {
      assert fs[5] == gs[5];
      WidenInjective(TypeKind32(p.typeKind, p.typeUsrId), TypeKind32(q.typeKind, q.typeUsrId));
    }
  }

  lemma SameSignatures(x: Item, y: Item)
    requires x.SignatureItem? && y.SignatureItem? && ItemFields(x) == ItemFields(y)
    requires Sized(x) && Sized(y) && SaneIds(x) && SaneIds(y) && SameOwners(x, y)
    ensures FunctionTypeRows(x) == FunctionTypeRows(y)
  {
    var g, h := x.signature, y.signature;
    var ps, qs := ParametersFields(g, |g.parameters|), ParametersFields(h, |h.parameters|);
    assert ItemFields(x)[..7] == SignatureHeader(g) && ItemFields(y)[..7] == SignatureHeader(h);
    assert ItemFields(x)[7..] == ps && ItemFields(y)[7..] == qs;
    HeadersAgree(g, h);
    forall k | 0 <= k < |g.parameters| && g.usr != [] ensures ParameterRow(g, k) == ParameterRow(h, k) {
      SameParameters(g, h, |g.parameters|, k);
      SameParameterRow(g, h, k);
    }
  }

  lemma HeadersAgree(g: Signature, h: Signature)
    requires SignatureHeader(g) == SignatureHeader(h) && |g.parameters| < TWO64 && |h.parameters| < TWO64
    ensures g.name == h.name && g.usrId == h.usrId && g.returnType == h.returnType
    ensures g.canonicalReturnType == h.canonicalReturnType && g.variadic == h.variadic
    ensures |g.parameters| == |h.parameters|
  {
    var fs, gs := SignatureHeader(g), SignatureHeader(h);
    assert fs[1] == gs[1] && fs[2] == gs[2] && fs[3] == gs[3] && fs[4] == gs[4] && fs[5] == gs[5] && fs[6] == gs[6];
  }

  /** Items hashed from equal fields stage equal rows. */
  lemma SameFieldsSameRows(x: Item, y: Item)
    requires ItemFields(x) == ItemFields(y)
    requires Sized(x) && Sized(y) && SaneIds(x) && SaneIds(y) && SameOwners(x, y)
    ensures RecordRows(x) == RecordRows(y) && SymbolTypeRows(x) == SymbolTypeRows(y)
    ensures PropertyRows(x) == PropertyRows(y) && FunctionTypeRows(x) == FunctionTypeRows(y)
  {
    assert ItemFields(x)[0] == ItemFields(y)[0];
    match x
    case SymbolItem(_) => SameSymbols(x, y);
    case UseItem(_) => SameUses(x, y);
    case SignatureItem(_) => SameSignatures(x, y);
  }

  function Flatten<K, V>(items: seq<Item>, rowsOf: Item -> seq<(K, V)>): seq<(K, V)> {
    if items == [] then [] else Flatten(items[..|items| - 1], rowsOf) + rowsOf(items[|items| - 1])
  }

  lemma {:induction false} ContentIsFiltered<K, V>(r: Request, i: nat, items: seq<Item>, rowsOf: Item -> seq<(K, V)>)
    ensures CacheSoundness.Content(r, i, items, rowsOf) == Flatten(Filter(items, i, r.includeLocal), rowsOf)
  {
    if items != [] {
      var front, last := items[..|items| - 1], items[|items| - 1];
      ContentIsFiltered(r, i, front, rowsOf);
      var before := Filter(front, i, r.includeLocal);
      if last.FileIndex() == i && !Skips(r, {}, last) {
        assert (before + [last])[..|before|] == before;
      } else {
        assert before + [] == before;
      }
    }
  }

  lemma {:induction false} FlattenAgrees<K, V>(xs: seq<Item>, ys: seq<Item>, rowsOf: Item -> seq<(K, V)>)
    requires |xs| == |ys| && forall k | 0 <= k < |xs| :: rowsOf(xs[k]) == rowsOf(ys[k])
    ensures Flatten(xs, rowsOf) == Flatten(ys, rowsOf)
  {
    if xs != [] {
      FlattenAgrees(xs[..|xs| - 1], ys[..|ys| - 1], rowsOf);
    }
  }

  lemma {:induction false} FilterTakes(items: seq<Item>, file: nat, includeLocal: bool)
    ensures forall x :: x in Filter(items, file, includeLocal) <==>
                          x in items && x.FileIndex() == file && (includeLocal || !x.Local())
  {
    if items != [] {
      FilterTakes(items[..|items| - 1], file, includeLocal);
    }
  }

  /** The fingerprints of a request were built by this module with the given digest. */
  ghost predicate FingerprintedBy(r: Request, digest: seq<byte> -> Fingerprint) {
    forall i | 0 <= i < |r.files| ::
      var stored := Filter(r.index.Items(), i, r.includeLocal);
      r.files[i].fingerprint == digest(EncodeItems(stored)) && r.files[i].recordCount == |stored|
  }

  ghost predicate CollisionFree(digest: seq<byte> -> Fingerprint) {
    forall s, t | digest(s) == digest(t) :: s == t
  }

  ghost predicate SaneItems(items: seq<Item>) {
    forall x | x in items :: Sized(x) && SaneIds(x)
  }

  ghost predicate OwnersAgree(a: seq<Item>, b: seq<Item>) {
    forall x, y | x in a && y in b :: SameOwners(x, y)
  }

  lemma SameStreamSameContent(r: Request, i: nat, q: Request, j: nat)
    requires SaneItems(r.index.Items()) && SaneItems(q.index.Items())
    requires OwnersAgree(r.index.Items(), q.index.Items())
    requires EncodeItems(Filter(r.index.Items(), i, r.includeLocal))
             == EncodeItems(Filter(q.index.Items(), j, q.includeLocal))
    ensures CacheSoundness.SameContent(r, i, q, j)
  {
    var xs, ys := Filter(r.index.Items(), i, r.includeLocal), Filter(q.index.Items(), j, q.includeLocal);
    FilterTakes(r.index.Items(), i, r.includeLocal);
    FilterTakes(q.index.Items(), j, q.includeLocal);
    StreamInjective(xs, ys);
    forall k | 0 <= k < |xs|
      ensures RecordRows(xs[k]) == RecordRows(ys[k]) && SymbolTypeRows(xs[k]) == SymbolTypeRows(ys[k])
      ensures PropertyRows(xs[k]) == PropertyRows(ys[k]) && FunctionTypeRows(xs[k]) == FunctionTypeRows(ys[k])
    {
      assert xs[k] in r.index.Items() && ys[k] in q.index.Items();
      SameFieldsSameRows(xs[k], ys[k]);
    }
    ContentFromStream(r, i, q, j, xs, ys, RecordRows);
    ContentFromStream(r, i, q, j, xs, ys, SymbolTypeRows);
    ContentFromStream(r, i, q, j, xs, ys, FunctionTypeRows);
    ContentFromStream(r, i, q, j, xs, ys, PropertyRows);
  }

  lemma ContentFromStream<K, V>(r: Request, i: nat, q: Request, j: nat, xs: seq<Item>, ys: seq<Item>,
                                rowsOf: Item -> seq<(K, V)>)
    requires xs == Filter(r.index.Items(), i, r.includeLocal) && ys == Filter(q.index.Items(), j, q.includeLocal)
    requires |xs| == |ys| && forall k | 0 <= k < |xs| :: rowsOf(xs[k]) == rowsOf(ys[k])
    ensures CacheSoundness.Content(r, i, r.index.Items(), rowsOf)
            == CacheSoundness.Content(q, j, q.index.Items(), rowsOf)
  {
    ContentIsFiltered(r, i, r.index.Items(), rowsOf);
    ContentIsFiltered(q, j, q.index.Items(), rowsOf);
    FlattenAgrees(xs, ys, rowsOf);
  }

  /** With a collision-free digest, equal fingerprints stand for equal stored content: the premise of the cache. */
  lemma FingerprintsIdentifyContent(requests: seq<Request>, digest: seq<byte> -> Fingerprint)
    requires CollisionFree(digest) && forall r | r in requests :: FingerprintedBy(r, digest)
    requires forall r | r in requests :: SaneItems(r.index.Items())
    requires forall r, q | r in requests && q in requests :: OwnersAgree(r.index.Items(), q.index.Items())
    ensures CacheSoundness.AllAgree(requests)
  {
    forall v, w, i, j | 0 <= v < |requests| && 0 <= w < |requests| && 0 <= i < |requests[v].files|
                        && 0 <= j < |requests[w].files|
                        && requests[v].files[i].fingerprint == requests[w].files[j].fingerprint
      ensures CacheSoundness.SameContent(requests[v], i, requests[w], j)
    {
      assert requests[v] in requests && requests[w] in requests;
      SameStreamSameContent(requests[v], i, requests[w], j);
    }
  }

  /** The record counts make every staged row's file a staged file. */
  lemma FingerprintsCountRecords(r: Request, digest: seq<byte> -> Fingerprint)
    requires FingerprintedBy(r, digest)
    ensures StoreResults.Counted(r)
  {
    forall x | x in r.index.Items() && !Skips(r, {}, x) && x.FileIndex() < |r.files|
      ensures r.files[x.FileIndex()].recordCount > 0
    {
      FilterTakes(r.index.Items(), x.FileIndex(), r.includeLocal);
      assert x in Filter(r.index.Items(), x.FileIndex(), r.includeLocal);
    }
  }

  /** And no file without a record is staged. */
  lemma FingerprintsCountOnlyRecords(r: Request, digest: seq<byte> -> Fingerprint, i: nat)
    requires FingerprintedBy(r, digest) && i < |r.files|
    ensures r.files[i].recordCount > 0 <==>
              exists x :: x in r.index.Items() && x.FileIndex() == i && (x.Local() ==> r.includeLocal)
  {
    var stored := Filter(r.index.Items(), i, r.includeLocal);
    FilterTakes(r.index.Items(), i, r.includeLocal);
    if stored != [] {
      assert stored[0] in stored;
    }
  }
}
