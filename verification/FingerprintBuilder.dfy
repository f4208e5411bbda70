/** The fingerprint builder as it runs: hash accumulators updated per record, the second one forked from the first
    when a file's first local record appears (lib/semindex_parser/index_context.cpp). */
module FingerprintBuilder {
  import opened Index
  import opened Tables
  import opened Fingerprints

  /** The accumulators of one file. A BLAKE3 state is represented by the bytes it has absorbed. */
  datatype State = State(hash0: seq<byte>, hash1: seq<byte>, records0: nat, records1: nat, hasLocal: bool)

  datatype FileFingerprint = FileFingerprint(data: Fingerprint, recordCount: nat)

  /** The record that is hashed for a symbol or a use. */
  datatype Record = Record(
    tag: uint64, action: uint64, kind: int32, mode: uint64, owner: Text, name: Text, line: uint64, column: uint64,
    context: Text, usrId: uint64, contextUsrId: uint64, local: bool, declaredType: Text, canonicalType: Text,
    typeSymbol: Text, typeKind: int32, typeUsrId: uint64, properties: uint64)

  function RecordFields(r: Record): seq<Field> {
    [IntField(r.tag), IntField(r.action), IntField(Widen(r.kind)), IntField(r.mode), TextField(r.owner),
     TextField(r.name), IntField(r.line), IntField(r.column), TextField(r.context), IntField(r.usrId),
     IntField(r.contextUsrId), IntField(Flag(r.local)), TextField(r.declaredType), TextField(r.canonicalType),
     TextField(r.typeSymbol), IntField(Widen(r.typeKind)), IntField(r.typeUsrId), IntField(r.properties)]
  }

  function SymbolRecord(s: Symbol): Record {
    Record(0, Flag(s.definition), s.kind, 0, s.owner, s.name, s.line, s.column, s.context, s.usrId, 0, s.local,
           s.declaredType, s.canonicalType, s.typeSymbol, TypeKind32(s.typeKind, s.typeUsrId), s.typeUsrId,
           s.properties)
  }

  function UseRecord(u: Use): Record {
    Record(1, Widen(u.kind), u.symbolKind, u.mode, u.owner, u.name, u.line, u.column, u.context, u.usrId,
           u.contextUsrId, u.local, [], [], [], -1, 0, 0)
  }

  // ---- hashing ----

  method HashInteger(hash: seq<byte>, value: uint64) returns (h: seq<byte>)
    ensures h == hash + EncodeField(IntField(value))
  {
    var bytes := new byte[8];
    var v: nat := value;
    var i := 0;
    while i < 8
      invariant i <= 8 && LittleEndian(value, 8) == bytes[..i] + LittleEndian(v, 8 - i)
    {
      ghost var before := bytes[..i];
      bytes[i] := (v % 256) as byte;
      assert bytes[..i + 1] == before + [(v % 256) as byte];
      v := v / 256;
      i := i + 1;
    }
    assert LittleEndian(v, 0) == [];
    h := hash + bytes[..];
  }

  method HashString(hash: seq<byte>, text: Text) returns (h: seq<byte>)
    ensures h == hash + EncodeField(TextField(text))
  {
    h := HashInteger(hash, |text| % TWO64);
    h := h + text;
  }

  lemma EncodeNext(fs: seq<Field>, k: nat)
    requires k < |fs|
    ensures EncodeFields(fs[..k + 1]) == EncodeFields(fs[..k]) + EncodeField(fs[k])
  {
    hide EncodeField;
    assert fs[..k + 1] == fs[..k] + [fs[k]];
    EncodeFieldsConcat(fs[..k], [fs[k]]);
    assert EncodeFields([fs[k]]) == EncodeField(fs[k]);
  }

  /** Hashes the k-th field on top of the first k. */
  method HashField(hash: seq<byte>, ghost base: seq<byte>, fs: seq<Field>, k: nat) returns (h: seq<byte>)
    requires k < |fs| && hash == base + EncodeFields(fs[..k])
    ensures h == base + EncodeFields(fs[..k + 1])
  {
    hide EncodeFields, EncodeField;
    EncodeNext(fs, k);
    match fs[k] {
      case IntField(v) => h := HashInteger(hash, v);
      case TextField(t) => h := HashString(hash, t);
    }
  }

  /** hashRecord: the eighteen fields in order. */
  method HashRecord(hash: seq<byte>, record: Record) returns (h: seq<byte>)
    ensures h == hash + EncodeFields(RecordFields(record))
  {
    var fs := RecordFields(record);
    h := HashNone(hash, fs);
    hide EncodeFields, EncodeField;
    h := HashField(h, hash, fs, 0);
    h := HashField(h, hash, fs, 1);
    h := HashField(h, hash, fs, 2);
    h := HashField(h, hash, fs, 3);
    h := HashField(h, hash, fs, 4);
    h := HashField(h, hash, fs, 5);
    h := HashField(h, hash, fs, 6);
    h := HashField(h, hash, fs, 7);
    h := HashField(h, hash, fs, 8);
    h := HashField(h, hash, fs, 9);
    h := HashField(h, hash, fs, 10);
    h := HashField(h, hash, fs, 11);
    h := HashField(h, hash, fs, 12);
    h := HashField(h, hash, fs, 13);
    h := HashField(h, hash, fs, 14);
    h := HashField(h, hash, fs, 15);
    h := HashField(h, hash, fs, 16);
    h := HashField(h, hash, fs, 17);
    assert fs[..18] == fs;
  }

  /** Where the hashing of fields starts. */
  method HashNone(hash: seq<byte>, ghost fs: seq<Field>) returns (h: seq<byte>)
    ensures h == hash && h == hash + EncodeFields(fs[..0])
  {
    h := hash;
  }

  method HashParameter(hash: seq<byte>, g: Signature, i: nat) returns (h: seq<byte>)
    requires i < |g.parameters|
    ensures h == hash + EncodeFields(ParameterFields(g, i))
  {
    var fs := ParameterFields(g, i);
    h := HashNone(hash, fs);
    hide EncodeFields, EncodeField;
    h := HashField(h, hash, fs, 0);
    h := HashField(h, hash, fs, 1);
    h := HashField(h, hash, fs, 2);
    h := HashField(h, hash, fs, 3);
    h := HashField(h, hash, fs, 4);
    h := HashField(h, hash, fs, 5);
    h := HashField(h, hash, fs, 6);
    assert fs[..7] == fs;
  }

  method HashSignatureHeader(hash: seq<byte>, g: Signature) returns (h: seq<byte>)
    ensures h == hash + EncodeFields(SignatureHeader(g))
  {
    var fs := SignatureHeader(g);
    h := HashNone(hash, fs);
    hide EncodeFields, EncodeField;
    h := HashField(h, hash, fs, 0);
    h := HashField(h, hash, fs, 1);
    h := HashField(h, hash, fs, 2);
    h := HashField(h, hash, fs, 3);
    h := HashField(h, hash, fs, 4);
    h := HashField(h, hash, fs, 5);
    h := HashField(h, hash, fs, 6);
    assert fs[..7] == fs;
  }

  method HashFunctionSignature(hash: seq<byte>, g: Signature) returns (h: seq<byte>)
    ensures h == hash + EncodeItem(SignatureItem(g))
  {
    hide EncodeFields;
    h := HashSignatureHeader(hash, g);
    var i := 0;
    assert SignatureHeader(g) + ParametersFields(g, 0) == SignatureHeader(g);
    while i < |g.parameters|
      invariant i <= |g.parameters|
      invariant h == hash + EncodeFields(SignatureHeader(g) + ParametersFields(g, i))
    {
      EncodeFieldsConcat(SignatureHeader(g) + ParametersFields(g, i), ParameterFields(g, i));
      assert SignatureHeader(g) + ParametersFields(g, i + 1)
          == SignatureHeader(g) + ParametersFields(g, i) + ParameterFields(g, i);
      h := HashParameter(h, g, i);
      i := i + 1;
    }
  }

  // ---- the lazy fork ----

  method UpdateFingerprints(states: array<State>, file: nat, record: Record)
    requires file < states.Length
    modifies states
    ensures states[file] == Updated(old(states[file]), EncodeFields(RecordFields(record)), record.local)
    ensures forall k | 0 <= k < states.Length && k != file :: states[k] == old(states[k])
  {
    var state := states[file];
    if record.local {
      if !state.hasLocal {
        state := state.(hash1 := state.hash0, records1 := state.records0, hasLocal := true);
      }
      var h := HashRecord(state.hash1, record);
      states[file] := state.(hash1 := h, records1 := state.records1 + 1);
      return;
    }
    var h0 := HashRecord(state.hash0, record);
    state := state.(hash0 := h0, records0 := state.records0 + 1);
    if state.hasLocal {
      var h1 := HashRecord(state.hash1, record);
      state := state.(hash1 := h1, records1 := state.records1 + 1);
    }
    states[file] := state;
  }

  method UpdateFunctionSignatureFingerprint(states: array<State>, file: nat, g: Signature)
    requires file < states.Length
    modifies states
    ensures states[file] == Updated(old(states[file]), EncodeItem(SignatureItem(g)), false)
    ensures forall k | 0 <= k < states.Length && k != file :: states[k] == old(states[k])
  {
    var state := states[file];
    var h0 := HashFunctionSignature(state.hash0, g);
    state := state.(hash0 := h0, records0 := state.records0 + 1);
    if state.hasLocal {
      var h1 := HashFunctionSignature(state.hash1, g);
      state := state.(hash1 := h1, records1 := state.records1 + 1);
    }
    states[file] := state;
  }

  /** One record's bytes absorbed by the accumulators. */
  function Updated(st: State, bytes: seq<byte>, local: bool): State {
    if local then
      var first := if st.hasLocal then st.hash1 else st.hash0;
      var count := if st.hasLocal then st.records1 else st.records0;
      State(st.hash0, first + bytes, st.records0, count + 1, true)
    else
      State(st.hash0 + bytes, if st.hasLocal then st.hash1 + bytes else st.hash1, st.records0 + 1,
            if st.hasLocal then st.records1 + 1 else st.records1, st.hasLocal)
  }

  /** The accumulators against two full passes: one over the non-local items of the file, one over all. */
  ghost predicate Represents(st: State, items: seq<Item>, file: nat) {
    var nonlocal, all := Filter(items, file, false), Filter(items, file, true);
    && st.hash0 == EncodeItems(nonlocal) && st.records0 == |nonlocal|
    && if st.hasLocal then st.hash1 == EncodeItems(all) && st.records1 == |all| else nonlocal == all
  }

  lemma {:induction false} EncodeItemsAppend(xs: seq<Item>, x: Item)
    ensures EncodeItems(xs + [x]) == EncodeItems(xs) + EncodeItem(x)
  {
    hide EncodeItem;
    if xs == [] {
      assert [x][1..] == [];
    } else {
      assert (xs + [x])[1..] == xs[1..] + [x];
      EncodeItemsAppend(xs[1..], x);
    }
  }

  /** One more item keeps the accumulators equal to the two passes. */
  lemma ForkStep(st: State, items: seq<Item>, item: Item, file: nat)
    requires Represents(st, items, file)
    ensures Represents(if item.FileIndex() == file then Updated(st, EncodeItem(item), item.Local()) else st,
                       items + [item], file)
  {
    hide EncodeItem, EncodeItems;
    assert (items + [item])[..|items|] == items;
    EncodeItemsAppend(Filter(items, file, false), item);
    EncodeItemsAppend(Filter(items, file, true), item);
    assert Filter(items, file, false) + [] == Filter(items, file, false);
    assert Filter(items, file, true) + [] == Filter(items, file, true);
  }

  lemma StatesStep(before: seq<State>, after: seq<State>, items: seq<Item>, n: nat)
    requires n < |items| && |before| == |after|
    requires forall f | 0 <= f < |before| :: Represents(before[f], items[..n], f)
    requires forall f | 0 <= f < |before| ::
               after[f] == if items[n].FileIndex() == f then Updated(before[f], EncodeItem(items[n]), items[n].Local())
                           else before[f]
    ensures forall f | 0 <= f < |after| :: Represents(after[f], items[..n + 1], f)
  {
    hide EncodeItem, Represents;
    assert items[..n + 1] == items[..n] + [items[n]];
    forall f | 0 <= f < |after| ensures Represents(after[f], items[..n + 1], f) {
      ForkStep(before[f], items[..n], items[n], f);
    }
  }

  /** The two fingerprints of a file are what a pass over its non-local items and a pass over all its items give. */
  ghost predicate TwoPasses(nonlocal: FileFingerprint, all: FileFingerprint, items: seq<Item>, file: nat,
                            digest: seq<byte> -> Fingerprint)
  {
    && nonlocal == FileFingerprint(digest(EncodeItems(Filter(items, file, false))), |Filter(items, file, false)|)
    && all == FileFingerprint(digest(EncodeItems(Filter(items, file, true))), |Filter(items, file, true)|)
  }

  /** rebuildFingerprints. */
  method RebuildFingerprints(index: Index, fileCount: nat, digest: seq<byte> -> Fingerprint)
    returns (nonlocal: seq<FileFingerprint>, all: seq<FileFingerprint>)
    ensures |nonlocal| == |all| == fileCount
    ensures forall f | 0 <= f < fileCount :: TwoPasses(nonlocal[f], all[f], index.Items(), f, digest)
  {
    var states := new State[fileCount](_ => State([], [], 0, 0, false));
    forall f | 0 <= f < states.Length ensures Represents(states[..][f], index.Items()[..0], f) {
      NothingAbsorbed(index.Items(), f);
    }
    hide Represents, TwoPasses;
    AbsorbSymbols(index, states);
    AbsorbUses(index, states);
    AbsorbSignatures(index, states);
    nonlocal, all := FinishFingerprints(states[..], index.Items(), digest);
  }

  method FinishFingerprints(states: seq<State>, ghost items: seq<Item>, digest: seq<byte> -> Fingerprint)
    returns (nonlocal: seq<FileFingerprint>, all: seq<FileFingerprint>)
    requires forall f | 0 <= f < |states| :: Represents(states[f], items, f)
    ensures |nonlocal| == |all| == |states|
    ensures forall f | 0 <= f < |states| :: TwoPasses(nonlocal[f], all[f], items, f, digest)
  {
    hide TwoPasses, Represents;
    nonlocal, all := [], [];
    var f := 0;
    while f < |states|
      invariant f <= |states| && |nonlocal| == |all| == f
      invariant forall k | 0 <= k < f :: TwoPasses(nonlocal[k], all[k], items, k, digest)
    {
      var state := states[f];
      FinalFingerprints(state, items, f, digest);
      var nonlocalDigest := digest(state.hash0);
      var allDigest := if state.hasLocal then digest(state.hash1) else nonlocalDigest;
      nonlocal := nonlocal + [FileFingerprint(nonlocalDigest, state.records0)];
      all := all + [FileFingerprint(allDigest, if state.hasLocal then state.records1 else state.records0)];
      f := f + 1;
    }
  }

  lemma NothingAbsorbed(items: seq<Item>, f: nat)
    ensures Represents(State([], [], 0, 0, false), items[..0], f)
  {
  }

  lemma FinalFingerprints(st: State, items: seq<Item>, f: nat, digest: seq<byte> -> Fingerprint)
    requires Represents(st, items, f)
    ensures TwoPasses(FileFingerprint(digest(st.hash0), st.records0),
                      FileFingerprint(if st.hasLocal then digest(st.hash1) else digest(st.hash0),
                                      if st.hasLocal then st.records1 else st.records0), items, f, digest)
  {
  }

  method AbsorbSymbols(index: Index, states: array<State>)
    requires forall f | 0 <= f < states.Length :: Represents(states[..][f], index.Items()[..0], f)
    modifies states
    ensures forall f | 0 <= f < states.Length :: Represents(states[..][f], index.Items()[..|index.symbols|], f)
  {
    hide Represents, EncodeFields, Updated, RecordFields, ItemFields;
    var i := 0;
    while i < |index.symbols|
      invariant i <= |index.symbols|
      invariant forall f | 0 <= f < states.Length :: Represents(states[..][f], index.Items()[..i], f)
    {
      var s := index.symbols[i];
      ghost var before := states[..];
      if s.fileIndex < states.Length {
        UpdateFingerprints(states, s.fileIndex, SymbolRecord(s));
        SymbolRecordFields(s);
      }
      StatesStep(before, states[..], index.Items(), i);
      i := i + 1;
    }
  }

  lemma SymbolRecordFields(s: Symbol)
    ensures RecordFields(SymbolRecord(s)) == ItemFields(SymbolItem(s)) && SymbolRecord(s).local == s.local
  {
  }

  lemma UseRecordFields(u: Use)
    ensures RecordFields(UseRecord(u)) == ItemFields(UseItem(u)) && UseRecord(u).local == u.local
  {
  }

  method AbsorbUses(index: Index, states: array<State>)
    requires forall f | 0 <= f < states.Length :: Represents(states[..][f], index.Items()[..|index.symbols|], f)
    modifies states
    ensures forall f | 0 <= f < states.Length ::
              Represents(states[..][f], index.Items()[..|index.symbols| + |index.uses|], f)
  {
    hide Represents, EncodeFields, Updated, RecordFields, ItemFields;
    var i := 0;
    while i < |index.uses|
      invariant i <= |index.uses|
      invariant forall f | 0 <= f < states.Length :: Represents(states[..][f], index.Items()[..|index.symbols| + i], f)
    {
      var u := index.uses[i];
      ghost var before := states[..];
      if u.fileIndex < states.Length {
        UpdateFingerprints(states, u.fileIndex, UseRecord(u));
        UseRecordFields(u);
      }
      StatesStep(before, states[..], index.Items(), |index.symbols| + i);
      i := i + 1;
    }
  }

  method AbsorbSignatures(index: Index, states: array<State>)
    requires forall f | 0 <= f < states.Length ::
               Represents(states[..][f], index.Items()[..|index.symbols| + |index.uses|], f)
    modifies states
    ensures forall f | 0 <= f < states.Length :: Represents(states[..][f], index.Items(), f)
  {
    hide Represents, EncodeItem, Updated;
    var first := |index.symbols| + |index.uses|;
    var i := 0;
    while i < |index.signatures|
      invariant i <= |index.signatures|
      invariant forall f | 0 <= f < states.Length :: Represents(states[..][f], index.Items()[..first + i], f)
    {
      var g := index.signatures[i];
      ghost var before := states[..];
      if g.fileIndex < states.Length {
        UpdateFunctionSignatureFingerprint(states, g.fileIndex, g);
      }
      StatesStep(before, states[..], index.Items(), first + i);
      i := i + 1;
    }
    assert index.Items()[..first + |index.signatures|] == index.Items();
  }
}
