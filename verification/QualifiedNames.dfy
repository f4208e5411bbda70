/** The short name that the language server cuts off a stored name (tools/lsp/lsp_source.cpp). */
module QualifiedNames {
  import opened Index
  import opened StoreQueries

  /** A dot, or the second of two colons. */
  predicate EndsSeparator(symbol: Text, i: nat)
    requires i < |symbol|
  {
    symbol[i] == 46 || SecondColon(symbol, i)
  }

  /** Nothing from place n on is a separator, and what is before ends in one. */
  predicate BehindLast(symbol: Text, n: nat)
    requires n <= |symbol|
  {
    (forall i | n <= i < |symbol| :: !EndsSeparator(symbol, i)) && (n > 0 ==> EndsSeparator(symbol, n - 1))
  }

  /** What is behind the last separator. */
  predicate IsLeaf(symbol: Text, leaf: Text) {
    exists n | 0 <= n <= |symbol| :: symbol[n..] == leaf && BehindLast(symbol, n)
  }

  /** Where the last separator seen among the first p characters ends, a pair that ends at p included. */
  function LastSeparator(symbol: Text, p: nat): (last: int)
    requires p <= |symbol|
    ensures -1 <= last <= p && last < |symbol|
  {
    if p == 0 then -1
    else if p < |symbol| && symbol[p - 1] == 58 && symbol[p] == 58 then p
    else if symbol[p - 1] == 46 then p - 1
    else LastSeparator(symbol, p - 1)
  }

  method QualifiedLeaf(symbol: Text) returns (leaf: Text)
    ensures IsLeaf(symbol, leaf)
  {
    hide BehindLast;
    var last := -1;
    for p := 0 to |symbol|
      invariant last == LastSeparator(symbol, p)
    {
      if symbol[p] == 46 {
        last := p;
      }
      if p + 1 < |symbol| && symbol[p] == 58 && symbol[p + 1] == 58 && (last == -1 || p >= last) {
        last := p + 1;
      }
    }
    leaf := symbol[last + 1..];
    AllTracked(symbol);
  }

  /** last is the last separator among the first p characters, or the second colon at p of a pair that began before. */
  predicate Tracks(symbol: Text, p: nat, last: int)
    requires p <= |symbol| && -1 <= last < |symbol|
  {
    && last <= p && (last >= 0 ==> EndsSeparator(symbol, last))
    && (forall i | last < i < p :: !EndsSeparator(symbol, i))
    && (last < p < |symbol| ==> !SecondColon(symbol, p))
  }

  lemma {:induction false} LastIsTracked(symbol: Text, p: nat)
    requires p <= |symbol|
    ensures Tracks(symbol, p, LastSeparator(symbol, p))
  {
    if p > 0 {
      LastIsTracked(symbol, p - 1);
    }
  }

  lemma AllTracked(symbol: Text)
    ensures BehindLast(symbol, LastSeparator(symbol, |symbol|) + 1)
  {
    hide EndsSeparator, SecondColon, LastSeparator;
    LastIsTracked(symbol, |symbol|);
  }

  predicate SecondColon(symbol: Text, i: nat)
    requires i < |symbol|
  {
    i > 0 && symbol[i - 1] == 58 && symbol[i] == 58
  }

  /** The name has no separator, and does not make one with the two colons before it. */
  predicate IsPlain(owner: Text, name: Text) {
    && (forall i | 0 <= i < |name| :: !EndsSeparator(name, i))
    && !(owner != [] && HasScope(owner) && name != [] && name[0] == 58)
  }

  /** The short name of a stored name is the symbol's own name exactly when that is plain. */
  lemma LeafOfQualified(owner: Text, name: Text, symbol: Text, leaf: Text)
    requires Qualified(owner, name, symbol) && IsLeaf(symbol, leaf)
    ensures leaf == name <==> IsPlain(owner, name)
  {
    var start :| 0 <= start <= |symbol| && symbol[start..] == leaf && BehindLast(symbol, start);
    BeforeName(owner, name, symbol);
    var n := |symbol| - |name|;
    assert |leaf| == |symbol| - start;
    if leaf == name {
      forall i | 0 <= i < |name| ensures !EndsSeparator(name, i) {
        NamePlace(owner, name, symbol, i);
        assert !EndsSeparator(symbol, n + i);
      }
      if name != [] {
        NamePlace(owner, name, symbol, 0);
      }
    }
    if IsPlain(owner, name) {
      if start > n {
        NamePlace(owner, name, symbol, start - 1 - n);
      }
    }
  }

  /** A place of the name in the stored name. */
  lemma NamePlace(owner: Text, name: Text, symbol: Text, i: nat)
    requires Qualified(owner, name, symbol) && i < |name|
    ensures |symbol| >= |name|
    ensures EndsSeparator(symbol, |symbol| - |name| + i) <==>
              EndsSeparator(name, i) || (i == 0 && owner != [] && HasScope(owner) && name[0] == 58)
  {
    BeforeName(owner, name, symbol);
    var n := |symbol| - |name|;
    assert symbol[n..][i] == symbol[n + i];
    if i > 0 {
      assert symbol[n..][i - 1] == symbol[n + i - 1];
    }
  }

  lemma BeforeName(owner: Text, name: Text, symbol: Text)
    requires Qualified(owner, name, symbol)
    ensures |symbol| >= |name| && symbol[|symbol| - |name|..] == name
    ensures owner == [] ==> |symbol| == |name|
    ensures owner != [] ==> var n := |symbol| - |name|;
                            && n > 0 && symbol[n - 1] == (if HasScope(owner) then 58 else 46)
                            && EndsSeparator(symbol, n - 1)
  {
    if owner != [] {
      var separator: Text := if HasScope(owner) then [58, 58] else [46];
      var tail := symbol[|owner|..];
      assert tail == separator + name;
      assert symbol == symbol[..|owner|] + tail;
      assert symbol[|owner|] == separator[0] && symbol[|owner| + |separator| - 1] == separator[|separator| - 1];
    }
  }
}
