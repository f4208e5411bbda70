/** Compiler arguments in the command database (lib/semindex_command_db): packed into one blob of C strings, unpacked
    into pointers, and exported as a JSON array. */
module Arguments {
  import opened Index

  const NUL: byte := 0
  const SIZE_MAX: nat := 0xffff_ffff_ffff_ffff

  // ---- the blob ----

  predicate NulFree(args: seq<Text>) {
    forall arg | arg in args :: NUL !in arg
  }

  function Packed(args: seq<Text>): Text {
    if args == [] then [] else Packed(args[..|args| - 1]) + args[|args| - 1] + [NUL]
  }

  /** strlen from an offset, as the place of the terminator; the end of the blob if there is none. */
  function Terminator(blob: Text, from: nat): (end: nat)
    requires from <= |blob|
    ensures from <= end <= |blob| && NUL !in blob[from..end] && (end < |blob| ==> blob[end] == NUL)
    decreases |blob| - from
  {
    if from == |blob| || blob[from] == NUL then from else Terminator(blob, from + 1)
  }

  /** The terminated strings from an offset on. */
  function Strings(blob: Text, offset: nat): seq<Text>
    requires offset <= |blob|
    decreases |blob| - offset
  {
    var end := Terminator(blob, offset);
    if end == |blob| then [] else [blob[offset..end]] + Strings(blob, end + 1)
  }

  predicate WellFormed(blob: Text) {
    blob != [] && blob[|blob| - 1] == NUL
  }

  // ---- pack_arguments ----

  /** None when the sizes overflow; the blob is filled through a moving place. */
  method PackArguments(args: seq<Text>) returns (blob: array?<byte>)
    ensures blob == null <==> |Packed(args)| > SIZE_MAX
    ensures blob != null ==> fresh(blob) && blob[..] == Packed(args)
  {
    var total: nat := 0;
    for i := 0 to |args|
      invariant total == |Packed(args[..i])| <= SIZE_MAX
    {
      assert args[..i + 1][..i] == args[..i];
      var len := |args[i]| + 1;
      if len > SIZE_MAX - total {
        PackedGrows(args, i + 1);
        return null;
      }
      total := total + len;
    }
    assert args[..|args|] == args;
    blob := new byte[total];
    var p: nat := 0;
    for i := 0 to |args|
      invariant fresh(blob) && blob.Length == |Packed(args)| == total
      invariant p == |Packed(args[..i])| <= total && blob[..p] == Packed(args[..i])
    {
      assert args[..i + 1][..i] == args[..i];
      PackedGrows(args, i + 1);
      CopyString(blob, p, args[i]);
      p := p + |args[i]| + 1;
    }
  }

  /** memcpy of a string with its terminator. */
  method CopyString(blob: array<byte>, p: nat, arg: Text)
    requires p + |arg| + 1 <= blob.Length
    modifies blob
    ensures blob[..p + |arg| + 1] == old(blob[..p]) + arg + [NUL]
  {
    for j := 0 to |arg|
      invariant blob[..p + j] == old(blob[..p]) + arg[..j]
    {
      blob[p + j] := arg[j];
      assert blob[..p + j + 1] == blob[..p + j] + [arg[j]];
      assert arg[..j + 1] == arg[..j] + [arg[j]];
    }
    blob[p + |arg|] := NUL;
    assert blob[..p + |arg| + 1] == blob[..p + |arg|] + [NUL];
  }

  lemma {:induction false} PackedGrows(args: seq<Text>, n: nat)
    requires n <= |args|
    ensures |Packed(args[..n])| <= |Packed(args)|
    decreases |args|
  {
    if n < |args| {
      var front := args[..|args| - 1];
      PackedGrows(front, n);
      assert front[..n] == args[..n];
    } else {
      assert args[..n] == args;
    }
  }

  // ---- unpack_arguments ----

  function Nuls(blob: Text): nat {
    if blob == [] then 0 else Nuls(blob[..|blob| - 1]) + if blob[|blob| - 1] == NUL then 1 else 0
  }

  /** The strings that pointers into a blob stand for. */
  function Pointed(blob: Text, pointers: seq<nat>): seq<Text>
    requires forall i | 0 <= i < |pointers| :: pointers[i] <= |blob|
  {
    seq(|pointers|, i requires 0 <= i < |pointers| => blob[pointers[i]..Terminator(blob, pointers[i])])
  }

  lemma {:induction false} NulsConcat(a: Text, b: Text)
    ensures Nuls(a + b) == Nuls(a) + Nuls(b)
    decreases |b|
  {
    if b == [] {
      assert a + b == a;
    } else {
      assert (a + b)[..|a + b| - 1] == a + b[..|b| - 1];
      NulsConcat(a, b[..|b| - 1]);
    }
  }

  lemma {:induction false} NoNuls(blob: Text)
    requires NUL !in blob
    ensures Nuls(blob) == 0
  {
    if blob != [] {
      assert blob[|blob| - 1] in blob;
      NoNuls(blob[..|blob| - 1]);
    }
  }

  /** There are as many strings as terminators. */
  lemma {:induction false} StringsAreTerminated(blob: Text, offset: nat)
    requires offset <= |blob|
    ensures |Strings(blob, offset)| == Nuls(blob[offset..])
    decreases |blob| - offset
  {
    var end := Terminator(blob, offset);
    NoNuls(blob[offset..end]);
    if end == |blob| {
      assert blob[offset..] == blob[offset..end];
    } else {
      assert blob[offset..] == blob[offset..end] + [NUL] + blob[end + 1..];
      assert [NUL][..0] == [];
      assert Nuls([NUL]) == 1;
      NulsConcat(blob[offset..end], [NUL]);
      NulsConcat(blob[offset..end] + [NUL], blob[end + 1..]);
      StringsAreTerminated(blob, end + 1);
    }
  }

  lemma NothingPointed(blob: Text)
    ensures Pointed(blob, []) == []
  {
  }

  lemma NextString(blob: Text, before: seq<nat>, offset: nat)
    requires (forall i | 0 <= i < |before| :: before[i] <= |blob|) && offset <= |blob| && Strings(blob, offset) != []
    ensures var end := Terminator(blob, offset);
            && end < |blob| && |Strings(blob, end + 1)| == |Strings(blob, offset)| - 1
            && Pointed(blob, before) + Strings(blob, offset)
               == Pointed(blob, before + [offset]) + Strings(blob, end + 1)
  {
    var end := Terminator(blob, offset);
    assert Pointed(blob, before + [offset]) == Pointed(blob, before) + [blob[offset..end]];
  }

  class Command {
    var arguments: array<byte>
    var argv: array<nat>   // pointers into arguments

    constructor ()
      ensures fresh(arguments) && fresh(argv)
    {
      arguments := new byte[0];
      argv := new nat[0];
    }

    /** false for a blob that is empty or does not end in a terminator. */
    method UnpackArguments(blob: Text) returns (ok: bool)
      modifies this
      ensures ok <==> WellFormed(blob)
      ensures ok ==> fresh(arguments) && fresh(argv) && arguments[..] == blob && argv.Length == Nuls(blob)
      ensures ok ==>
                (forall i | 0 <= i < argv.Length :: argv[i] <= |blob|) && Pointed(blob, argv[..]) == Strings(blob, 0)
      ensures !ok ==> arguments == old(arguments) && argv == old(argv)
    {
      if blob == [] || blob[|blob| - 1] != NUL {
        return false;
      }
      var argc := CountTerminators(blob);
      arguments := new byte[|blob|](i requires 0 <= i < |blob| => blob[i]);
      argv := new nat[argc](i => 0);
      assert arguments[..] == blob;
      FillArgv();
      return true;
    }

    method CountTerminators(blob: Text) returns (argc: nat)
      ensures argc == Nuls(blob)
    {
      argc := 0;
      for i := 0 to |blob|
        invariant argc == Nuls(blob[..i])
      {
        assert blob[..i + 1][..i] == blob[..i];
        if blob[i] == NUL {
          argc := argc + 1;
        }
      }
      assert blob[..|blob|] == blob;
    }

    method FillArgv()
      requires argv.Length == Nuls(arguments[..])
      modifies argv
      ensures forall i | 0 <= i < argv.Length :: argv[i] <= arguments.Length
      ensures Pointed(arguments[..], argv[..]) == Strings(arguments[..], 0)
    {
      hide Nuls, Terminator, Pointed, Strings;
      ghost var blob := arguments[..];
      StringsAreTerminated(blob, 0);
      NothingPointed(blob);
      assert argv[..0] == [] && [] + Strings(blob, 0) == Strings(blob, 0);
      assert blob[0..] == blob;
      var offset: nat := 0;
      for i := 0 to argv.Length
        invariant offset <= |blob| && |Strings(blob, offset)| == argv.Length - i && arguments[..] == blob
        invariant forall j | 0 <= j < i :: argv[j] <= |blob|
        invariant Strings(blob, 0) == Pointed(blob, argv[..i]) + Strings(blob, offset)
      {
        ghost var before := argv[..i];
        argv[i] := offset;
        var end := StringLength(offset);
        assert argv[..i + 1] == before + [offset];
        NextString(blob, before, offset);
        offset := end + 1;
      }
      assert argv[..argv.Length] == argv[..];
      assert Strings(blob, offset) == [];
      assert Pointed(blob, argv[..]) + [] == Pointed(blob, argv[..]);
    }

    /** strlen of the string that starts at an offset. */
    method StringLength(offset: nat) returns (end: nat)
      requires offset <= arguments.Length
      ensures end == Terminator(arguments[..], offset)
    {
      end := offset;
      while end < arguments.Length && arguments[end] != NUL
        invariant offset <= end <= arguments.Length
        invariant Terminator(arguments[..], offset) == Terminator(arguments[..], end)
      {
        end := end + 1;
      }
    }
  }

  // ---- packing and unpacking are inverse ----

  lemma {:induction false} TerminatorLocal(blob: Text, more: Text, from: nat)
    requires from <= |blob|
    ensures Terminator(blob, from) < |blob| ==> Terminator(blob + more, from) == Terminator(blob, from)
    decreases |blob| - from
  {
    if from < |blob| && blob[from] != NUL {
      TerminatorLocal(blob, more, from + 1);
    }
  }

  lemma {:induction false} TerminatorFound(blob: Text, from: nat)
    requires from < |blob| && blob[|blob| - 1] == NUL
    ensures Terminator(blob, from) < |blob|
    decreases |blob| - from
  {
    if blob[from] != NUL {
      TerminatorFound(blob, from + 1);
    }
  }

  lemma {:induction false} TerminatorOf(blob: Text, arg: Text, from: nat)
    requires NUL !in arg && from <= |arg|
    ensures Terminator(blob + arg + [NUL], |blob| + from) == |blob| + |arg|
    decreases |arg| - from
  {
    if from < |arg| {
      assert (blob + arg + [NUL])[|blob| + from] == arg[from];
      assert arg[from] in arg;
      TerminatorOf(blob, arg, from + 1);
    }
  }

  lemma StringsStep(blob: Text, offset: nat)
    requires offset <= |blob| && Terminator(blob, offset) < |blob|
    ensures Strings(blob, offset)
            == [blob[offset..Terminator(blob, offset)]] + Strings(blob, Terminator(blob, offset) + 1)
  {
  }

  lemma OneString(blob: Text, arg: Text)
    requires NUL !in arg
    ensures Strings(blob + arg + [NUL], |blob|) == [arg]
  {
    var longer := blob + arg + [NUL];
    TerminatorOf(blob, arg, 0);
    hide Terminator;
    StringsStep(longer, |blob|);
    assert longer[|blob|..|blob| + |arg|] == arg;
    NoString(longer);
  }

  lemma NoString(blob: Text)
    ensures Strings(blob, |blob|) == []
  {
  }

  lemma {:induction false} StringsAppend(blob: Text, arg: Text, offset: nat)
    requires NUL !in arg && offset <= |blob| && (blob != [] ==> blob[|blob| - 1] == NUL)
    ensures Strings(blob + arg + [NUL], offset) == Strings(blob, offset) + [arg]
    decreases |blob| - offset
  {
    hide Terminator, Strings;
    var longer := blob + arg + [NUL];
    if offset == |blob| {
      OneString(blob, arg);
      NoString(blob);
    } else {
      var end := Terminator(blob, offset);
      TerminatorFound(blob, offset);
      TerminatorLocal(blob, arg + [NUL], offset);
      assert longer == blob + (arg + [NUL]);
      assert longer[offset..end] == blob[offset..end];
      StringsStep(blob, offset);
      StringsStep(longer, offset);
      StringsAppend(blob, arg, end + 1);
    }
  }

  /** Unpacking what was packed gives the arguments back, empty ones included. */
  lemma {:induction false} PackRoundTrip(args: seq<Text>)
    requires NulFree(args)
    ensures Strings(Packed(args), 0) == args
    ensures WellFormed(Packed(args)) <==> args != []
  {
    if args != [] {
      var n := |args| - 1;
      PackRoundTrip(args[..n]);
      assert args[n] in args;
      StringsAppend(Packed(args[..n]), args[n], 0);
      assert args == args[..n] + [args[n]];
    }
  }

  lemma {:induction false} PackedConcat(a: seq<Text>, b: seq<Text>)
    ensures Packed(a + b) == Packed(a) + Packed(b)
    decreases |b|
  {
    if b == [] {
      assert a + b == a;
    } else {
      assert (a + b)[..|a + b| - 1] == a + b[..|b| - 1];
      PackedConcat(a, b[..|b| - 1]);
    }
  }

  /** Every blob that is accepted is the packing of its own strings. */
  lemma {:induction false} UnpackRoundTrip(blob: Text, offset: nat)
    requires offset <= |blob| && (offset < |blob| ==> blob[|blob| - 1] == NUL)
    ensures Packed(Strings(blob, offset)) == blob[offset..] && NulFree(Strings(blob, offset))
    decreases |blob| - offset
  {
    hide Terminator, Strings;
    var end := Terminator(blob, offset);
    if offset < |blob| {
      TerminatorFound(blob, offset);
      StringsStep(blob, offset);
      UnpackRoundTrip(blob, end + 1);
      PackedFirst(blob[offset..end], Strings(blob, end + 1));
      assert blob[offset..] == blob[offset..end] + [NUL] + blob[end + 1..];
    } else {
      NoString(blob);
      assert blob[offset..] == [];
    }
  }

  lemma PackedFirst(first: Text, rest: seq<Text>)
    ensures Packed([first] + rest) == first + [NUL] + Packed(rest)
  {
    PackedConcat([first], rest);
    assert [first][..0] == [];
    assert Packed([first]) == first + [NUL];
  }

  /** The blobs that unpack_arguments accepts are the packed non-empty vectors. */
  lemma AcceptedBlobs(blob: Text)
    ensures WellFormed(blob) <==> exists args :: args != [] && NulFree(args) && Packed(args) == blob
  {
    if WellFormed(blob) {
      UnpackRoundTrip(blob, 0);
      assert blob[0..] == blob;
      assert Strings(blob, 0) != [];
    }
    if args :| args != [] && NulFree(args) && Packed(args) == blob {
      PackRoundTrip(args);
    }
  }
}
