/** Expansion of `@file` response-file arguments (`expand_response_files`). */
module ResponseFiles {
  import opened Wrappers

  /** Why an expansion failed; `path` is the argument with its leading '@' removed. */
  datatype ExpandError =
    | ReadError(path: string)    // the file could not be read
    | SyntaxError(path: string)  // its contents are not valid shell syntax

  type Expansion = Result<seq<string>, ExpandError>

  /** Reading a file by path; None when it cannot be read. */
  type Reader = string -> Option<string>

  /** Shell-style tokenisation of a file's contents; None on invalid syntax. */
  type Splitter = string -> Option<seq<string>>

  predicate IsResponseRef(arg: string) {
    |arg| > 0 && arg[0] == '@'
  }

  /** Removes exactly one leading '@', as `strip_prefix('@')` does. */
  function StripAt(arg: string): (path: Option<string>)
    ensures path.Some? <==> IsResponseRef(arg)
    ensures path.Some? ==> arg == ['@'] + path.value
  {
    if IsResponseRef(arg) then Some(arg[1..]) else None
  }

  /** The expansion of a single argument. */
  function ExpandArg(arg: string, read: Reader, split: Splitter): (r: Expansion)
    // an argument without '@' is copied through unchanged, and nothing is read
    ensures !IsResponseRef(arg) ==> r == Success([arg])
    // every failure names the argument minus its '@'
    ensures r.Failure? ==> IsResponseRef(arg) && r.error.path == arg[1..]
    ensures IsResponseRef(arg) && read(arg[1..]).None? ==> r == Failure(ReadError(arg[1..]))
    ensures (IsResponseRef(arg) && read(arg[1..]).Some? && split(read(arg[1..]).value).None?)
            ==> r == Failure(SyntaxError(arg[1..]))
    // the tokens of the file, verbatim: they are not expanded a second time
    ensures (IsResponseRef(arg) && read(arg[1..]).Some? && split(read(arg[1..]).value).Some?)
            ==> r == Success(split(read(arg[1..]).value).value)
  {
    match StripAt(arg)
    case None => Success([arg])
    case Some(path) =>
      match read(path)
      case None => Failure(ReadError(path))
      case Some(contents) =>
        match split(contents)
        case None => Failure(SyntaxError(path))
        case Some(tokens) => Success(tokens)
  }

  /** Concatenation of two expansions; the first failure wins. */
  function Concat(a: Expansion, b: Expansion): Expansion {
    match a
    case Failure(e) => Failure(e)
    case Success(x) =>
      match b
      case Failure(e) => Failure(e)
      case Success(y) => Success(x + y)
  }

  /** The expansion of a whole argument list, element by element, left to right. */
  function Expand(args: seq<string>, read: Reader, split: Splitter): Expansion {
    if args == [] then Success([])
    else Concat(ExpandArg(args[0], read, split), Expand(args[1..], read, split))
  }

  lemma ConcatAssociative(a: Expansion, b: Expansion, c: Expansion)
    ensures Concat(Concat(a, b), c) == Concat(a, Concat(b, c))
  {
    if a.Success? && b.Success? && c.Success? {
      assert (a.value + b.value) + c.value == a.value + (b.value + c.value);
    }
  }

  lemma ConcatEmpty(a: Expansion)
    ensures Concat(a, Success([])) == a
  {
    if a.Success? {
      assert a.value + [] == a.value;
    }
  }

  /** Expansion is a homomorphism from concatenation of argument lists to
      concatenation of expansions: successes are joined, and the first failure in
      list order is the failure of the whole. */
  lemma {:induction false} ExpandAppend(a: seq<string>, b: seq<string>, read: Reader, split: Splitter)
    ensures Expand(a + b, read, split) == Concat(Expand(a, read, split), Expand(b, read, split))
  {
    if a == [] {
      assert a + b == b;
      var eb := Expand(b, read, split);
      if eb.Success? {
        assert [] + eb.value == eb.value;
      }
    } else {
      assert (a + b)[0] == a[0];
      assert (a + b)[1..] == a[1..] + b;
      ExpandAppend(a[1..], b, read, split);
      ConcatAssociative(ExpandArg(a[0], read, split), Expand(a[1..], read, split), Expand(b, read, split));
    }
  }

  /** When both halves expand, the expansion of the whole is the two joined. */
  lemma {:induction false} ExpandDistributes(a: seq<string>, b: seq<string>, read: Reader, split: Splitter)
    requires Expand(a, read, split).Success? && Expand(b, read, split).Success?
    ensures Expand(a + b, read, split)
            == Success(Expand(a, read, split).value + Expand(b, read, split).value)
  {
    ExpandAppend(a, b, read, split);
  }

  lemma ExpandSingle(arg: string, read: Reader, split: Splitter)
    ensures Expand([arg], read, split) == ExpandArg(arg, read, split)
  {
    assert [arg][1..] == [];
    ConcatEmpty(ExpandArg(arg, read, split));
  }

  /** Each argument is replaced at its own position: the expansion is that of
      the arguments before it, then its own, then that of the arguments after it. */
  lemma {:induction false} ExpandInPlace(args: seq<string>, i: nat, read: Reader, split: Splitter)
    requires i < |args|
    ensures Expand(args, read, split)
            == Concat(Expand(args[..i], read, split),
                      Concat(ExpandArg(args[i], read, split), Expand(args[i + 1..], read, split)))
  {
    assert args == args[..i] + ([args[i]] + args[i + 1..]);
    ExpandAppend(args[..i], [args[i]] + args[i + 1..], read, split);
    ExpandAppend([args[i]], args[i + 1..], read, split);
    ExpandSingle(args[i], read, split);
  }

  /** Without '@' arguments, expansion is the identity, whatever the files hold. */
  lemma {:induction false} ExpandIdentity(args: seq<string>, read: Reader, split: Splitter)
    requires forall i :: 0 <= i < |args| ==> !IsResponseRef(args[i])
    ensures Expand(args, read, split) == Success(args)
  {
    if args != [] {
      ExpandIdentity(args[1..], read, split);
      assert [args[0]] + args[1..] == args;
    }
  }

  /** Expansion succeeds exactly when every argument expands. */
  lemma {:induction false} ExpandSucceeds(args: seq<string>, read: Reader, split: Splitter)
    ensures Expand(args, read, split).Success?
            <==> forall i :: 0 <= i < |args| ==> ExpandArg(args[i], read, split).Success?
  {
    if args != [] {
      ExpandSucceeds(args[1..], read, split);
      forall i | 0 < i < |args|
        ensures ExpandArg(args[i], read, split) == ExpandArg(args[1..][i - 1], read, split)
      {
      }
    }
  }

  /** The first argument that fails to expand decides the error of the whole;
      no partial result is returned. */
  lemma {:induction false} ExpandFirstFailure(args: seq<string>, i: nat, read: Reader, split: Splitter)
    requires i < |args|
    requires ExpandArg(args[i], read, split).Failure?
    requires forall j :: 0 <= j < i ==> ExpandArg(args[j], read, split).Success?
    ensures Expand(args, read, split) == ExpandArg(args[i], read, split)
  {
    ExpandSucceeds(args[..i], read, split);
    ExpandInPlace(args, i, read, split);
  }

  /** Conversely, a failed expansion has such a first failing argument. */
  lemma {:induction false} ExpandFailureCause(args: seq<string>, read: Reader, split: Splitter)
    requires Expand(args, read, split).Failure?
    ensures exists i :: 0 <= i < |args| && ExpandArg(args[i], read, split) == Expand(args, read, split)
                        && forall j :: 0 <= j < i ==> ExpandArg(args[j], read, split).Success?
  {
    if ExpandArg(args[0], read, split).Success? {
      ExpandFailureCause(args[1..], read, split);
      var k :| 0 <= k < |args[1..]| && ExpandArg(args[1..][k], read, split) == Expand(args[1..], read, split)
               && forall j :: 0 <= j < k ==> ExpandArg(args[1..][j], read, split).Success?;
      assert forall j :: 0 < j <= k ==> args[j] == args[1..][j - 1];
      assert ExpandArg(args[k + 1], read, split) == Expand(args, read, split);
    } else {
      assert ExpandArg(args[0], read, split) == Expand(args, read, split);
    }
  }

  /** An argument's expansion depends on nothing but the contents of the file it
      names; an argument without '@' reads no file at all. */
  lemma ReadsOnlyNamed(arg: string, read: Reader, read': Reader, split: Splitter)
    requires IsResponseRef(arg) ==> read(arg[1..]) == read'(arg[1..])
    ensures ExpandArg(arg, read, split) == ExpandArg(arg, read', split)
  {
  }

  /** The same for a whole list: only the files its '@' arguments name matter. */
  lemma {:induction false} ExpandReadsOnlyReferenced(args: seq<string>, read: Reader, read': Reader, split: Splitter)
    requires forall i :: 0 <= i < |args| && IsResponseRef(args[i]) ==> read(args[i][1..]) == read'(args[i][1..])
    ensures Expand(args, read, split) == Expand(args, read', split)
  {
    if args != [] {
      ReadsOnlyNamed(args[0], read, read', split);
      assert forall i :: 0 <= i < |args[1..]| ==> args[1..][i] == args[i + 1];
      ExpandReadsOnlyReferenced(args[1..], read, read', split);
    }
  }

  /** The tokens of a referenced file land verbatim at that argument's position,
      whatever they are: tokens starting with '@' are not expanded again. */
  lemma {:induction false} TokensVerbatim(args: seq<string>, i: nat, read: Reader, split: Splitter, tokens: seq<string>)
    requires i < |args| && IsResponseRef(args[i])
    requires read(args[i][1..]).Some? && split(read(args[i][1..]).value) == Some(tokens)
    requires Expand(args[..i], read, split).Success? && Expand(args[i + 1..], read, split).Success?
    ensures Expand(args, read, split)
            == Success(Expand(args[..i], read, split).value + tokens + Expand(args[i + 1..], read, split).value)
  {
    ExpandInPlace(args, i, read, split);
    var x, y := Expand(args[..i], read, split).value, Expand(args[i + 1..], read, split).value;
    assert x + (tokens + y) == x + tokens + y;
  }

  /** Referenced files are not expanded recursively: a response file whose only
      token is `@inner` yields `@inner` itself, although `inner` is readable. */
  lemma NestedReferenceKeptVerbatim()
    ensures Expand(["@outer"],
                   (p: string) => if p == "outer" then Some("@inner") else if p == "inner" then Some("x") else None,
                   (c: string) => Some([c]))
            == Success(["@inner"])
  {
    var read := (p: string) => if p == "outer" then Some("@inner") else if p == "inner" then Some("x") else None;
    var split := (c: string) => Some([c]);
    assert "@outer"[1..] == "outer";
    ExpandSingle("@outer", read, split);
  }

  /** The loop of `expand_response_files`: a result list grown argument by
      argument, returning at the first failure. */
  method ExpandResponseFiles(args: seq<string>, read: Reader, split: Splitter)
    returns (r: Expansion)
    ensures r == Expand(args, read, split)
  {
    var result: seq<string> := [];
    for i := 0 to |args|
      invariant Expand(args[..i], read, split) == Success(result)
    {
      var arg := args[i];
      ExpandInPlace(args, i, read, split);
      assert args[..i + 1] == args[..i] + [arg];
      ExpandAppend(args[..i], [arg], read, split);
      ExpandSingle(arg, read, split);
      var stripped := StripAt(arg);
      if stripped.Some? {
        var path := stripped.value;
        var contents := read(path);
        if contents.None? {
          return Failure(ReadError(path));
        }
        var parsed := split(contents.value);
        if parsed.None? {
          return Failure(SyntaxError(path));
        }
        result := result + parsed.value;
      } else {
        result := result + [arg];
      }
    }
    assert args[..|args|] == args;
    return Success(result);
  }
}
