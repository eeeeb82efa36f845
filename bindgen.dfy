/** The request that the command-line front end builds for the binding generator. */
module Bindgen {
  import opened Wrappers
  import opened ResponseFiles

  /** The parsed command line. */
  datatype Args = Args(
    header: string,
    out: string,
    allowlistFunction: seq<string>,
    allowlistType: seq<string>,
    allowlistVar: seq<string>,
    opaqueType: seq<string>,
    enableCxxNamespaces: bool,
    generateTypes: bool,
    generateFunctions: bool,
    generateMethods: bool,
    generateVars: bool,
    clangArgs: seq<string>)

  /** The generator's code-generation categories. The command line can select
      the first four; the generator's "all" also holds constructors and destructors. */
  datatype Category = Types | Functions | Methods | Vars | Constructors | Destructors

  const AllCategories: set<Category> := {Types, Functions, Methods, Vars, Constructors, Destructors}

  /** Whether a `--generate-*` flag asks for category `c`. */
  predicate Requested(args: Args, c: Category) {
    match c
    case Types => args.generateTypes
    case Functions => args.generateFunctions
    case Methods => args.generateMethods
    case Vars => args.generateVars
    case Constructors => false
    case Destructors => false
  }

  /** Whether any `--generate-*` flag is set. */
  predicate AnyRequested(args: Args) {
    args.generateTypes || args.generateFunctions || args.generateMethods || args.generateVars
  }

  /** A flag is set exactly when some category is requested. */
  lemma AnyRequestedIsSomeCategory(args: Args)
    ensures AnyRequested(args) <==> exists c :: Requested(args, c)
  {
    if args.generateTypes { assert Requested(args, Types); }
    if args.generateFunctions { assert Requested(args, Functions); }
    if args.generateMethods { assert Requested(args, Methods); }
    if args.generateVars { assert Requested(args, Vars); }
  }

  /** The effective codegen set: the union of the requested categories, or all
      categories when none is requested. */
  method SelectCodegen(args: Args) returns (codegen: set<Category>)
    ensures codegen != {}
    ensures AnyRequested(args) ==> forall c :: c in codegen <==> Requested(args, c)
    ensures !AnyRequested(args) ==> forall c :: c in codegen
  {
    codegen := {};
    if args.generateTypes {
      codegen := codegen + {Types};
    }
    if args.generateFunctions {
      codegen := codegen + {Functions};
    }
    if args.generateMethods {
      codegen := codegen + {Methods};
    }
    if args.generateVars {
      codegen := codegen + {Vars};
    }
    if codegen == {} {
      codegen := AllCategories;
      forall c: Category ensures c in codegen {
        match c
        case Types => case Functions => case Methods => case Vars =>
        case Constructors => case Destructors =>
      }
    }
  }

  /** The generator's builder, which the front end threads through by value. */
  datatype Builder = Builder(
    header: string,
    allowlistFunctions: seq<string>,
    allowlistTypes: seq<string>,
    allowlistVars: seq<string>,
    opaqueTypes: seq<string>,
    cxxNamespaces: bool,
    codegen: set<Category>,
    clangArgs: Option<seq<string>>)

  /** A fresh builder for a header, with the generator's defaults. */
  function NewBuilder(header: string): Builder {
    Builder(header, [], [], [], [], false, AllCategories, None)
  }

  datatype Error =
    | LoadError                            // libclang could not be loaded
    | ResponseFileError(cause: ExpandError)

  /** Everything the front end does before generation: load libclang, build the
      request from the command line, expand the extra clang arguments and attach
      them when there are any. */
  method Configure(args: Args, libclangLoaded: bool, read: Reader, split: Splitter)
    returns (r: Result<Builder, Error>)
    ensures !libclangLoaded ==> r == Failure(LoadError)
    ensures libclangLoaded && Expand(args.clangArgs, read, split).Failure?
            ==> r == Failure(ResponseFileError(Expand(args.clangArgs, read, split).error))
    ensures libclangLoaded && Expand(args.clangArgs, read, split).Success? ==> r.Success?
    ensures r.Success? ==>
      var b := r.value;
      var expanded := Expand(args.clangArgs, read, split);
      && b.header == args.header
      && b.allowlistFunctions == args.allowlistFunction
      && b.allowlistTypes == args.allowlistType
      && b.allowlistVars == args.allowlistVar
      && b.opaqueTypes == args.opaqueType
      && b.cxxNamespaces == args.enableCxxNamespaces
      && (AnyRequested(args) ==> forall c :: c in b.codegen <==> Requested(args, c))
      && (!AnyRequested(args) ==> forall c :: c in b.codegen)
      && expanded.Success?
      && (b.clangArgs.None? <==> expanded.value == [])
      && (b.clangArgs.Some? ==> b.clangArgs.value == expanded.value)
  {
    if !libclangLoaded {
      return Failure(LoadError);
    }
    var b := NewBuilder(args.header);
    for i := 0 to |args.allowlistFunction|
      invariant b == NewBuilder(args.header).(allowlistFunctions := args.allowlistFunction[..i])
    {
      b := b.(allowlistFunctions := b.allowlistFunctions + [args.allowlistFunction[i]]);
    }
    for i := 0 to |args.allowlistType|
      invariant b == NewBuilder(args.header).(allowlistFunctions := args.allowlistFunction,
                                              allowlistTypes := args.allowlistType[..i])
    {
      b := b.(allowlistTypes := b.allowlistTypes + [args.allowlistType[i]]);
    }
    for i := 0 to |args.allowlistVar|
      invariant b == NewBuilder(args.header).(allowlistFunctions := args.allowlistFunction,
                                              allowlistTypes := args.allowlistType,
                                              allowlistVars := args.allowlistVar[..i])
    {
      b := b.(allowlistVars := b.allowlistVars + [args.allowlistVar[i]]);
    }
    for i := 0 to |args.opaqueType|
      invariant b == NewBuilder(args.header).(allowlistFunctions := args.allowlistFunction,
                                              allowlistTypes := args.allowlistType,
                                              allowlistVars := args.allowlistVar,
                                              opaqueTypes := args.opaqueType[..i])
    {
      b := b.(opaqueTypes := b.opaqueTypes + [args.opaqueType[i]]);
    }
    if args.enableCxxNamespaces {
      b := b.(cxxNamespaces := true);
    }
    var codegen := SelectCodegen(args);
    b := b.(codegen := codegen);
    var expanded := ExpandResponseFiles(args.clangArgs, read, split);
    if expanded.Failure? {
      return Failure(ResponseFileError(expanded.error));
    }
    if expanded.value != [] {
      b := b.(clangArgs := Some(expanded.value));
    }
    return Success(b);
  }
}
