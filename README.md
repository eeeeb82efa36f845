# bindgen front end: response files and request construction

This project models the command-line front end that drives the `bindgen`
binding generator for a C/C++ header (`third-party/rust/bindgen/bindgen.rs`).
The front end contains two pieces of logic of its own, and this model proves
properties about both:

- **Response-file expansion** (`expand_response_files`). It walks the extra
  clang arguments in order. An argument `@path` is replaced in place by the
  shell-style tokens of the file `path`. Every other argument is copied through
  unchanged. The first unreadable file or syntax error stops the expansion with
  an error.
- **Request construction** (`main` up to generation). It loads libclang and
  threads the generator's builder through the allow-lists, the opaque types and
  the namespace switch. It ORs the four `--generate-*` flags into a codegen set,
  and "nothing selected" becomes "everything". It attaches the expanded clang
  arguments only when there are any.

Modules:

- `Wrappers` (`wrappers.dfy`): `Option` and `Result`.
- `ResponseFiles` (`response_files.dfy`):
  - a recursive specification, `Expand`, built from the per-argument `ExpandArg`;
  - a left-biased concatenation of results, `Concat`;
  - the loop of the source, `ExpandResponseFiles`, proved equal to `Expand`;
  - lemmas for the homomorphism, identity, error and non-recursion properties.
- `Bindgen` (`bindgen.dfy`):
  - the command-line record `Args`;
  - the codegen categories;
  - the builder as a value, since every builder call takes it by value and returns it;
  - `Configure`, the part of `main` that comes before generation.

Reading a file and shell tokenisation are parameters of the model. `read` maps a
path to its contents or `None`. `split` maps contents to tokens or `None`. Both
are arbitrary functions, so every result holds whatever the file system holds and
whatever the tokeniser's quoting rules are. Whether libclang loaded is a boolean
parameter.

`CodegenConfig::all()` (third-party/rust/bindgen/bindgen.rs:111) is the `bindgen`
library's full flag set. Besides types, functions, methods and variables, it also
holds constructors and destructors. No flag of this front end selects those two,
so the model has six categories and four of them are selectable.

## Model

| member | source | states |
|---|---|---|
| `ResponseFiles.StripAt` | third-party/rust/bindgen/bindgen.rs:55 | an argument is a response-file reference exactly when it starts with '@'; the path is the argument with exactly one '@' removed, so `@@x` names the file `@x` |
| `ResponseFiles.ReadsOnlyNamed` | third-party/rust/bindgen/bindgen.rs:55-63 | an argument's expansion depends only on the contents of the file its path names; an argument without '@' reads no file at all |
| `ResponseFiles.ExpandReadsOnlyReferenced` | third-party/rust/bindgen/bindgen.rs:54-64 | two file systems that agree on the files the '@' arguments name give the same expansion of the whole list |
| `ResponseFiles.TokensVerbatim` | third-party/rust/bindgen/bindgen.rs:58-60 | for every list and position, a referenced file's tokens appear verbatim between the expansions of the arguments before and after it, even tokens that start with '@' |
| `ResponseFiles.ExpandResponseFiles` | third-party/rust/bindgen/bindgen.rs:52-66 | the loop with its early returns computes exactly the recursive specification `Expand`, on success and on every failure |
| `ResponseFiles.ExpandAppend` | third-party/rust/bindgen/bindgen.rs:53-65 | expanding `a + b` is expanding `a` and `b` and concatenating: on success the results are joined, and otherwise the first failure in list order is the result |
| `ResponseFiles.ExpandDistributes` | third-party/rust/bindgen/bindgen.rs:53-65 | when both halves expand, `Expand(a + b)` is `Expand(a) + Expand(b)` |
| `ResponseFiles.ExpandInPlace` | third-party/rust/bindgen/bindgen.rs:54-64 | each argument's expansion sits between the expansion of the arguments before it and of those after it, so relative order is kept |
| `ResponseFiles.ExpandIdentity` | third-party/rust/bindgen/bindgen.rs:54-63 | a list with no '@' argument expands to itself, whatever the file system and tokeniser do |
| `ResponseFiles.ExpandSucceeds` | third-party/rust/bindgen/bindgen.rs:54-65 | the expansion succeeds if and only if every argument expands on its own |
| `ResponseFiles.ExpandFirstFailure` | third-party/rust/bindgen/bindgen.rs:54-59 | if argument `i` fails and all before it succeed, the whole expansion fails with argument `i`'s error and no partial result |
| `ResponseFiles.ExpandFailureCause` | third-party/rust/bindgen/bindgen.rs:54-59 | every failed expansion has such a first failing argument, whose error it reports |
| `ResponseFiles.NestedReferenceKeptVerbatim` | third-party/rust/bindgen/bindgen.rs:60 | a token `@inner` read from a response file stays in the result literally, even when `inner` is readable: there is no recursive expansion |
| `Bindgen.AnyRequestedIsSomeCategory` | third-party/rust/bindgen/bindgen.rs:96-108 | some `--generate-*` flag is set exactly when some category is requested |
| `Bindgen.SelectCodegen` | third-party/rust/bindgen/bindgen.rs:94-112 | with at least one `--generate-*` flag, the set holds exactly the requested categories; with none, it holds every category; it is never empty |
| `Bindgen.Configure` | third-party/rust/bindgen/bindgen.rs:68-118 | a libclang load failure is reported first; then a response-file failure is reported with its cause; otherwise the request carries the header, the four lists in order, the namespace switch and the effective codegen set, and it carries extra clang arguments exactly when the expansion is non-empty, and then exactly that expansion |

## Left out

- Command-line parsing by `clap` (third-party/rust/bindgen/bindgen.rs:17-49, 69) belongs to the library. `Args` is a plain record input.
- Loading libclang (third-party/rust/bindgen/bindgen.rs:71-73) is dynamic loading of a foreign library. Only its outcome is modelled, as the parameter `libclangLoaded`.
- `generate()` and `write_to_file` (third-party/rust/bindgen/bindgen.rs:120-122) are the generator and file output. The model stops at the configured builder, and `Args.out` is carried but not used.
- The builder calls (third-party/rust/bindgen/bindgen.rs:75-92, 113, 117) are modelled as updates of a record's fields. The generator's internal use of them is not modelled.
- How the generator's `clang_args` merges arguments into its own list is not modelled. The model records the attached list as `Option<seq<string>>`.
- How `fs::read_to_string` and `shlex::split` work inside (third-party/rust/bindgen/bindgen.rs:56, 58) is not modelled. They are arbitrary oracles, and no shell quoting rule is specified.
- `read` is a fixed function of the path, so the model assumes that the file system does not change during one expansion. The source reads the file again on each loop pass (third-party/rust/bindgen/bindgen.rs:54-56), so two `@f` arguments could in principle see different contents.
- Error message texts and `anyhow` context (third-party/rust/bindgen/bindgen.rs:57, 59, 73) become the `ExpandError` and `Error` datatypes. Each error carries the path it concerns.
