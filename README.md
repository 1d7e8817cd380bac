# Pikelet's binding layer, concrete syntax spans, pi-type reparsing and error diagnostics, in Dafny

This project models, in Dafny, the core of the Pikelet type checker's front end:

- **The locally nameless binding layer** (`src/var.rs`). It covers names and their deliberately
  non-reflexive equality, the session-scoped fresh-name counter `FreshGen`, `Named` values whose
  equality ignores the name, de Bruijn indices with `succ`/`pred`, variables with `close`/`open`,
  `close0`, `Pattern::handle_free`, `Scope::bind` and `Scope::close`. Closing a scope shifts every
  captured level by one binder.
  Rust's `LocallyNameless`/`Pattern` traits are instantiated on a small term language of this
  project's own (module `Terms`). It has variables, applications, and lambdas whose parameter is a
  `Named<Option<Term>>`. Each trait impl becomes one function: `CloseTerm` for the term,
  `CloseScope` for `Scope`, `CloseParam` for `Named` and `CloseOption` for `Option`.
  The `on_free` callback is a Dafny function value `Name -> Option<Debruijn>` (`Binding.OnFree`).
  The partners of `close` are two reference definitions: the set of free names of a term, and
  opening, which turns the variables that `Var::open` reports at a level back into free variables.
  The lemmas connect these to `close`.
- **The concrete syntax** (`src/syntax/concrete.rs`): the `Term` and `Declaration` datatypes,
  `Term::span` and `Declaration::span`.
- **The hand-written grammar helpers** (`src/syntax/parse/grammar.rs`). `reparse_pi_type_hack`
  turns `(x y : t)` in front of `->` into a `Pi` with a flattened name list, and any other binder
  into an `Arrow`. `param_names` appends to a caller-owned list. `u32_literal` reads a decimal
  literal and reports overflow.
- **The error model** (`src/semantics/errors.rs`): `InternalError`, `TypeError`, `InternalError::span`,
  `From<InternalError>`, and the severity and label spans of both `to_diagnostic` methods.

Assumptions about code outside the model:

- `codespan`'s `ByteSpan` is a pair of byte offsets (module `Codespan`), with
  `ByteSpan::new(s, e) = (s, e)` and `a.to(b) = (a.start, b.end)`. This is an assumption about that
  library.
- A `codespan_reporting` diagnostic is modelled as a severity plus a list of labels. Each label has a
  style (primary or secondary) and a span. `new_bug`/`new_error` start with no labels;
  `with_primary_label`/`with_secondary_label` append one.
- `u32::from_str_radix(src, 10)` accepts an optional leading `+` followed by at least one ASCII
  digit, and succeeds exactly when the value is below 2^32. Its step-by-step checked overflow is
  equivalent to that bound, because each prefix of a digit string has a value no larger than the whole.
- `ParseError` is defined elsewhere in the parser and is not part of this model; only the two variants produced here are modelled.
  `LalrpopError::User { error }` is represented by the `ParseError` itself.

Name equality (`src/var.rs:108-115`) holds only between two user names with the same text. A
generated name `Gen(id)`, like `Abstract`, is unequal to every name, itself included. So `close0`
and `bind` with a generated name capture nothing (`Terms.Close0`).

## Model

| member | source | states |
|---|---|---|
| `Binding.UserName` | src/var.rs:103-105 | `Name::user` builds a user name carrying exactly the given text |
| `Binding.NameEq` | src/var.rs:108-115 | two names are equal iff the first is a user name and they are identical; a generated or abstract name equals nothing |
| `Binding.NameEqIsPartialEquivalence` | src/var.rs:108-115 | name equality is symmetric and transitive, implies identity, and is reflexive exactly on user names |
| `Binding.NameEqNotReflexive` | src/var.rs:108-115 | `Abstract` is not equal to itself, and neither is any `Gen(id)` |
| `Binding.FreshGen.constructor` | src/var.rs:132-134 | a new generator starts at 0 with nothing issued |
| `Binding.FreshGen.NextGen` | src/var.rs:136-140 | returns the current counter as the id and increments the counter by one; the id is greater than every id issued before, so it is distinct from all of them, and the invariant "every issued id is below the counter" is kept |
| `Binding.FirstTwoGenIds` | src/var.rs:131-141 | a fresh session hands out ids 0 and then 1, strictly increasing |
| `Binding.NamedEqIgnoresName` | src/var.rs:159-163 | `Named` equality holds iff the payloads are equal; renaming either side never changes the outcome |
| `Binding.HandleFree` | src/var.rs:171-179 | a named pattern captures a name iff the pattern's name is a user name equal to it; the level returned is then the level given |
| `Binding.Pred` | src/var.rs:203-208 | `pred` fails exactly at `ZERO`, and otherwise returns the index one lower |
| `Binding.Succ` | src/var.rs:199-201 | `succ` never yields `ZERO`, and `pred` undoes it: `pred(succ(i)) == Some(i)` |
| `Binding.VarEq` | src/var.rs:217-224 | two variables are equal iff both are free with the same user name, or both are bound with the same index |
| `Binding.VarEqOnIndices` | src/var.rs:217-224 | bound variables are equal iff their indices are, whatever their names; a free variable equals itself iff its name is a user name; a free variable never equals a bound one, in either order |
| `Binding.Open` | src/var.rs:238-245 | `open(level)` is true iff the variable is the bound variable at exactly `level` (with its own name), so it is false on every free variable |
| `Binding.CloseVar` | src/var.rs:226-236 | closing keeps the variable's name. The result is free iff the input was free and `on_free` declined it, and then it is unchanged; a bound input is unchanged. The levels at which the result opens are the input's plus the level `on_free` returned for a free input |
| `Binding.CloseThenOpen` | src/var.rs:226-245 | round trip: a free variable closed at level `l` opens at `l` and at no other level |
| `Binding.CaptureAt` | src/var.rs:47-53 | the callback of `close0(name)` captures a name iff `name` is a user name equal to it, always at the given level; for a generated or abstract `name` it captures nothing |
| `Binding.Shift` | src/var.rs:273-277 | the callback a scope passes to its body captures the same names as `on_free`, each one binder further in: taking `pred` of its level gives `on_free`'s level |
| `Binding.ShiftCaptureAt` | src/var.rs:273-277 | shifting the capture of `name` at level `l` gives the capture of `name` at `l + 1` |
| `Terms.CloseTerm` | src/var.rs:42-44 | `close` on a term leaves exactly the free names `on_free` declines, through every nested scope, and leaves a term none of whose free names is captured unchanged |
| `Terms.CloseScope` | src/var.rs:272-277 | `Scope::close` keeps the parameter's name. The free names of the closed parameter and body are exactly those of the scope that `on_free` declines, whatever levels the body is closed at. A scope with no captured free name is unchanged. That the body is closed one level further in is stated by `Terms.ScopeCloseShifts` |
| `Terms.CloseParam` | src/var.rs:165-169 | `close` on a `Named` value keeps the name; the free names left in the payload are those `on_free` declines, and a payload with no captured name is unchanged |
| `Terms.CloseOption` | src/var.rs:65-71 | `close` on an `Option` keeps `None` as `None` and `Some` as `Some`; the free names left are those `on_free` declines, and a value with no captured name is unchanged |
| `Terms.Close0` | src/var.rs:47-53 | `close0(name)` with a user name removes exactly `name` from the free names. With a generated or abstract name, or a name that does not occur free, it changes nothing |
| `Terms.Bind` | src/var.rs:262-270 | `Scope::bind` leaves the parameter unchanged, and its body is `close0` of the body over the parameter's name at `ZERO` |
| `Terms.CloseExt` | src/var.rs:42-45 | `close` depends only on the values the callback returns |
| `Terms.Close0Idempotent` | src/var.rs:47-53 | closing a name twice is the same as closing it once |
| `Terms.ScopeCloseShifts` | src/var.rs:272-277 | `Scope::close` over a name at level `l` closes the parameter at `l` and the body at `l + 1` |
| `Terms.CloseOpenRoundTrip` | src/var.rs:226-245 | round trip: for a locally closed term, closing a name at level `l` and then opening level `l` gives back the original term |
| `Terms.BindOpenRoundTrip` | src/var.rs:262-270 | round trip: for a locally closed body, opening the body of `bind(param, body)` at `ZERO` gives back `body` |
| `Terms.BindClosesParam` | src/var.rs:262-270 | for a locally closed body, the body of the bound scope is locally closed under one more binder, and a user-named parameter no longer occurs free in it |
| `Terms.CloseClosedAt` | src/var.rs:272-277 | closing with levels below `n` keeps a term locally closed under `n` binders, through scopes whose levels shift by one |
| `Terms.NestedLambdaLevels` | src/var.rs:262-277 | in `\x => \y => x` the occurrence of `x` under the inner binder ends up bound at level 1, keeping its name |
| `Concrete.Span` | src/syntax/concrete.rs:233-246 | a term's span starts at its binder's stored index, or at its first child, or at an atom's own span, and ends where the atom the term ends with ends; `Parens`, `Universe`, `Var` and `Error` return their stored span |
| `Concrete.BinderSpanIgnoresParams` | src/syntax/concrete.rs:239-241 | `Lam` and `Pi` spans run from the stored start to the body's end; the parameters have no effect |
| `Concrete.SpanCoversChildren` | src/syntax/concrete.rs:233-246 | for a term whose children appear in source order, the span does not run backwards and covers the span of each child |
| `Concrete.AppsSpan` | src/syntax/concrete.rs:244 | a multi-argument application `f a1 ... an` spans from `f`'s span to the last argument's span |
| `Concrete.DeclarationSpan` | src/syntax/concrete.rs:117-126 | `Import` and `Error` return their stored span; a `Claim` runs from the start of its name to the end of its annotation, a `Definition` from the start of its name to the end of its body |
| `Concrete.DefinitionSpanIgnoresParams` | src/syntax/concrete.rs:121-123 | a definition's span does not depend on its parameters |
| `Concrete.DeclarationSpanCovers` | src/syntax/concrete.rs:120-123 | a claim or definition whose name precedes a well-placed term covers both |
| `Grammar.ParamNames` | src/syntax/parse/grammar.rs:11-28 | succeeds iff every leaf of the application tree is a variable, and then appends exactly the leaves' `(span, name)` pairs, left to right, after the caller's entries. Otherwise it fails with `IdentifierExpectedInPiType` at the span of the first leaf that is not a variable, having appended exactly the variable leaves before that one. The caller's entries are kept in every case |
| `Grammar.ReparsePiTypeHack` | src/syntax/parse/grammar.rs:6-47 | `Parens(_, Ann(params, ann))` becomes `Pi(span.start, (names, ann), body)`, with `names` the variable leaves of `params` in order, or the first non-variable leaf's error. A parenthesised non-annotation becomes `Arrow(Parens(paren_span, inner), body)`. Any other binder becomes `Arrow(binder, body)`. A successful `Pi` has at least one name |
| `Grammar.ReparseTwoNames` | src/syntax/parse/grammar.rs:30-38 | `(x y : Type) -> x` becomes a pi type over `x` and `y` with their spans |
| `Grammar.ReparseNonName` | src/syntax/parse/grammar.rs:21-25 | `(x Type : Type) -> x` fails with `IdentifierExpectedInPiType` at the universe's span |
| `Grammar.U32Literal` | src/syntax/parse/grammar.rs:49-56 | succeeds iff the text is an optional `+` followed by decimal digits with a value below 2^32, returning that value; otherwise `IntegerLiteralOverflow` with the given span and the original text |
| `Grammar.U32LiteralOfDecimal` | src/syntax/parse/grammar.rs:49-56 | round trip: the decimal text of `n` reads back as `n` iff `n < 2^32`, and otherwise overflows carrying that text |
| `Grammar.U32LiteralExamples` | src/syntax/parse/grammar.rs:49-56 | the empty text, a lone `+` and `-1` overflow; `+42` reads as 42 |
| `Errors.InternalError.Span` | src/semantics/errors.rs:24-29 | `span` for `UnsubstitutedDebruijnIndex`, `var_span` for `UndefinedName` |
| `Errors.FromInternal` | src/semantics/errors.rs:128-132 | the conversion wraps the internal error unchanged as `TypeError::Internal` |
| `Errors.InternalToDiagnostic` | src/semantics/errors.rs:31-44 | an internal error gives a bug diagnostic with one primary label, at the error's `span()`, and no secondary label |
| `Errors.ToDiagnostic` | src/semantics/errors.rs:82-125 | a type error's diagnostic has bug severity iff the error is `Internal`, and error severity otherwise. It has exactly one primary label, at `fn_span`, `param_span`, the variant's `span` (`Mismatch`, `UnexpectedFunction`, `ExpectedUniverse`), `var_span` (`UndefinedName`), or the internal error's span. Only `NotAFunctionType` has a secondary label, at `arg_span` |
| `Errors.FromInternalDelegates` | src/semantics/errors.rs:84 | a wrapped internal error is reported exactly as the internal error's own diagnostic |
| `Errors.ParamAnnotationIgnoresVarSpan` | src/semantics/errors.rs:94-101 | the diagnostic for a missing parameter annotation does not depend on `var_span` |

## Left out

- The `LocallyNameless` impl for `()` (src/var.rs:61-63): the unit type has a single value, so closing it trivially changes nothing, and it is not modelled separately.
- Rust's trait polymorphism: `close`/`bind` are instantiated only for this project's own test term. `Scope<P, T>` for other patterns, such as a pi parameter `Named<Type>`, is not modelled. The core term type, checker, normalizer and translation are not part of this model.
- `close` overwrites values in place through `&mut self`. The model returns the closed value instead, since nothing is aliased.
- `param_names` pushes onto a caller-owned `Vec`. The model passes that list in and returns the extended list.
- `Binding.FreshGen.NextGen`: the `u32` counter is modelled as an unbounded `nat`, so its overflow (a panic with overflow checks on, a wrap-around to 0 that hands out ids again otherwise) is not modelled.
- `Binding.Succ`: the `u32` index of `Debruijn::succ` is likewise an unbounded `nat`; its overflow (a panic with overflow checks on, a wrap-around to 0 otherwise) is not modelled.
- All `fmt::Display` impls, pretty-printing and the message text of diagnostics and labels, which depend on a foreign pretty-printer.
- The `found`/`expected` types carried by `TypeError` are kept as an uninterpreted type parameter, because only the messages use them.
- The LALRPOP parser itself: it is generated at build time into `OUT_DIR` and included at src/syntax/parse/grammar.rs:1, so it is not in the source tree.
- The `Module` and `ReplCommand` datatypes of the concrete syntax. They have no operations here. `Exposing` is modelled as data only.
- The REPL (src/cli/repl.rs): terminal I/O, line editing, history files and command dispatch.
