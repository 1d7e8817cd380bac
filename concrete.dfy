/** The concrete syntax: terms and declarations as parsed, every node carrying source positions. */
module Concrete {
  import opened Wrappers
  import opened Codespan

  /** The range of a `u32`. */
  const U32_LIMIT: nat := 0x1_0000_0000

  type U32 = n: nat | n < U32_LIMIT

  /** An identifier with its span. */
  type Ident = (ByteSpan, string)

  /** The parameters of a lambda: groups of names with an optional shared annotation. */
  type LamParams = seq<(seq<Ident>, Option<Term>)>

  /** The parameters of a dependent function type: names sharing one annotation. */
  type PiParams = (seq<Ident>, Term)

  datatype Term =
    | Parens(span: ByteSpan, inner: Term)                  // (e)
    | Ann(term: Term, ann: Term)                           // e : t
    | Universe(span: ByteSpan, level: Option<U32>)         // Type
    | Var(span: ByteSpan, name: string)                    // x
    | Lam(start: ByteIndex, lamParams: LamParams, body: Term)  // \x => t
    | Pi(start: ByteIndex, piParams: PiParams, body: Term)    // (x : t1) -> t2
    | Arrow(ann: Term, body: Term)                         // t1 -> t2
    | App(fn: Term, arg: Term)                             // e1 e2
    | Error(span: ByteSpan)                                // a term that could not be parsed

  /** The definitions an import brings into scope. */
  datatype Exposing =
    | All(span: ByteSpan)
    | Exact(span: ByteSpan, names: seq<(Ident, Option<Ident>)>)
    | Error(span: ByteSpan)

  datatype Declaration =
    | Import(span: ByteSpan, name: Ident, rename: Option<Ident>, exposing: Option<Exposing>)
    | Claim(name: Ident, ann: Term)
    | Definition(name: Ident, params: LamParams, body: Term)
    | Error(span: ByteSpan)

  /**
   * `Term::span`: the span of source code a term originated from. It runs
   * from where the term starts to the end of the atom it ends with; an atom's
   * span is the one it stores.
   */
  function Span(t: Term): (r: ByteSpan)
    ensures r.start == StartOf(t)
    ensures r.end == LastAtom(t).span.end
    ensures IsAtom(t) ==> r == t.span
  {
    match t
    case Parens(span, _) => span
    case Universe(span, _) => span
    case Var(span, _) => span
    case Error(span) => span
    case Lam(start, _, body) => New(start, Span(body).end)
    case Pi(start, _, body) => New(start, Span(body).end)
    case Ann(term, ty) => To(Span(term), Span(ty))
    case Arrow(ann, body) => To(Span(ann), Span(body))
    case App(fnTerm, arg) => To(Span(fnTerm), Span(arg))
  }

  /**
   * `Declaration::span`: an import and an error declaration report their
   * stored span; a claim runs from its name to the end of its annotation and a
   * definition from its name to the end of its body.
   */
  function DeclarationSpan(d: Declaration): (r: ByteSpan)
    ensures d.Import? || d.Error? ==> r == d.span
    ensures d.Claim? ==> r.start == d.name.0.start && r.end == LastAtom(d.ann).span.end
    ensures d.Definition? ==> r.start == d.name.0.start && r.end == LastAtom(d.body).span.end
  {
    match d
    case Import(span, _, _, _) => span
    case Claim(name, ann) => To(name.0, Span(ann))
    case Definition(name, _, body) => To(name.0, Span(body))
    case Error(span) => span
  }

  // ---------------------------------------------------------------------------
  // What the span of a term is made of
  // ---------------------------------------------------------------------------

  /** A term that stores its own span: parentheses, universes, variables and errors. */
  predicate IsAtom(t: Term) {
    t.Parens? || t.Universe? || t.Var? || t.Error?
  }

  /** The atom a term ends with: the last child of every binary node or binder body. */
  function LastAtom(t: Term): (a: Term)
    ensures IsAtom(a)
  {
    match t
    case Lam(_, _, body) => LastAtom(body)
    case Pi(_, _, body) => LastAtom(body)
    case Ann(_, ty) => LastAtom(ty)
    case Arrow(_, body) => LastAtom(body)
    case App(_, arg) => LastAtom(arg)
    case _ => t
  }

  /** Where a term starts: the stored index of a binder, the first child of a binary node, or an atom's own span. */
  function StartOf(t: Term): ByteIndex {
    match t
    case Lam(start, _, _) => start
    case Pi(start, _, _) => start
    case Ann(term, _) => StartOf(term)
    case Arrow(ann, _) => StartOf(ann)
    case App(fnTerm, _) => StartOf(fnTerm)
    case _ => t.span.start
  }

  /** The parameters of a binder never affect its span. */
  lemma BinderSpanIgnoresParams(start: ByteIndex, lp: LamParams, lq: LamParams, pp: PiParams, pq: PiParams, body: Term)
    ensures Span(Lam(start, lp, body)) == Span(Lam(start, lq, body)) == Span(Pi(start, pp, body))
    ensures Span(Pi(start, pp, body)) == Span(Pi(start, pq, body)) == ByteSpan(start, Span(body).end)
  {
  }

  // ---------------------------------------------------------------------------
  // Spans of well-placed terms nest
  // ---------------------------------------------------------------------------

  /**
   * The terms a parser produces: atom spans do not run backwards, a
   * parenthesised term lies within its parentheses, a binder starts no later
   * than its body, and the children of a binary node appear in order.
   */
  predicate WellPlaced(t: Term) {
    match t
    case Parens(span, inner) => Valid(span) && WellPlaced(inner) && Within(Span(inner), span)
    case Universe(span, _) => Valid(span)
    case Var(span, _) => Valid(span)
    case Error(span) => Valid(span)
    case Lam(start, _, body) => WellPlaced(body) && start <= Span(body).start
    case Pi(start, _, body) => WellPlaced(body) && start <= Span(body).start
    case Ann(a, b) => WellPlaced(a) && WellPlaced(b) && Span(a).end <= Span(b).start
    case Arrow(a, b) => WellPlaced(a) && WellPlaced(b) && Span(a).end <= Span(b).start
    case App(a, b) => WellPlaced(a) && WellPlaced(b) && Span(a).end <= Span(b).start
  }

  /** The sub-terms whose spans a term's span is computed from (binder parameters excluded). */
  function Children(t: Term): seq<Term> {
    match t
    case Parens(_, inner) => [inner]
    case Lam(_, _, body) => [body]
    case Pi(_, _, body) => [body]
    case Ann(a, b) => [a, b]
    case Arrow(a, b) => [a, b]
    case App(a, b) => [a, b]
    case _ => []
  }

  /** The span of a well-placed term does not run backwards and covers the span of each child. */
  lemma {:induction false} SpanCoversChildren(t: Term)
    requires WellPlaced(t)
    ensures Valid(Span(t))
    ensures forall i :: 0 <= i < |Children(t)| ==> Within(Span(Children(t)[i]), Span(t))
  {
    match t
    case Parens(_, inner) => SpanCoversChildren(inner);
    case Lam(_, _, body) => SpanCoversChildren(body);
    case Pi(_, _, body) => SpanCoversChildren(body);
    case Ann(a, b) => SpanCoversChildren(a); SpanCoversChildren(b);
    case Arrow(a, b) => SpanCoversChildren(a); SpanCoversChildren(b);
    case App(a, b) => SpanCoversChildren(a); SpanCoversChildren(b);
    case _ =>
  }

  /** The left-nested application `f a1 ... an`. */
  function Apps(f: Term, args: seq<Term>): Term
    decreases |args|
  {
    if args == [] then f else Apps(App(f, args[0]), args[1..])
  }

  /** A multi-argument application spans from its function to its last argument. */
  lemma {:induction false} AppsSpan(f: Term, args: seq<Term>)
    requires args != []
    ensures Span(Apps(f, args)) == To(Span(f), Span(args[|args| - 1]))
    decreases |args|
  {
    if |args| > 1 {
      AppsSpan(App(f, args[0]), args[1..]);
    }
  }

  // ---------------------------------------------------------------------------
  // Declarations
  // ---------------------------------------------------------------------------

  /** The parameters of a definition never affect its span. */
  lemma DefinitionSpanIgnoresParams(name: Ident, params: LamParams, params': LamParams, body: Term)
    ensures DeclarationSpan(Definition(name, params, body)) == DeclarationSpan(Definition(name, params', body))
  {
  }

  /** A claim or definition whose name precedes a well-placed term covers both the name and the term. */
  lemma DeclarationSpanCovers(d: Declaration)
    requires d.Claim? || d.Definition?
    requires Valid(d.name.0)
    requires var t := if d.Claim? then d.ann else d.body; WellPlaced(t) && d.name.0.end <= Span(t).start
    ensures Valid(DeclarationSpan(d)) && Within(d.name.0, DeclarationSpan(d))
    ensures Within(Span(if d.Claim? then d.ann else d.body), DeclarationSpan(d))
  {
    SpanCoversChildren(if d.Claim? then d.ann else d.body);
  }
}
