/**
 * Errors of semantic analysis and the shape of the diagnostics they become:
 * severity and the spans of the primary and secondary labels. Message texts
 * are not modelled.
 */
module Errors {
  import opened Wrappers
  import opened Codespan
  import B = Binding

  /** An internal error: a bug in the checker or normalizer, not in the program. */
  datatype InternalError =
    | UnsubstitutedDebruijnIndex(span: ByteSpan, name: B.Name, index: B.Debruijn)
    | UndefinedName(varSpan: ByteSpan, name: B.Name)
  {
    /** `InternalError::span`. */
    function Span(): (s: ByteSpan)
      ensures UnsubstitutedDebruijnIndex? ==> s == span
      ensures UndefinedName? ==> s == varSpan
    {
      match this
      case UnsubstitutedDebruijnIndex(span, _, _) => span
      case UndefinedName(varSpan, _) => varSpan
    }
  }

  /**
   * An error produced during type checking. `Ty` stands for the types the
   * errors carry, which only the message texts use.
   */
  datatype TypeError<Ty> =
    | NotAFunctionType(fnSpan: ByteSpan, argSpan: ByteSpan, found: Ty)
    | FunctionParamNeedsAnnotation(paramSpan: ByteSpan, paramVarSpan: Option<ByteSpan>, name: B.Name)
    | Mismatch(span: ByteSpan, found: Ty, expected: Ty)
    | UnexpectedFunction(span: ByteSpan, expected: Ty)
    | ExpectedUniverse(span: ByteSpan, found: Ty)
    | UndefinedName(varSpan: ByteSpan, name: B.Name)
    | Internal(err: InternalError)

  /** `From<InternalError> for TypeError`. */
  function FromInternal<Ty>(e: InternalError): (t: TypeError<Ty>)
    ensures t.Internal? && t.err == e
  {
    Internal(e)
  }

  // ---------------------------------------------------------------------------
  // Diagnostics
  // ---------------------------------------------------------------------------

  datatype Severity = Bug | Error | Warning | Note | Help

  datatype LabelStyle = Primary | Secondary

  datatype Label = Label(style: LabelStyle, span: ByteSpan)

  /** A diagnostic: its severity and its labels in the order they were added. */
  datatype Diagnostic = Diagnostic(severity: Severity, labels: seq<Label>)

  /** `Diagnostic::new_bug`. */
  function NewBug(): Diagnostic {
    Diagnostic(Bug, [])
  }

  /** `Diagnostic::new_error`. */
  function NewError(): Diagnostic {
    Diagnostic(Error, [])
  }

  /** `with_primary_label`: one more primary span, at the end; severity and secondary spans unchanged. */
  function WithPrimaryLabel(d: Diagnostic, span: ByteSpan): (r: Diagnostic)
    ensures r.severity == d.severity
    ensures PrimarySpans(r) == PrimarySpans(d) + [span]
    ensures SecondarySpans(r) == SecondarySpans(d)
  {
    SpansOfAppend(d.labels, Label(Primary, span), Primary);
    SpansOfAppend(d.labels, Label(Primary, span), Secondary);
    d.(labels := d.labels + [Label(Primary, span)])
  }

  /** `with_secondary_label`: one more secondary span, at the end; severity and primary spans unchanged. */
  function WithSecondaryLabel(d: Diagnostic, span: ByteSpan): (r: Diagnostic)
    ensures r.severity == d.severity
    ensures PrimarySpans(r) == PrimarySpans(d)
    ensures SecondarySpans(r) == SecondarySpans(d) + [span]
  {
    SpansOfAppend(d.labels, Label(Secondary, span), Primary);
    SpansOfAppend(d.labels, Label(Secondary, span), Secondary);
    d.(labels := d.labels + [Label(Secondary, span)])
  }

  /** The spans of the labels of one style, in order. */
  function SpansOf(labels: seq<Label>, style: LabelStyle): seq<ByteSpan> {
    if labels == [] then []
    else (if labels[0].style == style then [labels[0].span] else []) + SpansOf(labels[1..], style)
  }

  function PrimarySpans(d: Diagnostic): seq<ByteSpan> {
    SpansOf(d.labels, Primary)
  }

  function SecondarySpans(d: Diagnostic): seq<ByteSpan> {
    SpansOf(d.labels, Secondary)
  }

  /**
   * `InternalError::to_diagnostic`: an internal error is a bug with one
   * primary label, at its own span, and no secondary label.
   */
  function InternalToDiagnostic(e: InternalError): (r: Diagnostic)
    ensures r.severity == Bug
    ensures PrimarySpans(r) == [e.Span()]
    ensures SecondarySpans(r) == []
  {
    match e
    case UnsubstitutedDebruijnIndex(span, _, _) => WithPrimaryLabel(NewBug(), span)
    case UndefinedName(varSpan, _) => WithPrimaryLabel(NewBug(), varSpan)
  }

  /**
   * `TypeError::to_diagnostic`: only internal errors are reported as bugs,
   * every other type error as an error. Each has exactly one primary label, at
   * `ErrorSpan`, and only `NotAFunctionType` adds a secondary label, at the argument.
   */
  function ToDiagnostic<Ty>(e: TypeError<Ty>): (r: Diagnostic)
    ensures r.severity == Bug <==> e.Internal?
    ensures !e.Internal? ==> r.severity == Error
    ensures PrimarySpans(r) == [ErrorSpan(e)]
    ensures SecondarySpans(r) == if e.NotAFunctionType? then [e.argSpan] else []
  {
    match e
    case Internal(err) => InternalToDiagnostic(err)
    case NotAFunctionType(fnSpan, argSpan, _) => WithSecondaryLabel(WithPrimaryLabel(NewError(), fnSpan), argSpan)
    case FunctionParamNeedsAnnotation(paramSpan, _, _) => WithPrimaryLabel(NewError(), paramSpan)
    case UnexpectedFunction(span, _) => WithPrimaryLabel(NewError(), span)
    case Mismatch(span, _, _) => WithPrimaryLabel(NewError(), span)
    case ExpectedUniverse(span, _) => WithPrimaryLabel(NewError(), span)
    case UndefinedName(varSpan, _) => WithPrimaryLabel(NewError(), varSpan)
  }

  /** The span a type error is reported at: the offending construct of each variant. */
  function ErrorSpan<Ty>(e: TypeError<Ty>): ByteSpan {
    match e
    case NotAFunctionType(fnSpan, _, _) => fnSpan
    case FunctionParamNeedsAnnotation(paramSpan, _, _) => paramSpan
    case Mismatch(span, _, _) => span
    case UnexpectedFunction(span, _) => span
    case ExpectedUniverse(span, _) => span
    case UndefinedName(varSpan, _) => varSpan
    case Internal(err) => err.Span()
  }

  // ---------------------------------------------------------------------------
  // Lemmas
  // ---------------------------------------------------------------------------

  /** Appending a label adds its span to the spans of its style only. */
  lemma {:induction false} SpansOfAppend(labels: seq<Label>, l: Label, style: LabelStyle)
    ensures SpansOf(labels + [l], style) == SpansOf(labels, style) + (if l.style == style then [l.span] else [])
  {
    if labels != [] {
      assert (labels + [l])[1..] == labels[1..] + [l];
      SpansOfAppend(labels[1..], l, style);
    }
  }

  /** A wrapped internal error is reported exactly as the internal error itself. */
  lemma FromInternalDelegates<Ty>(e: InternalError)
    ensures ToDiagnostic(FromInternal<Ty>(e)) == InternalToDiagnostic(e)
    ensures ErrorSpan(FromInternal<Ty>(e)) == e.Span()
  {
  }

  /** The diagnostic of a missing parameter annotation depends on the parameter's span, not on `var_span`. */
  lemma ParamAnnotationIgnoresVarSpan<Ty>(paramSpan: ByteSpan, v: Option<ByteSpan>, w: Option<ByteSpan>, name: B.Name)
    ensures ToDiagnostic(TypeError<Ty>.FunctionParamNeedsAnnotation(paramSpan, v, name))
         == ToDiagnostic(TypeError<Ty>.FunctionParamNeedsAnnotation(paramSpan, w, name))
  {
  }
}
