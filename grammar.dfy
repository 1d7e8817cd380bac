/**
 * The hand-written parts of the grammar: rebuilding a dependent function
 * type from a binder term, and reading decimal integer literals.
 */
module Grammar {
  import opened Wrappers
  import opened Codespan
  import C = Concrete

  /** The parse errors these rules produce. */
  datatype ParseError =
    | IdentifierExpectedInPiType(span: ByteSpan)
    | IntegerLiteralOverflow(span: ByteSpan, value: string)

  // ---------------------------------------------------------------------------
  // Parameter names of a pi binder
  // ---------------------------------------------------------------------------

  /** The leaves of a tree of applications, left to right. */
  function AppLeaves(t: C.Term): (leaves: seq<C.Term>)
    ensures |leaves| >= 1
    ensures forall i :: 0 <= i < |leaves| ==> !leaves[i].App?
    ensures !t.App? ==> leaves == [t]
  {
    match t
    case App(f, a) => AppLeaves(f) + AppLeaves(a)
    case _ => [t]
  }

  /** Every leaf is a variable. */
  predicate AllVars(leaves: seq<C.Term>) {
    forall i :: 0 <= i < |leaves| ==> leaves[i].Var?
  }

  /** The name entries of variable leaves, in order. */
  function VarEntries(leaves: seq<C.Term>): seq<C.Ident>
    requires AllVars(leaves)
  {
    seq(|leaves|, i requires 0 <= i < |leaves| => (leaves[i].span, leaves[i].name))
  }

  /** The position of the first leaf that is not a variable. */
  function FirstNonVar(leaves: seq<C.Term>): (i: nat)
    requires !AllVars(leaves)
    ensures i < |leaves| && !leaves[i].Var?
    ensures forall j :: 0 <= j < i ==> leaves[j].Var?
  {
    if !leaves[0].Var? then 0 else 1 + FirstNonVar(leaves[1..])
  }

  /** A concatenation is all variables exactly when both parts are. */
  lemma AllVarsAppend(xs: seq<C.Term>, ys: seq<C.Term>)
    ensures AllVars(xs + ys) <==> AllVars(xs) && AllVars(ys)
  {
    if AllVars(xs) && AllVars(ys) {
      forall i | 0 <= i < |xs + ys| ensures (xs + ys)[i].Var? {
        if i >= |xs| { assert (xs + ys)[i] == ys[i - |xs|]; }
      }
    }
    if AllVars(xs + ys) {
      forall i | 0 <= i < |xs| ensures xs[i].Var? {
        assert (xs + ys)[i] == xs[i];
      }
      forall j | 0 <= j < |ys| ensures ys[j].Var? {
        assert (xs + ys)[|xs| + j] == ys[j];
      }
    }
  }

  /** The first non-variable leaf of a concatenation is that of its first part, if it has one. */
  lemma FirstNonVarAppend(xs: seq<C.Term>, ys: seq<C.Term>)
    requires !AllVars(xs + ys)
    ensures !AllVars(xs) ==> FirstNonVar(xs + ys) == FirstNonVar(xs)
    ensures AllVars(xs) ==> !AllVars(ys) && FirstNonVar(xs + ys) == |xs| + FirstNonVar(ys)
  {
    var k := FirstNonVar(xs + ys);
    if !AllVars(xs) {
      var i := FirstNonVar(xs);
      assert (xs + ys)[i] == xs[i];
      assert k == i;
    } else {
      assert !AllVars(ys) by {
        assert k >= |xs|;
        assert ys[k - |xs|] == (xs + ys)[k];
      }
      var j := FirstNonVar(ys);
      assert (xs + ys)[|xs| + j] == ys[j];
      assert k == |xs| + j;
    }
  }

  /** The entries of a concatenation are those of its parts, in order. */
  lemma VarEntriesAppend(xs: seq<C.Term>, ys: seq<C.Term>)
    requires AllVars(xs) && AllVars(ys)
    ensures AllVars(xs + ys) && VarEntries(xs + ys) == VarEntries(xs) + VarEntries(ys)
  {
    AllVarsAppend(xs, ys);
  }

  /** The entries of the variable leaves before the first non-variable one. */
  function EntriesBefore(leaves: seq<C.Term>): seq<C.Ident>
    requires !AllVars(leaves)
  {
    var k := FirstNonVar(leaves);
    assert AllVars(leaves[..k]) by {
      forall j | 0 <= j < k ensures leaves[..k][j].Var? {
        assert leaves[..k][j] == leaves[j];
      }
    }
    VarEntries(leaves[..k])
  }

  /** The entries before the first non-variable leaf of a concatenation. */
  lemma EntriesBeforeAppend(xs: seq<C.Term>, ys: seq<C.Term>)
    requires !AllVars(xs + ys)
    ensures !AllVars(xs) ==> EntriesBefore(xs + ys) == EntriesBefore(xs)
    ensures AllVars(xs) ==> !AllVars(ys) && EntriesBefore(xs + ys) == VarEntries(xs) + EntriesBefore(ys)
  {
    FirstNonVarAppend(xs, ys);
    if !AllVars(xs) {
      var i := FirstNonVar(xs);
      assert (xs + ys)[..i] == xs[..i];
    } else {
      var j := FirstNonVar(ys);
      assert (xs + ys)[..|xs| + j] == xs + ys[..j];
      assert AllVars(ys[..j]) by {
        forall i | 0 <= i < j ensures ys[..j][i].Var? {
          assert ys[..j][i] == ys[i];
        }
      }
      VarEntriesAppend(xs, ys[..j]);
    }
  }

  /** The error for a leaf that is not a variable. */
  function NonVarError(leaves: seq<C.Term>): ParseError
    requires !AllVars(leaves)
  {
    IdentifierExpectedInPiType(C.Span(leaves[FirstNonVar(leaves)]))
  }

  /**
   * `param_names`: append the variables of an application tree to `names`,
   * visiting the function before the argument. It fails at the first leaf
   * that is neither a variable nor an application, with that leaf's span,
   * having appended the variables before it.
   */
  method ParamNames(term: C.Term, names: seq<C.Ident>) returns (names': seq<C.Ident>, result: Result<(), ParseError>)
    ensures result.Ok? <==> AllVars(AppLeaves(term))
    ensures result.Ok? ==> names' == names + VarEntries(AppLeaves(term))
    ensures result.Err? ==> result.error == NonVarError(AppLeaves(term))
    ensures result.Err? ==> names' == names + EntriesBefore(AppLeaves(term))
    ensures names <= names'
    decreases term
  {
    match term
    case Var(span, name) =>
      names' := names + [(span, name)];
      result := Ok(());
    case App(fnExpr, arg) =>
      var lf, la := AppLeaves(fnExpr), AppLeaves(arg);
      assert AppLeaves(term) == lf + la;
      names', result := ParamNames(fnExpr, names);
      AllVarsAppend(lf, la);
      if !AllVars(lf + la) {
        FirstNonVarAppend(lf, la);
        EntriesBeforeAppend(lf, la);
      }
      if result.Err? {
        return;
      }
      names', result := ParamNames(arg, names');
      if result.Ok? {
        VarEntriesAppend(lf, la);
      }
    case _ =>
      assert AppLeaves(term)[0] == term;
      assert AppLeaves(term)[..0] == [];
      names' := names;
      result := Err(IdentifierExpectedInPiType(C.Span(term)));
  }

  /**
   * `reparse_pi_type_hack`: a parenthesised annotation `(x y : t)` in front
   * of `->` is a dependent function type whose names are the variables of
   * `x y`; any other binder is the domain of a non-dependent arrow.
   */
  method ReparsePiTypeHack(span: ByteSpan, binder: C.Term, body: C.Term) returns (r: Result<C.Term, ParseError>)
    ensures binder.Parens? && binder.inner.Ann? ==>
      var leaves := AppLeaves(binder.inner.term);
      r == if AllVars(leaves)
           then Ok(C.Pi(span.start, (VarEntries(leaves), binder.inner.ann), body))
           else Err(NonVarError(leaves))
    ensures binder.Parens? && !binder.inner.Ann? ==> r == Ok(C.Arrow(C.Parens(binder.span, binder.inner), body))
    ensures !binder.Parens? ==> r == Ok(C.Arrow(binder, body))
    ensures r.Ok? && r.value.Pi? ==> |r.value.piParams.0| >= 1
  {
    match binder
    case Parens(parenSpan, term) =>
      match term {
        case Ann(params, ann) =>
          var names, result := ParamNames(params, []);
          if result.Err? {
            return Err(result.error);
          }
          assert names == VarEntries(AppLeaves(params));
          return Ok(C.Pi(span.start, (names, ann), body));
        case _ =>
          return Ok(C.Arrow(C.Parens(parenSpan, term), body));
      }
    case _ =>
      return Ok(C.Arrow(binder, body));
  }

  /** `(x y : Type) -> x` becomes a pi type over the names `x` and `y`. */
  method ReparseTwoNames() returns (r: Result<C.Term, ParseError>)
    ensures r == Ok(C.Pi(1, ([(ByteSpan(2, 3), "x"), (ByteSpan(4, 5), "y")], C.Universe(ByteSpan(8, 12), None)),
                         C.Var(ByteSpan(18, 19), "x")))
  {
    var x := C.Var(ByteSpan(2, 3), "x");
    var y := C.Var(ByteSpan(4, 5), "y");
    var ty := C.Universe(ByteSpan(8, 12), None);
    assert AppLeaves(C.App(x, y)) == [x, y];
    assert VarEntries([x, y]) == [(ByteSpan(2, 3), "x"), (ByteSpan(4, 5), "y")];
    r := ReparsePiTypeHack(ByteSpan(1, 19), C.Parens(ByteSpan(1, 13), C.Ann(C.App(x, y), ty)), C.Var(ByteSpan(18, 19), "x"));
  }

  /** `(x Type : Type) -> x` is rejected at the span of the universe in name position. */
  method ReparseNonName() returns (r: Result<C.Term, ParseError>)
    ensures r == Err(IdentifierExpectedInPiType(ByteSpan(4, 8)))
  {
    var x := C.Var(ByteSpan(2, 3), "x");
    var u := C.Universe(ByteSpan(4, 8), None);
    assert AppLeaves(C.App(x, u)) == [x, u];
    assert ![x, u][1].Var? && [x, u][1..] == [u];
    r := ReparsePiTypeHack(ByteSpan(1, 20), C.Parens(ByteSpan(1, 16), C.Ann(C.App(x, u), u)), x);
  }

  // ---------------------------------------------------------------------------
  // Integer literals
  // ---------------------------------------------------------------------------

  predicate IsDigit(c: char) {
    '0' as int <= c as int <= '9' as int
  }

  /** A non-empty string of ASCII decimal digits. */
  predicate IsDigits(s: string) {
    |s| > 0 && forall i :: 0 <= i < |s| ==> IsDigit(s[i])
  }

  /** The value of a string of decimal digits, most significant first. */
  function DigitsValue(s: string): nat
    requires forall i :: 0 <= i < |s| ==> IsDigit(s[i])
  {
    if s == [] then 0
    else
      var last := s[|s| - 1];
      assert IsDigit(last);
      DigitsValue(s[..|s| - 1]) * 10 + (last as int - '0' as int)
  }

  /** The digits that follow an optional leading `+`, as the standard decimal reading of a `u32` accepts it. */
  function Unsigned(src: string): string {
    if |src| > 0 && src[0] == '+' then src[1..] else src
  }

  /**
   * `u32_literal`: the value of a decimal literal that fits in 32 bits, or
   * `IntegerLiteralOverflow` with the literal's span and text for any text
   * that is not such a literal.
   */
  function U32Literal(span: ByteSpan, src: string): (r: Result<C.U32, ParseError>)
    ensures r.Ok? <==> IsDigits(Unsigned(src)) && DigitsValue(Unsigned(src)) < C.U32_LIMIT
    ensures r.Ok? ==> r.value == DigitsValue(Unsigned(src))
    ensures r.Err? ==> r.error == IntegerLiteralOverflow(span, src)
  {
    var digits := Unsigned(src);
    if IsDigits(digits) && DigitsValue(digits) < C.U32_LIMIT
    then Ok(DigitsValue(digits))
    else Err(IntegerLiteralOverflow(span, src))
  }

  /** The decimal digit of `d`. */
  function DigitChar(d: nat): (c: char)
    requires d < 10
    ensures IsDigit(c) && c as int - '0' as int == d
  {
    ['0', '1', '2', '3', '4', '5', '6', '7', '8', '9'][d]
  }

  /** The decimal representation of `n`, without leading zeros. */
  function Decimal(n: nat): (s: string)
    ensures IsDigits(s)
    decreases n
  {
    if n < 10 then [DigitChar(n)] else Decimal(n / 10) + [DigitChar(n % 10)]
  }

  lemma {:induction false} DecimalValue(n: nat)
    ensures DigitsValue(Decimal(n)) == n
    decreases n
  {
    if n >= 10 {
      DecimalValue(n / 10);
      var s := Decimal(n);
      assert s[..|s| - 1] == Decimal(n / 10);
    }
  }

  /**
   * Round trip: the decimal text of a number reads back as that number
   * exactly when it fits in 32 bits, and otherwise overflows with that text.
   */
  lemma U32LiteralOfDecimal(span: ByteSpan, n: nat)
    ensures n < C.U32_LIMIT ==> U32Literal(span, Decimal(n)) == Ok(n)
    ensures n >= C.U32_LIMIT ==> U32Literal(span, Decimal(n)) == Err(IntegerLiteralOverflow(span, Decimal(n)))
  {
    DecimalValue(n);
    assert Unsigned(Decimal(n)) == Decimal(n) by {
      assert IsDigit(Decimal(n)[0]);
    }
  }

  /** Examples: the empty text, a lone `+` and a sign `-` are rejected; a leading `+` is accepted. */
  lemma U32LiteralExamples(span: ByteSpan)
    ensures U32Literal(span, "") == Err(IntegerLiteralOverflow(span, ""))
    ensures U32Literal(span, "+") == Err(IntegerLiteralOverflow(span, "+"))
    ensures U32Literal(span, "-1") == Err(IntegerLiteralOverflow(span, "-1"))
    ensures U32Literal(span, "+42") == Ok(42)
  {
    assert Unsigned("+42") == "42";
    assert DigitsValue("42") == DigitsValue("4") * 10 + 2 by {
      assert "42"[..1] == "4";
    }
    assert DigitsValue("4") == 4 by {
      assert "4"[..0] == "";
    }
    assert !IsDigits("-1") by {
      assert !IsDigit("-1"[0]);
    }
  }

}
