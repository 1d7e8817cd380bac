/**
 * A small term language that instantiates the binding layer, so that
 * `close`, `close0` and `Scope::bind` can be exercised through nested scopes:
 * variables, applications and lambdas whose parameter is a named optional
 * annotation.
 */
module Terms {
  import opened Wrappers
  import B = Binding

  /** A lambda parameter: a name with an optional type annotation. */
  type Param = B.Named<Option<Term>>

  datatype Term =
    | Var(v: B.Var)
    | App(fn: Term, arg: Term)
    | Lam(scope: B.Scope<Param, Term>)

  // ---------------------------------------------------------------------------
  // `LocallyNameless::close` for each type of the term language
  // ---------------------------------------------------------------------------

  /**
   * `close` on a term: variables are closed, everything else is traversed.
   * The free names left are those `onFree` declines, and a term none of whose
   * free names is captured comes back unchanged.
   */
  function CloseTerm(t: Term, onFree: B.OnFree): (r: Term)
    ensures FreeNames(r) == set n | n in FreeNames(t) && onFree(n).None?
    ensures (forall n :: n in FreeNames(t) ==> onFree(n).None?) ==> r == t
    decreases t, 0
  {
    match t
    case Var(v) => Var(B.CloseVar(v, onFree))
    case App(f, a) => App(CloseTerm(f, onFree), CloseTerm(a, onFree))
    case Lam(s) => Lam(CloseScope(s, onFree))
  }

  /**
   * `Scope::close`: the parameter is closed with `onFree` unchanged, the body
   * with every level `onFree` returns moved one binder inwards. Which names
   * are captured does not change under the binder.
   */
  function CloseScope(s: B.Scope<Param, Term>, onFree: B.OnFree): (r: B.Scope<Param, Term>)
    ensures r.param.name == s.param.name
    ensures FreeNamesOption(r.param.value) + FreeNames(r.body)
         == set n | n in FreeNamesOption(s.param.value) + FreeNames(s.body) && onFree(n).None?
    ensures (forall n :: n in FreeNamesOption(s.param.value) + FreeNames(s.body) ==> onFree(n).None?) ==> r == s
    decreases s, 0
  {
    B.Scope(CloseParam(s.param, onFree), CloseTerm(s.body, B.Shift(onFree)))
  }

  /** `close` on a `Named` value closes the payload and keeps the name. */
  function CloseParam(p: Param, onFree: B.OnFree): (r: Param)
    ensures r.name == p.name
    ensures FreeNamesOption(r.value) == set n | n in FreeNamesOption(p.value) && onFree(n).None?
    ensures (forall n :: n in FreeNamesOption(p.value) ==> onFree(n).None?) ==> r == p
    decreases p, 0
  {
    B.Named(p.name, CloseOption(p.value, onFree))
  }

  /** `close` on an `Option`: `None` is left alone, `Some` is closed inside. */
  function CloseOption(o: Option<Term>, onFree: B.OnFree): (r: Option<Term>)
    ensures r.None? <==> o.None?
    ensures FreeNamesOption(r) == set n | n in FreeNamesOption(o) && onFree(n).None?
    ensures (forall n :: n in FreeNamesOption(o) ==> onFree(n).None?) ==> r == o
    decreases o, 0
  {
    match o
    case None => None
    case Some(x) => Some(CloseTerm(x, onFree))
  }

  /**
   * `LocallyNameless::close0`: capture the free occurrences equal to `name` at
   * level `ZERO`. With a generated or abstract name, which equals nothing, or
   * a name that does not occur free, the term is unchanged.
   */
  function Close0(t: Term, name: B.Name): (r: Term)
    ensures name.User? ==> FreeNames(r) == FreeNames(t) - {name}
    ensures !name.User? || name !in FreeNames(t) ==> r == t
  {
    CloseTerm(t, B.CaptureAt(name, B.ZERO))
  }

  /** `Scope::bind`: keep the parameter and close the body at `ZERO` through the parameter's `handle_free`. */
  function Bind(param: Param, body: Term): (s: B.Scope<Param, Term>)
    ensures s.param == param
    ensures s.body == Close0(body, param.name)
  {
    var onFree := (found: B.Name) => B.HandleFree(param, B.ZERO, found);
    CloseExt(body, onFree, B.CaptureAt(param.name, B.ZERO));
    B.Scope(param, CloseTerm(body, onFree))
  }

  // ---------------------------------------------------------------------------
  // Free names, local closure and opening, the partners of `close`
  // ---------------------------------------------------------------------------

  /** The names of the free variables of a term. */
  function FreeNames(t: Term): set<B.Name>
    decreases t, 0
  {
    match t
    case Var(v) => if v.Free? then {v.name} else {}
    case App(f, a) => FreeNames(f) + FreeNames(a)
    case Lam(s) => FreeNamesOption(s.param.value) + FreeNames(s.body)
  }

  function FreeNamesOption(o: Option<Term>): set<B.Name>
    decreases o, 0
  {
    match o
    case None => {}
    case Some(x) => FreeNames(x)
  }

  /** Every bound index refers to a binder inside the term, given `k` enclosing binders. */
  predicate ClosedAt(t: Term, k: nat)
    decreases t, 0
  {
    match t
    case Var(v) => v.Bound? ==> v.bound.value.index < k
    case App(f, a) => ClosedAt(f, k) && ClosedAt(a, k)
    case Lam(s) => ClosedAtOption(s.param.value, k) && ClosedAt(s.body, k + 1)
  }

  predicate ClosedAtOption(o: Option<Term>, k: nat)
    decreases o, 0
  {
    match o
    case None => true
    case Some(x) => ClosedAt(x, k)
  }

  /**
   * Opening, the inverse of closing a user name: every variable that
   * `Var::open` reports as bound at `level` (counted from the outside of `t`)
   * becomes free again under the name it carries.
   */
  function OpenTerm(t: Term, level: B.Debruijn): Term
    decreases t, 0
  {
    match t
    case Var(v) => if B.Open(v, level) then Var(B.Free(v.bound.name)) else t
    case App(f, a) => App(OpenTerm(f, level), OpenTerm(a, level))
    case Lam(s) =>
      Lam(B.Scope(B.Named(s.param.name, OpenOption(s.param.value, level)), OpenTerm(s.body, B.Succ(level))))
  }

  function OpenOption(o: Option<Term>, level: B.Debruijn): Option<Term>
    decreases o, 0
  {
    match o
    case None => None
    case Some(x) => Some(OpenTerm(x, level))
  }

  // ---------------------------------------------------------------------------
  // Lemmas
  // ---------------------------------------------------------------------------

  /** Closing a lambda closes its annotation with the callback and its body with the shifted callback. */
  lemma CloseLam(s: B.Scope<Param, Term>, onFree: B.OnFree)
    ensures CloseTerm(Lam(s), onFree)
         == Lam(B.Scope(B.Named(s.param.name, CloseOption(s.param.value, onFree)), CloseTerm(s.body, B.Shift(onFree))))
  {
    assert CloseTerm(Lam(s), onFree) == Lam(CloseScope(s, onFree));
    assert CloseScope(s, onFree) == B.Scope(CloseParam(s.param, onFree), CloseTerm(s.body, B.Shift(onFree)));
    assert CloseParam(s.param, onFree) == B.Named(s.param.name, CloseOption(s.param.value, onFree));
  }

  /** `close` only depends on the values of its callback. */
  lemma {:induction false} CloseExt(t: Term, f: B.OnFree, g: B.OnFree)
    requires forall n :: f(n) == g(n)
    ensures CloseTerm(t, f) == CloseTerm(t, g)
    decreases t, 1
  {
    match t
    case Var(_) =>
    case App(a, b) =>
      CloseExt(a, f, g);
      CloseExt(b, f, g);
    case Lam(s) =>
      CloseLam(s, f);
      CloseLam(s, g);
      CloseExtOption(s.param.value, f, g);
      CloseExt(s.body, B.Shift(f), B.Shift(g));
  }

  lemma {:induction false} CloseExtOption(o: Option<Term>, f: B.OnFree, g: B.OnFree)
    requires forall n :: f(n) == g(n)
    ensures CloseOption(o, f) == CloseOption(o, g)
    decreases o, 1
  {
    match o
    case None =>
    case Some(x) => CloseExt(x, f, g);
  }

  /** Closing a name twice is the same as closing it once. */
  lemma Close0Idempotent(t: Term, name: B.Name)
    ensures Close0(Close0(t, name), name) == Close0(t, name)
  {
  }

  /**
   * `Scope::close` moves capture one binder inwards: closing a scope over
   * `name` at `level` closes the body over `name` at `level + 1`, and the
   * parameter at `level` itself.
   */
  lemma ScopeCloseShifts(s: B.Scope<Param, Term>, name: B.Name, level: B.Debruijn)
    ensures CloseScope(s, B.CaptureAt(name, level)).param == CloseParam(s.param, B.CaptureAt(name, level))
    ensures CloseScope(s, B.CaptureAt(name, level)).body == CloseTerm(s.body, B.CaptureAt(name, B.Succ(level)))
  {
    forall n ensures B.Shift(B.CaptureAt(name, level))(n) == B.CaptureAt(name, B.Succ(level))(n) {
      B.ShiftCaptureAt(name, level, n);
    }
    CloseExt(s.body, B.Shift(B.CaptureAt(name, level)), B.CaptureAt(name, B.Succ(level)));
  }

  /**
   * Round trip: closing a locally closed term over `name` at `level` and then
   * opening `level` gives back the original term.
   */
  lemma {:induction false} CloseOpenRoundTrip(t: Term, name: B.Name, level: B.Debruijn)
    requires ClosedAt(t, level.index)
    ensures OpenTerm(CloseTerm(t, B.CaptureAt(name, level)), level) == t
    decreases t, 1
  {
    match t
    case Var(v) =>
    case App(a, b) =>
      CloseOpenRoundTrip(a, name, level);
      CloseOpenRoundTrip(b, name, level);
    case Lam(s) =>
      var c := CloseScope(s, B.CaptureAt(name, level));
      assert CloseTerm(t, B.CaptureAt(name, level)) == Lam(c);
      ScopeCloseShifts(s, name, level);
      CloseOpenRoundTripOption(s.param.value, name, level);
      CloseOpenRoundTrip(s.body, name, B.Succ(level));
      assert OpenTerm(Lam(c), level)
          == Lam(B.Scope(B.Named(s.param.name, OpenOption(c.param.value, level)), OpenTerm(c.body, B.Succ(level))));
  }

  lemma {:induction false} CloseOpenRoundTripOption(o: Option<Term>, name: B.Name, level: B.Debruijn)
    requires ClosedAtOption(o, level.index)
    ensures OpenOption(CloseOption(o, B.CaptureAt(name, level)), level) == o
    decreases o, 1
  {
    match o
    case None =>
    case Some(x) => CloseOpenRoundTrip(x, name, level);
  }

  /** Round trip for scopes: opening the body of `bind(param, body)` at `ZERO` gives `body` back. */
  lemma BindOpenRoundTrip(param: Param, body: Term)
    requires ClosedAt(body, 0)
    ensures OpenTerm(Bind(param, body).body, B.ZERO) == body
  {
    CloseOpenRoundTrip(body, param.name, B.ZERO);
  }

  /** The body of a scope built by `bind` has one more binder available and no free occurrence of the parameter. */
  lemma BindClosesParam(param: Param, body: Term)
    requires ClosedAt(body, 0)
    ensures ClosedAt(Bind(param, body).body, 1)
    ensures param.name.User? ==> param.name !in FreeNames(Bind(param, body).body)
  {
    CloseClosedAt(body, B.CaptureAt(param.name, B.ZERO), 0, 1);
  }

  /**
   * Closing with a callback whose levels are all below `bound` keeps a term
   * closed, given `bound` enclosing binders.
   */
  lemma {:induction false} CloseClosedAt(t: Term, onFree: B.OnFree, k: nat, bound: nat)
    requires ClosedAt(t, k) && k <= bound
    requires forall n :: onFree(n).Some? ==> onFree(n).value.index < bound
    ensures ClosedAt(CloseTerm(t, onFree), bound)
    decreases t, 1
  {
    match t
    case Var(_) =>
    case App(a, b) =>
      CloseClosedAt(a, onFree, k, bound);
      CloseClosedAt(b, onFree, k, bound);
    case Lam(s) =>
      CloseLam(s, onFree);
      CloseClosedAtOption(s.param.value, onFree, k, bound);
      CloseClosedAt(s.body, B.Shift(onFree), k + 1, bound + 1);
  }

  lemma {:induction false} CloseClosedAtOption(o: Option<Term>, onFree: B.OnFree, k: nat, bound: nat)
    requires ClosedAtOption(o, k) && k <= bound
    requires forall n :: onFree(n).Some? ==> onFree(n).value.index < bound
    ensures ClosedAtOption(CloseOption(o, onFree), bound)
    decreases o, 1
  {
    match o
    case None =>
    case Some(x) => CloseClosedAt(x, onFree, k, bound);
  }

  /**
   * Closing is relative: in `\x => \y => x` the occurrence of `x` under the
   * inner binder is bound at level 1, while `y`'s parameter name is left alone.
   */
  lemma NestedLambdaLevels(x: string, y: string)
    requires x != y
    ensures
      var px: Param := B.Named(B.User(x), None);
      var py: Param := B.Named(B.User(y), None);
      Bind(px, Lam(Bind(py, Var(B.Free(B.User(x))))))
        == B.Scope(px, Lam(B.Scope(py, Var(B.Bound(B.Named(B.User(x), B.Debruijn(1)))))))
  {
    var px: Param := B.Named(B.User(x), None);
    var py: Param := B.Named(B.User(y), None);
    var inner := Var(B.Free(B.User(x)));
    assert Bind(py, inner) == B.Scope(py, inner);
    var capture := B.CaptureAt(px.name, B.ZERO);
    CloseLam(B.Scope(py, inner), capture);
    assert B.Shift(capture)(B.User(x)) == Some(B.Debruijn(1));
    assert CloseTerm(inner, B.Shift(capture)) == Var(B.Bound(B.Named(B.User(x), B.Debruijn(1))));
  }
}
