/**
 * The locally nameless binding layer: names, the fresh-name counter,
 * named values, de Bruijn indices, variables and scopes.
 *
 * Free variables are identified by `Name`; bound variables by the de Bruijn
 * index of the binder that introduced them (0 = the innermost binder), with
 * the original name carried along for display only.
 */
module Binding {
  import opened Wrappers

  /** An id produced by a `FreshGen` (the 32-bit counter is modelled as a `nat`). */
  datatype GenId = GenId(id: nat)

  /** The name of a free variable. */
  datatype Name =
    | User(text: string)  // names originating from user input
    | Gen(gen: GenId)     // names produced by a fresh name generator
    | Abstract            // the "don't care" name `_` of non-dependent function types

  /** `Name::user`. */
  function UserName(text: string): (n: Name)
    ensures n.User? && n.text == text
  {
    User(text)
  }

  /**
   * Name equality. Only two user names with the same text are equal: a
   * generated or abstract name is equal to nothing, not even to itself.
   */
  predicate NameEq(a: Name, b: Name)
    ensures NameEq(a, b) <==> a.User? && a == b
  {
    match (a, b)
    case (User(lhs), User(rhs)) => lhs == rhs
    case _ => false
  }

  /** Name equality is a partial equivalence that is reflexive exactly on user names. */
  lemma NameEqIsPartialEquivalence(a: Name, b: Name, c: Name)
    ensures NameEq(a, b) ==> NameEq(b, a) && a == b
    ensures NameEq(a, b) && NameEq(b, c) ==> NameEq(a, c)
    ensures NameEq(a, a) <==> a.User?
  {
  }

  /** Comparing a generated or abstract name with itself yields false. */
  lemma NameEqNotReflexive(g: GenId)
    ensures !NameEq(Abstract, Abstract)
    ensures !NameEq(Gen(g), Gen(g))
  {
  }

  /**
   * The session-scoped fresh-name counter. The ghost set `issued` records
   * every id handed out so far.
   */
  class FreshGen {
    var nextGen: nat
    ghost var issued: set<GenId>

    /** Every id already issued is below the counter. */
    ghost predicate Valid()
      reads this
    {
      forall g :: g in issued ==> g.id < nextGen
    }

    /** `FreshGen::new`: the counter starts at 0 and nothing has been issued. */
    constructor ()
      ensures Valid()
      ensures nextGen == 0 && issued == {}
    {
      nextGen := 0;
      issued := {};
    }

    /**
     * `FreshGen::next_gen`: returns the current counter and increments it.
     * The id returned is greater than, hence distinct from, every id issued before.
     */
    method NextGen() returns (g: GenId)
      requires Valid()
      modifies this
      ensures Valid()
      ensures g == GenId(old(nextGen)) && nextGen == old(nextGen) + 1
      ensures issued == old(issued) + {g}
      ensures forall h :: h in old(issued) ==> h.id < g.id
      ensures g !in old(issued)
    {
      g := GenId(nextGen);
      nextGen := nextGen + 1;
      issued := issued + {g};
    }
  }

  /** A fresh session hands out 0, then 1: successive ids strictly increase. */
  method FirstTwoGenIds() returns (first: GenId, second: GenId)
    ensures first == GenId(0) && second == GenId(1)
    ensures first.id < second.id
  {
    var gen := new FreshGen();
    first := gen.NextGen();
    second := gen.NextGen();
  }

  /** A value paired with a name that is kept for display only. */
  datatype Named<T> = Named(name: Name, value: T)

  /** Equality of named values compares the payloads with `eq` and ignores the names. */
  predicate NamedEq<T>(eq: (T, T) -> bool, a: Named<T>, b: Named<T>) {
    eq(a.value, b.value)
  }

  /** Renaming either side never changes the outcome of `NamedEq`. */
  lemma NamedEqIgnoresName<T>(eq: (T, T) -> bool, a: Named<T>, b: Named<T>, m: Name, n: Name)
    ensures NamedEq(eq, Named(m, a.value), Named(n, b.value)) == NamedEq(eq, a, b)
    ensures NamedEq(eq, a, b) <==> eq(a.value, b.value)
  {
  }

  /** `Pattern::handle_free` for a named pattern: capture `name` at `level` when it equals the pattern's name. */
  function HandleFree<T>(pattern: Named<T>, level: Debruijn, name: Name): (r: Option<Debruijn>)
    ensures r.Some? <==> pattern.name.User? && name == pattern.name
    ensures r.Some? ==> r.value == level
  {
    if NameEq(pattern.name, name) then Some(level) else None
  }

  /** A de Bruijn index (the 32-bit index is modelled as a `nat`). */
  datatype Debruijn = Debruijn(index: nat)

  /** The index of the current binder. */
  const ZERO := Debruijn(0)

  /** Move the index out of a binder: fails exactly at `ZERO`, and otherwise takes one off. */
  function Pred(d: Debruijn): (r: Option<Debruijn>)
    ensures r.None? <==> d == ZERO
    ensures r.Some? ==> r.value.index + 1 == d.index
  {
    if d == ZERO then None else Some(Debruijn(d.index - 1))
  }

  /** Move the index into an inner binder: never `ZERO`, and `Pred` undoes it. */
  function Succ(d: Debruijn): (r: Debruijn)
    ensures r != ZERO
    ensures Pred(r) == Some(d)
  {
    Debruijn(d.index + 1)
  }

  /** A variable: free (by name) or bound (by index, with the binder's name for display). */
  datatype Var = Free(name: Name) | Bound(bound: Named<Debruijn>)

  /** The display name of a variable. */
  function VarName(v: Var): Name {
    match v
    case Free(n) => n
    case Bound(b) => b.name
  }

  /**
   * Variable equality: free variables compare their names with `NameEq`, bound
   * variables compare only their indices, and a free variable never equals a bound one.
   */
  predicate VarEq(a: Var, b: Var)
    ensures VarEq(a, b) <==>
      || (a.Free? && b.Free? && a.name.User? && a.name == b.name)
      || (a.Bound? && b.Bound? && a.bound.value == b.bound.value)
  {
    match (a, b)
    case (Free(m), Free(n)) => NameEq(m, n)
    case (Bound(i), Bound(j)) => NamedEq((x: Debruijn, y: Debruijn) => x == y, i, j)
    case _ => false
  }

  /** Bound variables are equal exactly when their indices are, whatever their display names. */
  lemma VarEqOnIndices(m: Name, n: Name, i: Debruijn, j: Debruijn)
    ensures VarEq(Bound(Named(m, i)), Bound(Named(n, j))) <==> i == j
    ensures VarEq(Free(m), Free(m)) <==> m.User?
    ensures !VarEq(Free(m), Bound(Named(n, j)))
    ensures !VarEq(Bound(Named(n, j)), Free(m))
  {
  }

  /** The callback of `close`: which level, if any, a free name is captured at. */
  type OnFree = Name -> Option<Debruijn>

  /**
   * `Var::open`: does this variable refer to the binder at `level`? Never for a
   * free variable, and for a bound one exactly when its index is `level`.
   */
  predicate Open(v: Var, level: Debruijn)
    ensures Open(v, level) <==> v == Bound(Named(VarName(v), level))
    ensures Open(v, level) ==> v.Bound?
  {
    match v
    case Bound(Named(_, b)) => b == level
    case Free(_) => false
  }

  /**
   * `Var::close`: a bound variable, and a free one that `onFree` does not
   * capture, are left unchanged; a captured free variable becomes bound at the
   * level `onFree` gives, keeping its name.
   */
  function CloseVar(v: Var, onFree: OnFree): (r: Var)
    ensures VarName(r) == VarName(v)
    ensures r.Free? <==> v.Free? && onFree(v.name).None?
    ensures r.Free? || v.Bound? ==> r == v
    ensures forall level :: Open(r, level) <==> Open(v, level) || (v.Free? && onFree(v.name) == Some(level))
  {
    match v
    case Bound(_) => v
    case Free(name) =>
      match onFree(name)
      case None => v
      case Some(level) => Bound(Named(name, level))
  }

  /** Round trip: a free variable closed at `level` is opened by `level` and by no other level. */
  lemma CloseThenOpen(name: Name, onFree: OnFree, level: Debruijn, other: Debruijn)
    requires onFree(name) == Some(level)
    ensures Open(CloseVar(Free(name), onFree), level)
    ensures other != level ==> !Open(CloseVar(Free(name), onFree), other)
  {
  }

  /**
   * The callback `close0(name)` hands to `close`: capture whatever equals
   * `name` at `level` (`close0` itself uses `ZERO`).
   */
  function CaptureAt(name: Name, level: Debruijn): (r: OnFree)
    ensures forall found :: r(found).Some? <==> name.User? && found == name
    ensures forall found :: r(found).Some? ==> r(found).value == level
  {
    found => if NameEq(name, found) then Some(level) else None
  }

  /**
   * The callback a scope passes to its body: it captures the same names as
   * `onFree`, each at a level one binder further in, so that moving back out
   * with `Pred` gives `onFree`'s level.
   */
  function Shift(onFree: OnFree): (r: OnFree)
    ensures forall name :: r(name).None? <==> onFree(name).None?
    ensures forall name :: r(name).Some? ==> Pred(r(name).value) == onFree(name)
  {
    name => match onFree(name)
            case None => None
            case Some(level) => Some(Succ(level))
  }

  /** Shifting the callback of `close0` at `level` gives the one at `level + 1`. */
  lemma ShiftCaptureAt(name: Name, level: Debruijn, found: Name)
    ensures Shift(CaptureAt(name, level))(found) == CaptureAt(name, Succ(level))(found)
  {
  }

  /** A binder pattern together with the body it scopes over. */
  datatype Scope<P, T> = Scope(param: P, body: T)
}
