/** The value rules of the product DTOs: the blank-to-undefined `@Transform` on the
    update DTO's `price` and `categoryId`, and the `@IsInt() @Min(0)` rule on `stock`. */
module ProductDto {
  import opened Outcomes
  import opened Text

  /** A raw request value as class-transformer sees it. Numbers are kept exact (`real`). */
  datatype Value = Undefined | Null | Str(s: string) | Num(n: real)

  /** A value whose trimmed text is empty: only strings can be, since a number's
      decimal text is never blank and the optional chain yields `undefined` for null/undefined. */
  predicate TrimsToEmpty(v: Value) {
    v.Str? && Trim(v.s) == ""
  }

  /** The `@Transform` lambda: `'null'`, `'undefined'` and blank strings become `undefined`. */
  function BlankToUndefined(v: Value): (r: Value)
    ensures r == Undefined <==>
              v == Undefined ||
              (v.Str? && (v.s == "null" || v.s == "undefined" ||
                          forall i :: 0 <= i < |v.s| ==> IsJsWhitespace(v.s[i])))
    ensures r != Undefined ==> r == v
  {
    if v == Str("null") || v == Str("undefined") || TrimsToEmpty(v) then Undefined else v
  }

  /** Running the transform on its own output changes nothing. */
  lemma BlankToUndefinedIdempotent(v: Value)
    ensures BlankToUndefined(BlankToUndefined(v)) == BlankToUndefined(v)
  {
    if v.Str? { TrimEmptyIffBlank(v.s); }
  }

  /** `@IsInt() @Min(0)` on `stock`: an integral number that is at least zero. */
  predicate IsValidStock(x: real): (ok: bool)
    ensures ok ==> x.Floor >= 0 && x.Floor as real == x
    ensures !ok ==> x < 0.0 || x.Floor as real < x
  {
    x.Floor as real == x && x >= 0.0
  }

  /** The update DTO's `@IsOptional()` lets a missing stock through. */
  predicate IsValidOptionalStock(x: Option<real>): (ok: bool)
    ensures x.None? ==> ok
    ensures x.Some? ==> (ok <==> IsValidStock(x.value))
  {
    x.None? || IsValidStock(x.value)
  }

  /** A valid stock is exactly a natural number: every natural number passes, and whatever
      passes is the natural number `x.Floor`. */
  lemma ValidStockIsNat(x: real, n: nat)
    ensures IsValidStock(n as real)
    ensures IsValidStock(x) ==> x.Floor >= 0 && x.Floor as real == x
  {
  }
}
