/**
 * The Zod building blocks the schemas use: `z.string().min(1).max(n)`,
 * required or `.optional()`, over a JSON field that may be missing.
 */
module Schema {
  import opened Wrappers

  /** UTF-16 code units of one character: two for one above U+FFFF. */
  function CodeUnits(c: char): nat {
    if c as int > 0xFFFF then 2 else 1
  }

  /**
   * JavaScript's `.length`, which Zod's `.min` and `.max` compare: the
   * number of UTF-16 code units, between one and two per character.
   */
  function Utf16Length(s: string): (n: nat)
    ensures |s| <= n <= 2 * |s|
    ensures n == 0 <==> s == []
  {
    if s == [] then 0 else CodeUnits(s[0]) + Utf16Length(s[1..])
  }

  /** A string with no character above U+FFFF has one code unit per character. */
  lemma {:induction false} BmpLength(s: string)
    requires forall i :: 0 <= i < |s| ==> s[i] as int <= 0xFFFF
    ensures Utf16Length(s) == |s|
  {
    if s != [] {
      BmpLength(s[1..]);
    }
  }

  /** A string of characters above U+FFFF has two code units per character. */
  lemma {:induction false} AstralLength(s: string)
    requires forall i :: 0 <= i < |s| ==> s[i] as int > 0xFFFF
    ensures Utf16Length(s) == 2 * |s|
  {
    if s != [] {
      AstralLength(s[1..]);
    }
  }

  /** `.min(min).max(max)` on a string, in UTF-16 code units; both bounds are inclusive. */
  predicate LengthWithin(s: string, min: nat, max: nat) {
    min <= Utf16Length(s) <= max
  }

  /** `z.string().min(1).max(max)`: the field must be present and non-empty. */
  predicate Required(field: Option<string>, max: nat) {
    field.Some? && LengthWithin(field.value, 1, max)
  }

  /** `z.string().min(1).max(max).optional()`: a missing field passes. */
  predicate Optional(field: Option<string>, max: nat) {
    field.None? || LengthWithin(field.value, 1, max)
  }

  /** The issue a field contributes to a `ZodError`: its name when it fails. */
  function Issue(ok: bool, field: string): (r: seq<string>)
    ensures field in r <==> !ok
    ensures forall f :: f in r ==> f == field
  {
    if ok then [] else [field]
  }
}
