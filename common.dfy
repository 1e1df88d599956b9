/** Small shared vocabulary: optional values, opaque GPU handles, f32 quotients
    and the result of a render command. */
module Common {

  datatype Option<+T> = None | Some(value: T)

  /** An opaque handle to a GPU object (buffer, texture, bind group, layout).
      The model only compares handles; it never looks inside them. */
  datatype Handle = Handle(id: nat)

  /** The value of an f32 quotient. IEEE rounding is not modelled: a finite
      quotient is the exact real one, and a division by zero (infinity or NaN
      in f32) is `NonFinite`. */
  datatype Ratio = Finite(value: real) | NonFinite

  function Divide(numerator: real, denominator: real): (r: Ratio)
    ensures r.Finite? <==> denominator != 0.0
    ensures r.Finite? ==> r.value * denominator == numerator
  {
    if denominator == 0.0 then NonFinite else Finite(numerator / denominator)
  }

  /** No element occurs twice in `s`. */
  predicate Distinct<T(==)>(s: seq<T>)
  {
    forall i, j :: 0 <= i < j < |s| ==> s[i] != s[j]
  }

  /** `s` is `t` with some elements left out, the rest in their order. */
  predicate Subsequence<T(==)>(s: seq<T>, t: seq<T>)
  {
    if |s| == 0 then true
    else if |t| == 0 then false
    else if s[0] == t[0] then Subsequence(s[1..], t[1..])
    else Subsequence(s, t[1..])
  }

  /** What a render command reports to the render pass. */
  datatype RenderCommandResult = Success | Skip

  /** Largest value of a u32 and of a u64. */
  const U32_MAX: nat := 0xFFFF_FFFF
  const U64_MAX: nat := 0xFFFF_FFFF_FFFF_FFFF
}
