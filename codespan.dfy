/**
 * Byte spans of source text. The library that provides them is not part of
 * this model; a span is assumed to be a pair of byte offsets.
 */
module Codespan {

  /** A byte offset into the source. */
  type ByteIndex = nat

  /** A range of source bytes, from `start` to `end`. */
  datatype ByteSpan = ByteSpan(start: ByteIndex, end: ByteIndex)

  /** `ByteSpan::new`. */
  function New(start: ByteIndex, end: ByteIndex): ByteSpan {
    ByteSpan(start, end)
  }

  /** `ByteSpan::to`: from the start of `a` to the end of `b`. */
  function To(a: ByteSpan, b: ByteSpan): ByteSpan {
    ByteSpan(a.start, b.end)
  }

  /** A span that does not run backwards. */
  predicate Valid(s: ByteSpan) {
    s.start <= s.end
  }

  /** `inner` lies within `outer`. */
  predicate Within(inner: ByteSpan, outer: ByteSpan) {
    outer.start <= inner.start && inner.end <= outer.end
  }
}
