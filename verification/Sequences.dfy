/** Sequences, where several modules need the same thing. */
module Sequences {
  /** All but the i-th element. */
  function Without<T>(s: seq<T>, i: nat): seq<T>
    requires i < |s|
  {
    s[..i] + s[i + 1..]
  }
}
