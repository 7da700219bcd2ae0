/** Raw bytes, shared by every module that handles memory or text. */
module Bytes {
  type Byte = b: nat | b < 256

  lemma ConcatAssociates<T>(a: seq<T>, b: seq<T>, c: seq<T>)
    ensures a + b + c == a + (b + c)
  {
  }
}
