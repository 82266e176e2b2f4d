/** What several modules share. */
module Common {

  datatype Option<+T> = None | Some(value: T)

  newtype byte = b: int | 0 <= b < 256

  type Bytes = seq<byte>

  function Max(a: int, b: int): int {
    if b > a then b else a
  }

  function One(b: bool): nat {
    if b then 1 else 0
  }

  /** The first of two strings that is not empty. */
  function Or(a: string, b: string): string {
    if a != "" then a else b
  }

  lemma Assoc<T>(a: seq<T>, b: seq<T>, c: seq<T>)
    ensures (a + b) + c == a + (b + c)
  {
  }

  lemma SubsetSize<T>(a: set<T>, b: set<T>)
    requires a <= b
    ensures |a| <= |b|
  {
    assert b == a + (b - a);
  }
}
