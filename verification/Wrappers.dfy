/** What several modules share: missing values, machine words, pages and lists without repeats. */
module Wrappers {
  datatype Option<T> = None | Some(value: T)

  const WORD: nat := 0x1_0000_0000_0000_0000

  /** A 64-bit unsigned word. */
  type Word = w: nat | w < 0x1_0000_0000_0000_0000

  /** 64-bit addition and subtraction. */
  function Plus(a: Word, b: Word): Word { if a + b < WORD then a + b else a + b - WORD }

  function Minus(a: Word, b: Word): Word { if b <= a then a - b else WORD + a - b }

  const PAGE_SIZE: nat := 4096

  function AlignDown(v: nat): (r: nat)
    ensures r <= v < r + PAGE_SIZE && r % PAGE_SIZE == 0
  {
    v - v % 4096
  }

  function AlignUp(v: nat): (r: nat)
    ensures v <= r < v + PAGE_SIZE && r % PAGE_SIZE == 0
  {
    v + 4095 - (v + 4095) % 4096
  }

  ghost predicate NoDup<T>(s: seq<T>) {
    forall i, j :: 0 <= i < j < |s| ==> s[i] != s[j]
  }
}
