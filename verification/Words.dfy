/** Machine words. The emulator's release build wraps 32-bit arithmetic, so every
    addition that can leave the range goes through `Wrap`. */
module Words {
  type u32 = x: int | 0 <= x < 0x1_0000_0000
  type byte = x: int | 0 <= x < 256

  datatype Option<+T> = None | Some(value: T)

  function Wrap(x: int): u32 {
    x % 0x1_0000_0000
  }

  function Max(a: int, b: int): int {
    if a < b then b else a
  }

  /** `n` copies of `x`. */
  function Repeat<T>(x: T, n: nat): (r: seq<T>)
    ensures |r| == n && forall i :: 0 <= i < n ==> r[i] == x
  {
    seq(n, _ => x)
  }

  /** Multiplication by repeated addition, which keeps inductive cycle counts linear. */
  function Times(a: nat, b: nat): nat {
    if a == 0 then 0 else Times(a - 1, b) + b
  }

  lemma {:induction false} TimesIsProduct(a: nat, b: nat)
    ensures Times(a, b) == a * b
  {
    if a > 0 {
      TimesIsProduct(a - 1, b);
      assert a * b == (a - 1) * b + b;
    }
  }
}
