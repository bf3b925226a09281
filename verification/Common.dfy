/** Small types shared by the modules of this project. */
module Common {

  datatype Option<+T> = None | Some(value: T)

  type byte = b: int | 0 <= b < 256
  type bytes = seq<byte>

  const U32: nat := 0x1_0000_0000
  const U64: nat := 0x1_0000_0000_0000_0000

  function Min(a: nat, b: nat): nat {
    if a < b then a else b
  }

  lemma NoSmallMultiple(m: int, n: int)
    requires -n < m * n < n
    ensures m == 0
  {
    assert m >= 1 ==> m * n >= n;
    assert m <= -1 ==> m * n <= -n;
  }

  lemma DivUnique(x: nat, n: nat, q: nat, r: nat)
    requires n > 0 && x == q * n + r && r < n
    ensures x / n == q && x % n == r
  {
    var m := q - x / n;
    assert m * n == q * n - (x / n) * n == x % n - r;
    NoSmallMultiple(m, n);
  }

  lemma SeqAssoc<T>(a: seq<T>, b: seq<T>, c: seq<T>)
    ensures (a + b) + c == a + (b + c)
  {
  }

  lemma HeadAndTail<T>(a: seq<T>, b: seq<T>)
    requires a != []
    ensures a + b != [] && (a + b)[0] == a[0] && (a + b)[1..] == a[1..] + b
  {
  }

  /** The low 32 bits as a signed number. */
  function ToInt32(n: nat): (v: int)
    ensures -0x8000_0000 <= v < 0x8000_0000
    ensures n < 0x8000_0000 ==> v == n
  {
    var w := n % U32;
    if w < U32 / 2 then w else w - U32
  }
}
