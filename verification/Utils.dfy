/** Byte copies and 64-bit division (utils.c). */
module Utils {

  newtype byte = x: int | 0 <= x < 256

  const PAGE_SIZE := 4096

  /** copy_data: words first, then up to four single bytes.  Going upwards, it may also move a range
      down onto itself. */
  method CopyData(mem: array<byte>, start: nat, dest: nat, size: int)
    requires start + size <= mem.Length && dest + size <= mem.Length
    requires start + size <= dest || dest <= start
    modifies mem
    ensures forall i :: 0 <= i < mem.Length ==>
      mem[i] == if dest <= i < dest + size then old(mem[start + (i - dest)]) else old(mem[i])
  {
    var p, q, left := start, dest, size;
    while left > 4
      invariant 0 <= p - start == q - dest && left == size - (p - start) && (left >= 0 || p == start)
      invariant forall i :: 0 <= i < mem.Length ==>
        mem[i] == if dest <= i < q then old(mem[start + (i - dest)]) else old(mem[i])
    {
      var w0, w1, w2, w3 := mem[p], mem[p + 1], mem[p + 2], mem[p + 3];
      mem[q], mem[q + 1], mem[q + 2], mem[q + 3] := w0, w1, w2, w3;
      p, q, left := p + 4, q + 4, left - 4;
    }
    while left > 0
      invariant 0 <= p - start == q - dest && left == size - (p - start) && (left >= 0 || p == start)
      invariant forall i :: 0 <= i < mem.Length ==>
        mem[i] == if dest <= i < q then old(mem[start + (i - dest)]) else old(mem[i])
    {
      mem[q] := mem[p];
      p, q, left := p + 1, q + 1, left - 1;
    }
  }

  const WORD := 0x1_0000_0000

  /** What the `divl` instruction computes, and when it faults instead. */
  predicate DivlFits(upper: int, base: int) { 0 <= upper < base }

  function Divl(upper: int, low: int, base: int): (int, int)
    requires base > 0 && DivlFits(upper, base) && 0 <= low < WORD
  {
    ((upper * WORD + low) / base, (upper * WORD + low) % base)
  }

  /** The high half of a dividend, reduced modulo the base, is divided together with the low half. */
  lemma TwoStep(high: int, low: int, base: int)
    requires base > 0 && high >= 0 && 0 <= low < WORD
    ensures var n := high * WORD + low;
      var d := (high % base) * WORD + low;
      n == ((high / base) * WORD + d / base) * base + d % base && 0 <= d / base < WORD
  {
  }

  lemma HighQuotient(high: int, base: int)
    requires base > 0 && 0 <= high < WORD
    ensures 0 <= high / base < WORD && 0 <= high % base < base
    ensures high == 0 ==> high / base == 0 && high % base == 0
  {
  }

  /** do_div, a 64-by-32-bit division in two 32-bit steps: the quotient and remainder are the true
      ones, and the hardware division never overflows. */
  method DoDiv(n: int, base: int) returns (q: int, mod: int)
    requires 0 <= n < WORD * WORD && 0 < base < WORD
    ensures n == q * base + mod && 0 <= mod < base && 0 <= q < WORD * WORD
  {
    var low, high := n % WORD, n / WORD;
    q, mod := DivHalves(high, low, base);
  }

  /** The two steps, on the halves the registers hold. */
  method DivHalves(high0: int, low0: int, base: int) returns (q: int, mod: int)
    requires 0 <= high0 < WORD && 0 <= low0 < WORD && 0 < base < WORD
    ensures high0 * WORD + low0 == q * base + mod && 0 <= mod < base && 0 <= q < WORD * WORD
  {
    TwoStep(high0, low0, base);
    HighQuotient(high0, base);
    var high, upper := high0, high0;
    if high0 != 0 {
      upper := high0 % base;
      high := high0 / base;
    }
    assert DivlFits(upper, base);
    var low := Divl(upper, low0, base).0;
    mod := Divl(upper, low0, base).1;
    q := high * WORD + low;
  }
}
