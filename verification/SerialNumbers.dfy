/** Unsigned 32-bit counters that wrap around. */
module SerialNumbers {
  const CIRCLE: nat := 0x1_0000_0000
  const HALF: nat := 0x8000_0000

  type Serial = s: nat | s < 0x1_0000_0000

  /** The serial of an unbounded count. */
  function Wrap(count: nat): Serial {
    count % CIRCLE
  }

  /** Wrapping subtraction. */
  function Minus(a: Serial, b: Serial): Serial {
    if a >= b then a - b else a - b + CIRCLE
  }

  /** Less than half a circle apart, the wrapped difference tells the true one. */
  lemma {:induction false} MinusIsDifference(a: nat, b: nat)
    requires b <= a + HALF && a < b + HALF
    ensures Minus(Wrap(a), Wrap(b)) == if a >= b then a - b else a - b + CIRCLE
  {
    assert a == a / CIRCLE * CIRCLE + Wrap(a);
    assert b == b / CIRCLE * CIRCLE + Wrap(b);
    var turns := a / CIRCLE - b / CIRCLE;
    assert a - b == turns * CIRCLE + Wrap(a) - Wrap(b);
    assert -1 <= turns <= 1;
  }
}
