/** Wrap-around-aware arithmetic on 64-bit epochs (include/nvwal_api.h).
    Machine words are integers below 2^64; every operation states its truncation. */
module EpochArithmetic {
  import opened Base

  const TWO63: nat := 0x8000_0000_0000_0000

  type Word = x: int | 0 <= x < TWO64

  const INVALID_EPOCH: Word := 0

  predicate IsAfter(left: Word, right: Word) {
    var diff := (left - right) % TWO64;
    diff != 0 && diff < TWO63
  }

  predicate IsEqualOrAfter(left: Word, right: Word) {
    left == right || IsAfter(left, right)
  }

  function Increment(epoch: Word): Word {
    var ret := (epoch + 1) % TWO64;
    if ret == INVALID_EPOCH then (ret + 1) % TWO64 else ret
  }

  function Add(epoch: Word, operand: Word): Word {
    var ret := (epoch + operand) % TWO64;
    if ret < epoch then (ret + 1) % TWO64 else ret
  }

  /** `n` applications of `Increment`. */
  function Incremented(epoch: Word, n: nat): Word {
    if n == 0 then epoch else Increment(Incremented(epoch, n - 1))
  }

  /** The k-th epoch of an unbounded history, as the 64-bit value that represents it:
      0 stands for "none", and the values 1 .. 2^64-1 are reused cyclically. */
  function Wrap(k: nat): Word {
    if k == 0 then 0 else (k - 1) % (TWO64 - 1) + 1
  }

  lemma WrapNext(k: nat)
    ensures Increment(Wrap(k)) == Wrap(k + 1)
  {
    if k > 0 {
      var m := TWO64 - 1;
      assert k == (k - 1) / m * m + (k - 1) % m + 1;
      if (k - 1) % m == m - 1 {
        assert k % m == 0;
      } else {
        assert k % m == (k - 1) % m + 1;
      }
    }
  }

  lemma {:induction false} IncrementedWrap(k: nat, n: nat)
    ensures Incremented(Wrap(k), n) == Wrap(k + n)
  {
    if n == 0 {
    } else {
      IncrementedWrap(k, n - 1);
      WrapNext(k + n - 1);
    }
  }

  /** Adding is the same as incrementing that many times, for every epoch and every operand;
      the invalid epoch is only ever produced by adding nothing to it. */
  lemma {:induction false} AddIsRepeatedIncrement(epoch: Word, operand: Word)
    ensures Add(epoch, operand) == Incremented(epoch, operand)
    ensures operand > 0 ==> Add(epoch, operand) != INVALID_EPOCH
  {
    AddIsWrap(epoch, operand);
    IncrementedWrap(epoch, operand);
  }

  lemma AddIsWrap(epoch: Word, operand: Word)
    ensures Wrap(epoch) == epoch
    ensures Add(epoch, operand) == Wrap(epoch + operand)
    ensures operand > 0 ==> Add(epoch, operand) > 0
  {
    var sum := epoch + operand;
    if sum < TWO64 {
      assert sum % TWO64 == sum;
      assert sum > 0 ==> (sum - 1) % (TWO64 - 1) == sum - 1;
    } else {
      assert sum % TWO64 == sum - TWO64;
      assert (sum - 1) % (TWO64 - 1) == sum - TWO64;
    }
  }

  /** "Greater than" of section 3.2 of RFC 1982 with SERIAL_BITS = 64. */
  predicate SerialGreater(s1: Word, s2: Word) {
    || (s1 < s2 && s2 - s1 > TWO63)
    || (s1 > s2 && s1 - s2 < TWO63)
  }

  lemma IsAfterIsSerialGreater(left: Word, right: Word)
    ensures IsAfter(left, right) <==> SerialGreater(left, right)
  {
    if left < right {
      assert (left - right) % TWO64 == left - right + TWO64;
    } else {
      assert (left - right) % TWO64 == left - right;
    }
  }

  /** Distance of `e` from the start of a window, going up. */
  function Offset(base: Word, e: Word): Word {
    (e - base) % TWO64
  }

  /** On any window of at most 2^63 consecutive values `IsAfter` compares offsets. */
  lemma IsAfterInWindow(base: Word, l: Word, r: Word)
    requires Offset(base, l) < TWO63 && Offset(base, r) < TWO63
    ensures IsAfter(l, r) <==> Offset(base, l) > Offset(base, r)
    ensures Offset(base, l) == Offset(base, r) ==> l == r
  {
    IsAfterIsSerialGreater(l, r);
  }

  /** Hence it is a strict total order there ... */
  lemma StrictTotalOrderInWindow(base: Word, x: Word, y: Word, z: Word)
    requires Offset(base, x) < TWO63 && Offset(base, y) < TWO63 && Offset(base, z) < TWO63
    ensures !IsAfter(x, x)
    ensures IsAfter(x, y) ==> !IsAfter(y, x)
    ensures x == y || IsAfter(x, y) || IsAfter(y, x)
    ensures IsAfter(x, y) && IsAfter(y, z) ==> IsAfter(x, z)
  {
    IsAfterInWindow(base, x, y);
    IsAfterInWindow(base, y, x);
    IsAfterInWindow(base, y, z);
    IsAfterInWindow(base, x, z);
  }

  /** ... and 2^63 is as wide as it gets: one value further, two ends are incomparable. */
  lemma WindowIsTight(base: Word)
    ensures var far := (base + TWO63) % TWO64;
            base != far && !IsAfter(base, far) && !IsAfter(far, base)
  {
    var far := (base + TWO63) % TWO64;
    IsAfterIsSerialGreater(base, far);
    IsAfterIsSerialGreater(far, base);
  }

  /** Why the rest of the model may number epochs with unbounded naturals: as long as two
      epochs are less than 2^63 - 1 apart, comparing, incrementing and adding their 64-bit
      representations is comparing, incrementing and adding the numbers. */
  lemma UnwrappedEpochs(a: nat, b: nat, n: Word)
    requires 1 <= a && 1 <= b
    requires -(TWO63 - 1) < a - b < TWO63 - 1
    ensures IsAfter(Wrap(a), Wrap(b)) <==> a > b
    ensures IsEqualOrAfter(Wrap(a), Wrap(b)) <==> a >= b
    ensures Increment(Wrap(a)) == Wrap(a + 1)
    ensures Add(Wrap(a), n) == Wrap(a + n)
  {
    WrapNext(a);
    IncrementedWrap(a, n);
    AddIsRepeatedIncrement(Wrap(a), n);
    WrapDistance(a, b);
    IsAfterIsSerialGreater(Wrap(a), Wrap(b));
  }

  lemma WrapDistance(a: nat, b: nat)
    requires 1 <= a && 1 <= b
    requires -(TWO63 - 1) < a - b < TWO63 - 1
    ensures Wrap(a) - Wrap(b) == a - b
         || (a > b && Wrap(a) - Wrap(b) == a - b - (TWO64 - 1))
         || (a < b && Wrap(a) - Wrap(b) == a - b + (TWO64 - 1))
  {
    var m := TWO64 - 1;
    var qa, ra := (a - 1) / m, (a - 1) % m;
    var qb, rb := (b - 1) / m, (b - 1) % m;
    assert a - b == (qa - qb) * m + (ra - rb);
    assert -1 <= qa - qb <= 1;
  }
}
