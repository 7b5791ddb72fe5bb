/** UTF-8 text as bytes, with the operations of `str` that work on byte offsets. */
module Utf8 {

  type Byte = b: int | 0 <= b < 256

  predicate IsContinuation(b: Byte) {
    0x80 <= b < 0xC0
  }

  /** The number of bytes announced by a first byte; 0 when no character starts with it. */
  function Width(b: Byte): (w: nat)
    ensures w <= 4
    ensures IsContinuation(b) ==> w == 0
  {
    if b < 0x80 then 1
    else if 0xC2 <= b < 0xE0 then 2
    else if 0xE0 <= b < 0xF0 then 3
    else if 0xF0 <= b < 0xF5 then 4
    else 0
  }

  /** The narrower range some first bytes leave to the second byte (RFC 3629, section 4). */
  predicate SecondByteAllowed(first: Byte, second: Byte) {
    && (first == 0xE0 ==> 0xA0 <= second)
    && (first == 0xED ==> second < 0xA0)
    && (first == 0xF0 ==> 0x90 <= second)
    && (first == 0xF4 ==> second < 0x90)
  }

  /** One whole character stands at `p`. */
  predicate CharAt(s: seq<Byte>, p: nat)
    requires p < |s|
  {
    var w := Width(s[p]);
    && 1 <= w && p + w <= |s|
    && (forall i | p + 1 <= i < p + w :: IsContinuation(s[i]))
    && (2 <= w ==> SecondByteAllowed(s[p], s[p + 1]))
  }

  /** The bytes from `p` on are whole characters. */
  predicate ValidFrom(s: seq<Byte>, p: nat)
    requires p <= |s|
    decreases |s| - p
  {
    p == |s| || (CharAt(s, p) && ValidFrom(s, p + Width(s[p])))
  }

  predicate ValidUtf8(s: seq<Byte>) {
    ValidFrom(s, 0)
  }

  /** `str::is_char_boundary`. */
  predicate IsBoundary(s: seq<Byte>, i: int) {
    i == 0 || i == |s| || (0 < i < |s| && !IsContinuation(s[i]))
  }

  /** `chars().count()`: every character has exactly one byte that is not a continuation byte. */
  function CharCount(s: seq<Byte>): (n: nat)
    ensures n <= |s|
  {
    if s == [] then 0 else (if IsContinuation(s[0]) then 0 else 1) + CharCount(s[1..])
  }

  lemma {:induction false} CharCountAppend(a: seq<Byte>, b: seq<Byte>)
    ensures CharCount(a + b) == CharCount(a) + CharCount(b)
  {
    if a == [] {
      assert a + b == b;
    } else {
      assert (a + b)[1..] == a[1..] + b;
      CharCountAppend(a[1..], b);
    }
  }

  lemma {:induction false} CharCountContinuation(s: seq<Byte>)
    requires forall i | 0 <= i < |s| :: IsContinuation(s[i])
    ensures CharCount(s) == 0
  {
    if s != [] {
      CharCountContinuation(s[1..]);
    }
  }

  lemma {:induction false} ValidTransfer(s: seq<Byte>, p: nat, t: seq<Byte>, q: nat)
    requires p <= |s| && q <= |t| && |s| - p == |t| - q
    requires forall i | p <= i < |s| :: s[i] == t[i - p + q]
    requires ValidFrom(s, p)
    ensures ValidFrom(t, q)
    decreases |s| - p
  {
    if p < |s| {
      var w := Width(s[p]);
      assert s[p] == t[q];
      forall i | q + 1 <= i < q + w ensures IsContinuation(t[i]) {
        assert IsContinuation(s[i - q + p]);
      }
      assert 2 <= w ==> s[p + 1] == t[q + 1];
      ValidTransfer(s, p + w, t, q + w);
    }
  }

  /** A text whose characters end at `k`, with a valid text from `k` on. */
  lemma {:induction false} ValidJoined(a: seq<Byte>, p: nat, s: seq<Byte>)
    requires p <= |a| <= |s| && s[..|a|] == a
    requires ValidFrom(a, p) && ValidFrom(s, |a|)
    ensures ValidFrom(s, p)
    decreases |a| - p
  {
    if p < |a| {
      var w := Width(a[p]);
      forall i | p <= i < p + w ensures s[i] == a[i] {
      }
      ValidJoined(a, p + w, s);
    }
  }

  lemma {:induction false} ValidAppend(a: seq<Byte>, b: seq<Byte>)
    requires ValidUtf8(a) && ValidUtf8(b)
    ensures ValidUtf8(a + b)
  {
    ValidTransfer(b, 0, a + b, |a|);
    ValidJoined(a, 0, a + b);
  }

  /** The characters before a boundary, and those behind it. */
  lemma {:induction false} ValidAround(s: seq<Byte>, p: nat, k: nat)
    requires p <= k <= |s| && ValidFrom(s, p) && (k == p || IsBoundary(s, k))
    ensures ValidFrom(s, k)
    ensures ValidFrom(s[..k], p)
    decreases |s| - p
  {
    if p < k {
      var w := Width(s[p]);
      assert p + w <= k;
      ValidAround(s, p + w, k);
      forall i | p <= i < p + w ensures s[..k][i] == s[i] {
      }
    }
  }

  /** Cutting at a boundary leaves two valid texts. */
  lemma {:induction false} ValidSplit(s: seq<Byte>, k: nat)
    requires ValidUtf8(s) && IsBoundary(s, k)
    ensures ValidUtf8(s[..k]) && ValidUtf8(s[k..])
  {
    ValidAround(s, 0, k);
    ValidTransfer(s, k, s[k..], 0);
  }

  lemma {:induction false} ValidSlice(s: seq<Byte>, i: nat, j: nat)
    requires ValidUtf8(s) && i <= j && IsBoundary(s, i) && IsBoundary(s, j)
    ensures ValidUtf8(s[i..j])
  {
    ValidSplit(s, j);
    ValidAround(s[..j], 0, i);
    ValidTransfer(s[..j], i, s[i..j], 0);
  }

  /** The first byte of the character that byte `i` belongs to. */
  lemma {:induction false} CharAround(s: seq<Byte>, p: nat, i: nat) returns (q: nat)
    requires p <= i < |s| && ValidFrom(s, p)
    ensures q <= i < q + Width(s[q]) <= |s| && CharAt(s, q)
    ensures q + Width(s[q]) < |s| ==> !IsContinuation(s[q + Width(s[q])])
    decreases |s| - p
  {
    var w := Width(s[p]);
    if i < p + w {
      q := p;
      assert p + w < |s| ==> CharAt(s, p + w);
    } else {
      q := CharAround(s, p + w, i);
    }
  }

  /** Among four neighbouring bytes one starts a character. */
  lemma {:induction false} NoFourContinuations(s: seq<Byte>, i: nat)
    requires ValidUtf8(s) && i + 4 <= |s|
    ensures exists k | i <= k < i + 4 :: !IsContinuation(s[k])
  {
    var q := CharAround(s, 0, i);
    if q == i {
      assert !IsContinuation(s[i]);
    } else {
      assert !IsContinuation(s[q + Width(s[q])]);
    }
  }

  /** A byte below 0x80 is a character of its own, so a text can be cut before and behind it. */
  lemma {:induction false} BoundaryAfterAscii(s: seq<Byte>, i: nat)
    requires ValidUtf8(s) && i < |s| && s[i] < 0x80
    ensures IsBoundary(s, i) && IsBoundary(s, i + 1)
  {
    var q := CharAround(s, 0, i);
    assert q == i;
  }
}
