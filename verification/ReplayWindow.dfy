/**
 The sliding anti-replay window of a DPoP session (src/pop/sk/window.rs), section 3.4.3 of RFC 4303:
 a high-water mark and a bitmap of 1024 bits in sixteen 64-bit words, shifted in place.  Bit `i`
 stands for the counter value `high - i`.
 */
module ReplayWindow {

  const WINDOW_BITS: nat := 1024
  const WORDS: nat := 16

  datatype Verdict = Accept | Duplicate | BelowWindow

  /** A 64-bit word, as the set of its one bits. */
  type Word = w: set<nat> | forall b :: b in w ==> b < 64

  predicate Raised(w: Word, s: nat, b: nat) { b >= s && b - s in w }
  predicate Lowered(w: Word, s: nat, b: nat) { b + s in w }

  function Shl(w: Word, s: nat): Word { set b | 0 <= b < 64 && Raised(w, s, b) }
  function Shr(w: Word, s: nat): Word { set b | 0 <= b < 64 && Lowered(w, s, b) }

  predicate At(words: seq<Word>, i: nat)
    requires |words| == WORDS && i < WINDOW_BITS
  {
    i % 64 in words[i / 64]
  }

  /** What the shift leaves in word `i`. */
  function ShiftedWord(words: seq<Word>, shift: nat, i: nat): Word
    requires |words| == WORDS && shift < WINDOW_BITS && i < WORDS
  {
    var word, bit := shift / 64, shift % 64;
    var v: Word := if i >= word then Shl(words[i - word], bit) else {};
    if bit > 0 && i > word then v + Shr(words[i - word - 1], 64 - bit) else v
  }

  /** Where a bit came from: the same place of its word or a lower one, or the end of the word before. */
  lemma SourceBit(shift: nat, i: nat, b: nat)
    requires i < WORDS && b < 64 && shift <= 64 * i + b
    ensures var word, bit, n := shift / 64, shift % 64, 64 * i + b - shift;
            && (b >= bit ==> i >= word && n / 64 == i - word && n % 64 == b - bit)
            && (b < bit ==> i > word && n / 64 == i - word - 1 && n % 64 == b + (64 - bit))
  {
  }

  lemma ShiftedBit(words: seq<Word>, shift: nat, i: nat, b: nat)
    requires |words| == WORDS && shift < WINDOW_BITS && i < WORDS && b < 64
    ensures b in ShiftedWord(words, shift, i) <==> shift <= 64 * i + b && At(words, 64 * i + b - shift)
  {
    var word, bit := shift / 64, shift % 64;
    assert shift == 64 * word + bit;
    if shift <= 64 * i + b {
      SourceBit(shift, i, b);
      if b >= bit {
        assert b in Shl(words[i - word], bit) <==> b - bit in words[i - word];
      } else {
        assert b in Shr(words[i - word - 1], 64 - bit) <==> b + (64 - bit) in words[i - word - 1];
      }
    }
  }

  /** Bit `i` of `after` is bit `i - shift` of `before`. */
  predicate Shifted(before: seq<Word>, after: seq<Word>, shift: nat)
    requires |before| == |after| == WORDS
  {
    forall i :: 0 <= i < WINDOW_BITS ==> (At(after, i) <==> i >= shift && At(before, i - shift))
  }

  lemma WordsShifted(before: seq<Word>, after: seq<Word>, shift: nat)
    requires |before| == |after| == WORDS && shift < WINDOW_BITS
    requires forall k :: 0 <= k < WORDS ==> after[k] == ShiftedWord(before, shift, k)
    ensures Shifted(before, after, shift)
  {
    forall i | 0 <= i < WINDOW_BITS ensures At(after, i) <==> i >= shift && At(before, i - shift) {
      ShiftedBit(before, shift, i / 64, i % 64);
    }
  }

  lemma ClearedIsShifted(before: seq<Word>, after: seq<Word>, shift: nat)
    requires |before| == |after| == WORDS && shift >= WINDOW_BITS
    requires forall k :: 0 <= k < WORDS ==> after[k] == {}
    ensures Shifted(before, after, shift)
  {
  }

  /** Shift towards older positions, from the last word down. */
  method Shift(bitmap: array<Word>, shift: nat)
    requires bitmap.Length == WORDS
    modifies bitmap
    ensures Shifted(old(bitmap[..]), bitmap[..], shift)
  {
    if shift >= WINDOW_BITS {
      for i := 0 to WORDS
        invariant forall k :: 0 <= k < i ==> bitmap[k] == {}
      {
        bitmap[i] := {};
      }
      ClearedIsShifted(old(bitmap[..]), bitmap[..], shift);
      return;
    }
    var word, bit := shift / 64, shift % 64;
    for i := WORDS downto 0
      invariant forall k :: 0 <= k < i ==> bitmap[k] == old(bitmap[k])
      invariant forall k :: i <= k < WORDS ==> bitmap[k] == ShiftedWord(old(bitmap[..]), shift, k)
    {
      var v: Word := if i >= word then Shl(bitmap[i - word], bit) else {};
      if bit > 0 && i > word {
        v := v + Shr(bitmap[i - word - 1], 64 - bit);
      }
      bitmap[i] := v;
    }
    WordsShifted(old(bitmap[..]), bitmap[..], shift);
  }

  // ---- The window against the list of counters it was shown ----

  function Highest(shown: seq<nat>): nat {
    if shown == [] then 0
    else
      var rest := Highest(shown[..|shown| - 1]);
      if shown[|shown| - 1] > rest then shown[|shown| - 1] else rest
  }

  /** The bitmap holds exactly the shown values of the window. */
  predicate Tracks(high: nat, words: seq<Word>, shown: seq<nat>) {
    && |words| == WORDS && high == Highest(shown)
    && (forall n :: n in shown ==> n <= high)
    && (forall i :: 0 <= i < WINDOW_BITS ==> (At(words, i) <==> i <= high && high - i in shown))
  }

  /** Set one bit. */
  method SetBit(bitmap: array<Word>, i: nat)
    requires bitmap.Length == WORDS && i < WINDOW_BITS
    modifies bitmap
    ensures forall k :: 0 <= k < WINDOW_BITS ==> (At(bitmap[..], k) <==> k == i || At(old(bitmap[..]), k))
  {
    bitmap[i / 64] := bitmap[i / 64] + {i % 64};
  }

  lemma AdvancedTracks(high: nat, before: seq<Word>, shifted: seq<Word>, after: seq<Word>, shown: seq<nat>, n: nat)
    requires Tracks(high, before, shown) && n > high && |shifted| == |after| == WORDS
    requires Shifted(before, shifted, n - high)
    requires forall k :: 0 <= k < WINDOW_BITS ==> (At(after, k) <==> k == 0 || At(shifted, k))
    ensures Tracks(n, after, shown + [n])
  {
  }

  lemma MarkedTracks(high: nat, before: seq<Word>, after: seq<Word>, shown: seq<nat>, n: nat)
    requires Tracks(high, before, shown) && high - WINDOW_BITS < n <= high && |after| == WORDS
    requires forall k :: 0 <= k < WINDOW_BITS ==> (At(after, k) <==> k == high - n || At(before, k))
    ensures Tracks(high, after, shown + [n])
  {
  }

  lemma OldTracks(high: nat, words: seq<Word>, shown: seq<nat>, n: nat)
    requires Tracks(high, words, shown) && n + WINDOW_BITS <= high
    ensures Tracks(high, words, shown + [n])
  {
  }

  /** Never shown before, and above the lower edge of the window. */
  predicate Fresh(shown: seq<nat>, n: nat) { n !in shown && n + WINDOW_BITS > Highest(shown) }

  class Window {
    var high: nat
    const bitmap: array<Word>
    ghost var shown: seq<nat>

    ghost predicate Valid()
      reads this, bitmap
    {
      bitmap.Length == WORDS && Tracks(high, bitmap[..], shown)
    }

    constructor ()
      ensures Valid() && shown == [] && fresh(bitmap)
    {
      high, shown := 0, [];
      bitmap := new Word[WORDS](_ => {});
    }

    /** A counter is accepted exactly when it was never shown before and lies above the lower edge
        of the window under the highest counter shown. */
    method CheckAndMark(n: nat) returns (v: Verdict)
      requires Valid()
      modifies this, bitmap
      ensures Valid() && shown == old(shown) + [n]
      ensures v == Accept <==> Fresh(old(shown), n)
      ensures v == BelowWindow <==> n + WINDOW_BITS <= Highest(old(shown))
    {
      ghost var words, past := bitmap[..], shown;
      shown := shown + [n];
      if n > high {
        Shift(bitmap, n - high);
        ghost var shifted := bitmap[..];
        SetBit(bitmap, 0);
        AdvancedTracks(high, words, shifted, bitmap[..], past, n);
        high := n;
        return Accept;
      }
      var diff := high - n;
      if diff >= WINDOW_BITS {
        OldTracks(high, words, past, n);
        return BelowWindow;
      }
      if diff % 64 in bitmap[diff / 64] {
        assert At(words, diff);
        MarkedTracks(high, words, words, past, n);
        return Duplicate;
      }
      assert !At(words, diff);
      SetBit(bitmap, diff);
      MarkedTracks(high, words, bitmap[..], past, n);
      return Accept;
    }
  }
}
