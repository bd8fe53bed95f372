/**
The 64-entry replay window of a session (internal/secure/session.go): a 64-bit
word of marks below the highest accepted sequence number, against the plain set
of everything ever accepted.
*/
module ReplayWindow {
  import opened Words

  // ----- The window -----

  /** What the window is for: never accepted, and not w or more below anything accepted. */
  predicate Fresh(w: nat, accepted: set<nat>, s: nat) {
    s !in accepted && forall a :: a in accepted && a > s ==> a - s < w
  }

  ghost predicate Fits(w: nat, accepted: set<nat>, haveRecv: bool, highest: nat, bits: nat) {
    && (haveRecv <==> accepted != {})
    && (haveRecv ==> highest in accepted && forall a :: a in accepted ==> a <= highest)
    && (haveRecv ==> forall d: nat :: d < w && d <= highest ==> (BitSet(bits, d) <==> highest - d in accepted))
  }

  lemma AvailableIsFresh(w: nat, accepted: set<nat>, haveRecv: bool, highest: nat, bits: nat, s: nat)
    requires Fits(w, accepted, haveRecv, highest, bits)
    ensures Fresh(w, accepted, s) <==>
      !haveRecv || s > highest || (highest - s < w && And(bits, ShiftLeft(w, 1, highest - s)) == 0)
  {
    if haveRecv && s <= highest && highest - s < w {
      TestReadsBit(w, bits, highest - s);
      assert BitSet(bits, highest - s) <==> s in accepted;
    }
  }

  lemma SlideFits(w: nat, accepted: set<nat>, highest: nat, bits: nat, s: nat)
    requires Fits(w, accepted, true, highest, bits) && s > highest
    ensures Fits(w, accepted + {s}, true, s, if s - highest >= w then 1 else Or(ShiftLeft(w, bits, s - highest), 1))
  {
    var shift := s - highest;
    var bits' := if shift >= w then 1 else Or(ShiftLeft(w, bits, shift), 1);
    forall d: nat | d < w && d <= s ensures BitSet(bits', d) <==> s - d in accepted + {s} {
      OneBit(d);
      if shift < w {
        OrBit(ShiftLeft(w, bits, shift), 1, d);
        ShiftBit(w, bits, shift, d);
        assert shift <= d ==> highest - (d - shift) == s - d;
      }
    }
  }

  lemma MarkFits(w: nat, accepted: set<nat>, highest: nat, bits: nat, s: nat)
    requires Fits(w, accepted, true, highest, bits) && s <= highest && highest - s < w
    ensures Fits(w, accepted + {s}, true, highest, Or(bits, ShiftLeft(w, 1, highest - s)))
  {
    var e := highest - s;
    forall d: nat | d < w && d <= highest
      ensures BitSet(Or(bits, ShiftLeft(w, 1, e)), d) <==> highest - d in accepted + {s}
    {
      OrBit(bits, ShiftLeft(w, 1, e), d);
      ShiftBit(w, 1, e, d);
      if e <= d { OneBit(d - e); }
    }
  }

  lemma FirstFits(w: nat, s: nat)
    ensures Fits(w, {s}, true, s, 1)
  {
    forall d: nat | d < w && d <= s ensures BitSet(1, d) <==> s - d in {s} { OneBit(d); }
  }
}
