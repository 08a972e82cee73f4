/**
 * SMS encoding and segment counting (research/conversation_harness.py): the GSM 7-bit default
 * alphabet of 3GPP TS 23.038, section 6.2.1, with its two-septet extension characters, else UCS-2.
 */
module SmsSegments {
  // The basic table, row by row.
  const GSM7_ROW0: string := "@\U{A3}$\U{A5}\U{E8}\U{E9}\U{F9}\U{EC}\U{F2}\U{C7}\n\U{D8}\U{F8}\r\U{C5}\U{E5}"
  const GSM7_ROW1: string :=
    "\U{394}_\U{3A6}\U{393}\U{39B}\U{3A9}\U{3A0}\U{3A8}\U{3A3}\U{398}\U{39E}\U{C6}\U{E6}\U{DF}\U{C9}"
  const GSM7_ROW2: string := " !\"#\U{A4}%&'()*+,-./"
  const GSM7_ROW3: string := "0123456789:;<=>?"
  const GSM7_ROW4: string := "\U{A1}ABCDEFGHIJKLMNO"
  const GSM7_ROW5: string := "PQRSTUVWXYZ\U{C4}\U{D6}\U{D1}\U{DC}\U{A7}"
  const GSM7_ROW6: string := "\U{BF}abcdefghijklmno"
  const GSM7_ROW7: string := "pqrstuvwxyz\U{E4}\U{F6}\U{F1}\U{FC}\U{E0}"

  const GSM7_EXTENSION: string := "^{}\\[~]|\U{20AC}\U{C}"

  datatype Encoding = Gsm7 | Ucs2

  datatype Sized = Sized(encoding: Encoding, units: nat, segments: nat)

  predicate IsBasic(c: char) {
    || c in GSM7_ROW0 || c in GSM7_ROW1 || c in GSM7_ROW2 || c in GSM7_ROW3
    || c in GSM7_ROW4 || c in GSM7_ROW5 || c in GSM7_ROW6 || c in GSM7_ROW7
  }

  predicate IsExtension(c: char) { c in GSM7_EXTENSION }

  predicate IsGsm(c: char) { IsBasic(c) || IsExtension(c) }

  predicate AllGsm(s: string) { s == [] || (IsGsm(s[0]) && AllGsm(s[1..])) }

  function Septets(s: string): nat {
    if s == [] then 0 else (if IsExtension(s[0]) then 2 else 1) + Septets(s[1..])
  }

  function Ucs2Units(s: string): nat {
    if s == [] then 0 else (if s[0] > '\U{FFFF}' then 2 else 1) + Ucs2Units(s[1..])
  }

  function SegmentsOf(units: nat, single: nat, each: nat): nat
    requires each > 0
  {
    if units <= single then 1 else (units + each - 1) / each
  }

  function SmsEncoding(s: string): Sized {
    if AllGsm(s) then Sized(Gsm7, Septets(s), SegmentsOf(Septets(s), 160, 153))
    else Sized(Ucs2, Ucs2Units(s), SegmentsOf(Ucs2Units(s), 70, 67))
  }

  /** What `k` segments can carry: joined messages give up room for their headers. */
  function Capacity(k: nat, single: nat, each: nat): nat { if k <= 1 then single else k * each }

  /** The count is the least number of segments that carries the text, in either encoding. */
  lemma FewestSegments(units: nat, k: nat)
    requires k >= 1
    ensures units <= Capacity(k, 160, 153) <==> SegmentsOf(units, 160, 153) <= k
    ensures units <= Capacity(k, 70, 67) <==> SegmentsOf(units, 70, 67) <= k
  {
    assert units > 160 ==> (units + 152) / 153 >= 2;
    assert units > 70 ==> (units + 66) / 67 >= 2;
  }

  /** GSM-7 is chosen exactly when every character is of its alphabet. */
  lemma {:induction false} AllGsmIff(s: string)
    ensures AllGsm(s) <==> forall i :: 0 <= i < |s| ==> IsGsm(s[i])
  {
    if s == [] {
    } else {
      AllGsmIff(s[1..]);
      assert s == [s[0]] + s[1..];
    }
  }

  lemma EncodingIff(s: string)
    ensures SmsEncoding(s).encoding == Gsm7 <==> forall i :: 0 <= i < |s| ==> IsGsm(s[i])
  {
    AllGsmIff(s);
  }

  /**
   * A text goes out in the fewest segments that carry its units: one of 160 septets, or several of 153;
   * in UCS-2 one of 70, or several of 67.
   */
  lemma TextTakesFewest(s: string, k: nat)
    requires k >= 1
    ensures var sized := SmsEncoding(s);
            match sized.encoding
            case Gsm7 =>
              sized.units == Septets(s) && (sized.segments <= k <==> Septets(s) <= if k == 1 then 160 else 153 * k)
            case Ucs2 =>
              sized.units == Ucs2Units(s) && (sized.segments <= k <==> Ucs2Units(s) <= if k == 1 then 70 else 67 * k)
  {
    FewestSegments(if AllGsm(s) then Septets(s) else Ucs2Units(s), k);
  }

  /** `s` is left when some characters of `t` are deleted. */
  predicate Subsequence(s: string, t: string) {
    if s == [] then true
    else if t == [] then false
    else (s[0] == t[0] && Subsequence(s[1..], t[1..])) || Subsequence(s, t[1..])
  }

  lemma {:induction false} EmptySubsequenceCosts(t: string)
    ensures |t| <= Ucs2Units(t)
  {
    if t == [] {
    } else {
      EmptySubsequenceCosts(t[1..]);
    }
  }

  lemma {:induction false} CostsGrow(s: string, t: string)
    requires Subsequence(s, t)
    ensures Septets(s) <= Septets(t) && Ucs2Units(s) <= Ucs2Units(t) && |s| <= |t| <= Ucs2Units(t)
    ensures Septets(s) <= 2 * |s|
    ensures AllGsm(t) ==> AllGsm(s)
    ensures AllGsm(s) && !AllGsm(t) ==> |s| < |t|
  {
    EmptySubsequenceCosts(t);
    if s == [] {
    } else {
      if s[0] == t[0] && Subsequence(s[1..], t[1..]) {
        CostsGrow(s[1..], t[1..]);
      } else {
        CostsGrow(s, t[1..]);
      }
    }
  }

  /** Within one encoding more units never take fewer segments, across the one-segment threshold too. */
  lemma MoreUnitsMoreSegments(m: nat, n: nat)
    requires m <= n
    ensures SegmentsOf(m, 160, 153) <= SegmentsOf(n, 160, 153)
    ensures SegmentsOf(m, 70, 67) <= SegmentsOf(n, 70, 67)
  {
  }

  /** Leaving GSM-7 for UCS-2 with at least one character more never takes fewer segments. */
  lemma SwitchingCostsMore(septets: nat, length: nat, units: nat)
    requires septets <= 2 * length && length < units
    ensures SegmentsOf(septets, 160, 153) <= SegmentsOf(units, 70, 67)
  {
  }

  /** Adding characters anywhere, in any number, never lowers the segment count. */
  lemma SegmentsNeverDrop(s: string, t: string)
    requires Subsequence(s, t)
    ensures SmsEncoding(s).segments <= SmsEncoding(t).segments
  {
    CostsGrow(s, t);
    if AllGsm(t) {
      MoreUnitsMoreSegments(Septets(s), Septets(t));
    } else if AllGsm(s) {
      SwitchingCostsMore(Septets(s), |s|, Ucs2Units(t));
    } else {
      MoreUnitsMoreSegments(Ucs2Units(s), Ucs2Units(t));
    }
  }

  lemma {:induction false} DroppingOneIsSubsequence(before: string, c: char, after: string)
    ensures Subsequence(before + after, before + [c] + after)
  {
    if before == [] {
      assert before + after == after && (before + [c] + after)[1..] == after;
      SubsequenceOfItself(after);
    } else {
      assert (before + after)[1..] == before[1..] + after;
      assert (before + [c] + after)[1..] == before[1..] + [c] + after;
      DroppingOneIsSubsequence(before[1..], c, after);
    }
  }

  lemma {:induction false} SubsequenceOfItself(s: string)
    ensures Subsequence(s, s)
  {
    if s == [] {
    } else {
      SubsequenceOfItself(s[1..]);
    }
  }

  lemma InsertionNeverLowersSegments(before: string, c: char, after: string)
    ensures SmsEncoding(before + after).segments <= SmsEncoding(before + [c] + after).segments
  {
    DroppingOneIsSubsequence(before, c, after);
    SegmentsNeverDrop(before + after, before + [c] + after);
  }

  // --- the unit count, unlike the segment count ----------------------------------------------

  function Extensions(s: string): nat {
    if s == [] then 0 else (if IsExtension(s[0]) then 1 else 0) + Extensions(s[1..])
  }

  lemma {:induction false} SeptetsAre(s: string)
    ensures Septets(s) == |s| + Extensions(s)
  {
    if s == [] {
    } else {
      SeptetsAre(s[1..]);
    }
  }

  lemma UpperRowsAreOneUnit(c: char)
    ensures c in GSM7_ROW0 || c in GSM7_ROW1 || c in GSM7_ROW2 || c in GSM7_ROW3 ==> c <= '\U{FFFF}'
  {
  }

  lemma LowerRowsAreOneUnit(c: char)
    ensures c in GSM7_ROW4 || c in GSM7_ROW5 || c in GSM7_ROW6 || c in GSM7_ROW7 ==> c <= '\U{FFFF}'
  {
  }

  lemma ExtensionIsOneUnit(c: char)
    ensures IsExtension(c) ==> c <= '\U{FFFF}'
  {
  }

  lemma GsmCharacterIsOneUnit(c: char)
    requires IsGsm(c)
    ensures c <= '\U{FFFF}'
  {
    UpperRowsAreOneUnit(c);
    LowerRowsAreOneUnit(c);
    ExtensionIsOneUnit(c);
  }

  lemma {:induction false} GsmUnits(s: string)
    requires AllGsm(s)
    ensures Ucs2Units(s) == |s|
  {
    if s == [] {
    } else {
      GsmCharacterIsOneUnit(s[0]);
      GsmUnits(s[1..]);
    }
  }

  /** What one character adds, wherever it goes in. */
  lemma {:induction false} InsertionAdds(before: string, c: char, after: string)
    ensures var s, t := before + after, before + [c] + after;
            && Septets(t) == Septets(s) + (if IsExtension(c) then 2 else 1)
            && Ucs2Units(t) == Ucs2Units(s) + (if c > '\U{FFFF}' then 2 else 1)
            && (AllGsm(t) <==> AllGsm(s) && IsGsm(c))
  {
    var s, t := before + after, before + [c] + after;
    if before == [] {
      assert s == after && t[1..] == after;
    } else {
      assert s[1..] == before[1..] + after && t[1..] == before[1..] + [c] + after;
      InsertionAdds(before[1..], c, after);
    }
  }

  /**
   * Inserting a character lowers the unit count exactly when it forces a GSM text to UCS-2 and the text
   * has more extension characters, at two septets each, than the character takes units.
   */
  lemma UnitsDropIff(before: string, c: char, after: string)
    ensures var s := before + after;
            SmsEncoding(before + [c] + after).units < SmsEncoding(s).units <==>
            AllGsm(s) && !IsGsm(c) && Extensions(s) > (if c > '\U{FFFF}' then 2 else 1)
  {
    InsertionAdds(before, c, after);
    SeptetsAre(before + after);
    if AllGsm(before + after) { GsmUnits(before + after); }
  }
}
