/**
 * Nightly opt-out reconciliation as a law of two lists (texttorrent/reconcile.py): our suppressed phones
 * and the vendor's blocked list, over the ten-digit wire form of texttorrent/client.py.
 */
module Reconcile {
  import opened Common
  import opened Ordering
  import opened Strings

  type Norm = string -> Option<string>

  // --- the wire form -------------------------------------------------------------------

  function Digits(s: string): string {
    if s == [] then [] else Digits(s[..|s| - 1]) + (if Digit(s[|s| - 1]) then [s[|s| - 1]] else [])
  }

  /** The last ten digits of a number in any format. */
  function TenDigits(phone: string): string {
    var digits := Digits(phone);
    if |digits| <= 10 then digits else digits[|digits| - 10..]
  }

  /** What the vendor stores for a number pushed to it. */
  function Wire(phone: string): string { "+1" + TenDigits(phone) }

  predicate NorthAmerican(phone: string) { |phone| == 12 && phone[..2] == "+1" && AllDigits(phone[2..]) }

  lemma {:induction false} DigitsAreDigits(s: string)
    ensures AllDigits(Digits(s))
  {
    if s == [] {
    } else {
      DigitsAreDigits(s[..|s| - 1]);
    }
  }

  lemma {:induction false} DigitsOfDigits(prefix: string, d: string)
    requires AllDigits(d)
    ensures Digits(prefix + d) == Digits(prefix) + d
  {
    if d == [] {
      assert prefix + d == prefix;
    } else {
      var n := |d| - 1;
      assert (prefix + d)[..|prefix + d| - 1] == prefix + d[..n];
      DigitsOfDigits(prefix, d[..n]);
      assert d[..n] + [d[n]] == d;
    }
  }

  lemma PlusOneDigits(d: string)
    requires AllDigits(d)
    ensures Digits("+1" + d) == "1" + d
  {
    DigitsOfDigits("+1", d);
    assert "+1"[..1] == "+" && "+"[..0] == "";
    assert Digits("+") == "";
  }

  /** The wire form loses nothing exactly for "+1" and ten digits. */
  lemma WireFaithful(phone: string)
    ensures Wire(phone) == phone <==> NorthAmerican(phone)
  {
    DigitsAreDigits(phone);
    if NorthAmerican(phone) {
      var d := phone[2..];
      assert phone == "+1" + d;
      PlusOneDigits(d);
      assert TenDigits(phone) == d;
    }
    if Wire(phone) == phone {
      var d := TenDigits(phone);
      assert phone == "+1" + d && phone[2..] == d;
      PlusOneDigits(d);
    }
  }

  // --- the two lists -------------------------------------------------------------------

  datatype Books = Books(ours: set<string>, vendor: seq<string>)

  function Phones(ours: set<string>): set<string> { set i | i in ours && '@' !in i }

  function Theirs(norm: Norm, raw: seq<string>): set<string> { set r | r in raw && norm(r).Some? :: norm(r).value }

  function Unparseable(norm: Norm, raw: seq<string>): seq<string> {
    if raw == [] then []
    else Unparseable(norm, raw[..|raw| - 1]) + (if norm(raw[|raw| - 1]).None? then [raw[|raw| - 1]] else [])
  }

  function Missing(norm: Norm, b: Books): set<string> { Theirs(norm, b.vendor) - Phones(b.ours) }

  function Unpushed(norm: Norm, b: Books): set<string> { Phones(b.ours) - Theirs(norm, b.vendor) }

  function Wires(numbers: seq<string>): seq<string> {
    seq(|numbers|, i requires 0 <= i < |numbers| => Wire(numbers[i]))
  }

  /** The state if the push fails: what the vendor knew is ours, its own list is as before. */
  function AfterAdds(norm: Norm, b: Books): Books { b.(ours := b.ours + Missing(norm, b)) }

  function AfterRun(norm: Norm, b: Books): Books {
    Books(b.ours + Missing(norm, b), b.vendor + Wires(Sorted(Unpushed(norm, b))))
  }

  datatype Report = Report(added: seq<string>, pushed: seq<string>, unparseable: seq<string>, divergence: nat)

  function ReportOf(norm: Norm, b: Books): Report {
    var added, pushed, unparseable := Sorted(Missing(norm, b)), Sorted(Unpushed(norm, b)), Unparseable(norm, b.vendor);
    Report(added, pushed, unparseable, |added| + |pushed| + |unparseable|)
  }

  // --- what is known of the normalizer ----------------------------------------------------

  /** Normalizing again changes nothing, and no phone looks like an email. */
  predicate Settles(norm: Norm, raw: string) {
    norm(raw).Some? ==> norm(norm(raw).value) == norm(raw) && '@' !in norm(raw).value
  }

  /** A wire number is read back as itself, as a whole North American number, or not at all. */
  predicate ReadsWire(norm: Norm, phone: string) {
    norm(Wire(phone)).Some? ==> norm(Wire(phone)).value == Wire(phone) && NorthAmerican(Wire(phone))
  }

  ghost predicate Sound(norm: Norm) { forall s: string :: Settles(norm, s) && ReadsWire(norm, s) }

  /** Our suppressed phones are stored in normal form. */
  ghost predicate Settled(norm: Norm, ours: set<string>) { forall p :: p in Phones(ours) ==> norm(p) == Some(p) }

  lemma TheirsSettled(norm: Norm, raw: seq<string>)
    requires Sound(norm)
    ensures forall p :: p in Theirs(norm, raw) ==> norm(p) == Some(p) && '@' !in p
  {
    forall p | p in Theirs(norm, raw) ensures norm(p) == Some(p) && '@' !in p {
      var r :| r in raw && norm(r).Some? && norm(r).value == p;
      assert Settles(norm, r);
    }
  }

  /** After the adds our phones are the union of both lists, still in normal form. */
  lemma OursBecomesTheUnion(norm: Norm, b: Books)
    requires Sound(norm) && Settled(norm, b.ours)
    ensures Phones(AfterRun(norm, b).ours) == Phones(b.ours) + Theirs(norm, b.vendor)
    ensures Settled(norm, AfterRun(norm, b).ours)
    ensures b.ours <= AfterRun(norm, b).ours && b.vendor <= AfterRun(norm, b).vendor
  {
    TheirsSettled(norm, b.vendor);
  }

  function ReadBack(norm: Norm, pushed: set<string>): set<string> {
    set p | p in pushed && norm(Wire(p)).Some? :: norm(Wire(p)).value
  }

  lemma TheirsOfWires(norm: Norm, pushed: set<string>)
    ensures Theirs(norm, Wires(Sorted(pushed))) == ReadBack(norm, pushed)
  {
    var numbers := Sorted(pushed);
    forall p | p in pushed ensures Wire(p) in Wires(numbers) {
      var i :| 0 <= i < |numbers| && numbers[i] == p;
      assert Wires(numbers)[i] == Wire(p);
    }
    forall r | r in Wires(numbers) ensures exists p :: p in pushed && Wire(p) == r {
      var i :| 0 <= i < |numbers| && Wires(numbers)[i] == r;
      assert numbers[i] in numbers;
    }
  }

  /** What the vendor's list reads as afterwards. */
  lemma TheirsAfter(norm: Norm, b: Books)
    ensures Theirs(norm, AfterRun(norm, b).vendor) == Theirs(norm, b.vendor) + ReadBack(norm, Unpushed(norm, b))
  {
    var wires := Wires(Sorted(Unpushed(norm, b)));
    TheirsOfWires(norm, Unpushed(norm, b));
    assert forall r :: r in b.vendor + wires <==> r in b.vendor || r in wires;
  }

  /** One run makes the two lists equal exactly when every number it pushes is North American. */
  lemma ConvergesIffNorthAmerican(norm: Norm, b: Books)
    requires Sound(norm) && Settled(norm, b.ours)
    ensures Theirs(norm, AfterRun(norm, b).vendor) == Phones(AfterRun(norm, b).ours) <==>
            (forall p :: p in Unpushed(norm, b) ==> NorthAmerican(p))
  {
    OursBecomesTheUnion(norm, b);
    TheirsAfter(norm, b);
    var after := Theirs(norm, AfterRun(norm, b).vendor);
    forall p | p in Unpushed(norm, b) ensures NorthAmerican(p) <==> p in after {
      PushedIsReadBack(norm, b, p);
    }
    forall p | p in Unpushed(norm, b) && norm(Wire(p)).Some? && NorthAmerican(p)
      ensures norm(Wire(p)).value == p
    {
      WireFaithful(p);
    }
  }

  /** A pushed number shows on the vendor's list afterwards exactly when it is North American. */
  lemma PushedIsReadBack(norm: Norm, b: Books, p: string)
    requires Sound(norm) && Settled(norm, b.ours) && p in Unpushed(norm, b)
    ensures p in Theirs(norm, AfterRun(norm, b).vendor) <==> NorthAmerican(p)
  {
    TheirsAfter(norm, b);
    WireFaithful(p);
    if p in Theirs(norm, AfterRun(norm, b).vendor) {
      var q :| q in Unpushed(norm, b) && norm(Wire(q)).Some? && norm(Wire(q)).value == p;
      assert ReadsWire(norm, q);
    }
  }

  /** A number from elsewhere is never reconciled: the next run pushes it again. */
  lemma OthersArePushedForever(norm: Norm, b: Books, p: string)
    requires Sound(norm) && Settled(norm, b.ours) && p in Unpushed(norm, b)
    ensures p in Unpushed(norm, AfterRun(norm, b)) <==> !NorthAmerican(p)
  {
    OursBecomesTheUnion(norm, b);
    PushedIsReadBack(norm, b, p);
  }

  lemma {:induction false} UnparseableAppend(norm: Norm, a: seq<string>, b: seq<string>)
    ensures Unparseable(norm, a + b) == Unparseable(norm, a) + Unparseable(norm, b)
  {
    if b == [] {
      assert a + b == a;
    } else {
      var n := |b| - 1;
      assert (a + b)[..|a + b| - 1] == a + b[..n];
      UnparseableAppend(norm, a, b[..n]);
    }
  }

  lemma {:induction false} NoneUnparseable(norm: Norm, raw: seq<string>)
    requires forall i :: 0 <= i < |raw| ==> norm(raw[i]).Some?
    ensures Unparseable(norm, raw) == []
  {
    if raw == [] {
    } else {
      NoneUnparseable(norm, raw[..|raw| - 1]);
    }
  }

  lemma PushedAreReadable(norm: Norm, b: Books)
    requires Settled(norm, b.ours)
    requires forall p :: p in Unpushed(norm, b) ==> NorthAmerican(p)
    ensures Unparseable(norm, AfterRun(norm, b).vendor) == Unparseable(norm, b.vendor)
  {
    var pushed := Sorted(Unpushed(norm, b));
    forall i | 0 <= i < |pushed| ensures norm(Wires(pushed)[i]).Some? {
      assert pushed[i] in pushed;
      WireFaithful(pushed[i]);
    }
    NoneUnparseable(norm, Wires(pushed));
    UnparseableAppend(norm, b.vendor, Wires(pushed));
  }

  /** After a converging run the next adds and pushes nothing, and reports only the unreadable. */
  lemma SecondRunIsQuiet(norm: Norm, b: Books)
    requires Sound(norm) && Settled(norm, b.ours)
    requires forall p :: p in Unpushed(norm, b) ==> NorthAmerican(p)
    ensures AfterRun(norm, AfterRun(norm, b)) == AfterRun(norm, b)
    ensures ReportOf(norm, AfterRun(norm, b)) ==
            Report([], [], Unparseable(norm, b.vendor), |Unparseable(norm, b.vendor)|)
  {
    ConvergesIffNorthAmerican(norm, b);
    PushedAreReadable(norm, b);
    var c := AfterRun(norm, b);
    assert Missing(norm, c) == {} && Unpushed(norm, c) == {};
    assert Wires([]) == [] && c.vendor + [] == c.vendor;
  }

  /** A push that failed after the adds costs nothing: running again reaches the same books. */
  lemma RerunAfterFailedPush(norm: Norm, b: Books)
    requires Sound(norm)
    ensures AfterRun(norm, AfterAdds(norm, b)) == AfterRun(norm, b)
    ensures ReportOf(norm, AfterAdds(norm, b)).added == []
    ensures ReportOf(norm, AfterAdds(norm, b)).pushed == ReportOf(norm, b).pushed
  {
    TheirsSettled(norm, b.vendor);
    var c := AfterAdds(norm, b);
    assert Missing(norm, c) == {};
    assert Unpushed(norm, c) == Unpushed(norm, b);
    assert c.ours + {} == c.ours;
  }

  /** The alarm counts every number only one side knows, and every entry nobody can read. */
  lemma DivergenceIsTheDifference(norm: Norm, b: Books)
    ensures ReportOf(norm, b).divergence ==
            |(Theirs(norm, b.vendor) + Phones(b.ours)) - (Theirs(norm, b.vendor) * Phones(b.ours))|
            + |Unparseable(norm, b.vendor)|
    ensures ReportOf(norm, b).divergence == 0 <==>
            Theirs(norm, b.vendor) == Phones(b.ours) && forall r :: r in b.vendor ==> norm(r).Some?
  {
    var theirs, ours := Theirs(norm, b.vendor), Phones(b.ours);
    assert (theirs + ours) - (theirs * ours) == (theirs - ours) + (ours - theirs);
    assert (theirs - ours) !! (ours - theirs);
    UnparseableListed(norm, b.vendor);
    assert Missing(norm, b) == {} && Unpushed(norm, b) == {} <==> theirs == ours;
  }

  lemma {:induction false} UnparseableListed(norm: Norm, raw: seq<string>)
    ensures Unparseable(norm, raw) == [] <==> forall r :: r in raw ==> norm(r).Some?
  {
    if raw == [] {
    } else {
      UnparseableListed(norm, raw[..|raw| - 1]);
      assert raw == raw[..|raw| - 1] + [raw[|raw| - 1]];
    }
  }

  // --- a number from elsewhere -----------------------------------------------------------

  const LONDON := "+442071838750"
  const STRANGER := "+12071838750"

  /** A normalizer that knows one London number and every North American one. */
  function OneForeigner(s: string): Option<string> { if s == LONDON || NorthAmerican(s) then Some(s) else None }

  lemma LondonDigits()
    ensures Digits(LONDON) == "442071838750"
  {
    var d := "442071838750";
    assert "+"[..0] == "" && Digits("+") == "" && LONDON == "+" + d;
    DigitsOfDigits("+", d);
    assert "" + d == d;
  }

  lemma LondonOnTheWire()
    ensures Wire(LONDON) == STRANGER && NorthAmerican(STRANGER) && !NorthAmerican(LONDON)
  {
    LondonDigits();
    assert "442071838750"[2..] == "2071838750" && "+1" + "2071838750" == STRANGER;
    assert STRANGER[2..] == "2071838750" && STRANGER[..2] == "+1";
    assert |LONDON| == 13;
  }

  lemma SortedSingleton(x: string)
    ensures Sorted({x}) == [x]
  {
    var r := Sorted({x});
    assert |r| == 1 && r[0] in r;
  }

  lemma FirstNight()
    ensures AfterRun(OneForeigner, Books({LONDON}, [])) == Books({LONDON}, [STRANGER])
  {
    var b := Books({LONDON}, []);
    LondonOnTheWire();
    assert Theirs(OneForeigner, []) == {};
    assert '@' !in LONDON && Phones({LONDON}) == {LONDON};
    assert Missing(OneForeigner, b) == {} && Unpushed(OneForeigner, b) == {LONDON};
    SortedSingleton(LONDON);
    assert Wires([LONDON]) == [STRANGER] && [] + [STRANGER] == [STRANGER];
    assert {LONDON} + {} == {LONDON};
  }

  lemma SecondNight()
    ensures STRANGER in AfterRun(OneForeigner, Books({LONDON}, [STRANGER])).ours
  {
    LondonOnTheWire();
    assert STRANGER in [STRANGER] && STRANGER in Theirs(OneForeigner, [STRANGER]);
    assert STRANGER[1] == '1' && LONDON[1] == '4';
    assert STRANGER !in Phones({LONDON});
  }

  /** Pushing it blocks somebody else, and the night after that stranger is opted out on our side too. */
  lemma ForeignNumberOptsOutAStranger()
    ensures Sound(OneForeigner) && Settled(OneForeigner, {LONDON})
    ensures AfterRun(OneForeigner, Books({LONDON}, [])).vendor == [STRANGER]
    ensures STRANGER in AfterRun(OneForeigner, AfterRun(OneForeigner, Books({LONDON}, []))).ours
  {
    FirstNight();
    SecondNight();
    forall s: string ensures Settles(OneForeigner, s) && ReadsWire(OneForeigner, s) {
      ForeignerIsSound(s);
    }
  }

  lemma NoAtSign(s: string)
    requires NorthAmerican(s)
    ensures '@' !in s
  {
    forall i | 0 <= i < |s| ensures s[i] != '@' {
      assert i < 2 ==> s[i] == s[..2][i];
      assert i >= 2 ==> Digit(s[2..][i - 2]);
    }
  }

  lemma ForeignerSettles(s: string)
    ensures Settles(OneForeigner, s)
  {
    if NorthAmerican(s) { NoAtSign(s); }
  }

  lemma ForeignerReadsWire(s: string)
    ensures ReadsWire(OneForeigner, s)
  {
    assert Wire(s)[1] == '1' && LONDON[1] == '4';
  }

  lemma ForeignerIsSound(s: string)
    ensures Settles(OneForeigner, s) && ReadsWire(OneForeigner, s)
  {
    ForeignerSettles(s);
    ForeignerReadsWire(s);
  }
}
