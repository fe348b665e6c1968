/** Flattening the statistics list of one fixture from the statistics provider into
    a map from "home.<type>" / "away.<type>" to the number in each side's text.
    Characters are ASCII: Python's Unicode-aware `lower()` and `\d` are not modelled. */
module StatsFlatten {
  import opened Base

  // ---------------------------------------------------------------------------
  // Keys
  // ---------------------------------------------------------------------------

  /** One character of `type.lower().replace(' ', '_')`. */
  function NormChar(c: char): char {
    if c == ' ' then '_'
    else if 'A' <= c <= 'Z' then (c as int + 32) as char
    else c
  }

  /** The stat type lower-cased, with spaces replaced by underscores. */
  function Normalise(s: string): (r: string)
    ensures |r| == |s|
    ensures forall i :: 0 <= i < |s| ==> r[i] == NormChar(s[i])
  {
    seq(|s|, i requires 0 <= i < |s| => NormChar(s[i]))
  }

  /** Normalising twice changes nothing more: a normalised key has no upper-case
      letter and no space. */
  lemma NormaliseIdempotent(s: string)
    ensures Normalise(Normalise(s)) == Normalise(s)
    ensures forall i :: 0 <= i < |s| ==> Normalise(s)[i] != ' ' && !('A' <= Normalise(s)[i] <= 'Z')
  {
  }

  function HomeKey(kind: string): string {
    "home." + Normalise(kind)
  }

  function AwayKey(kind: string): string {
    "away." + Normalise(kind)
  }

  /** A home key is never an away key, and each determines the normalised type. */
  lemma KeysDistinguish(a: string, b: string)
    ensures HomeKey(a) != AwayKey(b)
    ensures HomeKey(a) == HomeKey(b) <==> Normalise(a) == Normalise(b)
    ensures AwayKey(a) == AwayKey(b) <==> Normalise(a) == Normalise(b)
  {
    assert HomeKey(a)[0] != AwayKey(b)[0];
    if HomeKey(a) == HomeKey(b) {
      assert HomeKey(a)[5..] == Normalise(a) && HomeKey(b)[5..] == Normalise(b);
    }
    if AwayKey(a) == AwayKey(b) {
      assert AwayKey(a)[5..] == Normalise(a) && AwayKey(b)[5..] == Normalise(b);
    }
  }

  // ---------------------------------------------------------------------------
  // Values: the first run of decimal digits
  // ---------------------------------------------------------------------------

  predicate IsDigit(c: char) {
    '0' <= c <= '9'
  }

  predicate AllDigits(s: string) {
    forall i :: 0 <= i < |s| ==> IsDigit(s[i])
  }

  predicate NoDigit(s: string) {
    forall i :: 0 <= i < |s| ==> !IsDigit(s[i])
  }

  /** The longest prefix of `s` made of digits. */
  function LeadingDigits(s: string): (d: string)
    ensures |d| <= |s| && d == s[..|d|]
    ensures AllDigits(d)
    ensures |d| < |s| ==> !IsDigit(s[|d|])
  {
    if |s| > 0 && IsDigit(s[0]) then [s[0]] + LeadingDigits(s[1..]) else []
  }

  /** `int(digits)`: the decimal value, leading zeros allowed. */
  function DigitsValue(ds: string): nat
    requires AllDigits(ds)
  {
    if |ds| == 0 then 0
    else DigitsValue(ds[..|ds| - 1]) * 10 + (ds[|ds| - 1] as int - '0' as int)
  }

  /** `re.search(r"\d+", text)` turned into an int, or missing when the text has no
      digit (NaN in Python). */
  function FirstNumber(s: string): (r: Option<nat>)
    ensures r.None? <==> NoDigit(s)
  {
    if |s| == 0 then None
    else if IsDigit(s[0]) then Some(DigitsValue(LeadingDigits(s)))
    else
      var r := FirstNumber(s[1..]);
      assert NoDigit(s[1..]) ==> NoDigit(s) by {
        if NoDigit(s[1..]) {
          forall i | 1 <= i < |s| ensures !IsDigit(s[i]) {
            assert s[i] == s[1..][i - 1];
          }
        }
      }
      r
  }

  function DigitChar(d: nat): char
    requires d < 10
  {
    ('0' as int + d) as char
  }

  /** The decimal text of `n`, without leading zeros. */
  function ShowNat(n: nat): (s: string)
    ensures |s| > 0 && AllDigits(s)
    ensures |s| > 1 ==> s[0] != '0'
  {
    if n < 10 then [DigitChar(n)] else ShowNat(n / 10) + [DigitChar(n % 10)]
  }

  /** Reading back the decimal text of a number gives the number. */
  lemma {:induction false} ShowNatValue(n: nat)
    ensures DigitsValue(ShowNat(n)) == n
  {
    if n >= 10 {
      ShowNatValue(n / 10);
      var s := ShowNat(n);
      assert s[..|s| - 1] == ShowNat(n / 10);
    }
  }

  /** A digit run followed by a non-digit is exactly the leading digits. */
  lemma {:induction false} LeadingDigitsOf(d: string, q: string)
    requires AllDigits(d)
    requires |q| == 0 || !IsDigit(q[0])
    ensures LeadingDigits(d + q) == d
  {
    if |d| > 0 {
      assert (d + q)[1..] == d[1..] + q;
      LeadingDigitsOf(d[1..], q);
    } else {
      assert d + q == q;
    }
  }

  /** Text around a number: nothing numeric before it and no digit right after it,
      such as "55%" or "Possession 55 %". The number read is the number written. */
  lemma {:induction false} FirstNumberRoundTrip(p: string, n: nat, q: string)
    requires NoDigit(p)
    requires |q| == 0 || !IsDigit(q[0])
    ensures FirstNumber(p + ShowNat(n) + q) == Some(n)
  {
    if |p| == 0 {
      assert p + ShowNat(n) + q == ShowNat(n) + q;
      LeadingDigitsOf(ShowNat(n), q);
      ShowNatValue(n);
    } else {
      assert (p + ShowNat(n) + q)[1..] == p[1..] + ShowNat(n) + q;
      FirstNumberRoundTrip(p[1..], n, q);
    }
  }

  // ---------------------------------------------------------------------------
  // Flattening
  // ---------------------------------------------------------------------------

  /** One element of the provider's statistics list. */
  datatype StatEntry = StatEntry(kind: string, home: string, away: string)

  /** Both keys of an entry are set if they are not there yet: the first entry of a
      type decides its values. */
  function InsertNew(m: map<string, Option<nat>>, e: StatEntry): (m': map<string, Option<nat>>)
    ensures m'.Keys == m.Keys + {HomeKey(e.kind), AwayKey(e.kind)}
    ensures forall k :: k in m ==> m'[k] == m[k]
    ensures HomeKey(e.kind) !in m ==> m'[HomeKey(e.kind)] == FirstNumber(e.home)
    ensures AwayKey(e.kind) !in m ==> m'[AwayKey(e.kind)] == FirstNumber(e.away)
  {
    KeysDistinguish(e.kind, e.kind);
    var hk, ak := HomeKey(e.kind), AwayKey(e.kind);
    var m1 := if hk in m then m else m[hk := FirstNumber(e.home)];
    if ak in m1 then m1 else m1[ak := FirstNumber(e.away)]
  }

  /** Both keys of an entry re-read from its texts. */
  function Reread(m: map<string, Option<nat>>, e: StatEntry): (m': map<string, Option<nat>>)
    ensures m'.Keys == m.Keys + {HomeKey(e.kind), AwayKey(e.kind)}
    ensures forall k :: k in m && k != HomeKey(e.kind) && k != AwayKey(e.kind) ==> m'[k] == m[k]
    ensures m'[HomeKey(e.kind)] == FirstNumber(e.home) && m'[AwayKey(e.kind)] == FirstNumber(e.away)
  {
    KeysDistinguish(e.kind, e.kind);
    m[HomeKey(e.kind) := FirstNumber(e.home)][AwayKey(e.kind) := FirstNumber(e.away)]
  }

  /** One loop iteration as written: the override can never fire, so the entry adds
      its two keys, sets only those that are new, and keeps every value already
      stored. */
  function AddEntryAsWritten(m: map<string, Option<nat>>, e: StatEntry): (m': map<string, Option<nat>>)
    ensures m'.Keys == m.Keys + {HomeKey(e.kind), AwayKey(e.kind)}
    ensures forall k :: k in m ==> m'[k] == m[k]
    ensures HomeKey(e.kind) !in m ==> m'[HomeKey(e.kind)] == FirstNumber(e.home)
    ensures AwayKey(e.kind) !in m ==> m'[AwayKey(e.kind)] == FirstNumber(e.away)
    ensures m' == InsertNew(m, e)
  {
    var m2 := InsertNew(m, e);
    // The override test compares each stored value, an int or NaN, with the text "0",
    // and Python's `==` between a number and a string is always false.
    var storedHomeIsZeroText, storedAwayIsZeroText := false, false;
    if (e.home != "0" || e.away != "0") && storedHomeIsZeroText && storedAwayIsZeroText then
      Reread(m2, e)
    else m2
  }

  /** `_flatten_statistics` as written: the entries added in order. */
  function FlattenAsWritten(es: seq<StatEntry>): map<string, Option<nat>> {
    if |es| == 0 then map[] else AddEntryAsWritten(FlattenAsWritten(es[..|es| - 1]), es[|es| - 1])
  }

  /** One loop iteration with the override test comparing with the number 0: a stored
      pair of zeros is replaced by a later entry of the same type whose texts are not
      both "0". */
  function AddEntry(m: map<string, Option<nat>>, e: StatEntry): (m': map<string, Option<nat>>)
    ensures m'.Keys == m.Keys + {HomeKey(e.kind), AwayKey(e.kind)}
    ensures forall k :: k in m && k != HomeKey(e.kind) && k != AwayKey(e.kind) ==> m'[k] == m[k]
    ensures HomeKey(e.kind) !in m ==> m'[HomeKey(e.kind)] == FirstNumber(e.home)
    ensures AwayKey(e.kind) !in m ==> m'[AwayKey(e.kind)] == FirstNumber(e.away)
    ensures HomeKey(e.kind) in m && AwayKey(e.kind) in m && m[HomeKey(e.kind)] == Some(0) && m[AwayKey(e.kind)] == Some(0)
      && (e.home != "0" || e.away != "0")
      ==> m'[HomeKey(e.kind)] == FirstNumber(e.home) && m'[AwayKey(e.kind)] == FirstNumber(e.away)
    ensures (forall k :: k in m ==> m[k] != Some(0)) ==> m' == InsertNew(m, e)
  {
    var m2 := InsertNew(m, e);
    var storedHome, storedAway := m2[HomeKey(e.kind)], m2[AwayKey(e.kind)];
    if (e.home != "0" || e.away != "0") && storedHome == Some(0) && storedAway == Some(0) then
      Reread(m2, e)
    else m2
  }

  /** The statistics flattened with the corrected override. */
  function Flatten(es: seq<StatEntry>): map<string, Option<nat>> {
    if |es| == 0 then map[] else AddEntry(Flatten(es[..|es| - 1]), es[|es| - 1])
  }

  /** Every entry's type has both of its keys. */
  lemma {:induction false} FlattenHasKeys(es: seq<StatEntry>)
    ensures forall i :: 0 <= i < |es| ==> HomeKey(es[i].kind) in FlattenAsWritten(es) && AwayKey(es[i].kind) in FlattenAsWritten(es)
  {
    if |es| > 0 {
      var p := es[..|es| - 1];
      FlattenHasKeys(p);
      var keys := FlattenAsWritten(p).Keys;
      assert FlattenAsWritten(es).Keys == keys + {HomeKey(es[|es| - 1].kind), AwayKey(es[|es| - 1].kind)};
      forall i | 0 <= i < |p|
        ensures HomeKey(es[i].kind) in keys && AwayKey(es[i].kind) in keys
      {
        assert p[i] == es[i];
      }
    }
  }

  /** There is no other key: each is the home or away key of some entry's type. */
  lemma {:induction false} FlattenOnlyKeys(es: seq<StatEntry>)
    ensures forall k :: k in FlattenAsWritten(es) ==> exists i :: 0 <= i < |es| && (k == HomeKey(es[i].kind) || k == AwayKey(es[i].kind))
  {
    if |es| > 0 {
      var p := es[..|es| - 1];
      FlattenOnlyKeys(p);
      var keys := FlattenAsWritten(p).Keys;
      assert FlattenAsWritten(es).Keys == keys + {HomeKey(es[|es| - 1].kind), AwayKey(es[|es| - 1].kind)};
      forall k | k in FlattenAsWritten(es)
        ensures exists i :: 0 <= i < |es| && (k == HomeKey(es[i].kind) || k == AwayKey(es[i].kind))
      {
        if k in keys {
          var j :| 0 <= j < |p| && (k == HomeKey(p[j].kind) || k == AwayKey(p[j].kind));
          assert p[j] == es[j];
        } else {
          assert k == HomeKey(es[|es| - 1].kind) || k == AwayKey(es[|es| - 1].kind);
        }
      }
    }
  }

  /** The override changes values only, never keys: both flattenings have the same
      keys, so the two lemmas above hold of the corrected one too. */
  lemma {:induction false} FlattenKeysAgree(es: seq<StatEntry>)
    ensures Flatten(es).Keys == FlattenAsWritten(es).Keys
  {
    if |es| > 0 {
      FlattenKeysAgree(es[..|es| - 1]);
    }
  }

  /** Entries up to `n` are already in the prefix map, and the values stay. */
  lemma {:induction false} FlattenKeepsValues(es: seq<StatEntry>, n: nat)
    requires n <= |es|
    ensures forall k :: k in FlattenAsWritten(es[..n]) ==>
      k in FlattenAsWritten(es) && FlattenAsWritten(es)[k] == FlattenAsWritten(es[..n])[k]
    decreases |es| - n
  {
    if n < |es| {
      FlattenKeepsValues(es, n + 1);
      assert es[..n + 1][..n] == es[..n];
    } else {
      assert es[..n] == es;
    }
  }

  /** `true` when no entry before `i` normalises to the same type as entry `i`. */
  predicate FirstOfKind(es: seq<StatEntry>, i: nat)
    requires i < |es|
  {
    forall j :: 0 <= j < i ==> Normalise(es[j].kind) != Normalise(es[i].kind)
  }

  /** A type that no entry normalises to has neither key. */
  lemma {:induction false} AbsentKind(es: seq<StatEntry>, kind: string)
    requires forall j :: 0 <= j < |es| ==> Normalise(es[j].kind) != Normalise(kind)
    ensures HomeKey(kind) !in FlattenAsWritten(es) && AwayKey(kind) !in FlattenAsWritten(es)
  {
    if |es| > 0 {
      AbsentKind(es[..|es| - 1], kind);
      KeysDistinguish(kind, es[|es| - 1].kind);
      KeysDistinguish(es[|es| - 1].kind, kind);
    }
  }

  /** As written, the first entry of each type decides both of its values and later
      duplicates are ignored. Each side's value is read from that side's text alone. */
  lemma FirstOccurrenceWins(es: seq<StatEntry>, i: nat)
    requires i < |es| && FirstOfKind(es, i)
    ensures HomeKey(es[i].kind) in FlattenAsWritten(es) && AwayKey(es[i].kind) in FlattenAsWritten(es)
    ensures FlattenAsWritten(es)[HomeKey(es[i].kind)] == FirstNumber(es[i].home)
    ensures FlattenAsWritten(es)[AwayKey(es[i].kind)] == FirstNumber(es[i].away)
  {
    var p := es[..i];
    AbsentKind(p, es[i].kind);
    assert es[..i + 1][..i] == p;
    FlattenKeepsValues(es, i + 1);
  }

  /** When no text reads as zero, the override never applies and the corrected
      flattening is the one as written. */
  lemma {:induction false} AgreesWithoutZeros(es: seq<StatEntry>)
    requires forall i :: 0 <= i < |es| ==> FirstNumber(es[i].home) != Some(0) && FirstNumber(es[i].away) != Some(0)
    ensures Flatten(es) == FlattenAsWritten(es)
    ensures forall k :: k in Flatten(es) ==> Flatten(es)[k] != Some(0)
  {
    if |es| > 0 {
      var p := es[..|es| - 1];
      assert forall i :: 0 <= i < |p| ==> p[i] == es[i];
      AgreesWithoutZeros(p);
    }
  }

  /** A type whose first entry reads "0" and "0" and whose second reads "5" and "3". */
  const ZeroThenFive: seq<StatEntry> := [StatEntry("Shots", "0", "0"), StatEntry("Shots", "5", "3")]

  /** As written, the zeros of the first entry are kept. */
  lemma ZerosKeptAsWritten()
    ensures HomeKey("Shots") in FlattenAsWritten(ZeroThenFive)
    ensures FlattenAsWritten(ZeroThenFive)[HomeKey("Shots")] == Some(0)
  {
    FirstOccurrenceWins(ZeroThenFive, 0);
  }

  /** Corrected, the second entry replaces them. */
  lemma ZerosReplaced()
    ensures HomeKey("Shots") in Flatten(ZeroThenFive) && AwayKey("Shots") in Flatten(ZeroThenFive)
    ensures Flatten(ZeroThenFive)[HomeKey("Shots")] == Some(5)
    ensures Flatten(ZeroThenFive)[AwayKey("Shots")] == Some(3)
  {
    var e0 := ZeroThenFive[0];
    assert ZeroThenFive[..1] == [e0];
    var first := Flatten([e0]);
    assert [e0][..0] == [];
    assert first == AddEntry(Flatten([]), e0);
    FirstNumberRoundTrip("", 0, "");
    assert "" + ShowNat(0) + "" == "0";
    assert FirstNumber(e0.home) == Some(0) && FirstNumber(e0.away) == Some(0);
    assert ZeroThenFive[..|ZeroThenFive| - 1] == ZeroThenFive[..1];
    assert first[HomeKey("Shots")] == Some(0) && first[AwayKey("Shots")] == Some(0);
    FirstNumberRoundTrip("", 5, "");
    FirstNumberRoundTrip("", 3, "");
  }

  /** No statistics, no keys. */
  lemma FlattenEmpty()
    ensures Flatten([]) == map[] && FlattenAsWritten([]) == map[]
  {
  }
}
