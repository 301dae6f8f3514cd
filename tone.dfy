/**
 * The tonal reference model: the twelve chromatic tone names, the pitch-name
 * to frequency table for octaves 0 to 7, a key's major scale, and the scale
 * tones whose frequency lies in a range.
 *
 * A pitch is identified by its semitone number `12 * octave + toneIndex`.
 * Frequencies are exact reals: `BaseFreq * 2^octave * SemitoneRatio[toneIndex]`,
 * where `SemitoneRatio[k]` is 2^(k/12) rounded to six decimals.
 */
module Tone {
  import opened Wrappers
  import opened Strings

  const Tones: seq<string> := ["C", "C#", "D", "D#", "E", "F", "F#", "G", "G#", "A", "A#", "B"]

  /** Semitone offsets of the major scale from its root. */
  const BaseDiff: seq<nat> := [0, 2, 4, 5, 7, 9, 11]

  const Octaves: nat := 8
  const PitchCount: nat := 96

  /** Frequency of C0, in hertz. */
  const BaseFreq: real := 16.3516

  const SemitoneRatio: seq<real> :=
    [1.0, 1.059463, 1.122462, 1.189207, 1.259921, 1.334840,
     1.414214, 1.498307, 1.587401, 1.681793, 1.781797, 1.887749]

  // ---------------------------------------------------------------------------
  // Tone names

  /** `xs.index(x)`: the first position of `x`, or `None` when absent. */
  function IndexOf<T(==)>(xs: seq<T>, x: T): (r: Option<nat>)
    ensures r.None? <==> x !in xs
    ensures r.Some? ==> r.value < |xs| && xs[r.value] == x
  {
    if xs == [] then None
    else if xs[0] == x then Some(0)
    else match IndexOf(xs[1..], x)
      case None => None
      case Some(i) => Some(i + 1)
  }

  /** `index` finds the first occurrence. */
  lemma {:induction false} IndexOfFirst<T>(xs: seq<T>, x: T)
    requires IndexOf(xs, x).Some?
    ensures forall j :: 0 <= j < IndexOf(xs, x).value ==> xs[j] != x
  {
    if xs[0] != x {
      IndexOfFirst(xs[1..], x);
      forall j | 0 < j < IndexOf(xs, x).value
        ensures xs[j] != x
      {
        assert xs[j] == xs[1..][j - 1];
      }
    }
  }

  predicate Distinct<T(==)>(xs: seq<T>) {
    forall i, j :: 0 <= i < j < |xs| ==> xs[i] != xs[j]
  }

  lemma TonesDistinct()
    ensures Distinct(Tones)
  {
  }

  /** Position of a tone in `Tones`. */
  function ToneIndex(t: string): (r: Option<nat>)
    ensures r.None? <==> t !in Tones
    ensures r.Some? ==> r.value < 12 && Tones[r.value] == t
  {
    IndexOf(Tones, t)
  }

  lemma ToneIndexOf(k: nat)
    requires k < 12
    ensures ToneIndex(Tones[k]) == Some(k)
  {
    TonesDistinct();
  }

  // ---------------------------------------------------------------------------
  // Frequencies

  function Pow2(n: nat): (r: real)
    ensures r >= 1.0
  {
    if n == 0 then 1.0 else 2.0 * Pow2(n - 1)
  }

  /** Frequency of the pitch with semitone number `s`. */
  function Freq(s: nat): (f: real)
    ensures f > 0.0
  {
    BaseFreq * Pow2(s / 12) * SemitoneRatio[s % 12]
  }

  lemma RatioIncreasing(k: nat)
    requires k < 11
    ensures SemitoneRatio[k] < SemitoneRatio[k + 1]
  {
  }

  lemma ScaleStrict(c: real, x: real, y: real)
    requires c > 0.0 && x < y
    ensures c * x < c * y
  {
  }

  lemma FreqStepWithinOctave(s: nat)
    requires s % 12 < 11
    ensures Freq(s) < Freq(s + 1)
  {
    var o, k := s / 12, s % 12;
    assert (s + 1) / 12 == o && (s + 1) % 12 == k + 1;
    RatioIncreasing(k);
    ScaleStrict(BaseFreq * Pow2(o), SemitoneRatio[k], SemitoneRatio[k + 1]);
  }

  lemma FreqStepAcrossOctave(s: nat)
    requires s % 12 == 11
    ensures Freq(s) < Freq(s + 1)
  {
    var o := s / 12;
    var c := BaseFreq * Pow2(o);
    SemitoneParts(0, o + 1);
    assert s + 1 == 12 * (o + 1) + 0;
    assert Freq(s + 1) == c * 2.0;
    ScaleStrict(c, SemitoneRatio[11], 2.0);
  }

  /** One semitone up is a strictly higher frequency. */
  lemma FreqStep(s: nat)
    ensures Freq(s) < Freq(s + 1)
  {
    if s % 12 == 11 {
      FreqStepAcrossOctave(s);
    } else {
      FreqStepWithinOctave(s);
    }
  }

  /** Frequency is strictly increasing in the semitone number. */
  lemma {:induction false} FreqStrictlyIncreasing(a: nat, b: nat)
    requires a < b
    ensures Freq(a) < Freq(b)
    decreases b - a
  {
    FreqStep(a);
    if a + 1 < b {
      FreqStrictlyIncreasing(a + 1, b);
    }
  }

  // ---------------------------------------------------------------------------
  // Pitch names such as "C#4", over any list of distinct tone names

  /** The name of tone `t` of `names` in octave `o`: the tone followed by the octave digit. */
  function NameIn(names: seq<string>, t: nat, o: nat): string
    requires t < |names| && o < Octaves
  {
    names[t] + [DigitChar(o)]
  }

  /** The name of semitone `s`, for twelve tone names. */
  function PitchNameIn(names: seq<string>, s: nat): string
    requires |names| == 12 && s < PitchCount
  {
    NameIn(names, s % 12, s / 12)
  }

  /** Reads a pitch name back into its semitone number. */
  function ParseNameIn(names: seq<string>, name: string): (r: Option<nat>)
    requires |names| == 12
    ensures r.Some? ==> r.value < PitchCount
  {
    if |name| >= 1 && IsDigit(name[|name| - 1]) && DigitValue(name[|name| - 1]) < Octaves then
      match IndexOf(names, name[..|name| - 1])
      case Some(t) => Some(12 * DigitValue(name[|name| - 1]) + t)
      case None => None
    else None
  }

  lemma IndexOfDistinct<T>(xs: seq<T>, k: nat)
    requires Distinct(xs) && k < |xs|
    ensures IndexOf(xs, xs[k]) == Some(k)
  {
    var r := IndexOf(xs, xs[k]);
    assert r.Some? && xs[r.value] == xs[k];
  }

  lemma SemitoneParts(t: nat, o: nat)
    requires t < 12
    ensures (12 * o + t) % 12 == t && (12 * o + t) / 12 == o
  {
  }

  lemma ParseNameInOf(names: seq<string>, t: nat, o: nat)
    requires |names| == 12 && Distinct(names) && t < 12 && o < Octaves
    ensures ParseNameIn(names, NameIn(names, t, o)) == Some(12 * o + t)
  {
    var name := NameIn(names, t, o);
    assert name[..|name| - 1] == names[t];
    IndexOfDistinct(names, t);
  }

  lemma PitchNameInParts(names: seq<string>, t: nat, o: nat)
    requires |names| == 12 && t < 12 && o < Octaves
    ensures PitchNameIn(names, 12 * o + t) == NameIn(names, t, o)
  {
    SemitoneParts(t, o);
  }

  lemma ParsePitchNameInOf(names: seq<string>, s: nat)
    requires |names| == 12 && Distinct(names) && s < PitchCount
    ensures ParseNameIn(names, PitchNameIn(names, s)) == Some(s)
  {
    var t, o := s % 12, s / 12;
    assert 12 * o + t == s;
    ParseNameInOf(names, t, o);
  }

  /** A name that parses is the name of the semitone it parses to. */
  lemma ParseNameInSound(names: seq<string>, name: string)
    requires |names| == 12 && ParseNameIn(names, name).Some?
    ensures name == PitchNameIn(names, ParseNameIn(names, name).value)
  {
    var o := DigitValue(name[|name| - 1]);
    var t := IndexOf(names, name[..|name| - 1]).value;
    assert ParseNameIn(names, name).value == 12 * o + t;
    PitchNameInParts(names, t, o);
    assert name == name[..|name| - 1] + [name[|name| - 1]];
  }

  lemma PitchNameInInjective(names: seq<string>)
    requires |names| == 12 && Distinct(names)
    ensures forall a, b :: 0 <= a < PitchCount && 0 <= b < PitchCount && PitchNameIn(names, a) == PitchNameIn(names, b) ==> a == b
  {
    forall a, b | 0 <= a < PitchCount && 0 <= b < PitchCount && PitchNameIn(names, a) == PitchNameIn(names, b)
      ensures a == b
    {
      ParsePitchNameInOf(names, a);
      ParsePitchNameInOf(names, b);
    }
  }

  /** An injective function maps `0..n-1` onto `n` distinct values. */
  lemma {:induction false} InjectiveCount<T>(f: nat -> T, n: nat)
    requires forall a: nat, b: nat :: a < n && b < n && f(a) == f(b) ==> a == b
    ensures |set s: nat | s < n :: f(s)| == n
  {
    if n > 0 {
      InjectiveCount(f, n - 1);
      var before := set s: nat | s < n - 1 :: f(s);
      assert (set s: nat | s < n :: f(s)) == before + {f(n - 1)};
      assert f(n - 1) !in before;
    }
  }

  // ---------------------------------------------------------------------------
  // The twelve tones' pitch names

  /** The name of tone `t` in octave `o`, as `f"{t}{i}"` builds it. */
  function NameOf(t: nat, o: nat): string
    requires t < 12 && o < Octaves
  {
    NameIn(Tones, t, o)
  }

  function PitchName(s: nat): string
    requires s < PitchCount
  {
    PitchNameIn(Tones, s)
  }

  /** Reads a pitch name such as "C#4" back into its semitone number. */
  function ParsePitchName(name: string): (r: Option<nat>)
    ensures r.Some? ==> r.value < PitchCount
  {
    ParseNameIn(Tones, name)
  }

  /** Parsing a pitch name gives back its semitone number. */
  lemma ParsePitchNameOf(s: nat)
    requires s < PitchCount
    ensures ParsePitchName(PitchName(s)) == Some(s)
  {
    TonesDistinct();
    ParsePitchNameInOf(Tones, s);
  }

  lemma PitchNameOf(t: nat, o: nat)
    requires t < 12 && o < Octaves
    ensures PitchName(12 * o + t) == NameOf(t, o)
  {
    PitchNameInParts(Tones, t, o);
  }

  lemma PitchNameInjective()
    ensures forall a, b :: 0 <= a < PitchCount && 0 <= b < PitchCount && PitchName(a) == PitchName(b) ==> a == b
  {
    TonesDistinct();
    PitchNameInInjective(Tones);
  }

  /** `TONE_FREQ_MAP`: pitch name to frequency, for every tone and octave 0..7. */
  function ToneFreqMap(): (m: map<string, real>)
    ensures forall name :: name in m ==> m[name] > 0.0
  {
    PitchNameInjective();
    map s | 0 <= s < PitchCount :: PitchName(s) := Freq(s)
  }

  /** The table has exactly 96 keys: the names that parse, one per tone and octave. */
  lemma ToneFreqMapKeys()
    ensures |ToneFreqMap()| == PitchCount
    ensures forall name :: name in ToneFreqMap() <==> ParsePitchName(name).Some?
  {
    ToneFreqMapSize();
    forall name
      ensures name in ToneFreqMap() <==> ParsePitchName(name).Some?
    {
      ToneFreqMapKey(name);
    }
  }

  /** `PitchName` extended with a blank for numbers past the table. */
  function PitchKey(s: nat): string {
    if s < PitchCount then PitchName(s) else ""
  }

  lemma ToneFreqMapKeySet()
    ensures ToneFreqMap().Keys == set s: nat | s < PitchCount :: PitchKey(s)
  {
    var m := ToneFreqMap();
    var image := set s: nat | s < PitchCount :: PitchKey(s);
    forall name | name in m.Keys
      ensures name in image
    {
      var s :| 0 <= s < PitchCount && PitchName(s) == name;
      assert PitchKey(s) == name;
    }
    forall name | name in image
      ensures name in m.Keys
    {
      var s: nat :| s < PitchCount && PitchKey(s) == name;
      assert PitchName(s) == name;
    }
  }

  lemma ToneFreqMapSize()
    ensures |ToneFreqMap()| == PitchCount
  {
    ToneFreqMapKeySet();
    PitchNameInjective();
    var f: nat -> string := PitchKey;
    InjectiveCount(f, PitchCount);
    var keys := set s: nat | s < PitchCount :: PitchKey(s);
    assert (set s: nat | s < PitchCount :: f(s)) == keys;
    assert |ToneFreqMap()| == |ToneFreqMap().Keys|;
  }

  lemma ToneFreqMapKey(name: string)
    ensures name in ToneFreqMap() <==> ParsePitchName(name).Some?
  {
    if name in ToneFreqMap() {
      var s :| 0 <= s < PitchCount && PitchName(s) == name;
      ParsePitchNameOf(s);
    }
    if ParsePitchName(name).Some? {
      ParseNameInSound(Tones, name);
      PitchValue(ParsePitchName(name).value);
    }
  }

  /** Tone `t` in octave `o` is a key, mapped to the frequency of semitone `12 * o + t`. */
  lemma ToneFreqMapLookup(t: nat, o: nat)
    requires t < 12 && o < Octaves
    ensures NameOf(t, o) in ToneFreqMap()
    ensures ToneFreqMap()[NameOf(t, o)] == Freq(12 * o + t)
  {
    PitchNameOf(t, o);
    PitchValue(12 * o + t);
  }

  lemma PitchValue(s: nat)
    requires s < PitchCount
    ensures PitchName(s) in ToneFreqMap() && ToneFreqMap()[PitchName(s)] == Freq(s)
  {
    PitchNameInjective();
  }

  /** Every key is mapped to the frequency of the semitone its name parses to. */
  lemma ToneFreqMapByParse(name: string)
    requires name in ToneFreqMap()
    ensures ParsePitchName(name).Some?
    ensures ToneFreqMap()[name] == Freq(ParsePitchName(name).value)
  {
    var s :| 0 <= s < PitchCount && PitchName(s) == name;
    ParsePitchNameOf(s);
    PitchValue(s);
  }
}
