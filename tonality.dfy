/**
 * `Tonality` from tone.py: a key's major scale, the normalization of a range
 * bound to hertz, and the scale tones whose frequency lies in a range.
 */
module Tonality {
  import opened Wrappers
  import opened Strings
  import opened Tone

  // ---------------------------------------------------------------------------
  // normalize_to_freq

  /** A bound given either as a number of hertz or as a pitch name. */
  datatype ToneOrFreq = Number(hz: real) | Name(name: string)

  /** `Tonality.normalize_to_freq`: numbers pass through, names are looked up. */
  function NormalizeToFreq(v: ToneOrFreq): (r: Result<real, Error>)
    ensures v.Number? ==> r == Success(v.hz)
    ensures v.Name? ==> (r.Success? <==> v.name in ToneFreqMap())
    ensures v.Name? && r.Failure? ==> r.error == KeyNotFound(v.name)
  {
    match v
    case Number(hz) => Success(hz)
    case Name(name) =>
      if name in ToneFreqMap() then Success(ToneFreqMap()[name]) else Failure(KeyNotFound(name))
  }

  /** A name normalizes to the frequency of the semitone it parses to, and fails exactly when it does not parse. */
  lemma NormalizeByParse(name: string)
    ensures NormalizeToFreq(Name(name)) ==
      match ParsePitchName(name)
      case Some(s) => Success(Freq(s))
      case None => Failure(KeyNotFound(name))
  {
    ToneFreqMapKeys();
    if name in ToneFreqMap() {
      ToneFreqMapByParse(name);
    }
  }

  /** "A4" normalizes to 440 Hz, within a tenth of a hertz. */
  lemma ConcertPitch()
    ensures NormalizeToFreq(Name("A4")).Success?
    ensures 439.9 < NormalizeToFreq(Name("A4")).value < 440.1
  {
    assert "A4" == NameOf(9, 4);
    ToneFreqMapLookup(9, 4);
    assert Pow2(4) == 16.0;
  }

  // ---------------------------------------------------------------------------
  // Tonality

  /** A key: its root tone and its major scale, root first. */
  datatype Tonality = Tonality(tone: string, scale: seq<string>)

  /** Scale degree `k` of the major scale on the tone with index `root`. */
  function ScaleDegree(root: nat, k: nat): string
    requires root < 12 && k < |BaseDiff|
  {
    Tones[(root + BaseDiff[k]) % 12]
  }

  /** The seven tones of the major scale on the tone with index `root`, in scale order. */
  function MajorScale(root: nat): (scale: seq<string>)
    requires root < 12
    ensures |scale| == |BaseDiff|
    ensures forall k :: 0 <= k < |BaseDiff| ==> scale[k] == ScaleDegree(root, k)
  {
    seq(|BaseDiff|, k requires 0 <= k < |BaseDiff| => ScaleDegree(root, k))
  }

  /** A tonality as the constructor builds it. */
  ghost predicate ValidTonality(t: Tonality) {
    t.tone in Tones && t.scale == MajorScale(ToneIndex(t.tone).value)
  }

  /** `Tonality(tone)`: the assertion fails unless the root is one of the twelve tones. */
  function NewTonality(tone: string): (r: Result<Tonality, Error>)
    ensures r.Failure? <==> tone !in Tones
    ensures r.Failure? ==> r.error == AssertionFailed
    ensures r.Success? ==> r.value.tone == tone && ValidTonality(r.value)
  {
    match ToneIndex(tone)
    case None => Failure(AssertionFailed)
    case Some(root) => Success(Tonality(tone, MajorScale(root)))
  }

  predicate AllTones(scale: seq<string>) {
    forall k :: 0 <= k < |scale| ==> scale[k] in Tones
  }

  lemma OffsetsDistinct(root: nat, a: nat, b: nat)
    requires root < 12 && a < b < 12
    ensures (root + a) % 12 != (root + b) % 12
  {
  }

  lemma TonesInjective(a: nat, b: nat)
    requires a < 12 && b < 12 && a != b
    ensures Tones[a] != Tones[b]
  {
    ToneIndexOf(a);
    ToneIndexOf(b);
  }

  lemma DegreesDistinct(root: nat, i: nat, j: nat)
    requires root < 12 && i < j < |BaseDiff|
    ensures ScaleDegree(root, i) != ScaleDegree(root, j)
  {
    OffsetsDistinct(root, BaseDiff[i], BaseDiff[j]);
    TonesInjective((root + BaseDiff[i]) % 12, (root + BaseDiff[j]) % 12);
  }

  /** Going up `d` semitones from `root` and measuring back gives `d`, and conversely. */
  lemma CyclicDistance(root: nat, d: int, i: nat)
    requires root < 12 && i < 12
    ensures 0 <= d < 12 && (root + d) % 12 == i ==> (i - root) % 12 == d
    ensures d == (i - root) % 12 ==> (root + d) % 12 == i
  {
  }

  /** A major scale has seven distinct tones and starts at its root. */
  lemma MajorScaleShape(root: nat)
    requires root < 12
    ensures |MajorScale(root)| == 7 && MajorScale(root)[0] == Tones[root]
    ensures AllTones(MajorScale(root)) && Distinct(MajorScale(root))
  {
    var scale := MajorScale(root);
    assert scale[0] == ScaleDegree(root, 0);
    forall i, j | 0 <= i < j < |scale|
      ensures scale[i] != scale[j]
    {
      DegreesDistinct(root, i, j);
    }
  }

  /** The scale of a tonality has seven distinct tones and starts at the root. */
  lemma ScaleShape(t: Tonality)
    requires ValidTonality(t)
    ensures |t.scale| == 7 && t.scale[0] == t.tone
    ensures AllTones(t.scale) && Distinct(t.scale)
  {
    MajorScaleShape(ToneIndex(t.tone).value);
  }

  /**
   * Tone number `i` is in the major scale on `root` exactly when its distance
   * above the root, modulo 12, is a major-scale step.
   */
  lemma ScaleMembership(root: nat, i: nat)
    requires root < 12 && i < 12
    ensures Tones[i] in MajorScale(root) <==> (i - root) % 12 in BaseDiff
  {
    var scale := MajorScale(root);
    if Tones[i] in scale {
      var k :| 0 <= k < |scale| && scale[k] == Tones[i];
      var j := (root + BaseDiff[k]) % 12;
      if i != j {
        TonesInjective(i, j);
      }
      CyclicDistance(root, BaseDiff[k], i);
    }
    if (i - root) % 12 in BaseDiff {
      var k :| 0 <= k < |BaseDiff| && BaseDiff[k] == (i - root) % 12;
      CyclicDistance(root, BaseDiff[k], i);
      assert scale[k] == Tones[i];
    }
  }

  // get_tone_and_freq

  /** A labelled reference line: a pitch name and its frequency. */
  datatype RefPoint = RefPoint(name: string, freq: real)

  /** The default range of `get_tone_and_freq`. */
  const DefaultMin: ToneOrFreq := Number(0.0)
  const DefaultMax: ToneOrFreq := Number(4186.0)

  /** The name `f"{base_tone}{i}"` of scale degree `k` in octave `o`. */
  function SlotName(scale: seq<string>, k: nat, o: nat): string
    requires k < |scale| && o < Octaves
  {
    scale[k] + [DigitChar(o)]
  }

  /** The slot name is the tone followed by the one digit of the octave. */
  lemma SlotNameParts(scale: seq<string>, k: nat, o: nat)
    requires k < |scale| && o < Octaves
    ensures var name := SlotName(scale, k, o);
      |name| == |scale[k]| + 1 && name[..|scale[k]|] == scale[k] && IsDigit(name[|scale[k]|])
      && DigitValue(name[|scale[k]|]) == o
  {
    var name := SlotName(scale, k, o);
    assert name[..|scale[k]|] == scale[k];
  }

  /** Every scale tone, in every octave, names an entry of `table`. */
  ghost predicate Covers(scale: seq<string>, table: map<string, real>) {
    forall k, o :: 0 <= k < |scale| && 0 <= o < Octaves ==> SlotName(scale, k, o) in table
  }

  /** One scale tone in one octave names a table entry. */
  lemma SlotInTable(scale: seq<string>, k: nat, o: nat)
    requires AllTones(scale) && k < |scale| && o < Octaves
    ensures SlotName(scale, k, o) in ToneFreqMap()
  {
    var t := ToneIndex(scale[k]).value;
    assert SlotName(scale, k, o) == NameOf(t, o);
    ToneFreqMapLookup(t, o);
  }

  /** The pitch table covers every scale of valid tones. */
  lemma TableCovers(scale: seq<string>)
    requires AllTones(scale)
    ensures Covers(scale, ToneFreqMap())
  {
    forall k, o | 0 <= k < |scale| && 0 <= o < Octaves
      ensures SlotName(scale, k, o) in ToneFreqMap()
    {
      SlotInTable(scale, k, o);
    }
  }

  /** The reference point of scale degree `k` in octave `o`. */
  function SlotPoint(scale: seq<string>, table: map<string, real>, k: nat, o: nat): (p: RefPoint)
    requires Covers(scale, table) && k < |scale| && o < Octaves
    ensures p.name == SlotName(scale, k, o) && p.name in table && p.freq == table[p.name]
  {
    RefPoint(SlotName(scale, k, o), table[SlotName(scale, k, o)])
  }

  /** The in-range points of the first `j` scale degrees in octave `o`, in scale order. */
  function OctaveRow(scale: seq<string>, table: map<string, real>, o: nat, lo: real, hi: real, j: nat): (row: seq<RefPoint>)
    requires Covers(scale, table) && o < Octaves && j <= |scale|
    decreases j
  {
    if j == 0 then []
    else
      var p := SlotPoint(scale, table, j - 1, o);
      OctaveRow(scale, table, o, lo, hi, j - 1) + (if lo <= p.freq <= hi then [p] else [])
  }

  /** The in-range points of octaves `0 .. n-1`, octave by octave. */
  function ReferencePoints(scale: seq<string>, table: map<string, real>, lo: real, hi: real, n: nat): (ps: seq<RefPoint>)
    requires Covers(scale, table) && n <= Octaves
    decreases n
  {
    if n == 0 then []
    else ReferencePoints(scale, table, lo, hi, n - 1) + OctaveRow(scale, table, n - 1, lo, hi, |scale|)
  }

  /** The nested loops of `get_tone_and_freq`, once both bounds are in hertz. */
  method CollectReferencePoints(scale: seq<string>, table: map<string, real>, lo: real, hi: real)
    returns (ret: seq<RefPoint>)
    requires Covers(scale, table)
    ensures ret == ReferencePoints(scale, table, lo, hi, Octaves)
  {
    ret := [];
    for i := 0 to Octaves
      invariant ret == ReferencePoints(scale, table, lo, hi, i)
    {
      for j := 0 to |scale|
        invariant ret == ReferencePoints(scale, table, lo, hi, i) + OctaveRow(scale, table, i, lo, hi, j)
      {
        var tone := scale[j] + [DigitChar(i)];
        assert tone == SlotName(scale, j, i);
        var freq := table[tone];
        if lo <= freq && freq <= hi {
          ret := ret + [RefPoint(tone, freq)];
        }
      }
    }
  }

  /** `Tonality.get_tone_and_freq(min_freq, max_freq)`. */
  method GetToneAndFreq(t: Tonality, minFreq: ToneOrFreq, maxFreq: ToneOrFreq) returns (r: Result<seq<RefPoint>, Error>)
    requires ValidTonality(t)
    ensures NormalizeToFreq(minFreq).Failure? ==> r == Failure(NormalizeToFreq(minFreq).error)
    ensures NormalizeToFreq(minFreq).Success? && NormalizeToFreq(maxFreq).Failure? ==>
              r == Failure(NormalizeToFreq(maxFreq).error)
    ensures NormalizeToFreq(minFreq).Success? && NormalizeToFreq(maxFreq).Success? ==>
              Covers(t.scale, ToneFreqMap()) &&
              r == Success(ReferencePoints(t.scale, ToneFreqMap(), NormalizeToFreq(minFreq).value,
                                           NormalizeToFreq(maxFreq).value, Octaves))
  {
    var lo := NormalizeToFreq(minFreq);
    if lo.Failure? {
      return Failure(lo.error);
    }
    var hi := NormalizeToFreq(maxFreq);
    if hi.Failure? {
      return Failure(hi.error);
    }
    ScaleShape(t);
    TableCovers(t.scale);
    var ret := CollectReferencePoints(t.scale, ToneFreqMap(), lo.value, hi.value);
    r := Success(ret);
  }

  // ---------------------------------------------------------------------------
  // What the result promises

  /** The octave digit a point's name ends with (-1 when it has none). */
  function OctaveOf(p: RefPoint): int {
    var n := p.name;
    if n != [] && IsDigit(n[|n| - 1]) then DigitValue(n[|n| - 1]) else -1
  }

  /** The tone a point's name starts with. */
  function ToneOf(p: RefPoint): string {
    if p.name == [] then [] else p.name[..|p.name| - 1]
  }

  /** The position of a point's tone in the scale (-1 when absent). */
  function DegreeOf(scale: seq<string>, p: RefPoint): int {
    match IndexOf(scale, ToneOf(p))
    case Some(k) => k
    case None => -1
  }

  /** `p` comes before `q` in octave-major, then scale order. */
  predicate Before(scale: seq<string>, p: RefPoint, q: RefPoint) {
    OctaveOf(p) < OctaveOf(q) || (OctaveOf(p) == OctaveOf(q) && DegreeOf(scale, p) < DegreeOf(scale, q))
  }

  /** Octave-major order, then scale order within an octave. */
  ghost predicate OctaveMajor(scale: seq<string>, ps: seq<RefPoint>) {
    forall i, j :: 0 <= i < j < |ps| ==> Before(scale, ps[i], ps[j])
  }

  /** `p` is the in-range point of its own scale degree and octave. */
  ghost predicate Placed(scale: seq<string>, table: map<string, real>, p: RefPoint, lo: real, hi: real)
    requires Covers(scale, table)
  {
    && 0 <= OctaveOf(p) < Octaves
    && 0 <= DegreeOf(scale, p) < |scale|
    && p == SlotPoint(scale, table, DegreeOf(scale, p), OctaveOf(p))
    && lo <= p.freq <= hi
  }

  lemma SlotPointParts(scale: seq<string>, table: map<string, real>, k: nat, o: nat)
    requires Covers(scale, table) && Distinct(scale) && k < |scale| && o < Octaves
    ensures OctaveOf(SlotPoint(scale, table, k, o)) == o
    ensures ToneOf(SlotPoint(scale, table, k, o)) == scale[k]
    ensures DegreeOf(scale, SlotPoint(scale, table, k, o)) == k
  {
    var p := SlotPoint(scale, table, k, o);
    SlotNameParts(scale, k, o);
    assert p.name[..|p.name| - 1] == scale[k];
    var r := IndexOf(scale, scale[k]);
    assert r.Some? && scale[r.value] == scale[k];
  }

  /** Appending a block whose points all come after the first keeps the order. */
  lemma OctaveMajorAppend(scale: seq<string>, a: seq<RefPoint>, b: seq<RefPoint>)
    requires OctaveMajor(scale, a) && OctaveMajor(scale, b)
    requires forall i, j :: 0 <= i < |a| && 0 <= j < |b| ==> Before(scale, a[i], b[j])
    ensures OctaveMajor(scale, a + b)
  {
    var ab := a + b;
    forall i, j | 0 <= i < j < |ab|
      ensures Before(scale, ab[i], ab[j])
    {
      if j < |a| {
        assert ab[i] == a[i] && ab[j] == a[j];
      } else if i < |a| {
        assert ab[i] == a[i] && ab[j] == b[j - |a|];
      } else {
        assert ab[i] == b[i - |a|] && ab[j] == b[j - |a|];
      }
    }
  }

  /** Every point of a row is placed, in octave `o`, at a degree below `j`. */
  lemma {:induction false} OctaveRowPlaced(scale: seq<string>, table: map<string, real>, o: nat, lo: real, hi: real, j: nat)
    requires Covers(scale, table) && Distinct(scale) && o < Octaves && j <= |scale|
    ensures forall q :: 0 <= q < |OctaveRow(scale, table, o, lo, hi, j)| ==>
      && Placed(scale, table, OctaveRow(scale, table, o, lo, hi, j)[q], lo, hi)
      && OctaveOf(OctaveRow(scale, table, o, lo, hi, j)[q]) == o
      && DegreeOf(scale, OctaveRow(scale, table, o, lo, hi, j)[q]) < j
    decreases j
  {
    if j > 0 {
      var row := OctaveRow(scale, table, o, lo, hi, j - 1);
      var p := SlotPoint(scale, table, j - 1, o);
      var tail := if lo <= p.freq <= hi then [p] else [];
      OctaveRowPlaced(scale, table, o, lo, hi, j - 1);
      SlotPointParts(scale, table, j - 1, o);
      assert Placed(scale, table, p, lo, hi) || tail == [];
      var all := row + tail;
      assert OctaveRow(scale, table, o, lo, hi, j) == all;
      forall q | 0 <= q < |all|
        ensures Placed(scale, table, all[q], lo, hi) && OctaveOf(all[q]) == o && DegreeOf(scale, all[q]) < j
      {
        if q < |row| {
          assert all[q] == row[q];
        } else {
          assert all[q] == p;
        }
      }
    }
  }

  /** The octave and degree of every point of a row, without the rest of `Placed`. */
  lemma OctaveRowSlots(scale: seq<string>, table: map<string, real>, o: nat, lo: real, hi: real, j: nat)
    requires Covers(scale, table) && Distinct(scale) && o < Octaves && j <= |scale|
    ensures forall q :: 0 <= q < |OctaveRow(scale, table, o, lo, hi, j)| ==>
      && OctaveOf(OctaveRow(scale, table, o, lo, hi, j)[q]) == o
      && DegreeOf(scale, OctaveRow(scale, table, o, lo, hi, j)[q]) < j
  {
    OctaveRowPlaced(scale, table, o, lo, hi, j);
  }

  /** Every point of the first `n` octaves lies in an octave below `n`. */
  lemma ReferencePointsBelow(scale: seq<string>, table: map<string, real>, lo: real, hi: real, n: nat)
    requires Covers(scale, table) && Distinct(scale) && n <= Octaves
    ensures forall q :: 0 <= q < |ReferencePoints(scale, table, lo, hi, n)| ==>
      OctaveOf(ReferencePoints(scale, table, lo, hi, n)[q]) < n
  {
    ReferencePointsPlaced(scale, table, lo, hi, n);
  }

  lemma {:induction false} OctaveRowOrdered(scale: seq<string>, table: map<string, real>, o: nat, lo: real, hi: real, j: nat)
    requires Covers(scale, table) && Distinct(scale) && o < Octaves && j <= |scale|
    ensures OctaveMajor(scale, OctaveRow(scale, table, o, lo, hi, j))
    decreases j
  {
    if j > 0 {
      var row := OctaveRow(scale, table, o, lo, hi, j - 1);
      var p := SlotPoint(scale, table, j - 1, o);
      OctaveRowOrdered(scale, table, o, lo, hi, j - 1);
      OctaveRowSlots(scale, table, o, lo, hi, j - 1);
      SlotPointParts(scale, table, j - 1, o);
      var tail := if lo <= p.freq <= hi then [p] else [];
      forall a, b | 0 <= a < |row| && 0 <= b < |tail|
        ensures Before(scale, row[a], tail[b])
      {
        assert tail[b] == p;
      }
      OctaveMajorAppend(scale, row, tail);
      assert OctaveRow(scale, table, o, lo, hi, j) == row + tail;
    }
  }

  lemma {:induction false} ReferencePointsPlaced(scale: seq<string>, table: map<string, real>, lo: real, hi: real, n: nat)
    requires Covers(scale, table) && Distinct(scale) && n <= Octaves
    ensures forall q :: 0 <= q < |ReferencePoints(scale, table, lo, hi, n)| ==>
      && Placed(scale, table, ReferencePoints(scale, table, lo, hi, n)[q], lo, hi)
      && OctaveOf(ReferencePoints(scale, table, lo, hi, n)[q]) < n
    decreases n
  {
    if n > 0 {
      var before := ReferencePoints(scale, table, lo, hi, n - 1);
      var row := OctaveRow(scale, table, n - 1, lo, hi, |scale|);
      ReferencePointsPlaced(scale, table, lo, hi, n - 1);
      OctaveRowPlaced(scale, table, n - 1, lo, hi, |scale|);
      PlacedAppend(scale, table, lo, hi, before, row, n - 1);
      assert ReferencePoints(scale, table, lo, hi, n) == before + row;
    }
  }

  /** Placed points of lower octaves followed by placed points of octave `o`. */
  lemma PlacedAppend(scale: seq<string>, table: map<string, real>, lo: real, hi: real,
                     a: seq<RefPoint>, b: seq<RefPoint>, o: int)
    requires Covers(scale, table)
    requires forall q :: 0 <= q < |a| ==> Placed(scale, table, a[q], lo, hi) && OctaveOf(a[q]) < o
    requires forall q :: 0 <= q < |b| ==> Placed(scale, table, b[q], lo, hi) && OctaveOf(b[q]) == o
    ensures forall q :: 0 <= q < |a + b| ==> Placed(scale, table, (a + b)[q], lo, hi) && OctaveOf((a + b)[q]) < o + 1
  {
    forall q | 0 <= q < |a + b|
      ensures Placed(scale, table, (a + b)[q], lo, hi) && OctaveOf((a + b)[q]) < o + 1
    {
      if q < |a| {
        assert (a + b)[q] == a[q];
      } else {
        assert (a + b)[q] == b[q - |a|];
      }
    }
  }

  /** Points of octaves below `o` come before the points of octave `o`. */
  lemma LowerOctavesFirst(scale: seq<string>, a: seq<RefPoint>, b: seq<RefPoint>, o: int)
    requires forall i :: 0 <= i < |a| ==> OctaveOf(a[i]) < o
    requires forall j :: 0 <= j < |b| ==> OctaveOf(b[j]) == o
    ensures forall i, j :: 0 <= i < |a| && 0 <= j < |b| ==> Before(scale, a[i], b[j])
  {
  }

  lemma {:induction false} ReferencePointsOrderedUpTo(scale: seq<string>, table: map<string, real>, lo: real, hi: real, n: nat)
    requires Covers(scale, table) && Distinct(scale) && n <= Octaves
    ensures OctaveMajor(scale, ReferencePoints(scale, table, lo, hi, n))
    decreases n
  {
    if n > 0 {
      var before := ReferencePoints(scale, table, lo, hi, n - 1);
      var row := OctaveRow(scale, table, n - 1, lo, hi, |scale|);
      ReferencePointsOrderedUpTo(scale, table, lo, hi, n - 1);
      ReferencePointsBelow(scale, table, lo, hi, n - 1);
      OctaveRowOrdered(scale, table, n - 1, lo, hi, |scale|);
      OctaveRowSlots(scale, table, n - 1, lo, hi, |scale|);
      LowerOctavesFirst(scale, before, row, n - 1);
      OctaveMajorAppend(scale, before, row);
      assert ReferencePoints(scale, table, lo, hi, n) == before + row;
    }
  }

  /**
   * Soundness: every returned pair carries the table frequency of its name,
   * lies in `[lo, hi]`, and names a scale tone.
   */
  lemma ReferencePointsSound(scale: seq<string>, table: map<string, real>, lo: real, hi: real)
    requires Covers(scale, table) && Distinct(scale)
    ensures var ps := ReferencePoints(scale, table, lo, hi, Octaves);
      forall q :: 0 <= q < |ps| ==>
        && ps[q].name in table && ps[q].freq == table[ps[q].name]
        && lo <= ps[q].freq <= hi
        && ToneOf(ps[q]) in scale
  {
    ReferencePointsPlaced(scale, table, lo, hi, Octaves);
    var ps := ReferencePoints(scale, table, lo, hi, Octaves);
    forall q | 0 <= q < |ps|
      ensures ToneOf(ps[q]) in scale
    {
      SlotPointParts(scale, table, DegreeOf(scale, ps[q]), OctaveOf(ps[q]));
    }
  }

  /** Octave-major order, then scale order; hence no pair appears twice. */
  lemma ReferencePointsOrdered(scale: seq<string>, table: map<string, real>, lo: real, hi: real)
    requires Covers(scale, table) && Distinct(scale)
    ensures OctaveMajor(scale, ReferencePoints(scale, table, lo, hi, Octaves))
    ensures Distinct(ReferencePoints(scale, table, lo, hi, Octaves))
  {
    ReferencePointsOrderedUpTo(scale, table, lo, hi, Octaves);
  }

  lemma {:induction false} OctaveRowHas(scale: seq<string>, table: map<string, real>, o: nat, lo: real, hi: real, j: nat, k: nat)
    requires Covers(scale, table) && o < Octaves && k < j <= |scale|
    requires lo <= SlotPoint(scale, table, k, o).freq <= hi
    ensures SlotPoint(scale, table, k, o) in OctaveRow(scale, table, o, lo, hi, j)
    decreases j
  {
    if k < j - 1 {
      OctaveRowHas(scale, table, o, lo, hi, j - 1, k);
    }
  }

  /** A point of the row of octave `o` is among the points of the first `n > o` octaves. */
  lemma {:induction false} ReferencePointsHave(scale: seq<string>, table: map<string, real>, lo: real, hi: real, n: nat, o: nat, p: RefPoint)
    requires Covers(scale, table) && o < n <= Octaves
    requires p in OctaveRow(scale, table, o, lo, hi, |scale|)
    ensures p in ReferencePoints(scale, table, lo, hi, n)
    decreases n
  {
    if o < n - 1 {
      ReferencePointsHave(scale, table, lo, hi, n - 1, o, p);
    }
    ReferencePointsUnfold(scale, table, lo, hi, n, p);
  }

  /** A point of the first `n - 1` octaves or of octave `n - 1` is a point of the first `n`. */
  lemma ReferencePointsUnfold(scale: seq<string>, table: map<string, real>, lo: real, hi: real, n: nat, p: RefPoint)
    requires Covers(scale, table) && 0 < n <= Octaves
    requires p in ReferencePoints(scale, table, lo, hi, n - 1) || p in OctaveRow(scale, table, n - 1, lo, hi, |scale|)
    ensures p in ReferencePoints(scale, table, lo, hi, n)
  {
    InEither(p, ReferencePoints(scale, table, lo, hi, n - 1), OctaveRow(scale, table, n - 1, lo, hi, |scale|));
  }

  /** An element of either part is an element of the concatenation. */
  lemma InEither<T>(x: T, a: seq<T>, b: seq<T>)
    requires x in a || x in b
    ensures x in a + b
  {
    if x in a {
      var i :| 0 <= i < |a| && a[i] == x;
      assert (a + b)[i] == x;
    } else {
      var i :| 0 <= i < |b| && b[i] == x;
      assert (a + b)[|a| + i] == x;
    }
  }

  /** Completeness: scale degree `k` in octave `o` is returned exactly when its frequency is in range. */
  lemma ReferencePointsComplete(scale: seq<string>, table: map<string, real>, lo: real, hi: real, k: nat, o: nat)
    requires Covers(scale, table) && Distinct(scale) && k < |scale| && o < Octaves
    ensures SlotPoint(scale, table, k, o) in ReferencePoints(scale, table, lo, hi, Octaves)
        <==> lo <= SlotPoint(scale, table, k, o).freq <= hi
  {
    if lo <= SlotPoint(scale, table, k, o).freq <= hi {
      OctaveRowHas(scale, table, o, lo, hi, |scale|, k);
      ReferencePointsHave(scale, table, lo, hi, Octaves, o, SlotPoint(scale, table, k, o));
    }
    ReferencePointsPlaced(scale, table, lo, hi, Octaves);
  }

  lemma {:induction false} OctaveRowEmpty(scale: seq<string>, table: map<string, real>, o: nat, lo: real, hi: real, j: nat)
    requires Covers(scale, table) && o < Octaves && j <= |scale| && lo > hi
    ensures OctaveRow(scale, table, o, lo, hi, j) == []
    decreases j
  {
    if j > 0 {
      OctaveRowEmpty(scale, table, o, lo, hi, j - 1);
    }
  }

  /** An inverted range yields no points. */
  lemma {:induction false} ReferencePointsEmpty(scale: seq<string>, table: map<string, real>, lo: real, hi: real, n: nat)
    requires Covers(scale, table) && n <= Octaves && lo > hi
    ensures ReferencePoints(scale, table, lo, hi, n) == []
    decreases n
  {
    if n > 0 {
      ReferencePointsEmpty(scale, table, lo, hi, n - 1);
      OctaveRowEmpty(scale, table, n - 1, lo, hi, |scale|);
    }
  }

  // ---------------------------------------------------------------------------
  // Not frequency-sorted for a root other than C

  /** The A major scale: A, B, C#, ... */
  lemma RootAScale()
    ensures AllTones(MajorScale(9)) && Distinct(MajorScale(9))
    ensures |MajorScale(9)| == 7 && MajorScale(9)[0] == Tones[9] && MajorScale(9)[2] == Tones[1]
  {
    MajorScaleShape(9);
    assert MajorScale(9)[2] == ScaleDegree(9, 2);
  }

  /** Within octave 0, A lies above C#. */
  lemma RootAFreqs(s: seq<string>)
    requires |s| == 7 && s[0] == Tones[9] && s[2] == Tones[1]
    ensures SlotName(s, 0, 0) == NameOf(9, 0) && SlotName(s, 2, 0) == NameOf(1, 0)
    ensures NameOf(9, 0) in ToneFreqMap() && ToneFreqMap()[NameOf(9, 0)] == Freq(9)
    ensures NameOf(1, 0) in ToneFreqMap() && ToneFreqMap()[NameOf(1, 0)] == Freq(1)
    ensures 0.0 < Freq(1) < Freq(9) <= 4186.0
  {
    ToneFreqMapLookup(9, 0);
    ToneFreqMapLookup(1, 0);
    FreqStrictlyIncreasing(1, 9);
  }

  /** In an octave-major list, a point that comes before another sits at a lower index. */
  lemma OrderedIndex(scale: seq<string>, ps: seq<RefPoint>, i: nat, j: nat)
    requires OctaveMajor(scale, ps) && i < |ps| && j < |ps| && Before(scale, ps[i], ps[j])
    ensures i < j
  {
  }

  /** Two in-range degrees of one octave appear in scale order. */
  lemma ScaleOrderWithinOctave(scale: seq<string>, table: map<string, real>, lo: real, hi: real, k1: nat, k2: nat, o: nat)
    requires Covers(scale, table) && Distinct(scale) && k1 < k2 < |scale| && o < Octaves
    requires lo <= SlotPoint(scale, table, k1, o).freq <= hi && lo <= SlotPoint(scale, table, k2, o).freq <= hi
    ensures var ps := ReferencePoints(scale, table, lo, hi, Octaves);
      exists i, j :: 0 <= i < j < |ps| && ps[i] == SlotPoint(scale, table, k1, o) && ps[j] == SlotPoint(scale, table, k2, o)
  {
    var ps := ReferencePoints(scale, table, lo, hi, Octaves);
    var p1 := SlotPoint(scale, table, k1, o);
    var p2 := SlotPoint(scale, table, k2, o);
    ReferencePointsComplete(scale, table, lo, hi, k1, o);
    ReferencePointsComplete(scale, table, lo, hi, k2, o);
    var i :| 0 <= i < |ps| && ps[i] == p1;
    var j :| 0 <= j < |ps| && ps[j] == p2;
    ReferencePointsOrdered(scale, table, lo, hi);
    SlotPointParts(scale, table, k1, o);
    SlotPointParts(scale, table, k2, o);
    assert Before(scale, ps[i], ps[j]);
    OrderedIndex(scale, ps, i, j);
  }

  /**
   * With root A and the default range, A0 is listed before C#0 although its
   * frequency is higher: the result is in octave-major, scale order and not
   * sorted by frequency.
   */
  lemma RootANotFrequencySorted()
    ensures AllTones(MajorScale(9)) && Covers(MajorScale(9), ToneFreqMap())
    ensures var ps := ReferencePoints(MajorScale(9), ToneFreqMap(), DefaultMin.hz, DefaultMax.hz, Octaves);
      exists i, j :: 0 <= i < j < |ps| && ps[i].name == NameOf(9, 0) && ps[j].name == NameOf(1, 0) && ps[i].freq > ps[j].freq
  {
    var s := MajorScale(9);
    var table := ToneFreqMap();
    RootAScale();
    TableCovers(s);
    RootAFreqs(s);
    ScaleOrderWithinOctave(s, table, DefaultMin.hz, DefaultMax.hz, 0, 2, 0);
  }
}
