/** The pure helpers of plot.py: the per-sensor calibration offset, the choice
    of a grouping frequency for a recording and its reading in words, and the
    short name a recording is reported under. */
module Plot {
  import opened Text
  import QtApp

  /** `calibration_map`: millimetres added to each sensor's readings. */
  const CalibrationMap: map<int, int> := map[0 := -1, 1 := -1, 2 := -1, 3 := -1]

  /** `apply_calibration(measurement, sensor_id, calibration_map)`: the offset
      of a sensor the map names is added, and a sensor it does not name is
      left as measured (`calibration_map.get(sensor_id, 0)`). */
  function ApplyCalibration(measurement: int, sensor: int, calibration: map<int, int>): (r: int)
    ensures sensor in calibration ==> r == measurement + calibration[sensor]
    ensures sensor !in calibration ==> r == measurement
  {
    measurement + (if sensor in calibration then calibration[sensor] else 0)
  }

  /** The shipped map shifts sensors 0 to 3 one millimetre closer and leaves
      every other sensor unchanged. */
  lemma ShippedCalibration(measurement: int, sensor: int)
    ensures ApplyCalibration(measurement, sensor, CalibrationMap) == if 0 <= sensor <= 3 then measurement - 1 else measurement
  {
    if 0 <= sensor <= 3 {
      assert sensor in CalibrationMap;
    } else {
      assert sensor !in CalibrationMap;
    }
  }

  /** Calibrating with the map and then with its negation gives back the
      measurement. */
  lemma CalibrationUndone(measurement: int, sensor: int, calibration: map<int, int>)
    ensures ApplyCalibration(ApplyCalibration(measurement, sensor, calibration), sensor,
                             map s | s in calibration :: -calibration[s]) == measurement
  {
  }

  /** `min(max(duration_seconds // 5, 5), 20)`: the number of intervals, a
      fifth of the duration in seconds rounded down, kept between 5 and 20. */
  function DesiredIntervals(duration: real): (n: int)
    ensures 5 <= n <= 20
    ensures 5 <= (duration / 5.0).Floor <= 20 ==> n == (duration / 5.0).Floor
    ensures (duration / 5.0).Floor < 5 ==> n == 5
    ensures (duration / 5.0).Floor > 20 ==> n == 20
  {
    var q := (duration / 5.0).Floor;
    var lo := if q > 5 then q else 5;
    if lo < 20 then lo else 20
  }

  /** `frequency_seconds`: the length of one interval in seconds. */
  function IntervalSeconds(duration: real): (f: real)
    ensures f * (DesiredIntervals(duration) as real) == duration
  {
    duration / (DesiredIntervals(duration) as real)
  }

  /** A unit letter of a pandas frequency code. */
  predicate IsUnit(u: char) { u == 'S' || u == 'T' || u == 'H' }

  /** A frequency code, the count of units followed by the unit letter. */
  function Code(n: nat, unit: char): (code: string)
    ensures |code| > 1 && code[|code| - 1] == unit
  {
    NatToString(n) + [unit]
  }

  /** `determine_grouping_frequency(start_time, end_time)` for the duration
      between them in seconds, over exact reals. */
  function GroupingFrequency(duration: real): (code: string)
    ensures |code| > 1 && IsUnit(code[|code| - 1])
  {
    var f := IntervalSeconds(duration);
    if f < 1.0 then "1S"
    else if f < 60.0 then Code(f.Floor, 'S')
    else if f < 3600.0 then Code((f / 60.0).Floor, 'T')
    else Code((f / 3600.0).Floor, 'H')
  }

  /** The code is whole seconds under a minute, whole minutes under an hour,
      and whole hours otherwise, never zero units, and never coarser than the
      interval: `n` units fit in one interval. */
  lemma GroupingFrequencyUnits(duration: real)
    ensures var f := IntervalSeconds(duration);
            exists n: nat, u: char :: GroupingFrequency(duration) == Code(n, u) && n >= 1
              && (u == 'S' ==> n < 60 && (f >= 1.0 ==> n as real <= f))
              && (u == 'T' ==> n < 60 && n as real * 60.0 <= f)
              && (u == 'H' ==> n as real * 3600.0 <= f)
              && IsUnit(u)
  {
    var f := IntervalSeconds(duration);
    if f < 1.0 {
      assert GroupingFrequency(duration) == Code(1, 'S');
    } else if f < 60.0 {
      assert GroupingFrequency(duration) == Code(f.Floor, 'S');
    } else if f < 3600.0 {
      assert GroupingFrequency(duration) == Code((f / 60.0).Floor, 'T');
    } else {
      assert GroupingFrequency(duration) == Code((f / 3600.0).Floor, 'H');
    }
  }

  /** The word a unit letter is read as. */
  function UnitWord(u: char): (w: string)
    requires IsUnit(u)
    ensures (u == 'S' <==> w == "seconds") && (u == 'T' <==> w == "minutes") && (u == 'H' <==> w == "hours")
  {
    if u == 'S' then "seconds" else if u == 'T' then "minutes" else "hours"
  }

  /** `convert_frequency_to_words(frequency)`: the first of 'S', 'T' and 'H'
      found anywhere in the code is removed wherever it occurs and its word
      appended; a code with none of them is returned as it is. */
  function FrequencyInWords(code: string): (words: string)
    ensures 'S' in code ==> words == RemoveAll(code, 'S') + " seconds"
    ensures 'S' !in code && 'T' in code ==> words == RemoveAll(code, 'T') + " minutes"
    ensures 'S' !in code && 'T' !in code && 'H' in code ==> words == RemoveAll(code, 'H') + " hours"
    ensures 'S' !in code && 'T' !in code && 'H' !in code ==> words == code
  {
    if 'S' in code then RemoveAll(code, 'S') + " seconds"
    else if 'T' in code then RemoveAll(code, 'T') + " minutes"
    else if 'H' in code then RemoveAll(code, 'H') + " hours"
    else code
  }

  lemma NumeralHasNoLetter(n: nat, c: char)
    requires !IsDigit(c)
    ensures c !in NatToString(n)
  {
  }

  /** The unit letter is the only letter of a code, so removing it leaves
      the numeral. */
  lemma CodeWithoutUnit(n: nat, u: char)
    requires IsUnit(u)
    ensures RemoveAll(Code(n, u), u) == NatToString(n)
    ensures forall x :: IsUnit(x) ==> (x in Code(n, u) <==> x == u)
  {
    var ds := NatToString(n);
    NumeralHasNoLetter(n, u);
    RemoveAllAppend(ds, [u], u);
    RemoveAllAbsent(ds, u);
    assert RemoveAll([u], u) == [];
    forall x | IsUnit(x) ensures x in Code(n, u) <==> x == u {
      NumeralHasNoLetter(n, x);
      assert Code(n, u) == ds + [u];
    }
  }

  /** Every code the grouping produces reads as its count and its unit word. */
  lemma CodeInWords(n: nat, u: char)
    requires IsUnit(u)
    ensures FrequencyInWords(Code(n, u)) == NatToString(n) + " " + UnitWord(u)
  {
    CodeWithoutUnit(n, u);
    if u == 'S' {
      WordsOf(Code(n, u), NatToString(n), " seconds");
    } else if u == 'T' {
      assert 'S' !in Code(n, u);
      WordsOf(Code(n, u), NatToString(n), " minutes");
    } else {
      assert 'S' !in Code(n, u) && 'T' !in Code(n, u);
      WordsOf(Code(n, u), NatToString(n), " hours");
    }
  }

  lemma WordsOf(code: string, ds: string, word: string)
    requires |word| > 1 && word[0] == ' '
    requires FrequencyInWords(code) == ds + word
    ensures FrequencyInWords(code) == ds + " " + word[1..]
  {
    assert word == " " + word[1..];
  }

  /** The title of a plot always names a whole number of seconds, minutes or
      hours. */
  lemma GroupingFrequencyInWords(duration: real)
    ensures exists n: nat, u: char :: IsUnit(u) && n >= 1
              && FrequencyInWords(GroupingFrequency(duration)) == NatToString(n) + " " + UnitWord(u)
  {
    GroupingFrequencyUnits(duration);
    var n: nat, u: char :| GroupingFrequency(duration) == Code(n, u) && n >= 1 && IsUnit(u);
    CodeInWords(n, u);
  }

  /** `file_path.split('_')[-1]`: the name a recording is reported under. */
  function ShortFilename(path: string): (name: string)
    ensures '_' !in name
    ensures '_' !in path ==> name == path
  {
    AfterLast(path, '_')
  }

  /** A recording of the space-bar logger is reported under its step, in a
      directory of any name. */
  lemma ShortFilenameOfQtFile(dir: string, stamp: string, code: string, radio: string, step: string)
    requires '_' !in step
    ensures ShortFilename(dir + QtApp.FileName(stamp, code, radio, step)) == step + ".csv"
  {
    var name := QtApp.FileName(stamp, code, radio, step);
    assert name == (stamp + "_" + code + radio) + ['_'] + (step + ".csv");
    assert dir + name == (dir + stamp + "_" + code + radio) + ['_'] + (step + ".csv");
    AfterLastAppend(dir + stamp + "_" + code + radio, step + ".csv", '_');
  }
}
