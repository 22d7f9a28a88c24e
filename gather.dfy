/** gather.py: a command-line logger that writes every `findall` reading of
    every line it receives into one CSV file for a fixed number of minutes,
    with no logging switch. */
module Gather {
  import opened Text
  import opened LineParser
  import opened ChannelStore
  import Csv

  const NumSensors: nat := 6

  const Header: Csv.Row := ["Timestamp (PST)", "Sensor Number", "Measurement"]

  /** The `findall` readings of each line, stripped first. */
  function Matches(lines: seq<string>): (bs: seq<seq<Reading>>)
    ensures |bs| == |lines|
  {
    seq(|lines|, k requires 0 <= k < |lines| => FindAll(Strip(lines[k])))
  }

  /** The readings of existing channels in all the batches, batch by batch and
      in order within a batch. */
  function Kept(bs: seq<seq<Reading>>, count: nat): (rs: seq<Reading>)
  {
    if bs == [] then []
    else Kept(bs[..|bs| - 1], count) + Accepted(bs[|bs| - 1], count)
  }

  /** The rows written for all the batches, each stamped with the time its
      line was read. */
  function Written(bs: seq<seq<Reading>>, tss: seq<nat>, count: nat): (rows: seq<Csv.Row>)
    requires |tss| == |bs|
    ensures |rows| == |Kept(bs, count)|
  {
    if bs == [] then []
    else
      var n := |bs| - 1;
      Written(bs[..n], tss[..n], count) + RowsOf(tss[n], Accepted(bs[n], count))
  }

  lemma {:induction false} AcceptedBelow(rs: seq<Reading>, count: nat)
    ensures forall k :: 0 <= k < |Accepted(rs, count)| ==> Accepted(rs, count)[k].id < count
  {
    forall k | 0 <= k < |Accepted(rs, count)| ensures Accepted(rs, count)[k].id < count {
      AcceptedMembers(rs, count, Accepted(rs, count)[k]);
    }
  }

  /** The k-th row of RowsOf is the row of the k-th reading. */
  lemma {:induction false} RowsOfAt(ts: nat, rs: seq<Reading>, k: nat)
    requires k < |rs|
    ensures RowsOf(ts, rs)[k] == RowOf(ts, rs[k])
  {
    if k < |rs| - 1 {
      RowsOfAt(ts, rs[..|rs| - 1], k);
    }
  }

  /** Row j of the file is the row of reading j, with the time of some line:
      every captured reading is written, each exactly once, in order, and a
      reading of a missing channel never is. */
  lemma {:induction false} WrittenRows(bs: seq<seq<Reading>>, tss: seq<nat>, count: nat, j: nat)
    requires |tss| == |bs| && j < |Written(bs, tss, count)|
    ensures exists k :: 0 <= k < |tss| && Written(bs, tss, count)[j] == RowOf(tss[k], Kept(bs, count)[j])
    ensures Kept(bs, count)[j].id < count
  {
    KeptBelow(bs, count, j);
    var n := |bs| - 1;
    var before := Written(bs[..n], tss[..n], count);
    var a := Accepted(bs[n], count);
    assert Kept(bs, count) == Kept(bs[..n], count) + a;
    if j < |before| {
      WrittenRows(bs[..n], tss[..n], count, j);
      var k :| 0 <= k < n && before[j] == RowOf(tss[..n][k], Kept(bs[..n], count)[j]);
      assert tss[..n][k] == tss[k];
    } else {
      RowsOfAt(tss[n], a, j - |before|);
    }
  }

  /** Every gathered reading is of an existing channel. */
  lemma {:induction false} KeptBelow(bs: seq<seq<Reading>>, count: nat, j: nat)
    requires j < |Kept(bs, count)|
    ensures Kept(bs, count)[j].id < count
  {
    var n := |bs| - 1;
    var before := Kept(bs[..n], count);
    if j < |before| {
      KeptBelow(bs[..n], count, j);
    } else {
      AcceptedBelow(bs[n], count);
    }
  }

  /** A channel's values arriving in two batches are its values of the whole. */
  lemma {:induction false} ValuesForAppend(a: seq<Reading>, b: seq<Reading>, i: nat)
    ensures ValuesFor(a + b, i) == ValuesFor(a, i) + ValuesFor(b, i)
  {
    if b == [] {
      assert a + b == a;
    } else {
      var init, last := b[..|b| - 1], b[|b| - 1];
      var x := if last.id == i then [last.value as int] else [];
      assert ValuesFor(a + b, i) == ValuesFor(a + init, i) + x by {
        assert a + b == (a + init) + [last];
        ValuesForStep(a + init, last, i);
      }
      assert ValuesFor(b, i) == ValuesFor(init, i) + x by {
        assert b == init + [last];
        ValuesForStep(init, last, i);
      }
      ValuesForAppend(a, init, i);
      assert ValuesFor(a, i) + ValuesFor(init, i) + x == ValuesFor(a, i) + (ValuesFor(init, i) + x);
    }
  }

  lemma ExtendedAppend(hs: seq<seq<int>>, a: seq<Reading>, b: seq<Reading>)
    ensures Extended(Extended(hs, a), b) == Extended(hs, a + b)
  {
    forall i | 0 <= i < |hs| ensures Extended(Extended(hs, a), b)[i] == Extended(hs, a + b)[i] {
      ValuesForAppend(a, b, i);
    }
  }

  lemma KeptStep(bs: seq<seq<Reading>>, tss: seq<nat>, k: nat, count: nat)
    requires |tss| == |bs| && k < |bs|
    ensures Kept(bs[..k + 1], count) == Kept(bs[..k], count) + Accepted(bs[k], count)
    ensures Written(bs[..k + 1], tss[..k + 1], count)
            == Written(bs[..k], tss[..k], count) + RowsOf(tss[k], Accepted(bs[k], count))
  {
    assert bs[..k + 1][..k] == bs[..k];
    assert tss[..k + 1][..k] == tss[..k];
  }

  /** `log_sensor_readings(ser, duration, csv_filename)` for the lines that
      arrive before the time is up, each with the time it was read: one file,
      the header first, then a row for every reading of an existing channel,
      captured as it is written; the dictionary it returns is never filled. */
  method LogSensorReadings(store: Store, lines: seq<string>, tss: seq<nat>, name: string)
    returns (file: Csv.CsvFile, readings: map<nat, int>)
    requires store.Valid() && |tss| == |lines|
    modifies store
    ensures store.Valid() && |store.windows| == old(|store.windows|)
    ensures file == Csv.CsvFile(name, [Header] + Written(Matches(lines), tss, |store.windows|), false)
    ensures store.captured == Extended(old(store.captured), Kept(Matches(lines), |store.windows|))
    ensures readings == map[]
  {
    readings := map[];
    var rows: seq<Csv.Row> := [];
    ghost var start := store.captured;
    ghost var n := |store.windows|;
    ghost var bs := Matches(lines);
    ExtendedNone(start);
    var k := 0;
    while k < |lines|
      invariant 0 <= k <= |lines|
      invariant store.Valid() && |store.windows| == n
      invariant rows == Written(bs[..k], tss[..k], n)
      invariant store.captured == Extended(start, Kept(bs[..k], n))
    {
      var found := FindAll(Strip(lines[k]));
      assert found == bs[k];
      ghost var before := Kept(bs[..k], n);
      var written := store.CaptureMatches(found, tss[k]);
      KeptStep(bs, tss, k, n);
      ExtendedAppend(start, before, Accepted(found, n));
      rows := rows + written;
      k := k + 1;
    }
    assert bs[..k] == bs && tss[..k] == tss;
    file := Csv.CsvFile(name, [Header] + rows, false);
  }

  /** The duration in minutes from the command line: `int(sys.argv[1])` when
      there is an argument and it parses, and 1 otherwise. */
  function Duration(argv: seq<string>): (d: int)
    ensures |argv| <= 1 ==> d == 1
    ensures |argv| > 1 && ParsePyInt(argv[1]).None? ==> d == 1
    ensures |argv| > 1 && ParsePyInt(argv[1]).Some? ==> d == ParsePyInt(argv[1]).value
  {
    if |argv| > 1 then
      match ParsePyInt(argv[1]) {
        case Some(v) => v
        case None => 1
      }
    else 1
  }

  /** A numeral argument is the duration. */
  lemma DurationOfNumeral(program: string, n: nat)
    ensures Duration([program, NatToString(n)]) == n
  {
    ParsePyIntOfNatToString(n);
  }

  /** An argument with no digit in it keeps the default of one minute, not
      the five minutes the message announces. */
  lemma DurationOfNonNumeric(argv: seq<string>)
    requires |argv| > 1 && forall k :: 0 <= k < |argv[1]| ==> !IsDigit(argv[1][k])
    ensures Duration(argv) == 1
  {
    ParsePyIntNeedsDigit(argv[1]);
  }
}
