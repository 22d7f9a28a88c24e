/** The customtkinter front end (gui.py): a route of doors and zones built
    from three inputs, a Start/Stop button that logs one step of the route at
    a time, a label listing the remaining steps, and a serial reader loop that
    opens one CSV file per logged step. Threads are serialised into events as
    in QtApp. */
module GuiApp {
  import opened Text
  import opened LineParser
  import opened ChannelStore
  import Csv

  const NumSensors: nat := 6

  const Header: Csv.Row := ["Timestamp (PST)", "Sensor Number", "Measurement"]

  /** `f"Door {i}"` */
  function DoorName(i: nat): (name: string)
    ensures |name| > 5 && name[..5] == "Door "
    ensures AllDigits(name[5..]) && DigitsValue(name[5..]) == i
  {
    DigitsValueOfNatToString(i);
    assert ("Door " + NatToString(i))[5..] == NatToString(i);
    "Door " + NatToString(i)
  }

  /** Door names are distinct for distinct doors. */
  lemma DoorNameInjective(i: nat, j: nat)
    requires DoorName(i) == DoorName(j)
    ensures i == j
  {
    assert NatToString(i) == DoorName(i)[5..];
    assert NatToString(j) == DoorName(j)[5..];
    NatToStringInjective(i, j);
  }

  /** `Door 1` up to `Door n`. */
  function Ascending(n: nat): (r: seq<string>)
    ensures |r| == n && forall k :: 0 <= k < n ==> r[k] == DoorName(k + 1)
  {
    seq(n, k requires 0 <= k < n => DoorName(k + 1))
  }

  /** `Door n` down to `Door 1`. */
  function Descending(n: nat): (r: seq<string>)
    ensures |r| == n && forall k :: 0 <= k < n ==> r[k] == DoorName(n - k)
  {
    seq(n, k requires 0 <= k < n => DoorName(n - k))
  }

  /** The zone's steps on the way in. */
  function Inward(kind: string, zone: string): (r: seq<string>)
    ensures |r| == ZoneSteps(kind) && r[|r| - 1] == "DH-" + zone
    ensures kind == "MDF-DH" ==> r[0] == "MDF-" + zone
  {
    if kind == "MDF-DH" then ["MDF-" + zone, "DH-" + zone] else ["DH-" + zone]
  }

  /** In zones A and D, the same steps again, on the way out, in reverse. */
  function Outward(kind: string, zone: string): (r: seq<string>)
    ensures zone == "A" || zone == "D" ==>
              |r| == |Inward(kind, zone)| && forall k :: 0 <= k < |r| ==> r[k] == Inward(kind, zone)[|r| - 1 - k] + "-exit"
    ensures zone != "A" && zone != "D" ==> r == []
  {
    if zone == "A" || zone == "D" then
      if kind == "MDF-DH" then ["DH-" + zone + "-exit", "MDF-" + zone + "-exit"] else ["DH-" + zone + "-exit"]
    else []
  }

  /** The number of zone steps each way: two for MDF-DH, one otherwise. */
  function ZoneSteps(kind: string): nat {
    if kind == "MDF-DH" then 2 else 1
  }

  /** The route `set_sequence` builds for `doors` doors (none when the number
      is not positive, as `range(1, doors + 1)` is then empty). */
  function Route(doors: int, kind: string, zone: string): (r: seq<string>)
    ensures var n := if doors > 0 then doors else 0;
            |r| == 2 * n + ZoneSteps(kind) + (if zone == "A" || zone == "D" then ZoneSteps(kind) else 0)
  {
    var n := if doors > 0 then doors else 0;
    Ascending(n) + Inward(kind, zone) + Outward(kind, zone) + Descending(n)
  }

  /** The route leaves and comes back through the same doors, in mirror order:
      the k-th step from either end is door k+1. */
  lemma RouteMirrored(doors: int, kind: string, zone: string, k: nat)
    requires k < doors
    ensures Route(doors, kind, zone)[k] == DoorName(k + 1)
    ensures Route(doors, kind, zone)[|Route(doors, kind, zone)| - 1 - k] == DoorName(k + 1)
  {
    var a, m := Ascending(doors), Inward(kind, zone) + Outward(kind, zone);
    var d := Descending(doors);
    assert Route(doors, kind, zone) == a + m + d;
    assert (a + m + d)[|a + m + d| - 1 - k] == d[doors - 1 - k];
  }

  /** With at least one door, the route starts and ends at `Door 1`. */
  lemma RouteEnds(doors: int, kind: string, zone: string)
    requires doors >= 1
    ensures Route(doors, kind, zone)[0] == "Door 1"
    ensures Route(doors, kind, zone)[|Route(doors, kind, zone)| - 1] == "Door 1"
  {
    RouteMirrored(doors, kind, zone, 0);
    assert NatToString(1) == "1";
  }

  /** The route has the zone steps, in their order, between the two door runs. */
  lemma RouteMiddle(doors: int, kind: string, zone: string)
    requires doors >= 0
    ensures Route(doors, kind, zone)[doors..|Route(doors, kind, zone)| - doors] == Inward(kind, zone) + Outward(kind, zone)
  {
    var a, m, d := Ascending(doors), Inward(kind, zone) + Outward(kind, zone), Descending(doors);
    assert Route(doors, kind, zone) == a + m + d;
    assert (a + m + d)[|a|..|a + m + d| - |d|] == m;
  }

  /** One line of the sequence label: the step, wrapped in `**` when it is highlighted. */
  function Entry(step: string, highlighted: bool): (e: string)
    ensures highlighted ==> e == "**" + step + "**\n"
    ensures !highlighted ==> e == step + "\n"
  {
    if highlighted then "**" + step + "**\n" else step + "\n"
  }

  /** The lines of the sequence label, one per remaining step, highlighted
      when logging is on and the step is the current comment. */
  function Entries(steps: seq<string>, logging: bool, comment: string): (es: seq<string>)
    ensures |es| == |steps|
    ensures forall k :: 0 <= k < |steps| ==>
              if logging && steps[k] == comment then es[k] == "**" + steps[k] + "**\n" else es[k] == steps[k] + "\n"
  {
    seq(|steps|, k requires 0 <= k < |steps| => Entry(steps[k], logging && steps[k] == comment))
  }

  /** The text of the sequence label: its lines, one after another. */
  function Display(steps: seq<string>, logging: bool, comment: string): (d: string)
    ensures steps == [] ==> d == ""
    ensures |steps| == 1 ==> d == Entry(steps[0], logging && steps[0] == comment)
  {
    Join(Entries(steps, logging, comment))
  }

  /** The label text of a queue is the concatenation of its parts' texts. */
  lemma DisplayAppend(a: seq<string>, b: seq<string>, logging: bool, comment: string)
    ensures Display(a + b, logging, comment) == Display(a, logging, comment) + Display(b, logging, comment)
  {
    var ea, eb := Entries(a, logging, comment), Entries(b, logging, comment);
    assert Entries(a + b, logging, comment) == ea + eb by {
      forall k | 0 <= k < |a + b| ensures Entries(a + b, logging, comment)[k] == (ea + eb)[k] {
        if k < |a| {
          assert (a + b)[k] == a[k];
        } else {
          assert (a + b)[k] == b[k - |a|];
        }
      }
    }
    JoinAppend(Entries(a, logging, comment), Entries(b, logging, comment));
  }

  /** Adding one step to the queue adds its line to the label. */
  lemma DisplayStep(steps: seq<string>, step: string, logging: bool, comment: string)
    ensures Display(steps + [step], logging, comment)
            == Display(steps, logging, comment) + Entry(step, logging && step == comment)
  {
    DisplayAppend(steps, [step], logging, comment);
    assert Entries([step], logging, comment) == [Entry(step, logging && step == comment)];
  }

  /** Nothing is highlighted unless logging is on and the comment is still
      among the remaining steps. */
  lemma DisplayPlain(steps: seq<string>, logging: bool, comment: string)
    requires !logging || comment !in steps
    ensures Display(steps, logging, comment) == Display(steps, false, comment)
  {
    assert Entries(steps, logging, comment) == Entries(steps, false, comment) by {
      forall k | 0 <= k < |steps|
        ensures Entries(steps, logging, comment)[k] == Entries(steps, false, comment)[k]
      {
        assert steps[k] in steps;
      }
    }
  }

  /** Pressing Start takes the route's first `Door 1` off the queue, so the
      step it highlights is the route's last step, the other `Door 1`. */
  lemma StartHighlightsReturn(doors: int, kind: string, zone: string)
    requires doors >= 1
    ensures var r := Route(doors, kind, zone);
            && Display(r[1..], true, r[0]) == Display(r[1..|r| - 1], true, r[0]) + "**Door 1**\n"
            && Display(r[1..|r| - 1], true, r[0]) == Display(r[1..|r| - 1], false, r[0])
  {
    var r := Route(doors, kind, zone);
    RouteEnds(doors, kind, zone);
    var q := r[1..];
    assert q[|q| - 1] == r[0];
    assert q[..|q| - 1] == r[1..|r| - 1];
    DisplayLast(q, r[0]);
    InnerStepsPlain(doors, kind, zone);
  }

  lemma InnerStepsPlain(doors: int, kind: string, zone: string)
    requires doors >= 1
    ensures var r := Route(doors, kind, zone);
            Display(r[1..|r| - 1], true, r[0]) == Display(r[1..|r| - 1], false, r[0])
  {
    var r := Route(doors, kind, zone);
    RouteEnds(doors, kind, zone);
    InnerStepsAreNotDoorOne(doors, kind, zone);
    DisplayPlain(r[1..|r| - 1], true, r[0]);
  }

  /** Between its two ends the route never passes `Door 1` again. */
  lemma InnerStepsAreNotDoorOne(doors: int, kind: string, zone: string)
    requires doors >= 1
    ensures var r := Route(doors, kind, zone);
            "Door 1" !in r[1..|r| - 1]
  {
    var r := Route(doors, kind, zone);
    forall k | 1 <= k < |r| - 1
      ensures r[k] != "Door 1"
    {
      if k < doors {
        RouteMirrored(doors, kind, zone, k);
        OtherDoorIsNotDoorOne(k + 1);
      } else if k >= |r| - doors {
        RouteMirrored(doors, kind, zone, |r| - 1 - k);
        OtherDoorIsNotDoorOne(|r| - k);
      } else {
        RouteMiddle(doors, kind, zone);
        ZoneStepIsNotDoorOne(kind, zone, k - doors);
      }
    }
    var inner := r[1..|r| - 1];
    assert forall j :: 0 <= j < |inner| ==> inner[j] == r[j + 1];
  }

  lemma OtherDoorIsNotDoorOne(i: nat)
    requires i != 1
    ensures DoorName(i) != "Door 1"
  {
    assert "Door 1"[5..] == "1";
  }

  lemma ZoneStepIsNotDoorOne(kind: string, zone: string, j: nat)
    requires j < |Inward(kind, zone) + Outward(kind, zone)|
    ensures (Inward(kind, zone) + Outward(kind, zone))[j] != "Door 1"
  {
    var m := Inward(kind, zone) + Outward(kind, zone);
    assert m[j][0] == 'M' || m[j][1] == 'H';
  }

  /** A queue whose last step is the comment ends with that step highlighted. */
  lemma DisplayLast(q: seq<string>, comment: string)
    requires |q| > 0 && q[|q| - 1] == comment
    ensures Display(q, true, comment) == Display(q[..|q| - 1], true, comment) + "**" + comment + "**\n"
  {
    assert q == q[..|q| - 1] + [comment];
    DisplayStep(q[..|q| - 1], comment, true, comment);
  }

  /** `gen_file_name`: the formatted local time followed by FILE_PREFIX. */
  function FileName(stamp: string, prefix: string): (name: string)
    ensures |name| >= |stamp| + 4 && name[..|stamp|] == stamp && name[|name| - 4..] == ".csv"
  {
    stamp + prefix + ".csv"
  }

  /** FILE_PREFIX as Start sets it: the stripped site and the step. */
  function Prefix(site: string, step: string): (p: string)
    ensures |p| > |Strip(site)| && p[..|Strip(site)|] == Strip(site)
    ensures '_' !in step ==> AfterLast(p, '_') == step
  {
    var p := Strip(site) + "_" + step;
    assert '_' !in step ==> AfterLast(p, '_') == step by {
      if '_' !in step {
        AfterLastAppend(Strip(site), step, '_');
      }
    }
    p
  }

  /** A step without `_` of its own can be read back from the file name. */
  lemma FileNameEndsWithStep(stamp: string, site: string, step: string)
    requires '_' !in step
    ensures AfterLast(FileName(stamp, Prefix(site, step)), '_') == step + ".csv"
  {
    var st := Strip(site);
    assert Prefix(site, step) == st + "_" + step;
    assert FileName(stamp, st + "_" + step) == (stamp + st) + ['_'] + (step + ".csv");
    AfterLastAppend(stamp + st, step + ".csv", '_');
  }

  lemma AscendingStep(i: nat)
    requires i >= 1
    ensures Ascending(i - 1) + [DoorName(i)] == Ascending(i)
  {
  }

  lemma DescendingStep(n: nat, i: nat)
    requires 1 <= i <= n
    ensures Descending(n)[..n - i] + [DoorName(i)] == Descending(n)[..n - i + 1]
  {
  }

  /** The appends of `set_sequence`, in order: doors up, the zone in, the
      zone out in zones A and D, doors down. */
  method BuildRoute(doors: int, kind: string, zone: string) returns (route: seq<string>)
    ensures route == Route(doors, kind, zone)
  {
    route := [];
    route := AppendDoorsUp(route, doors);
    route := AppendZoneIn(route, kind, zone);
    route := AppendZoneOut(route, kind, zone);
    route := AppendDoorsDown(route, doors);
  }

  /** The zone's appends on the way in. */
  method AppendZoneIn(before: seq<string>, kind: string, zone: string) returns (route: seq<string>)
    ensures route == before + Inward(kind, zone)
  {
    route := before;
    if kind == "MDF-DH" {
      route := route + ["MDF-" + zone];
      route := route + ["DH-" + zone];
    } else {
      route := route + ["DH-" + zone];
    }
  }

  /** The zone's appends on the way out, in zones A and D only. */
  method AppendZoneOut(before: seq<string>, kind: string, zone: string) returns (route: seq<string>)
    ensures route == before + Outward(kind, zone)
  {
    route := before;
    if zone == "A" || zone == "D" {
      if kind == "MDF-DH" {
        route := route + ["DH-" + zone + "-exit"];
        route := route + ["MDF-" + zone + "-exit"];
      } else {
        route := route + ["DH-" + zone + "-exit"];
      }
    }
  }

  /** `for i in range(1, doors + 1): SEQUENCE.append(f"Door {i}")` */
  method AppendDoorsUp(before: seq<string>, doors: int) returns (route: seq<string>)
    ensures route == before + Ascending(if doors > 0 then doors else 0)
  {
    var n: nat := if doors > 0 then doors else 0;
    route := before;
    var i := 1;
    while i <= doors
      invariant 1 <= i <= n + 1
      invariant route == before + Ascending(i - 1)
    {
      AscendingStep(i);
      route := route + [DoorName(i)];
      i := i + 1;
    }
  }

  /** `for i in range(doors, 0, -1): SEQUENCE.append(f"Door {i}")` */
  method AppendDoorsDown(before: seq<string>, doors: int) returns (route: seq<string>)
    ensures route == before + Descending(if doors > 0 then doors else 0)
  {
    var n: nat := if doors > 0 then doors else 0;
    route := before;
    var i := doors;
    while i > 0
      invariant i <= n && (i < 0 ==> n == 0)
      invariant route == before + Descending(n)[..n - (if i < 0 then 0 else i)]
    {
      DescendingStep(n, i);
      route := route + [DoorName(i)];
      i := i - 1;
    }
    assert Descending(n)[..n] == Descending(n);
  }

  class GuiSession {
    var logging: bool
    var sequence: seq<string>
    var fileComment: string
    var filePrefix: string
    /** The text of the sequence label. */
    var sequenceLabel: string
    /** The reader thread's `logging_running`. */
    var running: bool
    /** Every CSV file the reader has opened, in order. */
    var files: seq<Csv.CsvFile>
    const store: Store

    ghost predicate Valid()
      reads this, store
    {
      && store.Valid() && |store.windows| == NumSensors
      && (running <==> Csv.HasOpen(files))
      && Csv.Disciplined(files, Header)
    }

    constructor()
      ensures Valid() && fresh(store)
      ensures !logging && sequence == [] && fileComment == "" && filePrefix == "" && sequenceLabel == "Sequence"
      ensures !running && files == []
      ensures forall i :: 0 <= i < NumSensors ==> store.windows[i] == Window.Fill(Sentinel) && store.captured[i] == []
    {
      logging, sequence, fileComment, filePrefix, sequenceLabel := false, [], "", "", "Sequence";
      running, files := false, [];
      store := new Store(NumSensors);
    }

    /** `App.update_sequence_display` */
    method UpdateSequenceDisplay()
      modifies this
      ensures sequenceLabel == Display(sequence, logging, fileComment)
      ensures logging == old(logging) && sequence == old(sequence) && fileComment == old(fileComment)
      ensures filePrefix == old(filePrefix) && running == old(running) && files == old(files)
    {
      var text := "";
      var k := 0;
      while k < |sequence|
        invariant 0 <= k <= |sequence|
        invariant text == Display(sequence[..k], logging, fileComment)
        invariant unchanged(this)
      {
        var step := sequence[k];
        assert sequence[..k + 1] == sequence[..k] + [step];
        DisplayStep(sequence[..k], step, logging, fileComment);
        if logging && step == fileComment {
          text := text + "**" + step + "**\n";
        } else {
          text := text + step + "\n";
        }
        k := k + 1;
      }
      assert sequence[..k] == sequence;
      sequenceLabel := text;
    }

    /** `SideFrame.set_sequence`, `doorsText` being the text of the doors
        field: when `int` accepts it the queue becomes the route, replacing
        what was there; otherwise `int` raises and nothing changes. */
    method SetSequence(doorsText: string, kind: string, zone: string) returns (ok: bool)
      requires Valid()
      modifies this
      ensures Valid()
      ensures ok == ParsePyInt(doorsText).Some?
      ensures ok ==> sequence == Route(ParsePyInt(doorsText).value, kind, zone)
      ensures ok ==> sequenceLabel == Display(sequence, logging, fileComment)
      ensures !ok ==> sequence == old(sequence) && sequenceLabel == old(sequenceLabel)
      ensures logging == old(logging) && fileComment == old(fileComment) && filePrefix == old(filePrefix)
      ensures running == old(running) && files == old(files)
    {
      var parsed := ParsePyInt(doorsText);
      if parsed.None? {
        return false;
      }
      ok := true;
      sequence := BuildRoute(parsed.value, kind, zone);
      UpdateSequenceDisplay();
    }

    /** `SideFrame.start_stop`, `site` being the text of the site field. */
    method StartStop(site: string)
      requires Valid()
      modifies this
      ensures Valid()
      ensures !old(logging) && old(sequence) != [] ==>
                && sequence == old(sequence)[1..] && fileComment == old(sequence)[0]
                && filePrefix == Prefix(site, old(sequence)[0]) && logging
      ensures !old(logging) && old(sequence) == [] ==>
                sequence == [] && fileComment == old(fileComment) && filePrefix == old(filePrefix) && !logging
      ensures old(logging) ==>
                sequence == old(sequence) && fileComment == old(fileComment) && filePrefix == old(filePrefix) && !logging
      ensures sequenceLabel == Display(sequence, logging, fileComment)
      ensures running == old(running) && files == old(files)
    {
      if !logging {
        if sequence != [] {
          fileComment := sequence[0];
          sequence := sequence[1..];
          filePrefix := Strip(site) + "_" + fileComment;
          logging := true;
        }
      } else {
        logging := false;
      }
      UpdateSequenceDisplay();
    }

    /** One pass of `serial_reader`: the edge check, then one line (None when
        it cannot be decoded as UTF-8). */
    method Tick(line: Option<string>, ts: nat, stamp: string)
      requires Valid()
      modifies this, store
      ensures Valid()
      ensures running == old(logging)
      ensures var edged := Csv.Edge(old(files), old(running), running, FileName(stamp, filePrefix), Header);
              files == if running && line.Some? then Csv.Write(edged, RowsOf(ts, Accepted(FindAll(Strip(line.value)), NumSensors))) else edged
      ensures line.Some? ==> store.captured == Extended(old(store.captured), Accepted(FindAll(Strip(line.value)), NumSensors))
      ensures line.None? ==> store.captured == old(store.captured)
      ensures logging == old(logging) && sequence == old(sequence) && fileComment == old(fileComment)
      ensures filePrefix == old(filePrefix) && sequenceLabel == old(sequenceLabel)
    {
      CheckEdge(stamp);
      if line.Some? {
        var found := FindAll(Strip(line.value));
        ReadReadings(found, ts);
      }
    }

    /** The head of the reader loop: open a file, header first, when LOGGING
        rises, named with `stamp`, the formatted time; close it when LOGGING falls. */
    method CheckEdge(stamp: string)
      requires Valid()
      modifies this
      ensures Valid()
      ensures running == old(logging)
      ensures files == Csv.Edge(old(files), old(running), running, FileName(stamp, filePrefix), Header)
      ensures logging == old(logging) && sequence == old(sequence) && fileComment == old(fileComment)
      ensures filePrefix == old(filePrefix) && sequenceLabel == old(sequenceLabel)
    {
      if logging {
        if !running {
          running := true;
          var fn := FileName(stamp, filePrefix);
          files := Csv.Open(files, fn, Header);
        }
      } else {
        if running {
          running := false;
          files := Csv.Close(files);
        }
      }
    }

    /** `for hit in matches`, for the readings `findall` gives of one decoded
        line and `ts` the time in milliseconds. */
    method ReadReadings(found: seq<Reading>, ts: nat)
      requires Valid()
      modifies this, store
      ensures Valid()
      ensures store.captured == Extended(old(store.captured), Accepted(found, NumSensors))
      ensures files == if old(running) then Csv.Write(old(files), RowsOf(ts, Accepted(found, NumSensors))) else old(files)
      ensures running == old(running) && logging == old(logging) && sequence == old(sequence)
      ensures fileComment == old(fileComment) && filePrefix == old(filePrefix) && sequenceLabel == old(sequenceLabel)
    {
      var rows := store.CaptureMatches(found, ts);
      WriteRows(rows);
    }

    /** `if logging_running: writer.writerow(...)`: rows reach the open file
        and are dropped while none is open. */
    method WriteRows(rows: seq<Csv.Row>)
      requires Valid()
      modifies this
      ensures Valid()
      ensures files == if old(running) then Csv.Write(old(files), rows) else old(files)
      ensures running == old(running) && logging == old(logging) && sequence == old(sequence)
      ensures fileComment == old(fileComment) && filePrefix == old(filePrefix) && sequenceLabel == old(sequenceLabel)
    {
      if running {
        files := Csv.Write(files, rows);
      }
    }
  }
}
