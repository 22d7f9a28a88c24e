/** The Qt front end (qt.py): a queue of named steps chosen with check boxes,
    a space-bar toggle that starts and stops logging one step at a time, and a
    serial reader loop that opens one CSV file per logged step.

    The two threads of the program share their globals without a lock; here
    they are serialised into the events Toggle, SetSequence and Tick, each
    applied atomically. */
module QtApp {
  import opened Text
  import opened LineParser
  import opened ChannelStore
  import Csv

  const NumSensors: nat := 4

  /** The step labels, one check box each, in the order they are shown. */
  const CheckboxOptions: seq<string> :=
    ["Dock-inner", "Middle", "Dock-outer", "Hallway", "MDFIn", "DH-in", "DH-return",
     "MDF-return", "Hallway-return", "Dock-outer-return", "middle-return", "Dock-inner-return"]

  const Header: Csv.Row := ["Timestamp (PST)", "Sensor Number", "Measurement"]

  /** `re.fullmatch(r'[A-Za-z]{3}[0-9]', text)` */
  predicate IsBuildingCode(t: string)
    ensures IsBuildingCode(t) ==> |t| == 4 && '_' !in t
  {
    |t| == 4 && IsAsciiLetter(t[0]) && IsAsciiLetter(t[1]) && IsAsciiLetter(t[2]) && IsDigit(t[3])
  }

  /** `gen_file_name`: `f"{fn}_{building_code}{selected_radio}_{step}.csv"`,
      with `fn` the formatted local time passed in. */
  function FileName(stamp: string, code: string, radio: string, step: string): (name: string)
    ensures |name| >= |stamp| + 5 && name[..|stamp| + 1] == stamp + "_" && name[|name| - 4..] == ".csv"
  {
    stamp + "_" + code + radio + "_" + step + ".csv"
  }

  /** The part of a file name after its last `_` is the step and the
      extension, when the step has no `_` of its own, which holds for every
      label offered. */
  lemma FileNameEndsWithStep(stamp: string, code: string, radio: string, step: string)
    requires '_' !in step
    ensures AfterLast(FileName(stamp, code, radio, step), '_') == step + ".csv"
  {
    assert FileName(stamp, code, radio, step) == (stamp + "_" + code + radio) + ['_'] + (step + ".csv");
    AfterLastAppend(stamp + "_" + code + radio, step + ".csv", '_');
  }

  lemma CheckboxOptionsHaveNoUnderscore()
    ensures forall k :: 0 <= k < |CheckboxOptions| ==> '_' !in CheckboxOptions[k]
  {
  }

  /** The labels whose box is checked, in box order. */
  function Selected(labels: seq<string>, checked: seq<bool>): (s: seq<string>)
    requires |labels| == |checked|
    ensures |s| <= |labels|
  {
    if labels == [] then []
    else
      var n := |labels| - 1;
      Selected(labels[..n], checked[..n]) + (if checked[n] then [labels[n]] else [])
  }

  lemma SelectedStep(labels: seq<string>, checked: seq<bool>, k: nat)
    requires |labels| == |checked| && k < |labels|
    ensures Selected(labels[..k + 1], checked[..k + 1])
            == Selected(labels[..k], checked[..k]) + (if checked[k] then [labels[k]] else [])
  {
    assert labels[..k + 1][..k] == labels[..k];
    assert checked[..k + 1][..k] == checked[..k];
  }

  /** A label is selected exactly when one of the boxes carrying it is checked. */
  lemma {:induction false} SelectedMembers(labels: seq<string>, checked: seq<bool>, x: string)
    requires |labels| == |checked|
    ensures x in Selected(labels, checked) <==> exists k :: 0 <= k < |labels| && checked[k] && labels[k] == x
  {
    if labels != [] {
      var n := |labels| - 1;
      SelectedMembers(labels[..n], checked[..n], x);
      if x in Selected(labels[..n], checked[..n]) {
        var k :| 0 <= k < n && checked[..n][k] && labels[..n][k] == x;
        assert checked[k] && labels[k] == x;
      }
      if exists k :: 0 <= k < |labels| && checked[k] && labels[k] == x {
        var k :| 0 <= k < |labels| && checked[k] && labels[k] == x;
        if k < n {
          assert checked[..n][k] && labels[..n][k] == x;
        }
      }
    }
  }

  /** With every box checked the sequence is every label, in order. */
  lemma {:induction false} SelectedAll(labels: seq<string>, checked: seq<bool>)
    requires |labels| == |checked| && forall k :: 0 <= k < |checked| ==> checked[k]
    ensures Selected(labels, checked) == labels
  {
    if labels != [] {
      var n := |labels| - 1;
      SelectedAll(labels[..n], checked[..n]);
      assert labels[..n] + [labels[n]] == labels;
    }
  }

  /** Python's truth value of `current_step`: set and not the empty string. */
  predicate Truthy(step: Option<string>) {
    step.Some? && step.value != ""
  }

  /** The globals the space bar changes. */
  datatype Steps = Steps(logging: bool, sequence: seq<string>, currentStep: Option<string>)

  /** What the space bar writes to the text area. */
  datatype ToggleOutcome = Stopped | Started(step: string) | NoSequence

  /** `EventFilter.eventFilter` on a space-bar press. */
  function ToggleStep(s: Steps): (r: (Steps, ToggleOutcome))
    ensures s.sequence == [] && !Truthy(s.currentStep) ==> r == (s, NoSequence)
    ensures (s.sequence != [] || Truthy(s.currentStep)) && s.logging ==>
              r == (Steps(false, s.sequence, None), Stopped)
    ensures !s.logging && s.currentStep == None && s.sequence != [] ==>
              && r.0.sequence == s.sequence[1..]
              && r.0.currentStep == Some(s.sequence[0])
              && r.0.logging == (s.sequence[0] != "")
    ensures !s.logging && Truthy(s.currentStep) ==> r == (Steps(true, s.sequence, s.currentStep), Started(s.currentStep.value))
    ensures r.1.Started? <==> !s.logging && r.0.logging
    ensures r.1.Started? ==> Truthy(r.0.currentStep) && r.1.step == r.0.currentStep.value
    ensures r.0.sequence == s.sequence || r.0.sequence == s.sequence[1..]
  {
    if s.sequence != [] || Truthy(s.currentStep) then
      if s.logging then (s.(logging := false, currentStep := None), Stopped)
      else
        var t := if s.currentStep == None && s.sequence != [] then
                   s.(currentStep := Some(s.sequence[0]), sequence := s.sequence[1..])
                 else s;
        if Truthy(t.currentStep) then (t.(logging := true), Started(t.currentStep.value))
        else (t.(logging := false), NoSequence)
    else (s, NoSequence)
  }

  /** A popped step never returns: a run of toggles only ever drops steps from
      the front of the queue. */
  function ToggleRun(s: Steps, n: nat): Steps
    decreases n
  {
    if n == 0 then s else ToggleRun(ToggleStep(s).0, n - 1)
  }

  lemma {:induction false} ToggleRunSuffix(s: Steps, n: nat)
    decreases n
    ensures |ToggleRun(s, n).sequence| <= |s.sequence|
    ensures ToggleRun(s, n).sequence == s.sequence[|s.sequence| - |ToggleRun(s, n).sequence|..]
  {
    if n > 0 {
      var t := ToggleStep(s).0;
      ToggleRunSuffix(t, n - 1);
      var u := ToggleRun(t, n - 1).sequence;
      if t.sequence != s.sequence {
        assert s.sequence[1..][|t.sequence| - |u|..] == s.sequence[|s.sequence| - |u|..];
      }
    }
  }

  /** Two presses from an idle state with a queue log the first step and then
      stop, leaving the rest of the queue. */
  lemma StartThenStop(first: string, rest: seq<string>)
    requires first != ""
    ensures ToggleRun(Steps(false, [first] + rest, None), 2) == Steps(false, rest, None)
  {
    var s := Steps(false, [first] + rest, None);
    assert ToggleStep(s).0 == Steps(true, rest, Some(first));
    assert ToggleRun(Steps(false, rest, None), 0) == Steps(false, rest, None);
  }

  class QtSession {
    var logging: bool
    var sequence: seq<string>
    var stepIndex: nat
    var currentStep: Option<string>
    var buildingCode: string
    /** The reader thread's `logging_running`. */
    var running: bool
    /** Every CSV file the reader has opened, in order. */
    var files: seq<Csv.CsvFile>
    const store: Store

    ghost predicate Valid()
      reads this, store
    {
      && store.Valid() && |store.windows| == NumSensors
      && (running <==> Csv.HasOpen(files))
      && Csv.Disciplined(files, Header)
    }

    constructor()
      ensures Valid() && fresh(store)
      ensures !logging && sequence == [] && stepIndex == 0 && currentStep == None && buildingCode == ""
      ensures !running && files == []
      ensures forall i :: 0 <= i < NumSensors ==> store.windows[i] == Window.Fill(Sentinel) && store.captured[i] == []
    {
      logging, sequence, stepIndex, currentStep, buildingCode := false, [], 0, None, "";
      running, files := false, [];
      store := new Store(NumSensors);
    }

    /** `validate_building_code` */
    method ValidateBuildingCode(text: string) returns (ok: bool)
      modifies this
      ensures ok == IsBuildingCode(text)
      ensures buildingCode == if ok then text else ""
      ensures logging == old(logging) && sequence == old(sequence) && stepIndex == old(stepIndex)
      ensures currentStep == old(currentStep) && running == old(running) && files == old(files)
    {
      if IsBuildingCode(text) {
        buildingCode := text;
        ok := true;
      } else {
        buildingCode := "";
        ok := false;
      }
    }

    /** `set_sequence`: with a valid building code the queue becomes the
        checked labels in box order; otherwise only the code is cleared. */
    method SetSequence(text: string, checked: seq<bool>) returns (ok: bool)
      requires Valid() && |checked| == |CheckboxOptions|
      modifies this
      ensures Valid()
      ensures ok == IsBuildingCode(text) && buildingCode == if ok then text else ""
      ensures ok ==> sequence == Selected(CheckboxOptions, checked) && stepIndex == 0
      ensures !ok ==> sequence == old(sequence) && stepIndex == old(stepIndex)
      ensures logging == old(logging) && currentStep == old(currentStep)
      ensures running == old(running) && files == old(files)
    {
      ok := ValidateBuildingCode(text);
      if !ok {
        return;
      }
      var options := CheckboxOptions;
      var chosen: seq<string> := [];
      var k := 0;
      label Chosen:
      while k < |options|
        invariant 0 <= k <= |options|
        invariant chosen == Selected(options[..k], checked[..k])
        invariant unchanged@Chosen(this)
      {
        SelectedStep(options, checked, k);
        if checked[k] {
          chosen := chosen + [options[k]];
        }
        k := k + 1;
      }
      assert options[..k] == options && checked[..k] == checked;
      sequence := chosen;
      stepIndex := 0;
    }

    /** A space-bar press. */
    method Toggle() returns (outcome: ToggleOutcome)
      requires Valid()
      modifies this
      ensures Valid()
      ensures (Steps(logging, sequence, currentStep), outcome) == ToggleStep(old(Steps(logging, sequence, currentStep)))
      ensures stepIndex == old(stepIndex) && buildingCode == old(buildingCode)
      ensures running == old(running) && files == old(files)
    {
      if sequence != [] || Truthy(currentStep) {
        if logging {
          logging := false;
          outcome := Stopped;
          currentStep := None;
        } else {
          if currentStep == None && sequence != [] {
            currentStep := Some(sequence[0]);
            sequence := sequence[1..];
          }
          if Truthy(currentStep) {
            logging := true;
            outcome := Started(currentStep.value);
          } else {
            outcome := NoSequence;
            logging := false;
          }
        }
      } else {
        outcome := NoSequence;
      }
    }

    /** One pass of `serial_reader`: the edge check, then one line. */
    method Tick(line: Option<string>, ts: nat, stamp: string, radio: string)
      requires Valid()
      modifies this, store
      ensures Valid()
      ensures running == (old(logging) && Truthy(old(currentStep)))
      ensures var edged := Csv.Edge(old(files), old(running), running,
                                    if running then FileName(stamp, buildingCode, radio, old(currentStep).value) else "", Header);
              files == if running && line.Some? then Csv.Write(edged, RowsOf(ts, Accepted(FindAll(Strip(line.value)), NumSensors))) else edged
      ensures line.Some? ==> store.captured == Extended(old(store.captured), Accepted(FindAll(Strip(line.value)), NumSensors))
      ensures line.None? ==> store.captured == old(store.captured)
      ensures var reset := old(running) && !running && old(sequence) == [] && Truthy(old(currentStep));
              && currentStep == (if reset then None else old(currentStep))
              && logging == (if reset then false else old(logging))
      ensures sequence == old(sequence) && buildingCode == old(buildingCode) && stepIndex == old(stepIndex)
    {
      CheckEdge(stamp, radio);
      if line.Some? {
        var found := FindAll(Strip(line.value));
        ReadReadings(found, ts);
      }
    }

    /** The head of the reader loop: open a file, header first, when `LOGGING
        and current_step` starts to hold, with `stamp` the formatted time for
        its name; close it when the condition stops holding. */
    method CheckEdge(stamp: string, radio: string)
      requires Valid()
      modifies this
      ensures Valid()
      ensures running == (old(logging) && Truthy(old(currentStep)))
      ensures files == Csv.Edge(old(files), old(running), running,
                                if running then FileName(stamp, buildingCode, radio, old(currentStep).value) else "", Header)
      ensures var reset := old(running) && !running && old(sequence) == [] && Truthy(old(currentStep));
              && currentStep == (if reset then None else old(currentStep))
              && logging == (if reset then false else old(logging))
      ensures sequence == old(sequence) && buildingCode == old(buildingCode) && stepIndex == old(stepIndex)
    {
      if logging && Truthy(currentStep) {
        if !running {
          running := true;
          var fn := FileName(stamp, buildingCode, radio, currentStep.value);
          files := Csv.Open(files, fn, Header);
        }
      } else {
        if running {
          running := false;
          files := Csv.Close(files);
          // After the last file of the queue the step is cleared.
          if sequence == [] && Truthy(currentStep) {
            currentStep := None;
            logging := false;
          }
        }
      }
    }

    /** `for hit in matches`, for the readings `findall` gives of one decoded
        line and `ts` the time in milliseconds: capture every reading of an
        existing channel and, while a file is open, write its row. */
    method ReadReadings(found: seq<Reading>, ts: nat)
      requires Valid()
      modifies this, store
      ensures Valid()
      ensures store.captured == Extended(old(store.captured), Accepted(found, NumSensors))
      ensures files == if old(running) then Csv.Write(old(files), RowsOf(ts, Accepted(found, NumSensors))) else old(files)
      ensures running == old(running) && logging == old(logging) && currentStep == old(currentStep)
      ensures sequence == old(sequence) && buildingCode == old(buildingCode) && stepIndex == old(stepIndex)
    {
      var rows := store.CaptureMatches(found, ts);
      WriteRows(rows);
    }

    /** `if logging_running: writer.writerow(...)`: rows reach the open file
        and are dropped while none is open. */
    method WriteRows(rows: seq<Csv.Row>)
      requires Valid()
      modifies this
      ensures Valid()
      ensures files == if old(running) then Csv.Write(old(files), rows) else old(files)
      ensures running == old(running) && logging == old(logging) && currentStep == old(currentStep)
      ensures sequence == old(sequence) && buildingCode == old(buildingCode) && stepIndex == old(stepIndex)
    {
      if running {
        files := Csv.Write(files, rows);
      }
    }
  }
}
