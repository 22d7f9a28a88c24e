/** The webcam overlay tool (live.py): one reading per line, matched at the
    start of the line, into windows pre-filled with -1; an `Online sensors: n`
    line replaces the windows; the `a` key toggles logging, and the serial
    reader opens one CSV file per logging period. Threads are serialised into
    events as in QtApp. */
module LiveApp {
  import opened Text
  import opened Window
  import opened LineParser
  import Csv

  const NumSensors: nat := 6

  const Header: Csv.Row := ["milliseconds (PST)", "Sensor Number", "Measurement"]

  const OnlinePrefix: string := "Online sensors:"

  predicate StartsWith(s: string, p: string) {
    |p| <= |s| && s[..|p|] == p
  }

  /** `min(num_sensors, NUM_SENSORS)` windows, no window at all for a count
      below one (`range` of a negative number is empty). */
  function OnlineCount(n: int): (c: nat)
    ensures c <= NumSensors
    ensures 0 <= n <= NumSensors ==> c == n
    ensures n > NumSensors ==> c == NumSensors
    ensures n < 0 ==> c == 0
  {
    if n < 0 then 0 else if n < NumSensors then n else NumSensors
  }

  /** What a stripped line is to the reader. */
  datatype LineKind =
    | ReadingLine(hit: LiveHit)
    /** `Online sensors:` with the result of `int` on its count (None when it raises). */
    | OnlineLine(count: Option<int>)
    | OtherLine

  /** `int(line.split(':')[1].strip())` on a line that starts with
      `Online sensors:`: the text between the first and the second colon. The
      `.strip()` is left to `int`, which strips its argument itself
      (ParsePyIntOfStrip). */
  function AnnouncedCount(line: string): Option<int>
    requires StartsWith(line, OnlinePrefix)
  {
    ParsePyInt(TakeUntil(line[|OnlinePrefix|..], ':'))
  }

  lemma AnnouncedCountStripped(line: string)
    requires StartsWith(line, OnlinePrefix)
    ensures ParsePyInt(Strip(TakeUntil(line[|OnlinePrefix|..], ':'))) == AnnouncedCount(line)
  {
    ParsePyIntOfStrip(TakeUntil(line[|OnlinePrefix|..], ':'));
  }

  /** The pattern first, and `Online sensors:` only when it does not match. */
  function Classify(line: string): LineKind {
    match LiveMatch(line)
    case Some(h) => ReadingLine(h)
    case None =>
      if StartsWith(line, OnlinePrefix) then OnlineLine(AnnouncedCount(line))
      else OtherLine
  }

  /** A line starting with `Online sensors:` is not a reading. */
  lemma ClassifyOnlinePrefix(rest: string)
    ensures Classify(OnlinePrefix + rest) == OnlineLine(ParsePyInt(TakeUntil(rest, ':')))
  {
    var line := OnlinePrefix + rest;
    assert line[0] == 'O';
    LiveMatchNeedsD(line);
    assert line[..|OnlinePrefix|] == OnlinePrefix;
    assert line[|OnlinePrefix|..] == rest;
  }

  /** `Online sensors: n` is read as the count n. */
  lemma ClassifyOnline(n: nat)
    ensures Classify(OnlinePrefix + " " + NatToString(n)) == OnlineLine(Some(n as int))
  {
    var digits := NatToString(n);
    assert OnlinePrefix + " " + digits == OnlinePrefix + (" " + digits);
    ClassifyOnlinePrefix(" " + digits);
    CountText(digits);
    ParsePyIntOfNatToString(n);
  }

  /** The count text after the prefix: a space and digits, no colon. */
  lemma CountText(digits: string)
    requires |digits| > 0 && AllDigits(digits)
    ensures Strip(TakeUntil(" " + digits, ':')) == digits
  {
    var tail := " " + digits;
    assert ':' !in tail by {
      assert forall k :: 1 <= k < |tail| ==> tail[k] == digits[k - 1];
    }
    assert TakeUntil(tail, ':') == tail;
    assert tail[1..] == digits;
    assert StripLeft(tail) == StripLeft(digits);
    StripTrimmed(digits);
  }

  /** A count that is not an integer makes `int` raise. */
  lemma ClassifyOnlineNoDigits(word: string)
    requires forall k :: 0 <= k < |word| ==> !IsDigit(word[k]) && word[k] != ':'
    ensures Classify(OnlinePrefix + word) == OnlineLine(None)
  {
    var count := ParsePyInt(Strip(TakeUntil(word, ':')));
    assert count == None by {
      assert TakeUntil(word, ':') == word;
      ParsePyIntOfStrip(word);
      ParsePyIntNeedsDigit(word);
    }
    ClassifyOnlinePrefix(word);
  }

  /** The cells of a row: the timestamp, then the channel and value exactly as
      matched (leading zeros kept). */
  function LiveRow(ts: nat, h: LiveHit): (row: Csv.Row)
    ensures |row| == 3 && row[1] == h.idText && row[2] == h.valueText
  {
    [NatToString(ts), h.idText, h.valueText]
  }

  /** `int` of the cells gives back the channel and value. */
  lemma LiveRowRoundTrip(ts: nat, h: LiveHit)
    requires |h.idText| == 1 && AllDigits(h.idText) && |h.valueText| > 0 && AllDigits(h.valueText)
    ensures ParsePyInt(LiveRow(ts, h)[0]) == Some(ts as int)
    ensures ParsePyInt(LiveRow(ts, h)[1]) == Some(LiveReading(h).id as int)
    ensures ParsePyInt(LiveRow(ts, h)[2]) == Some(LiveReading(h).value as int)
  {
    ParsePyIntOfNatToString(ts);
    ParsePyIntOfDigit(h.idText);
    ParsePyIntOfDigits(h.valueText);
  }

  /** `calculate_lowest_readings` yields an int or `float('inf')`. */
  datatype Lowest = Finite(value: int) | Infinity

  /** `min(data_queue) if data_queue else float('inf')` */
  function LowestOf(w: seq<int>): (r: Lowest)
    ensures w == [] <==> r == Infinity
    ensures r.Finite? ==> (forall k :: 0 <= k < |w| ==> r.value <= w[k]) && r.value in w
  {
    if w == [] then Infinity else Finite(Least(w))
  }

  /** `add_tuple(a, b)`: the element-wise sum, as long as the shorter input
      (`map` stops at the shorter iterable). */
  function AddTuple(a: seq<int>, b: seq<int>): (r: seq<int>)
    ensures |r| == if |a| < |b| then |a| else |b|
    ensures forall k :: 0 <= k < |r| ==> r[k] == a[k] + b[k]
  {
    var m := if |a| < |b| then |a| else |b|;
    seq(m, k requires 0 <= k < m => a[k] + b[k])
  }

  lemma AddTupleCommutes(a: seq<int>, b: seq<int>)
    ensures AddTuple(a, b) == AddTuple(b, a)
  {
  }

  /** Extra elements of the longer input are ignored. */
  lemma AddTupleTruncates(a: seq<int>, b: seq<int>, extra: seq<int>)
    requires |a| <= |b|
    ensures AddTuple(a, b + extra) == AddTuple(a, b)
  {
  }

  /** What one stripped line does to the windows: the new windows, the row
      to write while a file is open, and whether the reader dies. */
  datatype Effect = Effect(windows: seq<seq<int>>, row: Option<Csv.Row>, halts: bool)

  function Absorb(windows: seq<seq<int>>, line: string, ts: nat): (e: Effect)
    requires forall i :: 0 <= i < |windows| ==> |windows[i]| == WindowSize
    ensures forall i :: 0 <= i < |e.windows| ==> |e.windows[i]| == WindowSize
    ensures |e.windows| == |windows| || |e.windows| <= NumSensors
  {
    match Classify(line)
    case ReadingLine(h) =>
      var r := LiveReading(h);
      if r.id < |windows| then Effect(windows[r.id := Push(windows[r.id], r.value)], Some(LiveRow(ts, h)), false)
      else Effect(windows, None, false)
    case OnlineLine(count) =>
      if count.None? then Effect(windows, None, true)
      else Effect(seq(OnlineCount(count.value), _ => Fill(0)), None, false)
    case OtherLine => Effect(windows, None, false)
  }

  /** A reading of an existing channel is pushed into its window and gives a
      row; any other reading changes nothing. */
  lemma AbsorbReading(windows: seq<seq<int>>, line: string, ts: nat)
    requires forall i :: 0 <= i < |windows| ==> |windows[i]| == WindowSize
    requires Classify(line).ReadingLine?
    ensures var e, r := Absorb(windows, line, ts), LiveReading(Classify(line).hit);
            && !e.halts
            && (r.id < |windows| ==>
                  e.windows == windows[r.id := Push(windows[r.id], r.value)] && e.row == Some(LiveRow(ts, Classify(line).hit)))
            && (r.id >= |windows| ==> e.windows == windows && e.row == None)
  {
  }

  /** `Online sensors: n` replaces every window by OnlineCount(n) windows of
      zeros and writes nothing; a count `int` rejects stops the reader. */
  lemma AbsorbOnline(windows: seq<seq<int>>, line: string, ts: nat)
    requires forall i :: 0 <= i < |windows| ==> |windows[i]| == WindowSize
    requires Classify(line).OnlineLine?
    ensures var e, c := Absorb(windows, line, ts), Classify(line).count;
            && e.row == None
            && (e.halts <==> c.None?)
            && (c.None? ==> e.windows == windows)
            && (c.Some? ==> |e.windows| == OnlineCount(c.value) && forall i :: 0 <= i < |e.windows| ==> e.windows[i] == Fill(0))
  {
  }

  /** With the shipped firmware's announcement the window count follows the
      announced number, capped at NumSensors. */
  lemma AbsorbOnlineCount(windows: seq<seq<int>>, n: nat, ts: nat)
    requires forall i :: 0 <= i < |windows| ==> |windows[i]| == WindowSize
    ensures var e := Absorb(windows, OnlinePrefix + " " + NatToString(n), ts);
            |e.windows| == (if n < NumSensors then n else NumSensors) && !e.halts && e.row == None
  {
    ClassifyOnline(n);
    AbsorbOnline(windows, OnlinePrefix + " " + NatToString(n), ts);
  }

  /** Every other line changes nothing. */
  lemma AbsorbOther(windows: seq<seq<int>>, line: string, ts: nat)
    requires forall i :: 0 <= i < |windows| ==> |windows[i]| == WindowSize
    requires Classify(line).OtherLine?
    ensures Absorb(windows, line, ts) == Effect(windows, None, false)
  {
  }

  class LiveReader {
    var logging: bool
    /** The reader thread's `logging_running`. */
    var running: bool
    var windows: seq<seq<int>>
    var files: seq<Csv.CsvFile>
    /** The reader thread has died of an uncaught ValueError. */
    var halted: bool

    ghost predicate Valid()
      reads this
    {
      && |windows| <= NumSensors
      && (forall i :: 0 <= i < |windows| ==> |windows[i]| == WindowSize)
      && (running <==> Csv.HasOpen(files))
      && Csv.Disciplined(files, Header)
    }

    constructor()
      ensures Valid()
      ensures !logging && !running && files == [] && !halted
      ensures windows == seq(NumSensors, _ => Fill(-1))
    {
      logging, running, files, halted := false, false, [], false;
      windows := seq(NumSensors, _ => Fill(-1));
    }

    /** The `a` key in `show_webcam`: `LOGGING = not LOGGING`. */
    method ToggleKey()
      modifies this
      ensures logging == !old(logging)
      ensures running == old(running) && windows == old(windows) && files == old(files) && halted == old(halted)
    {
      logging := !logging;
    }

    /** `capture_data`: append to the window, evicting its oldest entry. */
    method Capture(id: nat, value: int)
      requires Valid() && id < |windows|
      modifies this
      ensures Valid()
      ensures windows == old(windows)[id := Push(old(windows)[id], value)]
      ensures logging == old(logging) && running == old(running) && files == old(files) && halted == old(halted)
    {
      windows := windows[id := Push(windows[id], value)];
    }

    /** `calculate_lowest_readings`: the least entry of each window, in order. */
    method LowestReadings() returns (lows: seq<Lowest>)
      ensures |lows| == |windows|
      ensures forall i :: 0 <= i < |windows| ==> lows[i] == LowestOf(windows[i])
    {
      lows := [];
      var k := 0;
      while k < |windows|
        invariant 0 <= k <= |windows|
        invariant |lows| == k
        invariant forall i :: 0 <= i < k ==> lows[i] == LowestOf(windows[i])
      {
        var w := windows[k];
        var lowest := if w != [] then Finite(Least(w)) else Infinity;
        lows := lows + [lowest];
        k := k + 1;
      }
    }

    /** One pass of `serial_reader` (nothing once the thread has died), with
        `stamp` the formatted time for a new file name and `ts` the time in
        milliseconds for a row. */
    method Tick(line: Option<string>, ts: nat, stamp: string)
      requires Valid()
      modifies this
      ensures Valid()
      ensures old(halted) ==> halted && running == old(running) && windows == old(windows) && files == old(files)
      ensures !old(halted) ==> running == old(logging)
      ensures !old(halted) && line.None? ==>
                files == Csv.Edge(old(files), old(running), running, stamp + ".csv", Header) && windows == old(windows)
      ensures !old(halted) && line.None? ==> !halted
      ensures !old(halted) && line.Some? ==>
                var edged := Csv.Edge(old(files), old(running), running, stamp + ".csv", Header);
                var e := Absorb(old(windows), Strip(line.value), ts);
                && windows == e.windows && halted == e.halts
                && files == (if running && e.row.Some? then Csv.Write(edged, [e.row.value]) else edged)
      ensures logging == old(logging)
    {
      if halted {
        return;
      }
      CheckEdge(stamp);
      if line.Some? {
        ReadLine(Strip(line.value), ts);
      }
    }

    /** The head of the reader loop: open a file, header first, when LOGGING
        rises; close it when LOGGING falls. */
    method CheckEdge(stamp: string)
      requires Valid()
      modifies this
      ensures Valid()
      ensures running == old(logging)
      ensures files == Csv.Edge(old(files), old(running), running, stamp + ".csv", Header)
      ensures logging == old(logging) && windows == old(windows) && halted == old(halted)
    {
      if logging {
        if !running {
          running := true;
          var fn := stamp + ".csv";
          files := Csv.Open(files, fn, Header);
        }
      } else {
        if running {
          running := false;
          files := Csv.Close(files);
        }
      }
    }

    /** The body of the reader loop for a line decoded and stripped. */
    method ReadLine(line: string, ts: nat)
      requires Valid() && !halted
      modifies this
      ensures Valid()
      ensures var e := Absorb(old(windows), line, ts);
              && windows == e.windows && halted == e.halts
              && files == if old(running) && e.row.Some? then Csv.Write(old(files), [e.row.value]) else old(files)
      ensures logging == old(logging) && running == old(running)
    {
      match LiveMatch(line)
      case Some(h) =>
        ReadReading(h, ts);
      case None =>
        if StartsWith(line, OnlinePrefix) {
          Announce(AnnouncedCount(line));
        }
    }

    /** A matched reading: captured and written when its channel exists. */
    method ReadReading(h: LiveHit, ts: nat)
      requires Valid()
      requires |h.idText| == 1 && AllDigits(h.idText) && |h.valueText| > 0 && AllDigits(h.valueText)
      modifies this
      ensures Valid()
      ensures var r := LiveReading(h);
              && windows == (if r.id < |old(windows)| then old(windows)[r.id := Push(old(windows)[r.id], r.value)] else old(windows))
              && files == (if old(running) && r.id < |old(windows)| then Csv.Write(old(files), [LiveRow(ts, h)]) else old(files))
      ensures logging == old(logging) && running == old(running) && halted == old(halted)
    {
      var r := LiveReading(h);
      if r.id < |windows| {
        Capture(r.id, r.value);
        if running {
          files := Csv.Write(files, [LiveRow(ts, h)]);
        }
      }
    }

    /** An `Online sensors:` line: new windows of zeros, or the death of the
        reader when `int` raises. */
    method Announce(count: Option<int>)
      requires Valid()
      modifies this
      ensures Valid()
      ensures count.None? ==> halted && windows == old(windows)
      ensures count.Some? ==> halted == old(halted) && windows == seq(OnlineCount(count.value), _ => Fill(0))
      ensures logging == old(logging) && running == old(running) && files == old(files)
    {
      if count.None? {
        halted := true;
      } else {
        windows := seq(OnlineCount(count.value), _ => Fill(0));
      }
    }
  }
}
