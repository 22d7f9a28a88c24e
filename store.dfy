/** The per-channel state of qt.py, gui.py and gather.py: `sensor_data`, a list
    of `deque([-1] * WINDOW_SIZE, maxlen=WINDOW_SIZE)`, and `mindist`, the
    running minimum of each channel, together with the loop that feeds the
    `findall` matches of one line into them. */
module ChannelStore {
  import opened Text
  import opened Window
  import opened LineParser
  import Csv

  /** The value every window is pre-filled with. */
  const Sentinel: int := -1

  /** The initial `mindist` of every channel. */
  const NoMinimum: int := 999999

  /** The values of the channel-`i` readings, in order. */
  function ValuesFor(rs: seq<Reading>, i: nat): (vs: seq<int>)
    ensures |vs| <= |rs|
  {
    if rs == [] then []
    else ValuesFor(rs[..|rs| - 1], i) + (if rs[|rs| - 1].id == i then [rs[|rs| - 1].value as int] else [])
  }

  /** The readings whose channel is below `count`, in order: the guard
      `0 <= sensor_id < len(sensor_data)`. */
  function Accepted(rs: seq<Reading>, count: nat): (a: seq<Reading>)
    ensures |a| <= |rs|
  {
    if rs == [] then []
    else Accepted(rs[..|rs| - 1], count) + (if rs[|rs| - 1].id < count then [rs[|rs| - 1]] else [])
  }

  /** A reading is accepted exactly when it is on the line and its channel exists. */
  lemma {:induction false} AcceptedMembers(rs: seq<Reading>, count: nat, r: Reading)
    ensures r in Accepted(rs, count) <==> r in rs && r.id < count
  {
    if rs != [] {
      var init := rs[..|rs| - 1];
      AcceptedMembers(init, count, r);
      assert rs == init + [rs[|rs| - 1]];
    }
  }

  /** The guard drops only the readings of missing channels: every channel that
      exists receives all of its readings, whatever else is on the line. */
  lemma {:induction false} AcceptedKeepsChannels(rs: seq<Reading>, count: nat, i: nat)
    requires i < count
    ensures ValuesFor(Accepted(rs, count), i) == ValuesFor(rs, i)
  {
    if rs != [] {
      var init, last := rs[..|rs| - 1], rs[|rs| - 1];
      AcceptedKeepsChannels(init, count, i);
      var a := Accepted(init, count);
      if last.id < count {
        assert (a + [last])[..|a|] == a;
      } else {
        assert a + [] == a;
      }
    }
  }

  /** A channel that does not exist receives nothing. */
  lemma {:induction false} AcceptedDropsMissing(rs: seq<Reading>, count: nat, i: nat)
    requires count <= i
    ensures ValuesFor(Accepted(rs, count), i) == []
  {
    if rs != [] {
      var init, last := rs[..|rs| - 1], rs[|rs| - 1];
      AcceptedDropsMissing(init, count, i);
      var a := Accepted(init, count);
      if last.id < count {
        assert (a + [last])[..|a|] == a;
      } else {
        assert a + [] == a;
      }
    }
  }

  lemma AcceptedStep(rs: seq<Reading>, k: nat, count: nat)
    requires k < |rs|
    ensures Accepted(rs[..k + 1], count) == Accepted(rs[..k], count) + (if rs[k].id < count then [rs[k]] else [])
  {
    assert rs[..k + 1][..k] == rs[..k];
  }

  lemma ValuesForStep(a: seq<Reading>, r: Reading, i: nat)
    ensures ValuesFor(a + [r], i) == ValuesFor(a, i) + (if r.id == i then [r.value as int] else [])
  {
    assert (a + [r])[..|a|] == a;
  }

  /** `writer.writerow([timestamp, sensor_id, data_value])`: csv writes each int with `str`. */
  function RowOf(ts: nat, r: Reading): (row: Csv.Row)
    ensures |row| == 3
  {
    [NatToString(ts), NatToString(r.id), NatToString(r.value)]
  }

  /** Reading a row back with `int` gives the timestamp, channel and value. */
  lemma RowOfRoundTrip(ts: nat, r: Reading)
    ensures ParsePyInt(RowOf(ts, r)[0]) == Some(ts as int)
    ensures ParsePyInt(RowOf(ts, r)[1]) == Some(r.id as int)
    ensures ParsePyInt(RowOf(ts, r)[2]) == Some(r.value as int)
  {
    ParsePyIntOfNatToString(ts);
    ParsePyIntOfNatToString(r.id);
    ParsePyIntOfNatToString(r.value);
  }

  /** One row per reading, in order, all with the same timestamp. */
  function RowsOf(ts: nat, rs: seq<Reading>): (rows: seq<Csv.Row>)
    ensures |rows| == |rs|
  {
    if rs == [] then [] else RowsOf(ts, rs[..|rs| - 1]) + [RowOf(ts, rs[|rs| - 1])]
  }

  lemma RowsOfStep(ts: nat, a: seq<Reading>, r: Reading)
    ensures RowsOf(ts, a + [r]) == RowsOf(ts, a) + [RowOf(ts, r)]
  {
    assert (a + [r])[..|a|] == a;
  }

  /** Every channel's history extended by that channel's readings, in order. */
  function Extended(hs: seq<seq<int>>, rs: seq<Reading>): (r: seq<seq<int>>)
    ensures |r| == |hs|
  {
    seq(|hs|, i requires 0 <= i < |hs| => hs[i] + ValuesFor(rs, i))
  }

  lemma ExtendedNone(hs: seq<seq<int>>)
    ensures Extended(hs, []) == hs
  {
    forall i | 0 <= i < |hs| ensures Extended(hs, [])[i] == hs[i] {
      assert hs[i] + [] == hs[i];
    }
  }

  /** One more reading extends the history of its own channel only. */
  lemma ExtendedStep(hs: seq<seq<int>>, a: seq<Reading>, r: Reading)
    requires r.id < |hs|
    ensures Extended(hs, a + [r]) == Extended(hs, a)[r.id := Extended(hs, a)[r.id] + [r.value as int]]
  {
    forall i | 0 <= i < |hs|
      ensures Extended(hs, a + [r])[i] == Extended(hs, a)[r.id := Extended(hs, a)[r.id] + [r.value as int]][i]
    {
      ValuesForStep(a, r, i);
    }
  }

  /** A window holds the last WindowSize entries of the sentinels followed by
      the channel's captured values, and its minimum is the least of 999999
      and those values. */
  ghost predicate ChannelOk(w: seq<int>, m: int, h: seq<int>) {
    w == Recent(Fill(Sentinel) + h) && m == MinOf(NoMinimum, h)
  }

  ghost predicate ChannelsOk(ws: seq<seq<int>>, ms: seq<int>, hs: seq<seq<int>>)
    requires |ws| == |ms| == |hs|
  {
    forall i :: 0 <= i < |ws| ==> ChannelOk(ws[i], ms[i], hs[i])
  }

  class Store {
    var windows: seq<seq<int>>
    var mindist: seq<int>
    /** Every value captured for each channel since the store was created. */
    ghost var captured: seq<seq<int>>

    /** Every channel is as its captured values make it. */
    ghost predicate Valid()
      reads this
    {
      && |windows| == |mindist| == |captured|
      && ChannelsOk(windows, mindist, captured)
    }

    constructor(count: nat)
      ensures Valid() && |windows| == count
      ensures forall i :: 0 <= i < count ==> windows[i] == Fill(Sentinel) && mindist[i] == NoMinimum
      ensures forall i :: 0 <= i < count ==> captured[i] == []
    {
      windows := seq(count, _ => Fill(Sentinel));
      mindist := seq(count, _ => NoMinimum);
      captured := seq(count, _ => []);
      new;
      forall i | 0 <= i < count ensures ChannelOk(windows[i], mindist[i], captured[i]) {
        assert Fill(Sentinel) + captured[i] == Fill(Sentinel);
      }
    }

    /** `capture_data(sensor_id, value)`: append to the channel's window,
        evicting its oldest entry, and lower its minimum. */
    method Capture(id: nat, value: int)
      requires Valid() && id < |windows|
      modifies this
      ensures Valid()
      ensures captured == old(captured)[id := old(captured)[id] + [value]]
      ensures windows == old(windows)[id := Push(old(windows)[id], value)]
      ensures mindist == old(mindist)[id := if value < old(mindist)[id] then value else old(mindist)[id]]
    {
      ghost var h := Fill(Sentinel) + captured[id];
      PushRecent(h, value);
      assert h + [value] == Fill(Sentinel) + (captured[id] + [value]);
      MinOfAppend(NoMinimum, captured[id], value);
      windows := windows[id := Push(windows[id], value)];
      mindist := mindist[id := if value < mindist[id] then value else mindist[id]];
      captured := captured[id := captured[id] + [value]];
    }

    /** The number a channel's display box shows, `sensor_data[i][0]`: the
        oldest entry of the window, which is the sentinel until WindowSize
        values have been captured, and the WindowSize-th most recent value
        from then on. */
    function Displayed(id: nat): (v: int)
      reads this
      requires Valid() && id < |windows|
      ensures |captured[id]| < WindowSize ==> v == Sentinel
      ensures |captured[id]| >= WindowSize ==> v == captured[id][|captured[id]| - WindowSize]
    {
      RecentOfFill(Sentinel, captured[id]);
      windows[id][0]
    }

    /** The `for hit in matches` loop of the readers: every reading of an
        existing channel is captured, in order, and its CSV row returned. */
    method CaptureMatches(rs: seq<Reading>, ts: nat) returns (rows: seq<Csv.Row>)
      requires Valid()
      modifies this
      ensures Valid() && |windows| == old(|windows|)
      ensures rows == RowsOf(ts, Accepted(rs, |windows|))
      ensures captured == Extended(old(captured), Accepted(rs, |windows|))
    {
      var n := |windows|;
      ghost var start := captured;
      rows := [];
      var k := 0;
      ExtendedNone(start);
      while k < |rs|
        invariant 0 <= k <= |rs|
        invariant Valid() && |windows| == n
        invariant rows == RowsOf(ts, Accepted(rs[..k], n))
        invariant captured == Extended(start, Accepted(rs[..k], n))
      {
        var r := rs[k];
        ghost var a := Accepted(rs[..k], n);
        AcceptedStep(rs, k, n);
        if r.id < n {
          ExtendedStep(start, a, r);
          Capture(r.id, r.value);
          rows := rows + [RowOf(ts, r)];
          RowsOfStep(ts, a, r);
        } else {
          assert a + [] == a;
        }
        k := k + 1;
      }
      assert rs[..k] == rs;
    }
  }
}
