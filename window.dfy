/** The per-channel history buffer: a Python `deque(maxlen=WINDOW_SIZE)`, and
    the running minimum kept beside it. */
module Window {

  /** `WINDOW_SIZE = 10 * REPORT_INTERVAL` with `REPORT_INTERVAL = 1`. */
  const WindowSize: nat := 10

  /** `[v] * WINDOW_SIZE`, the contents a window is created or reset with. */
  function Fill(v: int): (w: seq<int>)
    ensures |w| == WindowSize
    ensures forall k :: 0 <= k < |w| ==> w[k] == v
  {
    seq(WindowSize, _ => v)
  }

  /** `deque.append(v)` on a deque of at most WindowSize entries: the new value
      goes last, and when the deque was full its oldest entry is dropped. */
  function Push(w: seq<int>, v: int): (r: seq<int>)
    requires |w| <= WindowSize
    ensures |r| == if |w| < WindowSize then |w| + 1 else WindowSize
    ensures r[|r| - 1] == v
    ensures |w| < WindowSize ==> r[..|w|] == w
    ensures |w| == WindowSize ==> r[..|r| - 1] == w[1..]
  {
    if |w| < WindowSize then w + [v] else w[1..] + [v]
  }

  /** The last WindowSize values of a history. */
  function Recent(h: seq<int>): (w: seq<int>)
    requires |h| >= WindowSize
    ensures |w| == WindowSize
  {
    h[|h| - WindowSize..]
  }

  /** Appending to a full window is the same as taking the recent part of the
      history extended by the new value. */
  lemma PushRecent(h: seq<int>, v: int)
    requires |h| >= WindowSize
    ensures Push(Recent(h), v) == Recent(h + [v])
  {
    var l, r := Push(Recent(h), v), Recent(h + [v]);
    assert |l| == |r|;
    forall k | 0 <= k < |l| ensures l[k] == r[k] {
      if k < |l| - 1 {
        assert l[k] == Recent(h)[k + 1];
      }
    }
  }

  /** After WindowSize appends a window holds exactly the appended values:
      every earlier entry, sentinel or reading, has been evicted. */
  lemma {:induction false} RecentAfterWindowSize(pre: seq<int>, h: seq<int>)
    requires |pre| >= WindowSize && |h| >= WindowSize
    ensures Recent(pre + h) == h[|h| - WindowSize..]
  {
    assert (pre + h)[|pre + h| - WindowSize..] == h[|h| - WindowSize..];
  }

  /** A window pre-filled with `v` holds, after a history `h`, the last
      WindowSize values of `h` once there are that many, and otherwise the
      remaining copies of `v` followed by all of `h`. */
  lemma RecentOfFill(v: int, h: seq<int>)
    ensures Recent(Fill(v) + h) == if |h| >= WindowSize then h[|h| - WindowSize..] else Fill(v)[|h|..] + h
  {
    if |h| >= WindowSize {
      RecentAfterWindowSize(Fill(v), h);
    } else {
      assert Recent(Fill(v) + h) == (Fill(v) + h)[|h|..];
      assert (Fill(v) + h)[|h|..] == Fill(v)[|h|..] + h;
    }
  }

  /** `min(init, *s)`: the least of `init` and every value in `s`. */
  function MinOf(init: int, s: seq<int>): (m: int)
    ensures m <= init
    ensures forall k :: 0 <= k < |s| ==> m <= s[k]
    ensures m == init || exists k :: 0 <= k < |s| && m == s[k]
  {
    if s == [] then init
    else
      var m0 := MinOf(init, s[..|s| - 1]);
      if s[|s| - 1] < m0 then s[|s| - 1] else m0
  }

  /** The running-minimum update `mindist = min(mindist, value)` keeps MinOf. */
  lemma MinOfAppend(init: int, s: seq<int>, v: int)
    ensures MinOf(init, s + [v]) == if v < MinOf(init, s) then v else MinOf(init, s)
  {
    assert (s + [v])[..|s|] == s;
  }

  /** `min(s)` of a non-empty sequence. */
  function Least(s: seq<int>): (m: int)
    requires |s| > 0
    ensures forall k :: 0 <= k < |s| ==> m <= s[k]
    ensures exists k :: 0 <= k < |s| && m == s[k]
  {
    MinOf(s[0], s[1..])
  }
}
