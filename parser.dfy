/** Scanners for the serial line protocol, written out by hand for the two
    fixed patterns the tools use:

      `D(\d)\s*\(mm\):\s*(\d+)` with `re.findall` (qt.py, gui.py, gather.py):
        every non-overlapping occurrence, left to right;
      `(?:(\d+)\s*)?D(\d)\s*\(mm\):\s+(\d+)` with `pattern.match` (live.py):
        at most one occurrence, anchored at the start of the line.

    Every quantifier in both patterns is followed by something it cannot
    match, so the greedy choice is the only one and no backtracking is needed. */
module LineParser {
  import opened Text

  /** One sensor reading: the channel digit after `D` and the millimetres. */
  datatype Reading = Reading(id: nat, value: nat)

  /** Where a match of `D(\d)\s*\(mm\):\s*(\d+)` that starts at `start` has its
      `(mm):`, its digit run and its end. */
  datatype Token = Token(reading: Reading, unitAt: nat, valueAt: nat, end: nat)

  /** `\(mm\):` occurs at position `u`. */
  predicate UnitAt(s: string, u: nat) {
    u + 5 <= |s| && s[u] == '(' && s[u + 1] == 'm' && s[u + 2] == 'm' && s[u + 3] == ')' && s[u + 4] == ':'
  }

  /** The end of the run of white space starting at `i` (greedy `\s*`). */
  function SpacesEnd(s: string, i: nat): (j: nat)
    requires i <= |s|
    ensures i <= j <= |s|
    ensures forall k :: i <= k < j ==> IsSpace(s[k])
    ensures j == |s| || !IsSpace(s[j])
    decreases |s| - i
  {
    if i < |s| && IsSpace(s[i]) then SpacesEnd(s, i + 1) else i
  }

  /** Any white-space run from `i` that cannot be extended is the one SpacesEnd finds. */
  lemma SpacesEndUnique(s: string, i: nat, j: nat)
    requires i <= j <= |s|
    requires forall k :: i <= k < j ==> IsSpace(s[k])
    requires j == |s| || !IsSpace(s[j])
    ensures SpacesEnd(s, i) == j
  {
  }

  /** The end of the run of digits starting at `i` (greedy `\d*`). */
  function DigitsEnd(s: string, i: nat): (j: nat)
    requires i <= |s|
    ensures i <= j <= |s|
    ensures forall k :: i <= k < j ==> IsDigit(s[k])
    ensures j == |s| || !IsDigit(s[j])
    decreases |s| - i
  {
    if i < |s| && IsDigit(s[i]) then DigitsEnd(s, i + 1) else i
  }

  /** Any digit run from `i` that cannot be extended is the one DigitsEnd finds. */
  lemma DigitsEndUnique(s: string, i: nat, j: nat)
    requires i <= j <= |s|
    requires forall k :: i <= k < j ==> IsDigit(s[k])
    requires j == |s| || !IsDigit(s[j])
    ensures DigitsEnd(s, i) == j
  {
  }

  /** The shape of a match at `start`: `D`, a digit, white space, `(mm):`,
      white space (at least one character when `spaceRequired`, as for `\s+`),
      and a digit run that cannot be extended. */
  ghost predicate IsToken(s: string, start: nat, spaceRequired: bool, t: Token) {
    && start + 2 <= t.unitAt && t.unitAt + 5 <= t.valueAt < t.end <= |s|
    && s[start] == 'D' && IsDigit(s[start + 1])
    && (forall k :: start + 2 <= k < t.unitAt ==> IsSpace(s[k]))
    && UnitAt(s, t.unitAt)
    && (forall k :: t.unitAt + 5 <= k < t.valueAt ==> IsSpace(s[k]))
    && (spaceRequired ==> t.unitAt + 5 < t.valueAt)
    && (forall k :: t.valueAt <= k < t.end ==> IsDigit(s[k]))
    && (t.end == |s| || !IsDigit(s[t.end]))
    && t.reading == Reading(DigitValue(s[start + 1]), DigitsValue(s[t.valueAt..t.end]))
  }

  /** Tries the pattern at position `start`. */
  function MatchAt(s: string, start: nat, spaceRequired: bool): (r: Option<Token>)
    requires start <= |s|
    ensures r.Some? ==> start + 2 <= r.value.unitAt < r.value.valueAt < r.value.end <= |s| && r.value.reading.id < 10
  {
    if start + 2 <= |s| && s[start] == 'D' && IsDigit(s[start + 1]) then
      var u := SpacesEnd(s, start + 2);
      if UnitAt(s, u) then
        var v := SpacesEnd(s, u + 5);
        var e := DigitsEnd(s, v);
        if v < e && (!spaceRequired || u + 5 < v) then
          assert AllDigits(s[v..e]);
          Some(Token(Reading(DigitValue(s[start + 1]), DigitsValue(s[v..e])), u, v, e))
        else None
      else None
    else None
  }

  /** A match MatchAt finds is a match of the pattern at that position. */
  lemma MatchAtSound(s: string, start: nat, spaceRequired: bool)
    requires start <= |s|
    ensures MatchAt(s, start, spaceRequired).Some? ==> IsToken(s, start, spaceRequired, MatchAt(s, start, spaceRequired).value)
  {
  }

  /** MatchAt finds every match: the pattern has only one way to match at a
      position, and MatchAt returns it. */
  lemma MatchAtComplete(s: string, start: nat, spaceRequired: bool, t: Token)
    requires start <= |s|
    requires IsToken(s, start, spaceRequired, t)
    ensures MatchAt(s, start, spaceRequired) == Some(t)
  {
    SpacesEndUnique(s, start + 2, t.unitAt);
    SpacesEndUnique(s, t.unitAt + 5, t.valueAt);
    DigitsEndUnique(s, t.valueAt, t.end);
  }

  /** `re.findall(pattern, s)` with the channel and value converted by `int`. */
  function FindAll(s: string): (rs: seq<Reading>)
    ensures forall k :: 0 <= k < |rs| ==> rs[k].id < 10
    ensures |rs| <= |s|
  {
    if s == [] then []
    else
      match MatchAt(s, 0, false)
      case Some(t) => [t.reading] + FindAll(s[t.end..])
      case None => FindAll(s[1..])
  }

  /** The canonical text of one reading, `D<id>(mm): <value>`, as the sensor
      firmware prints it. */
  function Encode(r: Reading): (s: string)
    requires r.id < 10
  {
    ['D', DigitChar(r.id), '(', 'm', 'm', ')', ':', ' '] + NatToString(r.value)
  }

  /** Text with no `D` in it never starts a match, so findall skips it. */
  lemma {:induction false} FindAllSkipsNoise(noise: string, rest: string)
    requires 'D' !in noise
    ensures FindAll(noise + rest) == FindAll(rest)
  {
    if noise != [] {
      var s := noise + rest;
      assert s[0] == noise[0];
      assert s[1..] == noise[1..] + rest;
      FindAllSkipsNoise(noise[1..], rest);
    } else {
      assert noise + rest == rest;
    }
  }

  /** An encoded reading, not followed by another digit, is found as itself
      and the scan goes on right after it. */
  lemma FindAllEncoded(r: Reading, rest: string)
    requires r.id < 10
    requires rest == [] || !IsDigit(rest[0])
    ensures FindAll(Encode(r) + rest) == [r] + FindAll(rest)
  {
    var e := Encode(r);
    assert MatchAt(e + rest, 0, false) == Some(Token(r, 2, 8, |e|)) by {
      assert [] + e + rest == e + rest;
      EncodedMatch(r, [], rest, false);
    }
    assert (e + rest)[|e|..] == rest;
    FindAllMatched(e + rest, Token(r, 2, 8, |e|));
  }

  /** No match of the pattern starts in `lo..hi`. */
  ghost predicate NoTokenIn(s: string, lo: nat, hi: nat) {
    forall q: nat, t: Token :: lo <= q < hi ==> !IsToken(s, q, false, t)
  }

  /** A token of the text after `d` is a token of the whole text, `d` later. */
  function ShiftToken(t: Token, d: nat): Token {
    Token(t.reading, t.unitAt + d, t.valueAt + d, t.end + d)
  }

  lemma IsTokenShift(s: string, d: nat, q: nat, t: Token)
    requires d <= |s|
    ensures IsToken(s[d..], q, false, t) <==> IsToken(s, q + d, false, ShiftToken(t, d))
  {
    var u, t' := s[d..], ShiftToken(t, d);
    if t.end <= |u| && q + 2 <= t.unitAt && t.unitAt + 5 <= t.valueAt < t.end {
      assert u[t.valueAt..t.end] == s[t'.valueAt..t'.end];
      assert u[q] == s[q + d] && u[q + 1] == s[q + 1 + d];
      assert UnitAt(u, t.unitAt) <==> UnitAt(s, t'.unitAt);
      assert t.end == |u| <==> t'.end == |s|;
      assert t.end < |u| ==> u[t.end] == s[t'.end];
      SpacesShift(s, d, q + 2, t.unitAt);
      SpacesShift(s, d, t.unitAt + 5, t.valueAt);
      DigitsShift(s, d, t.valueAt, t.end);
    }
  }

  lemma SpacesShift(s: string, d: nat, i: nat, j: nat)
    requires d <= |s| && i <= j <= |s| - d
    ensures (forall k :: i <= k < j ==> IsSpace(s[d..][k])) <==> (forall k :: i + d <= k < j + d ==> IsSpace(s[k]))
  {
    assert forall k :: i <= k < j ==> s[d..][k] == s[k + d];
    assert forall k :: i + d <= k < j + d ==> s[k] == s[d..][k - d];
  }

  lemma DigitsShift(s: string, d: nat, i: nat, j: nat)
    requires d <= |s| && i <= j <= |s| - d
    ensures (forall k :: i <= k < j ==> IsDigit(s[d..][k])) <==> (forall k :: i + d <= k < j + d ==> IsDigit(s[k]))
  {
    assert forall k :: i <= k < j ==> s[d..][k] == s[k + d];
    assert forall k :: i + d <= k < j + d ==> s[k] == s[d..][k - d];
  }

  /** The matches after position `d` of the text, seen from the whole text. */
  lemma NoTokenShift(s: string, d: nat, lo: nat, hi: nat)
    requires d <= |s| && NoTokenIn(s[d..], lo, hi)
    ensures NoTokenIn(s, lo + d, hi + d)
  {
    forall q: nat, t: Token | lo + d <= q < hi + d
      ensures !IsToken(s, q, false, t)
    {
      if IsToken(s, q, false, t) {
        var t0 := Token(t.reading, t.unitAt - d, t.valueAt - d, t.end - d);
        assert ShiftToken(t0, d) == t;
        IsTokenShift(s, d, q - d, t0);
      }
    }
  }

  /** `rs` are the readings of the matches `ts`, starting at `ps`, that a
      left-to-right scan for non-overlapping matches finds in `s` from
      `from` on: each starts where the previous one ended or later, none
      starts between the end of the previous one (or `from`) and its own
      start, and none starts after the last one. */
  ghost predicate Scan(s: string, from: nat, rs: seq<Reading>, ps: seq<nat>, ts: seq<Token>) {
    && |ps| == |ts| == |rs|
    && ScanTokens(s, rs, ps, ts)
    && ScanGaps(s, from, ps, ts)
    && NoTokenIn(s, if ts == [] then from else ts[|ts| - 1].end, |s|)
  }

  ghost predicate ScanTokens(s: string, rs: seq<Reading>, ps: seq<nat>, ts: seq<Token>)
    requires |ps| == |ts| == |rs|
  {
    forall k :: 0 <= k < |ts| ==> IsToken(s, ps[k], false, ts[k]) && ts[k].reading == rs[k]
  }

  ghost predicate ScanGaps(s: string, from: nat, ps: seq<nat>, ts: seq<Token>)
    requires |ps| == |ts|
  {
    && (|ts| > 0 ==> from <= ps[0] && NoTokenIn(s, from, ps[0]))
    && (forall k :: 0 < k < |ts| ==> ts[k - 1].end <= ps[k] && NoTokenIn(s, ts[k - 1].end, ps[k]))
  }

  /** What `re.findall` promises, for any text: every reading comes from a
      match of the pattern, the matches do not overlap and go left to right,
      and each is the leftmost match that starts after the previous one ends,
      so no match is skipped. */
  lemma {:induction false} FindAllTokens(s: string) returns (ps: seq<nat>, ts: seq<Token>)
    decreases |s|
    ensures Scan(s, 0, FindAll(s), ps, ts)
  {
    if s == [] {
      ps, ts := [], [];
      return;
    }
    match MatchAt(s, 0, false)
    case Some(t) =>
      var ps', ts' := FindAllTokens(s[t.end..]);
      ps, ts := ScanAfterMatch(s, t, ps', ts');
    case None =>
      var ps', ts' := FindAllTokens(s[1..]);
      ps, ts := ScanAfterSkip(s, ps', ts');
  }

  /** A match at the start, then the scan of the rest of the text. */
  lemma ScanAfterMatch(s: string, t: Token, ps': seq<nat>, ts': seq<Token>) returns (ps: seq<nat>, ts: seq<Token>)
    requires |s| > 0 && MatchAt(s, 0, false) == Some(t)
    requires Scan(s[t.end..], 0, FindAll(s[t.end..]), ps', ts')
    ensures Scan(s, 0, FindAll(s), ps, ts)
  {
    FindAllMatched(s, t);
    ps, ts := ScanShift(s, t.end, FindAll(s[t.end..]), ps', ts');
    MatchAtSound(s, 0, false);
    ScanMatched(s, t, FindAll(s[t.end..]), ps, ts);
    ps, ts := [0] + ps, [t] + ts;
  }

  /** No match at the start, then the scan of the text after its first character. */
  lemma ScanAfterSkip(s: string, ps': seq<nat>, ts': seq<Token>) returns (ps: seq<nat>, ts: seq<Token>)
    requires |s| > 0 && MatchAt(s, 0, false).None?
    requires Scan(s[1..], 0, FindAll(s[1..]), ps', ts')
    ensures Scan(s, 0, FindAll(s), ps, ts)
  {
    assert FindAll(s) == FindAll(s[1..]);
    ps, ts := ScanShift(s, 1, FindAll(s[1..]), ps', ts');
    assert NoTokenIn(s, 0, 1) by {
      forall t: Token | IsToken(s, 0, false, t) ensures false {
        MatchAtComplete(s, 0, false, t);
      }
    }
  }

  /** A scan of the text after `d`, seen from the whole text. */
  lemma ScanShift(s: string, d: nat, rs: seq<Reading>, ps': seq<nat>, ts': seq<Token>) returns (ps: seq<nat>, ts: seq<Token>)
    requires d <= |s| && Scan(s[d..], 0, rs, ps', ts')
    ensures Scan(s, d, rs, ps, ts)
  {
    ps, ts := ShiftAll(d, ps', ts');
    ScanTokensShift(s, d, rs, ps', ts', ps, ts);
    ScanGapsShift(s, d, ps', ts', ps, ts);
    var last' := if ts' == [] then 0 else ts'[|ts'| - 1].end;
    NoTokenShift(s, d, last', |s| - d);
    if ts != [] {
      assert ts[|ts| - 1] == ShiftToken(ts'[|ts'| - 1], d);
    }
  }

  /** Shifted positions and tokens of a scan of the text after `d`. */
  ghost predicate Shifted(d: nat, ps': seq<nat>, ts': seq<Token>, ps: seq<nat>, ts: seq<Token>) {
    && |ps| == |ps'| == |ts| == |ts'|
    && forall k :: 0 <= k < |ps| ==> ps[k] == ps'[k] + d && ts[k] == ShiftToken(ts'[k], d)
  }

  lemma ShiftAll(d: nat, ps': seq<nat>, ts': seq<Token>) returns (ps: seq<nat>, ts: seq<Token>)
    requires |ps'| == |ts'|
    ensures Shifted(d, ps', ts', ps, ts)
  {
    ps := seq(|ps'|, k requires 0 <= k < |ps'| => ps'[k] + d);
    ts := seq(|ts'|, k requires 0 <= k < |ts'| => ShiftToken(ts'[k], d));
  }

  lemma ScanTokensShift(s: string, d: nat, rs: seq<Reading>, ps': seq<nat>, ts': seq<Token>, ps: seq<nat>, ts: seq<Token>)
    requires d <= |s| && |rs| == |ps'| == |ts'| && ScanTokens(s[d..], rs, ps', ts')
    requires Shifted(d, ps', ts', ps, ts)
    ensures ScanTokens(s, rs, ps, ts)
  {
    forall k | 0 <= k < |ts|
      ensures IsToken(s, ps[k], false, ts[k]) && ts[k].reading == rs[k]
    {
      IsTokenShift(s, d, ps'[k], ts'[k]);
    }
  }

  lemma ScanGapsShift(s: string, d: nat, ps': seq<nat>, ts': seq<Token>, ps: seq<nat>, ts: seq<Token>)
    requires d <= |s| && |ps'| == |ts'| && ScanGaps(s[d..], 0, ps', ts')
    requires Shifted(d, ps', ts', ps, ts)
    ensures ScanGaps(s, d, ps, ts)
  {
    forall k | 0 <= k < |ts|
      ensures NoTokenIn(s, if k == 0 then d else ts[k - 1].end, ps[k])
    {
      NoTokenShift(s, d, if k == 0 then 0 else ts'[k - 1].end, ps'[k]);
    }
  }

  /** A match at the start followed by a scan from its end is a scan from the start. */
  lemma ScanMatched(s: string, t: Token, rs: seq<Reading>, ps: seq<nat>, ts: seq<Token>)
    requires IsToken(s, 0, false, t) && Scan(s, t.end, rs, ps, ts)
    ensures Scan(s, 0, [t.reading] + rs, [0] + ps, [t] + ts)
  {
    ScanTokensMatched(s, t, rs, ps, ts);
    ScanGapsMatched(s, t, ps, ts);
    var last := if ts == [] then t.end else ts[|ts| - 1].end;
    assert last == ([t] + ts)[|ts|].end;
  }

  lemma ScanTokensMatched(s: string, t: Token, rs: seq<Reading>, ps: seq<nat>, ts: seq<Token>)
    requires |ps| == |ts| == |rs|
    requires IsToken(s, 0, false, t) && ScanTokens(s, rs, ps, ts)
    ensures ScanTokens(s, [t.reading] + rs, [0] + ps, [t] + ts)
  {
    var rs1, ps1, ts1 := [t.reading] + rs, [0] + ps, [t] + ts;
    forall k | 0 < k < |ts1|
      ensures IsToken(s, ps1[k], false, ts1[k]) && ts1[k].reading == rs1[k]
    {
      assert ps1[k] == ps[k - 1] && ts1[k] == ts[k - 1] && rs1[k] == rs[k - 1];
    }
  }

  lemma ScanGapsMatched(s: string, t: Token, ps: seq<nat>, ts: seq<Token>)
    requires |ps| == |ts|
    requires ScanGaps(s, t.end, ps, ts)
    ensures ScanGaps(s, 0, [0] + ps, [t] + ts)
  {
    var ps1, ts1 := [0] + ps, [t] + ts;
    forall k | 0 < k < |ts1|
      ensures ts1[k - 1].end <= ps1[k] && NoTokenIn(s, ts1[k - 1].end, ps1[k])
    {
      assert ps1[k] == ps[k - 1];
      if k > 1 {
        assert ts1[k - 1] == ts[k - 2];
      }
    }
  }

  /** A match at the start of the text is its first reading, and the scan
      goes on where the match ends. */
  lemma FindAllMatched(s: string, t: Token)
    requires |s| > 0 && MatchAt(s, 0, false) == Some(t)
    ensures FindAll(s) == [t.reading] + FindAll(s[t.end..])
  {
  }

  /** An encoded reading embedded in a line is matched where it starts, as
      itself, and the match ends right after it. */
  lemma EncodedMatch(r: Reading, before: string, rest: string, spaceRequired: bool)
    requires r.id < 10
    requires rest == [] || !IsDigit(rest[0])
    ensures var s, p := before + Encode(r) + rest, |before|;
            && MatchAt(s, p, spaceRequired) == Some(Token(r, p + 2, p + 8, p + |Encode(r)|))
            && s[p + 1] == DigitChar(r.id) && s[p + 8..p + |Encode(r)|] == NatToString(r.value)
  {
    var t := EncodedToken(r, before, rest, spaceRequired);
    MatchAtComplete(before + Encode(r) + rest, |before|, spaceRequired, t);
  }

  /** Where the parts of an encoded reading lie, once it is embedded in a line. */
  lemma EncodedToken(r: Reading, before: string, rest: string, spaceRequired: bool) returns (t: Token)
    requires r.id < 10
    requires rest == [] || !IsDigit(rest[0])
    ensures var s, p := before + Encode(r) + rest, |before|;
            && t == Token(r, p + 2, p + 8, p + |Encode(r)|) && IsToken(s, p, spaceRequired, t)
            && s[p + 1] == DigitChar(r.id) && s[p + 8..p + |Encode(r)|] == NatToString(r.value)
  {
    var e := Encode(r);
    var s := before + e + rest;
    var p := |before|;
    var digits := NatToString(r.value);
    t := Token(r, p + 2, p + 8, p + |e|);
    assert |e| == 8 + |digits|;
    assert s[p..p + |e|] == e;
    assert s[p] == 'D' && s[p + 1] == DigitChar(r.id) && UnitAt(s, p + 2) && s[p + 7] == ' ' by {
      assert s[p..p + 8] == e[..8];
    }
    assert s[p + 8..p + |e|] == digits by {
      assert s[p + 8..p + |e|] == e[8..];
    }
    assert p + |e| == |s| || s[p + |e|] == rest[0];
    DigitsValueOfNatToString(r.value);
  }

  /** Readings printed one after another, each followed by a separator. */
  function Render(rs: seq<Reading>, sep: string): string
    requires forall k :: 0 <= k < |rs| ==> rs[k].id < 10
  {
    if rs == [] then [] else Encode(rs[0]) + sep + Render(rs[1..], sep)
  }

  /** findall gives back exactly the readings of a rendered line, in order,
      whatever noise separates them (as long as the noise has no `D` and does
      not start with a digit, which would extend the value before it). */
  lemma {:induction false} FindAllRender(rs: seq<Reading>, sep: string)
    requires forall k :: 0 <= k < |rs| ==> rs[k].id < 10
    requires 'D' !in sep && |sep| > 0 && !IsDigit(sep[0])
    ensures FindAll(Render(rs, sep)) == rs
  {
    if rs != [] {
      var tail := Render(rs[1..], sep);
      assert Encode(rs[0]) + sep + tail == Encode(rs[0]) + (sep + tail);
      FindAllEncoded(rs[0], sep + tail);
      FindAllSkipsNoise(sep, tail);
      FindAllRender(rs[1..], sep);
    }
  }

  /** What `pattern.match(line)` of live.py captures: the group texts of the
      channel digit and of the value. The optional leading timestamp group is
      matched but never used. */
  datatype LiveHit = LiveHit(idText: string, valueText: string)

  /** The value of an anchored live.py match, with `int` applied to its groups. */
  function LiveReading(h: LiveHit): Reading
    requires |h.idText| == 1 && AllDigits(h.idText) && |h.valueText| > 0 && AllDigits(h.valueText)
  {
    Reading(DigitValue(h.idText[0]), DigitsValue(h.valueText))
  }

  /** Where `D` must be for an anchored live.py match: right after the
      optional leading digits and the white space that follows them. */
  function LiveStart(s: string): (p: nat)
    ensures p <= |s|
    ensures p > 0 ==> IsDigit(s[0])
  {
    if |s| > 0 && IsDigit(s[0]) then SpacesEnd(s, DigitsEnd(s, 0)) else 0
  }

  /** `(?:(\d+)\s*)?D(\d)\s*\(mm\):\s+(\d+)` matched at the start of `s`. */
  function LiveMatch(s: string): (r: Option<LiveHit>)
    ensures r.Some? ==> |r.value.idText| == 1 && AllDigits(r.value.idText)
    ensures r.Some? ==> |r.value.valueText| > 0 && AllDigits(r.value.valueText)
  {
    var p := LiveStart(s);
    MatchAtSound(s, p, true);
    match MatchAt(s, p, true)
    case Some(t) =>
      assert s[t.valueAt..t.end][..] == s[t.valueAt..t.end];
      Some(LiveHit([s[p + 1]], s[t.valueAt..t.end]))
    case None => None
  }

  /** A live match is a match of the findall pattern with white space after
      the colon, at the position after the optional timestamp, and it reads
      the same channel and value. */
  lemma LiveMatchSound(s: string)
    requires LiveMatch(s).Some?
    ensures exists t: Token ::
              IsToken(s, LiveStart(s), true, t) && LiveReading(LiveMatch(s).value) == t.reading
  {
    MatchAtSound(s, LiveStart(s), true);
    var t := MatchAt(s, LiveStart(s), true).value;
    assert IsToken(s, LiveStart(s), true, t);
  }

  /** Conversely, every such match is found. */
  lemma LiveMatchComplete(s: string, t: Token)
    requires IsToken(s, LiveStart(s), true, t)
    ensures LiveMatch(s).Some? && LiveReading(LiveMatch(s).value) == t.reading
  {
    MatchAtComplete(s, LiveStart(s), true, t);
  }

  /** A line that starts with neither a digit nor `D` is not matched. */
  lemma LiveMatchNeedsD(s: string)
    requires |s| > 0 && !IsDigit(s[0]) && s[0] != 'D'
    ensures LiveMatch(s) == None
  {
  }

  /** The anchored pattern needs at least one white-space character after the colon. */
  lemma LiveMatchNeedsSpace(id: nat, digits: string, rest: string)
    requires id < 10 && |digits| > 0 && AllDigits(digits)
    ensures LiveMatch(['D', DigitChar(id), '(', 'm', 'm', ')', ':'] + digits + rest) == None
  {
    var s := ['D', DigitChar(id), '(', 'm', 'm', ')', ':'] + digits + rest;
    assert s[0] == 'D' && s[1] == DigitChar(id) && s[2] == '(';
    SpacesEndUnique(s, 2, 2);
    assert s[7] == digits[0];
    SpacesEndUnique(s, 7, 7);
  }

  /** A reading preceded by a timestamp and white space is matched, with the
      same channel and value as its findall reading. */
  lemma LiveMatchAfterTimestamp(ts: string, r: Reading, rest: string)
    requires |ts| > 0 && AllDigits(ts)
    requires r.id < 10
    requires rest == [] || !IsDigit(rest[0])
    ensures LiveMatch(ts + " " + Encode(r) + rest) ==
            Some(LiveHit([DigitChar(r.id)], NatToString(r.value)))
  {
    var e := Encode(r);
    var s := ts + " " + e + rest;
    assert LiveStart(s) == |ts| + 1 by {
      SkipTimestamp(ts, e + rest);
      assert s == ts + " " + (e + rest);
    }
    EncodedMatch(r, ts + " ", rest, true);
  }

  /** A leading timestamp and one space are skipped up to the `D` after them. */
  lemma SkipTimestamp(ts: string, tail: string)
    requires |ts| > 0 && AllDigits(ts)
    requires |tail| > 0 && tail[0] == 'D'
    ensures LiveStart(ts + " " + tail) == |ts| + 1
  {
    var s := ts + " " + tail;
    assert forall k :: 0 <= k < |ts| ==> s[k] == ts[k];
    assert s[|ts|] == ' ' && s[|ts| + 1] == 'D';
    DigitsEndUnique(s, 0, |ts|);
    SpacesEndUnique(s, |ts|, |ts| + 1);
  }
}
