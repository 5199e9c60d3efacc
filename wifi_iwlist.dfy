/**
 * The wireless-tools fallback: `iwlist <interface> scanning` to scan, read
 * line by line with three regular expressions, and `iwconfig` to join open
 * or WEP networks only.
 */
module Iwlist {
  import opened Types
  import opened Text
  import opened Shell
  import opened Wifi

  const IwlistName := "iwlist"
  const IwlistScanTimeout: nat := 20
  const IwconfigTimeout: nat := 15
  const IwconfigFailed := "iwconfig failed"
  const SecureUnsupported := "Secure connection unsupported with iwconfig; try another backend"
  const EssidTag := "ESSID:"
  const QualityTag := "Quality="
  const EncOn := "Encryption key:on"
  const EncOff := "Encryption key:off"

  function IwlistScanCmd(iface: string): seq<string>
  {
    ["iwlist", iface, "scanning"]
  }

  // ---------------------------------------------------------------------
  // The three searches
  // ---------------------------------------------------------------------

  /**
   * What `"?(.*?)"?$` captures from the text after "ESSID:": an optional
   * opening quote is taken, and the lazy group leaves out one closing quote
   * at the end when there is one.
   */
  function EssidGroup(rest: string): (id: string)
    ensures rest == id || rest == "\"" + id || rest == id + "\"" || rest == "\"" + id + "\""
  {
    var r := if rest != [] && rest[0] == '"' then rest[1..] else rest;
    assert rest == r || rest == "\"" + r;
    if r != [] && r[|r| - 1] == '"' then
      assert r == r[..|r| - 1] + "\"";
      r[..|r| - 1]
    else r
  }

  /** `_essid_re.search(s)`: the capture at the leftmost "ESSID:", if there is one. */
  function EssidSearch(s: string): (m: Option<string>)
    ensures m.Some? <==> Contains(s, EssidTag)
    decreases |s|
  {
    if StartsWith(s, EssidTag) then Some(EssidGroup(s[|EssidTag|..]))
    else if s == [] then None
    else EssidSearch(s[1..])
  }

  /** The longest run of ASCII digits at the start of `s`. */
  function DigitRun(s: string): (d: string)
    ensures |d| <= |s| && d == s[..|d|]
    ensures forall i :: 0 <= i < |d| ==> IsDigit(d[i])
    ensures |d| < |s| ==> !IsDigit(s[|d|])
  {
    if s != [] && IsDigit(s[0]) then [s[0]] + DigitRun(s[1..]) else []
  }

  /**
   * `Quality=(\d+)/` matches at the start of `s`: the digit run after the
   * tag is not empty and a '/' follows it (fewer digits would leave a digit,
   * not a '/', to follow).
   */
  predicate QualityAt(s: string)
  {
    StartsWith(s, QualityTag)
    && var d := DigitRun(s[|QualityTag|..]);
    d != [] && |QualityTag| + |d| < |s| && s[|QualityTag| + |d|] == '/'
  }

  /** `_quality_re.search(s)`: the digits of the leftmost match, if there is one. */
  function QualitySearch(s: string): (m: Option<string>)
    ensures m.Some? ==> IsDigits(m.value)
    decreases |s|
  {
    if QualityAt(s) then Some(DigitRun(s[|QualityTag|..]))
    else if s == [] then None
    else QualitySearch(s[1..])
  }

  /** `_enc_re.search(s)`: whether the leftmost "Encryption key:on|off" says "on", if there is one. */
  function EncSearch(s: string): (m: Option<bool>)
    ensures m.Some? ==> Contains(s, if m.value then EncOn else EncOff)
    decreases |s|
  {
    if StartsWith(s, EncOn) then Some(true)
    else if StartsWith(s, EncOff) then Some(false)
    else if s == [] then None
    else EncSearch(s[1..])
  }

  /** A line without an 'S' holds no "ESSID:". */
  lemma {:induction false} EssidAbsent(s: string)
    requires Avoids(s, {'S'})
    ensures EssidSearch(s).None?
    decreases |s|
  {
    if |s| >= |EssidTag| {
      assert s[..|EssidTag|][1] == s[1] != EssidTag[1];
    }
    if s != [] {
      EssidAbsent(s[1..]);
    }
  }

  /** A line without a 'Q' holds no "Quality=". */
  lemma {:induction false} QualityAbsent(s: string)
    requires Avoids(s, {'Q'})
    ensures QualitySearch(s).None?
    decreases |s|
  {
    if s != [] && |s| >= |QualityTag| {
      assert s[..|QualityTag|][0] == s[0] != QualityTag[0];
    }
    if s != [] {
      QualityAbsent(s[1..]);
    }
  }

  /** A line without an 'E' holds no "Encryption key:". */
  lemma {:induction false} EncAbsent(s: string)
    requires Avoids(s, {'E'})
    ensures EncSearch(s).None?
    decreases |s|
  {
    if |s| >= |EncOn| {
      assert s[..|EncOn|][0] == s[0] != EncOn[0];
    }
    if |s| >= |EncOff| {
      assert s[..|EncOff|][0] == s[0] != EncOff[0];
    }
    if s != [] {
      EncAbsent(s[1..]);
    }
  }

  // ---------------------------------------------------------------------
  // Scanning
  // ---------------------------------------------------------------------

  /**
   * The loop's variables: the networks so far, the name of the cell being
   * read (`""` stands for `None`: both are false in the `if essid:` tests),
   * its quality and its encryption list.
   */
  datatype ScanState = ScanState(nets: seq<Network>, essid: string, quality: Option<int>, enc: seq<string>)

  const Start := ScanState([], [], None, [])

  /** The network of the cell being read, with `enc or ["open"]`. */
  function Pending(st: ScanState): (n: Network)
    ensures n.ssid == st.essid && n.bssid.None? && n.signal == st.quality && n.security != []
  {
    Network(st.essid, None, st.quality, if st.enc == [] then ["open"] else st.enc)
  }

  /** The networks so far, and the cell being read when it has a name. */
  function Flush(st: ScanState): (nets: seq<Network>)
    ensures nets == st.nets || nets == st.nets + [Pending(st)]
    ensures |nets| == |st.nets| + (if st.essid != [] then 1 else 0)
  {
    if st.essid != [] then st.nets + [Pending(st)] else st.nets
  }

  /**
   * One line: an ESSID line (matched on the stripped line) closes the cell
   * before it and opens a new one; any other line may set the quality and
   * the encryption of the open cell.
   */
  function IwlistStep(st: ScanState, line: string): ScanState
  {
    var id := EssidSearch(Trim(line));
    if id.Some? then ScanState(Flush(st), id.value, None, [])
    else
      var q := QualitySearch(line);
      var e := EncSearch(line);
      ScanState(st.nets, st.essid,
                if q.Some? then Some(DecimalValue(q.value) as int) else st.quality,
                if e.Some? then (if e.value then ["wep"] else ["open"]) else st.enc)
  }

  /** The loop over the lines from state `st`. */
  function IwlistRun(st: ScanState, lines: seq<string>): ScanState
    decreases |lines|
  {
    if lines == [] then st else IwlistRun(IwlistStep(st, lines[0]), lines[1..])
  }

  /** The networks of an `iwlist scanning` result; none when it failed. */
  function IwlistScanOf(res: CommandResult): seq<Network>
  {
    if res.returncode != 0 then [] else Flush(IwlistRun(Start, SplitLines(res.stdout)))
  }

  /** `IwlistBackend.scan`: one command. */
  function IwlistScanStep(env: Env, w: seq<Event>, iface: string): Step<seq<Network>>
  {
    var cmd := IwlistScanCmd(iface);
    Step(IwlistScanOf(Answer(env, w, cmd, IwlistScanTimeout)), [Exec(cmd, IwlistScanTimeout)])
  }

  /** The parsing loop of `IwlistBackend.scan`. */
  method ParseIwlist(stdout: string) returns (networks: seq<Network>)
    ensures networks == Flush(IwlistRun(Start, SplitLines(stdout)))
  {
    var lines := SplitLines(stdout);
    networks := [];
    var essid: string := [];
    var quality: Option<int> := None;
    var enc: seq<string> := [];
    var i := 0;
    while i < |lines|
      invariant 0 <= i <= |lines|
      invariant IwlistRun(ScanState(networks, essid, quality, enc), lines[i..]) == IwlistRun(Start, lines)
    {
      var line := lines[i];
      assert lines[i..][1..] == lines[i + 1..];
      var m := EssidSearch(Trim(line));
      if m.Some? {
        if essid != [] {
          networks := networks + [Network(essid, None, quality, if enc == [] then ["open"] else enc)];
        }
        essid := m.value;
        quality := None;
        enc := [];
        i := i + 1;
        continue;
      }
      var q := QualitySearch(line);
      if q.Some? {
        quality := Some(DecimalValue(q.value) as int);
      }
      var e := EncSearch(line);
      if e.Some? {
        enc := if e.value then ["wep"] else ["open"];
      }
      i := i + 1;
    }
    if essid != [] {
      networks := networks + [Network(essid, None, quality, if enc == [] then ["open"] else enc)];
    }
  }

  method IwlistScan(h: Host, iface: string) returns (nets: seq<Network>)
    modifies h
    ensures var s := IwlistScanStep(h.env, old(h.trace), iface); nets == s.value && h.trace == old(h.trace) + s.trace
  {
    var res := h.Run(IwlistScanCmd(iface), IwlistScanTimeout);
    if res.returncode != 0 {
      return [];
    }
    nets := ParseIwlist(res.stdout);
  }

  /** The networks this backend reports: named, without BSSID, open or WEP, never a negative quality. */
  predicate Shaped(n: Network)
  {
    n.ssid != [] && n.bssid.None? && (n.signal.Some? ==> n.signal.value >= 0)
    && (n.security == ["open"] || n.security == ["wep"])
  }

  predicate StateOk(st: ScanState)
  {
    (forall k :: 0 <= k < |st.nets| ==> Shaped(st.nets[k]))
    && (st.quality.Some? ==> st.quality.value >= 0)
    && (st.enc == [] || st.enc == ["open"] || st.enc == ["wep"])
  }

  lemma FlushShaped(st: ScanState)
    requires StateOk(st)
    ensures forall k :: 0 <= k < |Flush(st)| ==> Shaped(Flush(st)[k])
  {
  }

  lemma {:induction false} RunOk(st: ScanState, lines: seq<string>)
    requires StateOk(st)
    ensures StateOk(IwlistRun(st, lines))
    decreases |lines|
  {
    if lines != [] {
      FlushShaped(st);
      RunOk(IwlistStep(st, lines[0]), lines[1..]);
    }
  }

  /** Every network a scan reports has the shape the parser can produce. */
  lemma IwlistScanShaped(res: CommandResult)
    ensures forall k :: 0 <= k < |IwlistScanOf(res)| ==> Shaped(IwlistScanOf(res)[k])
  {
    if res.returncode == 0 {
      RunOk(Start, SplitLines(res.stdout));
      FlushShaped(IwlistRun(Start, SplitLines(res.stdout)));
    }
  }

  // ---------------------------------------------------------------------
  // A scan listing, and reading it back
  // ---------------------------------------------------------------------

  /** A network a cell of the listing can describe. */
  predicate IwlistListable(n: Network)
  {
    Shaped(n) && Avoids(n.ssid, LineBreaks)
  }

  /** The indentation in front of the lines of a cell: blanks that do not break the line. */
  predicate Indent(pad: string)
  {
    Within(pad, Whitespace) && Avoids(pad, LineBreaks)
  }

  function EssidText(ssid: string): string
  {
    EssidTag + "\"" + ssid + "\""
  }

  function QualityText(v: nat): string
  {
    QualityTag + NatToString(v) + "/70"
  }

  function EncText(on: bool): string
  {
    if on then EncOn else EncOff
  }

  /** The lines of one cell, indented: its name, its quality when it has one, its encryption. */
  function Cell(pad: string, n: Network): seq<string>
  {
    [pad + EssidText(n.ssid)]
    + (if n.signal.Some? && n.signal.value >= 0 then [pad + QualityText(n.signal.value)] else [])
    + [pad + EncText(n.security == ["wep"])]
  }

  /** The cells of a listing, in order. */
  function Listing(pad: string, nets: seq<Network>): seq<string>
  {
    if nets == [] then [] else Cell(pad, nets[0]) + Listing(pad, nets[1..])
  }

  lemma IndentLetters(pad: string)
    requires Indent(pad)
    ensures Avoids(pad, {'S'}) && Avoids(pad, {'Q'}) && Avoids(pad, {'E'})
  {
    assert 'S' !in Whitespace && 'Q' !in Whitespace && 'E' !in Whitespace;
  }

  /** Stripping an indented line removes exactly the indentation when the text has no blank at either end. */
  lemma IndentTrim(pad: string, text: string)
    requires Indent(pad) && text != [] && text[0] !in Whitespace && text[|text| - 1] !in Whitespace
    ensures Trim(pad + text) == text
  {
    LStripPrefix(pad, text, Whitespace);
    StripUntouched(text, Whitespace);
  }

  /** Characters other than 'Q' in front of a line do not change where "Quality=" matches. */
  lemma {:induction false} QualitySkip(p: string, s: string)
    requires Avoids(p, {'Q'})
    ensures QualitySearch(p + s) == QualitySearch(s)
    decreases |p|
  {
    if p == [] {
      assert p + s == s;
    } else {
      var u := p + s;
      if |u| >= |QualityTag| {
        assert u[..|QualityTag|][0] == u[0] == p[0] != QualityTag[0];
      }
      assert u[1..] == p[1..] + s;
      QualitySkip(p[1..], s);
    }
  }

  /** Characters other than 'E' in front of a line do not change where "Encryption key:" matches. */
  lemma {:induction false} EncSkip(p: string, s: string)
    requires Avoids(p, {'E'})
    ensures EncSearch(p + s) == EncSearch(s)
    decreases |p|
  {
    if p == [] {
      assert p + s == s;
    } else {
      var u := p + s;
      if |u| >= |EncOn| {
        assert u[..|EncOn|][0] == u[0] == p[0] != EncOn[0];
      }
      if |u| >= |EncOff| {
        assert u[..|EncOff|][0] == u[0] == p[0] != EncOff[0];
      }
      assert u[1..] == p[1..] + s;
      EncSkip(p[1..], s);
    }
  }

  /** A quoted name is captured without its quotes. */
  lemma EssidGroupQuoted(ssid: string)
    ensures EssidGroup("\"" + ssid + "\"") == ssid
  {
    var r := "\"" + ssid + "\"";
    assert r[1..] == ssid + "\"";
    assert (ssid + "\"")[..|ssid|] == ssid;
  }

  /** Text that starts with "ESSID:" is captured from just after it. */
  lemma EssidSearchTagged(rest: string)
    ensures EssidSearch(EssidTag + rest) == Some(EssidGroup(rest))
  {
    var s := EssidTag + rest;
    assert s[..|EssidTag|] == EssidTag;
    assert s[|EssidTag|..] == rest;
  }

  /** An ESSID line closes the open cell and opens one named by the text between its quotes. */
  lemma EssidStep(st: ScanState, pad: string, ssid: string)
    requires Indent(pad)
    ensures IwlistStep(st, pad + EssidText(ssid)) == ScanState(Flush(st), ssid, None, [])
  {
    var s := EssidText(ssid);
    assert s[0] == 'E' && s[|s| - 1] == '"';
    IndentTrim(pad, s);
    assert s == EssidTag + ("\"" + ssid + "\"");
    EssidSearchTagged("\"" + ssid + "\"");
    EssidGroupQuoted(ssid);
  }

  lemma QualityTextNoEssid(v: nat)
    ensures EssidSearch(QualityText(v)).None?
  {
    var d := NatToString(v);
    assert Avoids(QualityTag, {'S'}) && Avoids(d, {'S'}) && Avoids("/70", {'S'});
    AvoidsAppend(QualityTag, d, {'S'});
    AvoidsAppend(QualityTag + d, "/70", {'S'});
    EssidAbsent(QualityText(v));
  }

  lemma QualityTextNoEnc(v: nat)
    ensures EncSearch(QualityText(v)).None?
  {
    var d := NatToString(v);
    assert Avoids(QualityTag, {'E'}) && Avoids(d, {'E'}) && Avoids("/70", {'E'});
    AvoidsAppend(QualityTag, d, {'E'});
    AvoidsAppend(QualityTag + d, "/70", {'E'});
    EncAbsent(QualityText(v));
  }

  /** The digit run of digits followed by a non-digit is those digits. */
  lemma {:induction false} DigitRunOfNumber(d: string, t: string)
    requires (forall i :: 0 <= i < |d| ==> IsDigit(d[i])) && t != [] && !IsDigit(t[0])
    ensures DigitRun(d + t) == d
    decreases |d|
  {
    if d == [] {
      assert d + t == t;
    } else {
      assert (d + t)[0] == d[0];
      assert (d + t)[1..] == d[1..] + t;
      DigitRunOfNumber(d[1..], t);
      assert [d[0]] + d[1..] == d;
    }
  }

  lemma QualityTextMatch(v: nat)
    ensures QualitySearch(QualityText(v)) == Some(NatToString(v))
  {
    var s := QualityText(v);
    var d := NatToString(v);
    assert s[..|QualityTag|] == QualityTag;
    var t := s[|QualityTag|..];
    assert t == d + "/70";
    DigitRunOfNumber(d, "/70");
    assert s[|QualityTag| + |d|] == '/';
    assert QualityAt(s);
  }

  /** A quality line sets the quality of the open cell. */
  lemma QualityStep(st: ScanState, pad: string, v: nat)
    requires Indent(pad)
    ensures IwlistStep(st, pad + QualityText(v)) == st.(quality := Some(v))
  {
    var s := QualityText(v);
    assert s[0] == 'Q' && s[|s| - 1] == '0';
    IndentTrim(pad, s);
    IndentLetters(pad);
    QualityTextNoEssid(v);
    QualitySkip(pad, s);
    QualityTextMatch(v);
    EncSkip(pad, s);
    QualityTextNoEnc(v);
    DecimalOfNatToString(v);
  }

  lemma EncTextNoEssid(on: bool)
    ensures EssidSearch(EncText(on)).None?
  {
    assert Avoids(EncText(on), {'S'});
    EssidAbsent(EncText(on));
  }

  lemma EncTextNoQuality(on: bool)
    ensures QualitySearch(EncText(on)).None?
  {
    assert Avoids(EncText(on), {'Q'});
    QualityAbsent(EncText(on));
  }

  lemma EncTextMatch(on: bool)
    ensures EncSearch(EncText(on)) == Some(on)
  {
    if on {
      assert EncOn[..|EncOn|] == EncOn;
      assert StartsWith(EncOn, EncOn);
    } else {
      assert EncOff[..|EncOn|][16] != EncOn[16];
      assert !StartsWith(EncOff, EncOn);
      assert EncOff[..|EncOff|] == EncOff;
      assert StartsWith(EncOff, EncOff);
    }
  }

  /** An encryption line sets the encryption of the open cell. */
  lemma EncStep(st: ScanState, pad: string, on: bool)
    requires Indent(pad)
    ensures IwlistStep(st, pad + EncText(on)) == st.(enc := if on then ["wep"] else ["open"])
  {
    var s := EncText(on);
    assert s[0] == 'E' && s[|s| - 1] in {'n', 'f'};
    IndentTrim(pad, s);
    IndentLetters(pad);
    EncTextNoEssid(on);
    QualitySkip(pad, s);
    EncTextNoQuality(on);
    EncSkip(pad, s);
    EncTextMatch(on);
  }

  lemma {:induction false} RunAppend(st: ScanState, a: seq<string>, b: seq<string>)
    ensures IwlistRun(st, a + b) == IwlistRun(IwlistRun(st, a), b)
    decreases |a|
  {
    if a == [] {
      assert a + b == b;
    } else {
      assert (a + b)[1..] == a[1..] + b;
      RunAppend(IwlistStep(st, a[0]), a[1..], b);
    }
  }

  /** The run over a line and then more lines is the step for the line, then the run over the rest. */
  lemma RunCons(st: ScanState, line: string, rest: seq<string>)
    ensures IwlistRun(st, [line] + rest) == IwlistRun(IwlistStep(st, line), rest)
  {
    assert ([line] + rest)[1..] == rest;
  }

  lemma EssidRun(st: ScanState, pad: string, ssid: string, rest: seq<string>)
    requires Indent(pad)
    ensures IwlistRun(st, [pad + EssidText(ssid)] + rest) == IwlistRun(ScanState(Flush(st), ssid, None, []), rest)
  {
    RunCons(st, pad + EssidText(ssid), rest);
    EssidStep(st, pad, ssid);
  }

  lemma QualityRun(st: ScanState, pad: string, v: nat, rest: seq<string>)
    requires Indent(pad)
    ensures IwlistRun(st, [pad + QualityText(v)] + rest) == IwlistRun(st.(quality := Some(v)), rest)
  {
    RunCons(st, pad + QualityText(v), rest);
    QualityStep(st, pad, v);
  }

  lemma EncRun(st: ScanState, pad: string, on: bool)
    requires Indent(pad)
    ensures IwlistRun(st, [pad + EncText(on)]) == st.(enc := if on then ["wep"] else ["open"])
  {
    RunCons(st, pad + EncText(on), []);
    assert [pad + EncText(on)] + [] == [pad + EncText(on)];
    EncStep(st, pad, on);
  }

  /** Reading a cell opens a cell carrying exactly the network's name, quality and encryption. */
  lemma CellRun(st: ScanState, pad: string, n: Network)
    requires Indent(pad) && IwlistListable(n)
    ensures IwlistRun(st, Cell(pad, n)) == ScanState(Flush(st), n.ssid, n.signal, n.security)
  {
    var on := n.security == ["wep"];
    var c := pad + EncText(on);
    var st1 := ScanState(Flush(st), n.ssid, None, []);
    assert (if on then ["wep"] else ["open"]) == n.security;
    if n.signal.Some? {
      var q := pad + QualityText(n.signal.value);
      assert Cell(pad, n) == [pad + EssidText(n.ssid)] + ([q] + [c]);
      EssidRun(st, pad, n.ssid, [q] + [c]);
      QualityRun(st1, pad, n.signal.value, [c]);
      EncRun(st1.(quality := n.signal), pad, on);
    } else {
      assert Cell(pad, n) == [pad + EssidText(n.ssid)] + [c];
      EssidRun(st, pad, n.ssid, [c]);
      EncRun(st1, pad, on);
    }
  }

  /** The first cell of a listing opens a cell for the first network; the rest follows. */
  lemma ListingCons(st: ScanState, pad: string, nets: seq<Network>)
    requires Indent(pad) && nets != [] && IwlistListable(nets[0])
    ensures IwlistRun(st, Listing(pad, nets))
         == IwlistRun(ScanState(Flush(st), nets[0].ssid, nets[0].signal, nets[0].security), Listing(pad, nets[1..]))
  {
    RunAppend(st, Cell(pad, nets[0]), Listing(pad, nets[1..]));
    CellRun(st, pad, nets[0]);
  }

  /** What reading the cells of a listing does: each opens a cell for its network, closing the one before. */
  function ReadCells(st: ScanState, nets: seq<Network>): ScanState
    decreases |nets|
  {
    if nets == [] then st else ReadCells(ScanState(Flush(st), nets[0].ssid, nets[0].signal, nets[0].security), nets[1..])
  }

  lemma {:induction false} ListingReads(st: ScanState, pad: string, nets: seq<Network>)
    requires Indent(pad) && forall k :: 0 <= k < |nets| ==> IwlistListable(nets[k])
    ensures IwlistRun(st, Listing(pad, nets)) == ReadCells(st, nets)
    decreases |nets|
  {
    if nets != [] {
      ListingCons(st, pad, nets);
      ListingReads(ScanState(Flush(st), nets[0].ssid, nets[0].signal, nets[0].security), pad, nets[1..]);
    }
  }

  lemma {:induction false} ReadCellsFlush(st: ScanState, nets: seq<Network>)
    requires forall k :: 0 <= k < |nets| ==> IwlistListable(nets[k])
    ensures Flush(ReadCells(st, nets)) == Flush(st) + nets
    decreases |nets|
  {
    if nets == [] {
      assert Flush(st) + nets == Flush(st);
    } else {
      var n := nets[0];
      assert IwlistListable(n);
      var st1 := ScanState(Flush(st), n.ssid, n.signal, n.security);
      ReadCellsFlush(st1, nets[1..]);
      assert Flush(st1) == Flush(st) + [n];
      assert Flush(st) + [n] + nets[1..] == Flush(st) + nets;
    }
  }

  /** Reading the cells of a listing adds their networks, in order, to those before. */
  lemma ListingRun(st: ScanState, pad: string, nets: seq<Network>)
    requires Indent(pad) && forall k :: 0 <= k < |nets| ==> IwlistListable(nets[k])
    ensures Flush(IwlistRun(st, Listing(pad, nets))) == Flush(st) + nets
  {
    ListingReads(st, pad, nets);
    ReadCellsFlush(st, nets);
  }

  /** Lines without an ESSID leave the networks and the open cell's name alone. */
  lemma {:induction false} HeadingsRun(st: ScanState, hs: seq<string>)
    requires forall k :: 0 <= k < |hs| ==> EssidSearch(Trim(hs[k])).None?
    ensures IwlistRun(st, hs).nets == st.nets && IwlistRun(st, hs).essid == st.essid
    decreases |hs|
  {
    if hs != [] {
      HeadingsRun(IwlistStep(st, hs[0]), hs[1..]);
    }
  }

  lemma EssidTextBreakFree(pad: string, ssid: string)
    requires Indent(pad) && Avoids(ssid, LineBreaks)
    ensures Avoids(pad + EssidText(ssid), LineBreaks)
  {
    AvoidsAppend(EssidTag + "\"", ssid, LineBreaks);
    AvoidsAppend(EssidTag + "\"" + ssid, "\"", LineBreaks);
    AvoidsAppend(pad, EssidText(ssid), LineBreaks);
  }

  lemma QualityTextBreakFree(pad: string, v: nat)
    requires Indent(pad)
    ensures Avoids(pad + QualityText(v), LineBreaks)
  {
    LineBreaksAreWhitespace();
    AvoidsAppend(QualityTag, NatToString(v), LineBreaks);
    AvoidsAppend(QualityTag + NatToString(v), "/70", LineBreaks);
    AvoidsAppend(pad, QualityText(v), LineBreaks);
  }

  lemma EncTextBreakFree(pad: string, on: bool)
    requires Indent(pad)
    ensures Avoids(pad + EncText(on), LineBreaks)
  {
    assert Avoids(EncText(on), LineBreaks);
    AvoidsAppend(pad, EncText(on), LineBreaks);
  }

  lemma CellBreakFree(pad: string, n: Network)
    requires Indent(pad) && IwlistListable(n)
    ensures forall k :: 0 <= k < |Cell(pad, n)| ==> Avoids(Cell(pad, n)[k], LineBreaks)
  {
    EssidTextBreakFree(pad, n.ssid);
    if n.signal.Some? {
      QualityTextBreakFree(pad, n.signal.value);
    }
    EncTextBreakFree(pad, n.security == ["wep"]);
  }

  lemma {:induction false} ListingBreakFree(pad: string, nets: seq<Network>)
    requires Indent(pad) && forall k :: 0 <= k < |nets| ==> IwlistListable(nets[k])
    ensures forall k :: 0 <= k < |Listing(pad, nets)| ==> Avoids(Listing(pad, nets)[k], LineBreaks)
    decreases |nets|
  {
    if nets != [] {
      CellBreakFree(pad, nets[0]);
      ListingBreakFree(pad, nets[1..]);
    }
  }

  lemma LinesBreakFree(hs: seq<string>, pad: string, nets: seq<Network>)
    requires forall k :: 0 <= k < |hs| ==> Avoids(hs[k], LineBreaks)
    requires Indent(pad) && forall k :: 0 <= k < |nets| ==> IwlistListable(nets[k])
    ensures forall k :: 0 <= k < |hs + Listing(pad, nets)| ==> Avoids((hs + Listing(pad, nets))[k], LineBreaks)
  {
    var cells := Listing(pad, nets);
    ListingBreakFree(pad, nets);
    forall k | 0 <= k < |hs + cells| ensures Avoids((hs + cells)[k], LineBreaks) {
      if k >= |hs| {
        assert (hs + cells)[k] == cells[k - |hs|];
      }
    }
  }

  /**
   * Heading lines without an ESSID (the "Scan completed" line, the cell
   * addresses, channel and rate lines) followed by the indented cells of
   * listable networks scan back to those networks.
   */
  lemma IwlistScanOutput(res: CommandResult, hs: seq<string>, pad: string, nets: seq<Network>)
    requires forall k :: 0 <= k < |hs| ==> EssidSearch(Trim(hs[k])).None? && Avoids(hs[k], LineBreaks)
    requires Indent(pad) && forall k :: 0 <= k < |nets| ==> IwlistListable(nets[k])
    requires res.returncode == 0 && res.stdout == JoinLines(hs + Listing(pad, nets))
    ensures IwlistScanOf(res) == nets
  {
    var cells := Listing(pad, nets);
    var ls := hs + cells;
    LinesBreakFree(hs, pad, nets);
    SplitJoinLines(ls);
    RunAppend(Start, hs, cells);
    HeadingsRun(Start, hs);
    var st := IwlistRun(Start, hs);
    ListingRun(st, pad, nets);
    assert Flush(st) == [];
  }

  // ---------------------------------------------------------------------
  // Connecting
  // ---------------------------------------------------------------------

  /**
   * The iwconfig commands for a security type: the ESSID, and the key for
   * WEP with a passphrase; `None` when iwconfig cannot set the type up.
   */
  function IwconfigCmds(iface: string, ssid: string, password: Option<string>, sec: Security): Option<seq<seq<string>>>
  {
    var base := [["iwconfig", iface, "essid", ssid]];
    if sec == Wep && HasPassword(password) then Some(base + [["iwconfig", iface, "key", password.value]])
    else if sec != Open then None
    else Some(base)
  }

  /** Runs the commands in order until one fails; the value is the failing result, if any. */
  function IwconfigRun(env: Env, w: seq<Event>, cmds: seq<seq<string>>): (s: Step<Option<CommandResult>>)
    ensures |s.trace| <= |cmds|
    decreases |cmds|
  {
    if cmds == [] then Step(None, [])
    else
      var e := Exec(cmds[0], IwconfigTimeout);
      var r := Answer(env, w, cmds[0], IwconfigTimeout);
      if r.returncode != 0 then Step(Some(r), [e])
      else After([e], IwconfigRun(env, w + [e], cmds[1..]))
  }

  function IwlistConnectResult(failed: Option<CommandResult>): ConnectionResult
  {
    if failed.Some? then ConnectionResult(IwlistName, false, OrDefault(Trim(failed.value.stderr), IwconfigFailed))
    else ConnectionResult(IwlistName, true, Connected)
  }

  /** `IwlistBackend.connect`. */
  function IwlistConnectStep(env: Env, w: seq<Event>, iface: string, ssid: string, password: Option<string>, sec: Security)
    : Step<ConnectionResult>
  {
    var cmds := IwconfigCmds(iface, ssid, password, sec);
    if cmds.None? then Step(ConnectionResult(IwlistName, false, SecureUnsupported), [])
    else
      var s := IwconfigRun(env, w, cmds.value);
      Step(IwlistConnectResult(s.value), s.trace)
  }

  /** The loop of `connect` over the iwconfig commands. */
  method RunIwconfig(h: Host, cmds: seq<seq<string>>) returns (failed: Option<CommandResult>)
    modifies h
    ensures var s := IwconfigRun(h.env, old(h.trace), cmds); failed == s.value && h.trace == old(h.trace) + s.trace
  {
    ghost var w := h.trace;
    ghost var full := IwconfigRun(h.env, w, cmds);
    ghost var done: seq<Event> := [];
    var rest := cmds;
    while rest != []
      invariant h.trace == w + done
      invariant full == After(done, IwconfigRun(h.env, h.trace, rest))
    {
      ghost var e := Exec(rest[0], IwconfigTimeout);
      var res := h.Run(rest[0], IwconfigTimeout);
      if res.returncode != 0 {
        return Some(res);
      }
      AppendAssoc(w, done, [e]);
      AppendAssoc(done, [e], IwconfigRun(h.env, h.trace, rest[1..]).trace);
      done := done + [e];
      rest := rest[1..];
    }
    return None;
  }

  method IwlistConnect(h: Host, iface: string, ssid: string, password: Option<string>, sec: Security)
    returns (r: ConnectionResult)
    modifies h
    ensures var s := IwlistConnectStep(h.env, old(h.trace), iface, ssid, password, sec);
      r == s.value && h.trace == old(h.trace) + s.trace
  {
    var cmds := IwconfigCmds(iface, ssid, password, sec);
    if cmds.None? {
      return ConnectionResult(IwlistName, false, SecureUnsupported);
    }
    var failed := RunIwconfig(h, cmds.value);
    if failed.Some? {
      return ConnectionResult(IwlistName, false, OrDefault(Trim(failed.value.stderr), IwconfigFailed));
    }
    return ConnectionResult(IwlistName, true, Connected);
  }

  /** The commands run are a prefix of the list, and all of it runs when none fails. */
  lemma {:induction false} IwconfigCommands(env: Env, w: seq<Event>, cmds: seq<seq<string>>)
    ensures var s := IwconfigRun(env, w, cmds);
      (forall k :: 0 <= k < |s.trace| ==> s.trace[k] == Exec(cmds[k], IwconfigTimeout))
      && (s.value.None? <==> |s.trace| == |cmds| && forall k :: 0 <= k < |cmds| ==> Answer(env, w + s.trace[..k], cmds[k], IwconfigTimeout).returncode == 0)
    decreases |cmds|
  {
    if cmds != [] {
      var e := Exec(cmds[0], IwconfigTimeout);
      var s := IwconfigRun(env, w, cmds);
      assert w + s.trace[..0] == w;
      if Answer(env, w, cmds[0], IwconfigTimeout).returncode == 0 {
        var rest := IwconfigRun(env, w + [e], cmds[1..]);
        IwconfigCommands(env, w + [e], cmds[1..]);
        assert s.trace == [e] + rest.trace;
        forall k | 1 <= k <= |s.trace|
          ensures w + s.trace[..k] == (w + [e]) + rest.trace[..k - 1]
        {
          assert s.trace[..k] == [e] + rest.trace[..k - 1];
        }
      }
    }
  }

  /**
   * Open networks get only the ESSID command and WEP with a passphrase the
   * key command after it; every other case fails without running anything,
   * with the "unsupported" message. When commands run, the attempt succeeds
   * exactly when none of them fails.
   */
  lemma IwlistConnectProps(env: Env, w: seq<Event>, iface: string, ssid: string, password: Option<string>, sec: Security)
    ensures var s := IwlistConnectStep(env, w, iface, ssid, password, sec);
      var cmds := IwconfigCmds(iface, ssid, password, sec);
      (cmds.None? <==> sec != Open && !(sec == Wep && HasPassword(password)))
      && (cmds.None? ==> s.trace == [] && !s.value.success && s.value.message == SecureUnsupported)
      && (cmds.Some? ==> cmds.value[0] == ["iwconfig", iface, "essid", ssid]
                         && |cmds.value| == (if sec == Wep then 2 else 1)
                         && (sec == Wep ==> cmds.value[1] == ["iwconfig", iface, "key", password.value])
                         && s.trace != []
                         && (s.value.success <==> IwconfigRun(env, w, cmds.value).value.None?))
      && s.value.backend == IwlistName && s.value.message != []
  {
  }
}
