/** Python string primitives the tool relies on, over `string` = `seq<char>`. */
module Text {

  /** Characters for which Python's `str.isspace()` holds. */
  const Whitespace: set<char> :=
    {'\t', '\n', '\U{000B}', '\U{000C}', '\r', '\U{001C}', '\U{001D}', '\U{001E}',
     '\U{001F}', ' ', '\U{0085}', '\U{00A0}', '\U{1680}', '\U{2000}', '\U{2001}', '\U{2002}',
     '\U{2003}', '\U{2004}', '\U{2005}', '\U{2006}', '\U{2007}', '\U{2008}', '\U{2009}', '\U{200A}',
     '\U{2028}', '\U{2029}', '\U{202F}', '\U{205F}', '\U{3000}'}

  /** Characters at which Python's `str.splitlines()` breaks a line. */
  const LineBreaks: set<char> :=
    {'\n', '\U{000B}', '\U{000C}', '\r', '\U{001C}', '\U{001D}', '\U{001E}', '\U{0085}',
     '\U{2028}', '\U{2029}'}

  lemma LineBreaksAreWhitespace()
    ensures LineBreaks <= Whitespace
  {
  }

  /** No character of `s` is in `cs`. */
  predicate Avoids(s: string, cs: set<char>)
  {
    forall i :: 0 <= i < |s| ==> s[i] !in cs
  }

  /** Every character of `s` is in `cs`. */
  predicate Within(s: string, cs: set<char>)
  {
    forall i :: 0 <= i < |s| ==> s[i] in cs
  }

  /** `s.lstrip(cs)`: drops the longest prefix made of characters of `cs`. */
  function LStrip(s: string, cs: set<char>): (r: string)
    ensures |r| <= |s|
  {
    if s != [] && s[0] in cs then LStrip(s[1..], cs) else s
  }

  /** `lstrip` removes a prefix of characters of `cs` and stops at one outside `cs`. */
  lemma {:induction false} LStripProps(s: string, cs: set<char>)
    ensures var r := LStrip(s, cs);
      r == s[|s| - |r|..] && Within(s[..|s| - |r|], cs) && (r == [] || r[0] !in cs)
  {
    if s != [] && s[0] in cs {
      LStripProps(s[1..], cs);
      var t := LStrip(s[1..], cs);
      assert s[..|s| - |t|] == [s[0]] + s[1..][..|s| - 1 - |t|];
    }
  }

  /** `s.rstrip(cs)`: drops the longest suffix made of characters of `cs`. */
  function RStrip(s: string, cs: set<char>): (r: string)
    ensures |r| <= |s|
  {
    if s != [] && s[|s| - 1] in cs then RStrip(s[..|s| - 1], cs) else s
  }

  /** `rstrip` removes a suffix of characters of `cs` and stops at one outside `cs`. */
  lemma {:induction false} RStripProps(s: string, cs: set<char>)
    ensures var r := RStrip(s, cs);
      r == s[..|r|] && Within(s[|r|..], cs) && (r == [] || r[|r| - 1] !in cs)
  {
    if s != [] && s[|s| - 1] in cs {
      RStripProps(s[..|s| - 1], cs);
      var t := RStrip(s[..|s| - 1], cs);
      assert s[|t|..] == s[..|s| - 1][|t|..] + [s[|s| - 1]];
    }
  }

  /** `s.strip(cs)`. */
  function Strip(s: string, cs: set<char>): string
  {
    RStrip(LStrip(s, cs), cs)
  }

  /** `s.strip()` with no argument: strips whitespace. */
  function Trim(s: string): string
  {
    Strip(s, Whitespace)
  }

  /** Characters of `cs` in front of a string go with the rest of its strippable prefix. */
  lemma {:induction false} LStripPrefix(p: string, s: string, cs: set<char>)
    requires Within(p, cs)
    ensures LStrip(p + s, cs) == LStrip(s, cs)
    decreases |p|
  {
    if p == [] {
      assert p + s == s;
    } else {
      assert (p + s)[0] == p[0];
      assert (p + s)[1..] == p[1..] + s;
      LStripPrefix(p[1..], s, cs);
    }
  }

  /** A string that neither starts nor ends with a character of `cs` strips to itself. */
  lemma StripUntouched(s: string, cs: set<char>)
    requires s != [] && s[0] !in cs && s[|s| - 1] !in cs
    ensures Strip(s, cs) == s
  {
    assert LStrip(s, cs) == s;
  }

  /** Joining strings that avoid `cs` gives a string that avoids `cs`. */
  lemma AvoidsAppend(a: string, b: string, cs: set<char>)
    requires Avoids(a, cs) && Avoids(b, cs)
    ensures Avoids(a + b, cs)
  {
  }

  /** A string strips to nothing exactly when all of it is in the stripped set. */
  lemma StripEmptyIff(s: string, cs: set<char>)
    ensures Strip(s, cs) == [] <==> Within(s, cs)
  {
    var l := LStrip(s, cs);
    LStripProps(s, cs);
    RStripProps(l, cs);
    if Strip(s, cs) == [] {
      assert l[0..] == l;
      assert s == s[..|s| - |l|] + l;
    } else {
      var r := Strip(s, cs);
      assert r[|r| - 1] !in cs;
      assert r[|r| - 1] == l[|r| - 1] == s[|s| - |l| + |r| - 1];
    }
  }

  /** Stripping an already stripped string changes nothing. */
  lemma StripIdempotent(s: string, cs: set<char>)
    ensures Strip(Strip(s, cs), cs) == Strip(s, cs)
  {
    var r := Strip(s, cs);
    LStripProps(s, cs);
    RStripProps(LStrip(s, cs), cs);
    if r != [] {
      LStripProps(r, cs);
      assert r[0] !in cs by {
        var l := LStrip(s, cs);
        assert r == l[..|r|];
      }
    }
  }

  /** `s.startswith(p)`. */
  predicate StartsWith(s: string, p: string)
  {
    |p| <= |s| && s[..|p|] == p
  }

  /** `s.endswith(p)`. */
  predicate EndsWith(s: string, p: string)
  {
    |p| <= |s| && s[|s| - |p|..] == p
  }

  /** `p in s` for strings: `p` occurs in `s` at some offset. */
  predicate Contains(s: string, p: string)
    decreases |s|
  {
    StartsWith(s, p) || (s != [] && Contains(s[1..], p))
  }

  /** Index of the first character of `s` in `cs`, or `|s|` if none is. */
  function FirstIn(s: string, cs: set<char>): (i: nat)
    ensures i <= |s|
  {
    if s == [] then 0
    else if s[0] in cs then 0
    else 1 + FirstIn(s[1..], cs)
  }

  lemma {:induction false} FirstInProps(s: string, cs: set<char>)
    ensures var i := FirstIn(s, cs); Avoids(s[..i], cs) && (i < |s| ==> s[i] in cs)
  {
    if s != [] && s[0] !in cs {
      FirstInProps(s[1..], cs);
      var j := FirstIn(s[1..], cs);
      assert s[..1 + j] == [s[0]] + s[1..][..j];
    }
  }

  /** Python's `s.splitlines()` (without `keepends`). */
  function SplitLines(s: string): (r: seq<string>)
    ensures s == [] <==> r == []
    decreases |s|
  {
    if s == [] then []
    else
      var i := FirstIn(s, LineBreaks);
      if i == |s| then [s]
      else
        var skip := if s[i] == '\r' && i + 1 < |s| && s[i + 1] == '\n' then 2 else 1;
        [s[..i]] + SplitLines(s[i + skip..])
  }

  /** No line holds a line break. */
  lemma {:induction false} SplitLinesBreakFree(s: string)
    ensures forall k :: 0 <= k < |SplitLines(s)| ==> Avoids(SplitLines(s)[k], LineBreaks)
    decreases |s|
  {
    if s != [] {
      var i := FirstIn(s, LineBreaks);
      FirstInProps(s, LineBreaks);
      if i < |s| {
        var skip := if s[i] == '\r' && i + 1 < |s| && s[i + 1] == '\n' then 2 else 1;
        SplitLinesBreakFree(s[i + skip..]);
      } else {
        assert s[..i] == s;
      }
    }
  }

  /** Every line followed by a newline: the inverse of `SplitLines` on break-free lines. */
  function JoinLines(ls: seq<string>): string
  {
    if ls == [] then [] else ls[0] + "\n" + JoinLines(ls[1..])
  }

  /** The first character in `cs` is at `n` when none comes before it. */
  lemma {:induction false} FirstInAt(s: string, cs: set<char>, n: nat)
    requires n < |s| && s[n] in cs && Avoids(s[..n], cs)
    ensures FirstIn(s, cs) == n
  {
    if n > 0 {
      assert s[0] == s[..n][0];
      assert s[1..][..n - 1] == s[..n][1..];
      FirstInAt(s[1..], cs, n - 1);
    }
  }

  lemma {:induction false} SplitLinesHead(a: string, rest: string)
    requires Avoids(a, LineBreaks)
    ensures SplitLines(a + "\n" + rest) == [a] + SplitLines(rest)
  {
    var s := a + "\n" + rest;
    assert s[..|a|] == a;
    assert s[|a|] == '\n';
    FirstInAt(s, LineBreaks, |a|);
    assert s[|a| + 1..] == rest;
  }

  /** Splitting joined break-free lines gives back the lines. */
  lemma {:induction false} SplitJoinLines(ls: seq<string>)
    requires forall k :: 0 <= k < |ls| ==> Avoids(ls[k], LineBreaks)
    ensures SplitLines(JoinLines(ls)) == ls
  {
    if ls != [] {
      SplitLinesHead(ls[0], JoinLines(ls[1..]));
      SplitJoinLines(ls[1..]);
    }
  }

  /** A single break-free non-empty string is one line. */
  lemma SplitLinesSingle(a: string)
    requires a != [] && Avoids(a, LineBreaks)
    ensures SplitLines(a) == [a]
  {
    FirstInProps(a, LineBreaks);
    assert Avoids(a[..|a|], LineBreaks) by { assert a[..|a|] == a; }
  }

  /** Python's `s.split()` with no argument: whitespace-separated, non-empty tokens. */
  function SplitWs(s: string): (r: seq<string>)
    decreases |s|
  {
    var t := LStrip(s, Whitespace);
    if t == [] then []
    else
      LStripProps(s, Whitespace);
      FirstInProps(t, Whitespace);
      var i := FirstIn(t, Whitespace);
      [t[..i]] + SplitWs(t[i..])
  }

  /** Tokens are non-empty and hold no whitespace. */
  lemma {:induction false} SplitWsTokens(s: string)
    ensures forall k :: 0 <= k < |SplitWs(s)| ==> SplitWs(s)[k] != [] && Avoids(SplitWs(s)[k], Whitespace)
    decreases |s|
  {
    var t := LStrip(s, Whitespace);
    if t != [] {
      LStripProps(s, Whitespace);
      FirstInProps(t, Whitespace);
      var i := FirstIn(t, Whitespace);
      SplitWsTokens(t[i..]);
    }
  }

  /** Leading whitespace does not change the tokens. */
  lemma SplitWsSpace(c: char, s: string)
    requires c in Whitespace
    ensures SplitWs([c] + s) == SplitWs(s)
  {
    assert ([c] + s)[1..] == s;
  }

  /** A whitespace-free token followed by whitespace or by nothing is the first token. */
  lemma SplitWsToken(t: string, rest: string)
    requires t != [] && Avoids(t, Whitespace)
    requires rest == [] || rest[0] in Whitespace
    ensures SplitWs(t + rest) == [t] + SplitWs(rest)
  {
    var s := t + rest;
    assert s[0] == t[0];
    assert LStrip(s, Whitespace) == s;
    assert s[..|t|] == t;
    if rest == [] {
      FirstInProps(s, Whitespace);
      assert s == t;
    } else {
      FirstInAt(s, Whitespace, |t|);
    }
    assert s[|t|..] == rest;
  }

  /** A string has no whitespace tokens exactly when it strips to nothing. */
  lemma SplitWsEmptyIff(s: string)
    ensures SplitWs(s) == [] <==> Trim(s) == []
  {
    StripEmptyIff(s, Whitespace);
    LStripProps(s, Whitespace);
    var t := LStrip(s, Whitespace);
    if t == [] {
      assert Within(s, Whitespace) by {
        assert s == s[..|s|];
      }
    } else {
      assert t[0] !in Whitespace;
      assert s[|s| - |t|] == t[0];
    }
  }

  /** Index of the first occurrence of `c` in `s`, or `|s|` if there is none. */
  function IndexOf(s: string, c: char): (i: nat)
    ensures i <= |s|
  {
    FirstIn(s, {c})
  }

  /** What `f` contributes for each line, in line order. */
  function ConcatMap<T>(f: string -> seq<T>, lines: seq<string>): seq<T>
  {
    if lines == [] then [] else ConcatMap(f, lines[..|lines| - 1]) + f(lines[|lines| - 1])
  }

  /** The contributions of consecutive chunks of lines are concatenated in order. */
  lemma {:induction false} ConcatMapAppend<T>(f: string -> seq<T>, a: seq<string>, b: seq<string>)
    ensures ConcatMap(f, a + b) == ConcatMap(f, a) + ConcatMap(f, b)
    decreases |b|
  {
    if b == [] {
      assert a + b == a;
    } else {
      var init := b[..|b| - 1];
      ConcatMapAppend(f, a, init);
      assert (a + b)[..|a + b| - 1] == a + init;
      assert (a + b)[|a + b| - 1] == b[|b| - 1];
    }
  }

  /** Concatenation is associative. */
  lemma AppendAssoc<T>(a: seq<T>, b: seq<T>, c: seq<T>)
    ensures a + b + c == a + (b + c)
  {
  }

  /** A non-empty sequence is its first element followed by the rest. */
  lemma HeadTail<T>(s: seq<T>)
    requires s != []
    ensures s == [s[0]] + s[1..]
  {
  }

  /** A non-empty sequence is its prefix followed by its last element. */
  lemma InitLast<T>(s: seq<T>)
    requires s != []
    ensures s[..|s| - 1] + [s[|s| - 1]] == s
  {
  }

  /** Python's `s.split(sep)` for a one-character separator: keeps empty pieces. */
  function Split(s: string, sep: char): (r: seq<string>)
    ensures |r| >= 1
    decreases |s|
  {
    var i := IndexOf(s, sep);
    if i == |s| then [s] else [s[..i]] + Split(s[i + 1..], sep)
  }

  /** No piece holds the separator. */
  lemma {:induction false} SplitPieces(s: string, sep: char)
    ensures forall k :: 0 <= k < |Split(s, sep)| ==> Avoids(Split(s, sep)[k], {sep})
    decreases |s|
  {
    var i := IndexOf(s, sep);
    FirstInProps(s, {sep});
    if i < |s| {
      SplitPieces(s[i + 1..], sep);
    } else {
      assert s[..i] == s;
    }
  }

  /** `sep.join(parts)`. */
  function Join(parts: seq<string>, sep: string): string
  {
    if parts == [] then []
    else if |parts| == 1 then parts[0]
    else parts[0] + sep + Join(parts[1..], sep)
  }

  /** Splitting on a character and joining with it again gives back the string. */
  lemma {:induction false} JoinSplit(s: string, sep: char)
    ensures Join(Split(s, sep), [sep]) == s
    decreases |s|
  {
    var i := IndexOf(s, sep);
    FirstInProps(s, {sep});
    if i < |s| {
      JoinSplit(s[i + 1..], sep);
      assert s == s[..i] + [sep] + s[i + 1..];
    }
  }

  /** The pieces are exactly the text before the first separator and the split of the rest. */
  lemma SplitSecond(s: string, sep: char)
    ensures |Split(s, sep)| >= 2 <==> sep in s
  {
    var i := IndexOf(s, sep);
    FirstInProps(s, {sep});
    if sep in s {
      var j :| 0 <= j < |s| && s[j] == sep;
    }
  }

  /** Joining lines with "\n" then adding one "\n" equals `JoinLines` on non-empty lists. */
  lemma {:induction false} JoinNewlineAppend(ls: seq<string>)
    requires ls != []
    ensures Join(ls, "\n") + "\n" == JoinLines(ls)
  {
    if |ls| > 1 {
      JoinNewlineAppend(ls[1..]);
    }
  }

  /** Joining one more part adds the separator and the part at the end. */
  lemma {:induction false} JoinSnoc(parts: seq<string>, x: string, sep: string)
    requires parts != []
    ensures Join(parts + [x], sep) == Join(parts, sep) + sep + x
    decreases |parts|
  {
    var q := parts + [x];
    assert q[1..] == parts[1..] + [x];
    if |parts| > 1 {
      JoinSnoc(parts[1..], x, sep);
    }
  }

  /** The joined text ends with the last part's last character. */
  lemma {:induction false} JoinLastChar(parts: seq<string>, sep: string)
    requires parts != [] && parts[|parts| - 1] != []
    ensures var j := Join(parts, sep); var z := parts[|parts| - 1];
      j != [] && j[|j| - 1] == z[|z| - 1]
    decreases |parts|
  {
    if |parts| > 1 {
      JoinLastChar(parts[1..], sep);
    }
  }

  /** The joined text starts with the first part's first character. */
  lemma JoinFirstChar(parts: seq<string>, sep: string)
    requires parts != [] && parts[0] != []
    ensures var j := Join(parts, sep); j != [] && j[0] == parts[0][0]
  {
  }

  /** Left-stripping a string followed by one stripped character. */
  lemma {:induction false} LStripSnoc(s: string, c: char, cs: set<char>)
    requires c in cs
    ensures LStrip(s + [c], cs) == if Within(s, cs) then [] else LStrip(s, cs) + [c]
    decreases |s|
  {
    if s == [] {
      assert [c][1..] == [];
    } else {
      assert (s + [c])[1..] == s[1..] + [c];
      LStripSnoc(s[1..], c, cs);
      if s[0] in cs {
        assert Within(s, cs) <==> Within(s[1..], cs) by {
          if Within(s[1..], cs) {
            forall i | 0 <= i < |s| ensures s[i] in cs {
              if i > 0 { assert s[i] == s[1..][i - 1]; }
            }
          }
        }
      }
    }
  }

  /** A trailing stripped character changes nothing once stripped. */
  lemma StripSnoc(s: string, c: char, cs: set<char>)
    requires c in cs
    ensures Strip(s + [c], cs) == Strip(s, cs)
  {
    LStripSnoc(s, c, cs);
    if Within(s, cs) {
      StripEmptyIff(s, cs);
    } else {
      var l := LStrip(s, cs);
      assert (l + [c])[..|l|] == l;
    }
  }

  /** Python's `os.path.join(a, b)` for two components. */
  function PathJoin(a: string, b: string): (r: string)
    ensures EndsWith(r, b)
    ensures !StartsWith(b, "/") ==> StartsWith(r, a)
  {
    if StartsWith(b, "/") then b
    else if a == [] || a[|a| - 1] == '/' then a + b
    else a + "/" + b
  }

  /** Break-free lines joined by "\n" split back when the last line is not empty. */
  lemma {:induction false} SplitJoinNewline(ls: seq<string>)
    requires ls != [] && ls[|ls| - 1] != []
    requires forall k :: 0 <= k < |ls| ==> Avoids(ls[k], LineBreaks)
    ensures SplitLines(Join(ls, "\n")) == ls
    decreases |ls|
  {
    if |ls| == 1 {
      SplitLinesSingle(ls[0]);
    } else {
      SplitLinesHead(ls[0], Join(ls[1..], "\n"));
      SplitJoinNewline(ls[1..]);
    }
  }

  function LowerChar(c: char): char
  {
    if 'A' <= c <= 'Z' then (c as int + 32) as char else c
  }

  /** `s.lower()` (ASCII letters only). */
  function Lower(s: string): (r: string)
    ensures |r| == |s|
    ensures forall i :: 0 <= i < |s| ==> r[i] == LowerChar(s[i])
  {
    seq(|s|, i requires 0 <= i < |s| => LowerChar(s[i]))
  }

  predicate IsDigit(c: char)
  {
    '0' <= c <= '9'
  }

  /** `s.isdigit()` (ASCII digits only). */
  predicate IsDigits(s: string)
  {
    s != [] && forall i :: 0 <= i < |s| ==> IsDigit(s[i])
  }

  /** `int(s)` on a string of decimal digits. */
  function DecimalValue(s: string): nat
  {
    if s == [] then 0
    else if IsDigit(s[|s| - 1]) then
      10 * DecimalValue(s[..|s| - 1]) + (s[|s| - 1] as int - '0' as int)
    else 10 * DecimalValue(s[..|s| - 1])
  }

  function DigitChar(d: nat): char
    requires d < 10
  {
    ('0' as int + d) as char
  }

  function NatToString(n: nat): (r: string)
    ensures IsDigits(r)
  {
    if n < 10 then [DigitChar(n)] else NatToString(n / 10) + [DigitChar(n % 10)]
  }

  /** `str(i)` for an integer. */
  function IntToString(i: int): string
  {
    if i < 0 then "-" + NatToString(-i) else NatToString(i)
  }

  /** `int(str(n))` gives back `n`. */
  lemma {:induction false} DecimalOfNatToString(n: nat)
    ensures DecimalValue(NatToString(n)) == n
  {
    if n >= 10 {
      DecimalOfNatToString(n / 10);
      var s := NatToString(n);
      assert s[..|s| - 1] == NatToString(n / 10);
    }
  }

  predicate IsAsciiLetter(c: char)
  {
    'a' <= c <= 'z' || 'A' <= c <= 'Z'
  }

  /** `s.isidentifier()` (ASCII identifiers only). */
  predicate IsIdentifier(s: string)
  {
    s != [] && (IsAsciiLetter(s[0]) || s[0] == '_')
    && forall i :: 0 <= i < |s| ==> IsAsciiLetter(s[i]) || IsDigit(s[i]) || s[i] == '_'
  }

  /** `s.replace(c, "")` for one character. */
  function RemoveChar(s: string, c: char): (r: string)
    ensures Avoids(r, {c})
    ensures |r| <= |s|
  {
    if s == [] then [] else (if s[0] == c then [] else [s[0]]) + RemoveChar(s[1..], c)
  }

  /** A string with no `c` is unchanged by removing `c`. */
  lemma {:induction false} RemoveCharAbsent(s: string, c: char)
    requires Avoids(s, {c})
    ensures RemoveChar(s, c) == s
  {
    if s != [] {
      RemoveCharAbsent(s[1..], c);
    }
  }

  /** `s.replace(c, t)` for one character `c`. */
  function ReplaceChar(s: string, c: char, t: string): string
  {
    if s == [] then [] else (if s[0] == c then t else [s[0]]) + ReplaceChar(s[1..], c, t)
  }

  /** Characters `shlex.quote` leaves unquoted: ASCII word characters and `@%+=:,./-`. */
  predicate ShellSafe(c: char)
  {
    IsAsciiLetter(c) || IsDigit(c) || c in "_@%+=:,./-"
  }

  /** `shlex.quote(s)`. */
  function ShQuote(s: string): (r: string)
    ensures s == [] ==> r == "''"
    ensures s != [] && (forall i :: 0 <= i < |s| ==> ShellSafe(s[i])) ==> r == s
    ensures (exists i :: 0 <= i < |s| && !ShellSafe(s[i])) ==> |r| >= 2 && r[0] == '\'' && r[|r| - 1] == '\''
  {
    if s == [] then "''"
    else if forall i :: 0 <= i < |s| ==> ShellSafe(s[i]) then s
    else "'" + ReplaceChar(s, '\'', "'\"'\"'") + "'"
  }

  /** Strict lexicographic order on code points, as Python compares strings. */
  predicate Less(a: string, b: string)
    decreases |a|
  {
    if a == [] then b != []
    else if b == [] then false
    else if a[0] != b[0] then a[0] < b[0]
    else Less(a[1..], b[1..])
  }

  lemma {:induction false} LessIrreflexive(a: string)
    ensures !Less(a, a)
    decreases |a|
  {
    if a != [] {
      LessIrreflexive(a[1..]);
    }
  }

  lemma {:induction false} LessTransitive(a: string, b: string, c: string)
    requires Less(a, b) && Less(b, c)
    ensures Less(a, c)
    decreases |a|
  {
    if a != [] && b != [] && c != [] && a[0] == b[0] && b[0] == c[0] {
      LessTransitive(a[1..], b[1..], c[1..]);
    }
  }

  lemma {:induction false} LessTotal(a: string, b: string)
    requires a != b
    ensures Less(a, b) || Less(b, a)
    decreases |a|
  {
    if a != [] && b != [] && a[0] == b[0] {
      assert a == [a[0]] + a[1..] && b == [b[0]] + b[1..];
      LessTotal(a[1..], b[1..]);
    }
  }

  lemma LessAsymmetric(a: string, b: string)
    requires Less(a, b)
    ensures !Less(b, a)
  {
    if Less(b, a) {
      LessTransitive(a, b, a);
      LessIrreflexive(a);
    }
  }
  /** `!Less(b, a)`: `a` sorts no later than `b`. */
  predicate LessEq(a: string, b: string)
  {
    !Less(b, a)
  }

  /** Sorted in Python's string order, without duplicates. */
  predicate StrictlySorted(s: seq<string>)
  {
    forall i, j :: 0 <= i < j < |s| ==> Less(s[i], s[j])
  }

  /** Sorted in Python's string order, duplicates allowed. */
  predicate SortedStrings(s: seq<string>)
  {
    forall i, j :: 0 <= i < j < |s| ==> LessEq(s[i], s[j])
  }

  predicate IsLeast(m: string, s: set<string>)
  {
    m in s && forall y :: y in s ==> LessEq(m, y)
  }

  lemma {:induction false} LeastExists(s: set<string>)
    requires s != {}
    ensures exists m :: IsLeast(m, s)
    decreases |s|
  {
    var x :| x in s;
    if s - {x} == {} {
      assert s == {x};
      LessIrreflexive(x);
      assert IsLeast(x, s);
    } else {
      LeastExists(s - {x});
      var m :| IsLeast(m, s - {x});
      if Less(x, m) {
        forall y | y in s ensures LessEq(x, y) {
          if y == x {
            LessIrreflexive(x);
          } else {
            assert y in s - {x};
            assert !Less(y, m);
            if Less(y, x) {
              LessTransitive(y, x, m);
            }
          }
        }
        assert IsLeast(x, s);
      } else {
        assert IsLeast(m, s);
      }
    }
  }

  lemma LeastUnique(m: string, n: string, s: set<string>)
    requires IsLeast(m, s) && IsLeast(n, s)
    ensures m == n
  {
    if m != n {
      LessTotal(m, n);
    }
  }

  /** The elements of a finite set of strings in Python's sorted order (`sorted(s)`). */
  ghost function SortedOf(s: set<string>): seq<string>
    decreases |s|
  {
    if s == {} then []
    else
      LeastExists(s);
      var m :| IsLeast(m, s);
      [m] + SortedOf(s - {m})
  }

  /** `SortedOf(s)` lists every element of `s` once, in strictly increasing order. */
  lemma {:induction false} SortedOfProps(s: set<string>)
    ensures StrictlySorted(SortedOf(s))
    ensures forall x :: x in SortedOf(s) <==> x in s
    ensures |SortedOf(s)| == |s|
    decreases |s|
  {
    if s != {} {
      var r := SortedOf(s);
      var m := r[0];
      assert IsLeast(m, s) && r == [m] + SortedOf(s - {m});
      SortedOfProps(s - {m});
      var t := SortedOf(s - {m});
      forall k | 0 <= k < |t| ensures Less(m, t[k]) {
        assert t[k] in s - {m};
        LessTotal(m, t[k]);
      }
    }
  }

  /** Strictly sorted lists holding the same strings are equal. */
  lemma {:induction false} StrictlySortedUnique(a: seq<string>, b: seq<string>)
    requires StrictlySorted(a) && StrictlySorted(b)
    requires forall x :: x in a <==> x in b
    ensures a == b
    decreases |a|
  {
    if a != [] { assert a[0] in a; }
    if b != [] { assert b[0] in b; }
    if a != [] && b != [] {
      if a[0] != b[0] {
        assert b[0] in a;
        var i :| 0 <= i < |a| && a[i] == b[0];
        assert a[0] in b;
        var j :| 0 <= j < |b| && b[j] == a[0];
        assert Less(a[0], b[0]);
        assert Less(b[0], a[0]);
        LessAsymmetric(a[0], b[0]);
      }
      forall x ensures x in a[1..] <==> x in b[1..] {
        if x in a[1..] {
          var i :| 0 <= i < |a[1..]| && a[1..][i] == x;
          assert Less(a[0], a[i + 1]);
          assert a[i + 1] == x && x in b;
          var j :| 0 <= j < |b| && b[j] == x;
          if j == 0 { LessIrreflexive(x); }
          assert b[1..][j - 1] == x;
        }
        if x in b[1..] {
          var j :| 0 <= j < |b[1..]| && b[1..][j] == x;
          assert Less(b[0], b[j + 1]);
          assert b[j + 1] == x && x in a;
          var i :| 0 <= i < |a| && a[i] == x;
          if i == 0 { LessIrreflexive(x); }
          assert a[1..][i - 1] == x;
        }
      }
      StrictlySortedUnique(a[1..], b[1..]);
    }
  }

  /** The sorted elements of a set start with its least element. */
  lemma SortedOfUnfold(s: set<string>, m: string)
    requires IsLeast(m, s)
    ensures SortedOf(s) == [m] + SortedOf(s - {m})
  {
    var r := SortedOf(s);
    var n := r[0];
    assert IsLeast(n, s) && r == [n] + SortedOf(s - {n});
    LeastUnique(m, n, s);
  }

  /** `sorted(s)` for a set of strings. */
  method SortSet(s: set<string>) returns (r: seq<string>)
    ensures r == SortedOf(s)
  {
    var rest := s;
    r := [];
    while rest != {}
      invariant rest <= s
      invariant r + SortedOf(rest) == SortedOf(s)
      decreases |rest|
    {
      LeastExists(rest);
      var m :| m in rest && IsLeast(m, rest);
      SortedOfUnfold(rest, m);
      ghost var before := r;
      r := r + [m];
      rest := rest - {m};
      assert r + SortedOf(rest) == before + ([m] + SortedOf(rest));
    }
  }

  /** Inserts `x` after every element that sorts no later than it. */
  function InsertString(x: string, t: seq<string>): seq<string>
  {
    if t == [] then [x]
    else if Less(x, t[0]) then [x] + t
    else [t[0]] + InsertString(x, t[1..])
  }

  /** `sorted(xs)` for a list of strings (insertion sort). */
  function SortStrings(xs: seq<string>): seq<string>
  {
    if xs == [] then [] else InsertString(xs[0], SortStrings(xs[1..]))
  }

  lemma {:induction false} InsertStringPerm(x: string, t: seq<string>)
    ensures multiset(InsertString(x, t)) == multiset{x} + multiset(t)
  {
    if t != [] && !Less(x, t[0]) {
      InsertStringPerm(x, t[1..]);
      assert t == [t[0]] + t[1..];
    }
  }

  lemma {:induction false} InsertStringBounded(x: string, t: seq<string>, b: string)
    requires LessEq(b, x)
    requires forall k :: 0 <= k < |t| ==> LessEq(b, t[k])
    ensures forall k :: 0 <= k < |InsertString(x, t)| ==> LessEq(b, InsertString(x, t)[k])
  {
    if t != [] && !Less(x, t[0]) {
      InsertStringBounded(x, t[1..], b);
    }
  }

  lemma {:induction false} InsertStringSorted(x: string, t: seq<string>)
    requires SortedStrings(t)
    ensures SortedStrings(InsertString(x, t))
  {
    if t != [] {
      if Less(x, t[0]) {
        var r := [x] + t;
        forall i, j | 0 <= i < j < |r| ensures LessEq(r[i], r[j]) {
          if i > 0 {
            assert r[i] == t[i - 1] && r[j] == t[j - 1];
          } else {
            assert r[j] == t[j - 1];
            if j > 1 {
              assert LessEq(t[0], t[j - 1]);
            } else {
              LessIrreflexive(t[0]);
            }
            if Less(t[j - 1], x) {
              LessTransitive(t[j - 1], x, t[0]);
            }
          }
        }
      } else {
        InsertStringSorted(x, t[1..]);
        InsertStringBounded(x, t[1..], t[0]);
        var q := InsertString(x, t[1..]);
        var r := [t[0]] + q;
        forall i, j | 0 <= i < j < |r| ensures LessEq(r[i], r[j]) {
          if i > 0 {
            assert r[i] == q[i - 1] && r[j] == q[j - 1];
          } else {
            assert r[j] == q[j - 1];
          }
        }
      }
    }
  }

  /** Sorting a list of strings gives a sorted permutation of it. */
  lemma {:induction false} SortStringsProps(xs: seq<string>)
    ensures SortedStrings(SortStrings(xs))
    ensures multiset(SortStrings(xs)) == multiset(xs)
  {
    if xs != [] {
      SortStringsProps(xs[1..]);
      InsertStringSorted(xs[0], SortStrings(xs[1..]));
      InsertStringPerm(xs[0], SortStrings(xs[1..]));
      assert xs == [xs[0]] + xs[1..];
    }
  }
}
