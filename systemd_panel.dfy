/**
 * Configuration dumps in the style of `systemd-analyze cat-config`: splitting a
 * dump into files, collecting the commented-out `#Key=value` settings of a file,
 * writing a dump back from a schema, and naming the drop-in file an edit writes.
 */
module SystemdPanel {
  import opened Types
  import opened Text

  // ---------------------------------------------------------------------------
  // Header lines

  /** Marker of the dumps this tool writes itself. */
  const FileMarker := "# FILE: "
  /** Header form `#/path` of `cat-config`. */
  const SlashMarker := "#/"
  /** Header form `# /path` of `cat-config`. */
  const SpaceMarker := "# "
  /** Forty '#' characters: the banner `cat-config` may put under a header. */
  const Banner := "########################################"

  /** `_extract_path`: the path a header line names, if it is one. */
  function ExtractPath(line: string): (r: Option<string>)
    ensures r.Some? ==> StartsWith(line, "#") && Trim(r.value) == r.value
  {
    if StartsWith(line, FileMarker) then
      StripIdempotent(line[|FileMarker|..], Whitespace);
      Some(Trim(line[|FileMarker|..]))
    else if StartsWith(line, SlashMarker) && StartsWith(Trim(line[1..]), "/") then
      StripIdempotent(line[1..], Whitespace);
      Some(Trim(line[1..]))
    else if StartsWith(line, SpaceMarker) && StartsWith(Trim(line[2..]), "/") then
      StripIdempotent(line[2..], Whitespace);
      Some(Trim(line[2..]))
    else
      None
  }

  /** The path a line starts a file with: an extracted path that is not empty. */
  function HeaderPath(line: string): (r: Option<string>)
    ensures r.Some? ==> r.value != [] && ExtractPath(line) == r
    ensures r.None? ==> ExtractPath(line) == None || ExtractPath(line) == Some([])
  {
    match ExtractPath(line)
    case Some(p) => if p != [] then Some(p) else None
    case None => None
  }

  /** A string that starts with '/' keeps that '/' when trimmed. */
  lemma TrimSlash(s: string)
    requires StartsWith(s, "/")
    ensures Trim(s) != [] && Trim(s)[0] == '/' && StartsWith(Trim(s), "/")
  {
    assert s[0] == '/';
    assert LStrip(s, Whitespace) == s;
    RStripProps(s, Whitespace);
  }

  /** "# FILE: p" names the path p, stripped. */
  lemma ExtractFileMarker(p: string)
    ensures ExtractPath(FileMarker + p) == Some(Trim(p))
  {
    var line := FileMarker + p;
    assert line[..|FileMarker|] == FileMarker;
    assert line[|FileMarker|..] == p;
  }

  /** "#/…" names the stripped rest of the line after the '#'. */
  lemma ExtractSlash(rest: string)
    requires StartsWith(rest, "/")
    ensures ExtractPath("#" + rest) == Some(Trim(rest))
  {
    var line := "#" + rest;
    assert line[1] == '/';
    assert !StartsWith(line, FileMarker);
    assert line[..2] == SlashMarker;
    assert line[1..] == rest;
    TrimSlash(rest);
  }

  /** "# …" names the stripped rest only when that starts with '/'. */
  lemma ExtractSpace(rest: string)
    requires !StartsWith(SpaceMarker + rest, FileMarker)
    ensures ExtractPath(SpaceMarker + rest)
      == if StartsWith(Trim(rest), "/") then Some(Trim(rest)) else None
  {
    var line := SpaceMarker + rest;
    assert line[1] == ' ';
    assert !StartsWith(line, SlashMarker);
    assert line[..2] == SpaceMarker;
    assert line[2..] == rest;
  }

  /** A line starting with neither "#/" nor "# " is not a header. */
  lemma ExtractOther(line: string)
    requires !StartsWith(line, SlashMarker) && !StartsWith(line, SpaceMarker)
    ensures ExtractPath(line) == None
  {
    assert !StartsWith(line, FileMarker);
  }

  /** A banner line is never a header. */
  lemma BannerNotHeader(line: string)
    requires StartsWith(line, Banner)
    ensures ExtractPath(line) == None
  {
    assert line[1] == Banner[1] == '#';
    ExtractOther(line);
  }

  // ---------------------------------------------------------------------------
  // Splitting a dump into files

  /** The parser's state: the files closed so far, the open file and its lines. */
  datatype DumpState = DumpState(files: map<string, string>, current: Option<string>, buffer: seq<string>)

  const DumpStart := DumpState(map[], None, [])

  /** A file's contents: its lines joined by "\n", leading and trailing newlines stripped. */
  function Body(buffer: seq<string>): string
  {
    Strip(Join(buffer, "\n"), {'\n'})
  }

  /** The files with the open one closed. */
  function Close(st: DumpState): (r: map<string, string>)
    ensures r.Keys == st.files.Keys + (if st.current.Some? then {st.current.value} else {})
  {
    if st.current.Some? then st.files[st.current.value := Body(st.buffer)] else st.files
  }

  /** One line of the dump. */
  function DumpStep(st: DumpState, line: string): DumpState
  {
    var path := HeaderPath(line);
    if path.Some? then DumpState(Close(st), path, [])
    else if st.current.None? then st
    else if st.buffer == [] && StartsWith(line, Banner) then st
    else st.(buffer := st.buffer + [line])
  }

  /** The lines of the dump, in order. */
  function DumpRun(st: DumpState, lines: seq<string>): DumpState
    decreases |lines|
  {
    if lines == [] then st else DumpRun(DumpStep(st, lines[0]), lines[1..])
  }

  /** `parse_systemd_dump` on the dump's lines. */
  function ParseLines(lines: seq<string>): map<string, string>
  {
    Close(DumpRun(DumpStart, lines))
  }

  /** `parse_systemd_dump`. */
  function ParseDumpOf(dump: string): map<string, string>
  {
    ParseLines(SplitLines(dump))
  }

  /** `parse_systemd_dump`: one pass over the lines carrying the open path and its buffer. */
  method ParseDump(dump: string) returns (files: map<string, string>)
    ensures files == ParseDumpOf(dump)
  {
    var lines := SplitLines(dump);
    files := map[];
    var current: Option<string> := None;
    var buffer: seq<string> := [];
    var i := 0;
    while i < |lines|
      invariant 0 <= i <= |lines|
      invariant DumpRun(DumpState(files, current, buffer), lines[i..]) == DumpRun(DumpStart, lines)
    {
      assert lines[i..][1..] == lines[i + 1..];
      var line := lines[i];
      var path := ExtractPath(line);
      if path.Some? && path.value != [] {
        if current.Some? {
          files := files[current.value := Body(buffer)];
        }
        current := path;
        buffer := [];
      } else if current.None? {
      } else if buffer == [] && StartsWith(line, Banner) {
      } else {
        buffer := buffer + [line];
      }
      i := i + 1;
    }
    if current.Some? {
      files := files[current.value := Body(buffer)];
    }
  }

  /** The distinct header paths among the lines. */
  function HeadersOf(lines: seq<string>): set<string>
  {
    set k | 0 <= k < |lines| && HeaderPath(lines[k]).Some? :: HeaderPath(lines[k]).value
  }

  lemma HeadersOfCons(lines: seq<string>)
    requires lines != []
    ensures HeadersOf(lines)
      == (if HeaderPath(lines[0]).Some? then {HeaderPath(lines[0]).value} else {}) + HeadersOf(lines[1..])
  {
    var tail := lines[1..];
    forall p | p in HeadersOf(lines) && p !in HeadersOf(tail)
      ensures HeaderPath(lines[0]) == Some(p)
    {
      var k :| 0 <= k < |lines| && HeaderPath(lines[k]) == Some(p);
    }
    forall p | p in HeadersOf(tail) ensures p in HeadersOf(lines) {
      var k :| 0 <= k < |tail| && HeaderPath(tail[k]) == Some(p);
      assert lines[k + 1] == tail[k];
    }
  }

  /** Running over `a + b` is running over `a`, then over `b`. */
  lemma {:induction false} DumpRunAppend(st: DumpState, a: seq<string>, b: seq<string>)
    ensures DumpRun(st, a + b) == DumpRun(DumpRun(st, a), b)
    decreases |a|
  {
    if a == [] {
      assert a + b == b;
    } else {
      assert (a + b)[1..] == a[1..] + b;
      DumpRunAppend(DumpStep(st, a[0]), a[1..], b);
    }
  }

  /** The parsed file names after a run are the open and closed ones plus the new headers. */
  lemma {:induction false} DumpRunKeys(st: DumpState, lines: seq<string>)
    ensures Close(DumpRun(st, lines)).Keys == Close(st).Keys + HeadersOf(lines)
    decreases |lines|
  {
    if lines != [] {
      HeadersOfCons(lines);
      DumpRunKeys(DumpStep(st, lines[0]), lines[1..]);
    }
  }

  /** The parsed paths are exactly the distinct header paths. */
  lemma ParseKeys(dump: string)
    ensures ParseDumpOf(dump).Keys == HeadersOf(SplitLines(dump))
  {
    DumpRunKeys(DumpStart, SplitLines(dump));
  }

  /** An empty dump holds no files. */
  lemma ParseEmpty()
    ensures ParseDumpOf("") == map[]
  {
  }

  /** Lines without a header before the first file are dropped. */
  lemma {:induction false} PreambleDropped(pre: seq<string>, rest: seq<string>)
    requires forall k :: 0 <= k < |pre| ==> HeaderPath(pre[k]).None?
    ensures ParseLines(pre + rest) == ParseLines(rest)
  {
    DumpRunAppend(DumpStart, pre, rest);
    PreambleRun(pre);
  }

  lemma {:induction false} PreambleRun(pre: seq<string>)
    requires forall k :: 0 <= k < |pre| ==> HeaderPath(pre[k]).None?
    ensures DumpRun(DumpStart, pre) == DumpStart
    decreases |pre|
  {
    if pre != [] {
      assert HeaderPath(pre[0]).None?;
      PreambleRun(pre[1..]);
    }
  }

  /** A banner is skipped exactly when it would be the open file's first line. */
  lemma BannerStep(st: DumpState, line: string)
    requires StartsWith(line, Banner)
    ensures DumpStep(st, line)
      == if st.current.Some? && st.buffer != [] then st.(buffer := st.buffer + [line]) else st
  {
    BannerNotHeader(line);
  }

  /** One file of a dump: a path and the lines under its header. */
  datatype DumpFile = DumpFile(path: string, lines: seq<string>)

  /** A path that the "# path" header form gives back unchanged. */
  predicate PathOk(p: string)
  {
    StartsWith(p, "/") && p[|p| - 1] !in Whitespace
  }

  /** No line of the file starts another file, and the first is not a banner. */
  predicate FileOk(f: DumpFile)
  {
    PathOk(f.path)
    && (forall k :: 0 <= k < |f.lines| ==> HeaderPath(f.lines[k]).None?)
    && (f.lines == [] || !StartsWith(f.lines[0], Banner))
  }

  /** Each file as its header line followed by its lines. */
  function Flatten(fs: seq<DumpFile>): seq<string>
  {
    if fs == [] then [] else [SpaceMarker + fs[0].path] + fs[0].lines + Flatten(fs[1..])
  }

  /** Storing each file's body in turn, so that a later file of the same path wins. */
  function Apply(m: map<string, string>, fs: seq<DumpFile>): map<string, string>
    decreases |fs|
  {
    if fs == [] then m else Apply(m[fs[0].path := Body(fs[0].lines)], fs[1..])
  }

  /** The header a well-formed path is written with reads back as that path. */
  lemma PathHeader(p: string)
    requires PathOk(p)
    ensures HeaderPath(SpaceMarker + p) == Some(p)
  {
    var line := SpaceMarker + p;
    assert line[2] == p[0] == '/';
    assert !StartsWith(line, FileMarker);
    ExtractSpace(p);
    assert LStrip(p, Whitespace) == p;
    assert Trim(p) == p;
  }

  /** The lines under an open header all go into its buffer. */
  lemma {:induction false} BufferRun(st: DumpState, lines: seq<string>)
    requires st.current.Some?
    requires forall k :: 0 <= k < |lines| ==> HeaderPath(lines[k]).None?
    requires st.buffer == [] ==> lines == [] || !StartsWith(lines[0], Banner)
    ensures DumpRun(st, lines) == st.(buffer := st.buffer + lines)
    decreases |lines|
  {
    if lines == [] {
      assert st.buffer + lines == st.buffer;
    } else {
      assert HeaderPath(lines[0]).None?;
      var next := st.(buffer := st.buffer + [lines[0]]);
      assert DumpStep(st, lines[0]) == next;
      BufferRun(next, lines[1..]);
      assert next.buffer + lines[1..] == st.buffer + lines;
    }
  }

  /** A file's header opens it, and its lines fill its buffer. */
  lemma FileRun(st: DumpState, f: DumpFile)
    requires FileOk(f)
    ensures DumpRun(st, [SpaceMarker + f.path] + f.lines) == DumpState(Close(st), Some(f.path), f.lines)
  {
    var header := SpaceMarker + f.path;
    PathHeader(f.path);
    var entered := DumpState(Close(st), Some(f.path), []);
    assert DumpStep(st, header) == entered;
    assert DumpRun(st, [header]) == entered;
    BufferRun(entered, f.lines);
    DumpRunAppend(st, [header], f.lines);
  }

  /** Parsing the files written one after another stores each body in turn. */
  lemma {:induction false} FlattenRun(st: DumpState, fs: seq<DumpFile>)
    requires forall i :: 0 <= i < |fs| ==> FileOk(fs[i])
    ensures Close(DumpRun(st, Flatten(fs))) == Apply(Close(st), fs)
    decreases |fs|
  {
    if fs != [] {
      var f := fs[0];
      assert FileOk(f);
      var head := [SpaceMarker + f.path] + f.lines;
      assert Flatten(fs) == head + Flatten(fs[1..]);
      DumpRunAppend(st, head, Flatten(fs[1..]));
      FileRun(st, f);
      FlattenRun(DumpState(Close(st), Some(f.path), f.lines), fs[1..]);
    }
  }

  /** Files written with "# path" headers parse back to their bodies, the last of a path winning. */
  lemma FilesRoundTrip(fs: seq<DumpFile>)
    requires forall i :: 0 <= i < |fs| ==> FileOk(fs[i])
    ensures ParseLines(Flatten(fs)) == Apply(map[], fs)
  {
    FlattenRun(DumpStart, fs);
  }

  /** A repeated path keeps the body of its last file. */
  lemma {:induction false} ApplyLast(m: map<string, string>, fs: seq<DumpFile>, f: DumpFile)
    ensures Apply(m, fs + [f]) == Apply(m, fs)[f.path := Body(f.lines)]
    decreases |fs|
  {
    if fs == [] {
      assert ([] + [f])[1..] == [];
    } else {
      assert (fs + [f])[1..] == fs[1..] + [f];
      ApplyLast(m[fs[0].path := Body(fs[0].lines)], fs[1..], f);
    }
  }

  // ---------------------------------------------------------------------------
  // Commented-out settings

  /** Settings by section, then by key. */
  type Settings = map<string, map<string, string>>

  const CommentChars: set<char> := {'#', ';'}
  const Brackets: set<char> := {'[', ']'}
  const OpenBracket := "["
  const CloseBracket := "]"
  const Hash := "#"
  const Semicolon := ";"

  /** The settings of one section, `{}` when it has none. */
  function SectionOf(c: Settings, section: string): map<string, string>
  {
    if section in c then c[section] else map[]
  }

  /** `commented.setdefault(section, {})[key] = value`. */
  function Put(c: Settings, section: string, key: string, value: string): Settings
  {
    c[section := SectionOf(c, section)[key := value]]
  }

  /** A character of a stripped string is a character of the string. */
  lemma StripChars(s: string, cs: set<char>, c: char)
    requires c in Strip(s, cs)
    ensures c in s
  {
    var l := LStrip(s, cs);
    var r := Strip(s, cs);
    LStripProps(s, cs);
    RStripProps(l, cs);
    var i :| 0 <= i < |r| && r[i] == c;
    assert r[i] == l[i] == s[|s| - |l| + i];
  }

  /** A section header line `[...]`. */
  predicate SectionLine(line: string)
  {
    StartsWith(line, OpenBracket) && EndsWith(line, CloseBracket)
  }

  /** The `key=value` a stripped comment line carries, if it carries one. */
  function SettingOf(line: string): (r: Option<(string, string)>)
    ensures r.Some? ==> (StartsWith(line, Hash) || StartsWith(line, Semicolon)) && !SectionLine(line)
    ensures r.Some? ==> '=' in line && IsIdentifier(r.value.0) && Trim(r.value.1) == r.value.1
  {
    if !(StartsWith(line, Hash) || StartsWith(line, Semicolon)) then None
    else
      var candidate := Trim(LStrip(line, CommentChars));
      if candidate == [] || StartsWith(candidate, Hash) then None
      else if '=' !in candidate then None
      else
        var i := IndexOf(candidate, '=');
        FirstInProps(candidate, {'='});
        var key := Trim(candidate[..i]);
        if !IsIdentifier(key) then None
        else
          StripChars(LStrip(line, CommentChars), Whitespace, '=');
          LStripProps(line, CommentChars);
          StripIdempotent(candidate[i + 1..], Whitespace);
          Some((key, Trim(candidate[i + 1..])))
  }

  /** The extractor's state: the settings so far and the section being read. */
  datatype CommentState = CommentState(commented: Settings, section: Option<string>)

  const CommentStart := CommentState(map[], None)

  /** Whether a section is open: Python's truthiness of `section`. */
  predicate InSection(st: CommentState)
  {
    st.section.Some? && st.section.value != []
  }

  /** One line of a file's body. */
  function CommentStep(st: CommentState, raw: string): CommentState
  {
    var line := Trim(raw);
    if SectionLine(line) then st.(section := Some(Strip(line, Brackets)))
    else if !InSection(st) then st
    else match SettingOf(line)
      case None => st
      case Some((key, value)) => st.(commented := Put(st.commented, st.section.value, key, value))
  }

  /** The lines of a body, in order. */
  function CommentRun(st: CommentState, lines: seq<string>): CommentState
    decreases |lines|
  {
    if lines == [] then st else CommentRun(CommentStep(st, lines[0]), lines[1..])
  }

  /** The final comprehension: only sections that hold a setting. */
  function NonEmptySections(c: Settings): (r: Settings)
    ensures forall s :: s in r <==> s in c && c[s] != map[]
    ensures forall s :: s in r ==> r[s] == c[s] && r[s] != map[]
  {
    map s | s in c && c[s] != map[] :: c[s]
  }

  /** `_extract_commented_settings`. */
  function CommentedOf(body: string): Settings
  {
    NonEmptySections(CommentRun(CommentStart, SplitLines(body)).commented)
  }

  /** `_extract_commented_settings`: a loop over the lines updating the nested dictionary. */
  method ExtractCommented(body: string) returns (r: Settings)
    ensures r == CommentedOf(body)
  {
    var lines := SplitLines(body);
    var commented: Settings := map[];
    var section: Option<string> := None;
    for i := 0 to |lines|
      invariant CommentRun(CommentState(commented, section), lines[i..]) == CommentRun(CommentStart, lines)
    {
      assert lines[i..][1..] == lines[i + 1..];
      var line := Trim(lines[i]);
      if SectionLine(line) {
        section := Some(Strip(line, Brackets));
      } else if section.Some? && section.value != [] {
        var setting := SettingOf(line);
        if setting.Some? {
          var (key, value) := setting.value;
          commented := Put(commented, section.value, key, value);
        }
      }
    }
    r := NonEmptySections(commented);
  }

  /** A line changes the settings only inside a section and only through a `key=value` it carries. */
  lemma CapturedOnly(st: CommentState, raw: string)
    ensures var next := CommentStep(st, raw);
      next.commented == st.commented
      || (InSection(st) && SettingOf(Trim(raw)).Some?
          && next.commented == Put(st.commented, st.section.value,
                                   SettingOf(Trim(raw)).value.0, SettingOf(Trim(raw)).value.1))
  {
  }

  /** Outside a section nothing but a section header has an effect. */
  lemma OutsideSection(st: CommentState, raw: string)
    requires !InSection(st) && !SectionLine(Trim(raw))
    ensures CommentStep(st, raw) == st
  {
  }

  /** A comment whose text after the comment characters starts with '#' again is prose. */
  lemma NestedCommentIgnored(line: string)
    requires StartsWith(Trim(LStrip(line, CommentChars)), Hash)
    ensures SettingOf(line) == None
  {
  }

  /** The first '=' of `key=value` is the one after the key. */
  lemma SplitAtEquals(key: string, value: string)
    requires '=' !in key
    ensures var text := key + "=" + value;
      IndexOf(text, '=') == |key| && text[..|key|] == key && text[|key| + 1..] == value
  {
    var text := key + "=" + value;
    assert text[|key|] == '=';
    assert text[..|key|] == key;
    FirstInAt(text, {'='}, |key|);
    assert text[|key| + 1..] == value;
  }

  /** A value that starts and ends with a non-space character is its own strip. */
  predicate Trimmed(value: string)
  {
    value == [] || (value[0] !in Whitespace && value[|value| - 1] !in Whitespace)
  }

  lemma TrimmedTrim(value: string)
    requires Trimmed(value)
    ensures Trim(value) == value
  {
    if value != [] {
      StripUntouched(value, Whitespace);
    }
  }

  /** Any run of '#' and ';' before `key=value` marks a commented setting. */
  lemma SettingOfMarked(marks: string, key: string, value: string)
    requires marks != [] && Within(marks, CommentChars)
    requires IsIdentifier(key) && Trimmed(value)
    ensures SettingOf(marks + key + "=" + value) == Some((key, value))
  {
    var text := key + "=" + value;
    var line := marks + text;
    assert marks + key + "=" + value == line;
    assert line[0] == marks[0];
    assert StartsWith(line, Hash) || StartsWith(line, Semicolon);
    LStripPrefix(marks, text, CommentChars);
    IdentifierPlain(key);
    SettingTextPlain(key, value);
    SplitAtEquals(key, value);
    TrimmedTrim(value);
    SettingOfText(line, key, value);
  }

  /** The step of `SettingOf` once the comment marks are gone and nothing else strips. */
  lemma SettingOfText(line: string, key: string, value: string)
    requires StartsWith(line, Hash) || StartsWith(line, Semicolon)
    requires var text := key + "=" + value;
      LStrip(line, CommentChars) == text && Trim(text) == text
      && IndexOf(text, '=') == |key| && text[..|key|] == key && text[|key| + 1..] == value
    requires IsIdentifier(key) && Trim(key) == key && Trim(value) == value
    ensures SettingOf(line) == Some((key, value))
  {
    var text := key + "=" + value;
    IdentifierPlain(key);
    assert text[|key|] == '=';
    assert text[0] == key[0];
    assert !StartsWith(text, Hash) by {
      assert text[..1] == [key[0]];
    }
    assert Trim(LStrip(line, CommentChars)) == text;
    assert Trim(text[..|key|]) == key;
    assert Trim(text[|key| + 1..]) == value;
  }

  /** An identifier has no space, comment character or '=' and strips to itself. */
  lemma IdentifierPlain(key: string)
    requires IsIdentifier(key)
    ensures key[0] !in Whitespace && key[0] !in CommentChars && '=' !in key && Trim(key) == key
  {
    assert key[|key| - 1] !in Whitespace by {
      assert IsAsciiLetter(key[|key| - 1]) || IsDigit(key[|key| - 1]) || key[|key| - 1] == '_';
    }
    StripUntouched(key, Whitespace);
  }

  /** `key=value` is left alone by both the comment and the whitespace strip. */
  lemma SettingTextPlain(key: string, value: string)
    requires key != [] && key[0] !in Whitespace && key[0] !in CommentChars && Trimmed(value)
    ensures var text := key + "=" + value;
      LStrip(text, CommentChars) == text && Trim(text) == text
  {
    var text := key + "=" + value;
    assert text[0] == key[0];
    assert text[|text| - 1] !in Whitespace;
    StripUntouched(text, Whitespace);
  }

  /** A line carrying `key=value` inside a section records it. */
  lemma StepSetting(st: CommentState, raw: string, key: string, value: string)
    requires InSection(st) && SettingOf(Trim(raw)) == Some((key, value))
    ensures CommentStep(st, raw) == st.(commented := Put(st.commented, st.section.value, key, value))
  {
  }

  /** Setting a key twice keeps the second value. */
  lemma PutTwice(c: Settings, section: string, key: string, first: string, second: string)
    ensures Put(Put(c, section, key, first), section, key, second) == Put(c, section, key, second)
  {
    var once := Put(c, section, key, first);
    assert SectionOf(once, section)[key := second] == SectionOf(c, section)[key := second];
  }

  /** A second setting of the same key in the same section overwrites the first. */
  lemma LaterOverwrites(st: CommentState, a: string, b: string, key: string, first: string, second: string)
    requires InSection(st)
    requires SettingOf(Trim(a)) == Some((key, first)) && SettingOf(Trim(b)) == Some((key, second))
    ensures CommentRun(st, [a, b]).commented == Put(st.commented, st.section.value, key, second)
  {
    var s := st.section.value;
    StepSetting(st, a, key, first);
    var mid := st.(commented := Put(st.commented, s, key, first));
    StepSetting(mid, b, key, second);
    var last := mid.(commented := Put(mid.commented, s, key, second));
    assert [a, b][1..] == [b];
    assert CommentRun(st, [a, b]) == CommentRun(mid, [b]);
    assert CommentRun(mid, [b]) == CommentRun(last, []) == last;
    PutTwice(st.commented, s, key, first, second);
  }

  // ---------------------------------------------------------------------------
  // Writing a dump from a schema

  /** A file's entry in the schema: its active and its commented-out settings. */
  datatype SchemaEntry = SchemaEntry(active: Settings, commented: Settings)

  /** Schemas map file paths to entries. */
  type Schema = map<string, SchemaEntry>

  /** One line per key, in the order given: the marker, then `key=value`. */
  function SettingLines(marker: string, m: map<string, string>, keys: seq<string>): seq<string>
    requires forall i :: 0 <= i < |keys| ==> keys[i] in m
  {
    if keys == [] then [] else [marker + keys[0] + "=" + m[keys[0]]] + SettingLines(marker, m, keys[1..])
  }

  /** Every element of the sorted list is in the set. */
  lemma SortedMembers(s: set<string>)
    ensures forall j :: 0 <= j < |SortedOf(s)| ==> SortedOf(s)[j] in s
  {
    SortedOfProps(s);
  }

  /** The lines of a section's settings, keys sorted. */
  ghost function SortedSettingLines(marker: string, m: map<string, string>): seq<string>
  {
    SortedMembers(m.Keys);
    SettingLines(marker, m, SortedOf(m.Keys))
  }

  /** A section's lines: a blank line, `[section]`, the commented keys sorted, the active keys sorted. */
  ghost function SectionBlock(e: SchemaEntry, section: string): seq<string>
  {
    ["", OpenBracket + section + CloseBracket]
      + SortedSettingLines(Hash, SectionOf(e.commented, section))
      + SortedSettingLines("", SectionOf(e.active, section))
  }

  ghost function SectionLines(e: SchemaEntry, sections: seq<string>): seq<string>
  {
    if sections == [] then [] else SectionBlock(e, sections[0]) + SectionLines(e, sections[1..])
  }

  /** The sections of an entry: the sorted union of its active and commented sections. */
  ghost function SectionNames(e: SchemaEntry): seq<string>
  {
    SortedOf(e.active.Keys + e.commented.Keys)
  }

  ghost function EntryLines(e: SchemaEntry): seq<string>
  {
    SectionLines(e, SectionNames(e))
  }

  /** Each file's section lines. */
  ghost function Bodies(schema: Schema): map<string, seq<string>>
  {
    map p | p in schema :: EntryLines(schema[p])
  }

  /** The dump's lines for the given paths: a blank line between files, a "# path" header and a closing blank line for each. */
  function LinesFrom(bodies: map<string, seq<string>>, paths: seq<string>, first: bool): seq<string>
    requires forall i :: 0 <= i < |paths| ==> paths[i] in bodies
  {
    if paths == [] then [] else FileLines(paths[0], bodies[paths[0]], first) + LinesFrom(bodies, paths[1..], false)
  }

  /** One file's lines: a separating blank line unless it comes first, its header, its sections, a blank line. */
  function FileLines(path: string, body: seq<string>, first: bool): seq<string>
  {
    (if first then [] else [""]) + [SpaceMarker + path] + body + [""]
  }

  ghost function DumpLines(schema: Schema): seq<string>
  {
    SortedMembers(schema.Keys);
    LinesFrom(Bodies(schema), SortedOf(schema.Keys), true)
  }

  /** `systemd_dump_from_schema`: the lines joined, trailing whitespace dropped, one newline added. */
  ghost function DumpText(schema: Schema): string
  {
    RStrip(Join(DumpLines(schema), "\n"), Whitespace) + "\n"
  }

  lemma SettingLinesAt(marker: string, m: map<string, string>, keys: seq<string>, i: nat)
    requires i < |keys| && forall j :: 0 <= j < |keys| ==> keys[j] in m
    ensures SettingLines(marker, m, keys[i..])
      == [marker + keys[i] + "=" + m[keys[i]]] + SettingLines(marker, m, keys[i + 1..])
  {
    assert keys[i..][1..] == keys[i + 1..];
  }

  /** The lines of one section's settings, keys sorted. */
  method SettingLinesOf(marker: string, m: map<string, string>) returns (lines: seq<string>)
    ensures lines == SortedSettingLines(marker, m)
  {
    var keys := SortSet(m.Keys);
    SortedMembers(m.Keys);
    ghost var full := SettingLines(marker, m, keys);
    lines := [];
    for i := 0 to |keys|
      invariant full == lines + SettingLines(marker, m, keys[i..])
    {
      var line := marker + keys[i] + "=" + m[keys[i]];
      ghost var rest := SettingLines(marker, m, keys[i + 1..]);
      SettingLinesAt(marker, m, keys, i);
      AppendAssoc(lines, [line], rest);
      lines := lines + [line];
    }
    assert keys[|keys|..] == [];
  }

  /** The lines of one entry, sections sorted. */
  method EntryLinesOf(e: SchemaEntry) returns (lines: seq<string>)
    ensures lines == EntryLines(e)
  {
    var sections := SortSet(e.active.Keys + e.commented.Keys);
    ghost var full := SectionLines(e, sections);
    lines := [];
    for i := 0 to |sections|
      invariant full == lines + SectionLines(e, sections[i..])
    {
      var section := sections[i];
      var commented := SettingLinesOf(Hash, SectionOf(e.commented, section));
      var active := SettingLinesOf("", SectionOf(e.active, section));
      var block := ["", OpenBracket + section + CloseBracket] + commented + active;
      assert sections[i..][1..] == sections[i + 1..];
      assert SectionLines(e, sections[i..]) == block + SectionLines(e, sections[i + 1..]);
      AppendAssoc(lines, block, SectionLines(e, sections[i + 1..]));
      lines := lines + block;
    }
    assert sections[|sections|..] == [];
  }

  /** `systemd_dump_from_schema`. */
  method DumpFromSchema(schema: Schema) returns (text: string)
    ensures text == DumpText(schema)
  {
    var lines := DumpLinesOf(schema);
    text := RStrip(Join(lines, "\n"), Whitespace) + "\n";
  }

  /** The loop of `systemd_dump_from_schema` over the sorted paths. */
  method DumpLinesOf(schema: Schema) returns (lines: seq<string>)
    ensures lines == DumpLines(schema)
  {
    var paths := SortSet(schema.Keys);
    SortedMembers(schema.Keys);
    ghost var bodies := Bodies(schema);
    ghost var full := LinesFrom(bodies, paths, true);
    lines := [];
    for i := 0 to |paths|
      invariant (i == 0) == (lines == [])
      invariant full == lines + LinesFrom(bodies, paths[i..], i == 0)
    {
      var path := paths[i];
      var body := EntryLinesOf(schema[path]);
      assert body == bodies[path];
      ghost var rest := LinesFrom(bodies, paths[i + 1..], false);
      LinesFromAt(bodies, paths, i, i == 0);
      var chunk := FileLines(path, body, lines == []);
      AppendAssoc(lines, chunk, rest);
      lines := lines + chunk;
    }
    assert paths[|paths|..] == [];
    assert lines == full == DumpLines(schema);
  }

  lemma LinesFromAt(bodies: map<string, seq<string>>, paths: seq<string>, i: nat, first: bool)
    requires i < |paths| && forall j :: 0 <= j < |paths| ==> paths[j] in bodies
    ensures LinesFrom(bodies, paths[i..], first)
      == FileLines(paths[i], bodies[paths[i]], first) + LinesFrom(bodies, paths[i + 1..], false)
  {
    assert paths[i..][1..] == paths[i + 1..];
  }

  /** The dump ends with exactly one newline: the character before it is not whitespace. */
  lemma DumpEndsOnce(schema: Schema)
    ensures var t := DumpText(schema);
      EndsWith(t, "\n") && (|t| == 1 || t[|t| - 2] !in Whitespace)
  {
    var j := Join(DumpLines(schema), "\n");
    RStripProps(j, Whitespace);
  }

  // ---------------------------------------------------------------------------
  // Schema to dump and back

  /** A section name that `[name]` gives back once the brackets are stripped. */
  predicate SectionNameOk(section: string)
  {
    section != [] && Avoids(section, LineBreaks)
    && section[0] !in Brackets && section[|section| - 1] !in Brackets
  }

  /** Identifier keys and stripped single-line values. */
  predicate SettingsOk(m: map<string, string>)
  {
    forall k :: k in m ==> IsIdentifier(k) && Trimmed(m[k]) && Avoids(m[k], LineBreaks)
  }

  predicate EntryOk(e: SchemaEntry)
  {
    (forall s :: s in e.active.Keys + e.commented.Keys ==> SectionNameOk(s))
    && (forall s :: s in e.active ==> SettingsOk(e.active[s]))
    && (forall s :: s in e.commented ==> SettingsOk(e.commented[s]))
  }

  /** The schemas the dump format can carry: '/'-prefixed single-line paths and well-formed entries. */
  predicate SchemaOk(schema: Schema)
  {
    forall p :: p in schema ==> PathOk(p) && Avoids(p, LineBreaks) && EntryOk(schema[p])
  }

  /** A line of a file's body: no line break and not a header. */
  predicate GoodLine(line: string)
  {
    Avoids(line, LineBreaks) && HeaderPath(line).None?
  }

  predicate AllGood(lines: seq<string>)
  {
    forall j :: 0 <= j < |lines| ==> GoodLine(lines[j])
  }

  /** A line that ends in a character `rstrip` keeps. */
  predicate Solid(line: string)
  {
    line != [] && line[|line| - 1] !in Whitespace
  }

  lemma AllGoodAppend(a: seq<string>, b: seq<string>)
    requires AllGood(a) && AllGood(b)
    ensures AllGood(a + b)
  {
    forall j | 0 <= j < |a + b| ensures GoodLine((a + b)[j]) {
      if j >= |a| {
        assert (a + b)[j] == b[j - |a|];
      }
    }
  }

  lemma IdentifierBreakFree(key: string)
    requires IsIdentifier(key)
    ensures Avoids(key, LineBreaks) && key[0] != ' ' && key[0] != '/' && key[0] != '#' && key[0] != '['
  {
    forall i | 0 <= i < |key| ensures key[i] !in LineBreaks {
      assert IsAsciiLetter(key[i]) || IsDigit(key[i]) || key[i] == '_';
    }
  }

  lemma BlankGood()
    ensures GoodLine("")
  {
    ExtractOther("");
  }

  /** `[section]` is a body line, and solid. */
  lemma SectionHeaderGood(section: string)
    requires SectionNameOk(section)
    ensures GoodLine(OpenBracket + section + CloseBracket) && Solid(OpenBracket + section + CloseBracket)
  {
    var line := OpenBracket + section + CloseBracket;
    assert line[0] == '[';
    ExtractOther(line);
    assert forall i :: 0 <= i < |line| ==> line[i] == '[' || line[i] == ']' || line[i] == section[i - 1];
  }

  /** A setting line `marker key=value` is a body line, and solid. */
  lemma SettingLineGood(marker: string, key: string, value: string)
    requires marker == Hash || marker == ""
    requires IsIdentifier(key) && Trimmed(value) && Avoids(value, LineBreaks)
    ensures GoodLine(marker + key + "=" + value) && Solid(marker + key + "=" + value)
  {
    var line := marker + key + "=" + value;
    IdentifierBreakFree(key);
    assert line == marker + (key + "=" + value);
    assert line[|marker|] == key[0];
    if marker == Hash {
      assert line[1] == key[0];
    }
    ExtractOther(line);
    forall i | 0 <= i < |line| ensures line[i] !in LineBreaks {
      if i < |marker| {
      } else if i < |marker| + |key| {
        assert line[i] == key[i - |marker|];
      } else if i > |marker| + |key| {
        assert line[i] == value[i - |marker| - |key| - 1];
      }
    }
  }

  /** Setting lines are body lines, and the last one is solid. */
  lemma {:induction false} SettingLinesGood(marker: string, m: map<string, string>, keys: seq<string>)
    requires marker == Hash || marker == ""
    requires SettingsOk(m) && forall i :: 0 <= i < |keys| ==> keys[i] in m
    ensures var ls := SettingLines(marker, m, keys); AllGood(ls) && (ls != [] ==> Solid(ls[|ls| - 1]))
    decreases |keys|
  {
    if keys != [] {
      var k := keys[0];
      SettingLineGood(marker, k, m[k]);
      SettingLinesGood(marker, m, keys[1..]);
      AllGoodAppend([marker + k + "=" + m[k]], SettingLines(marker, m, keys[1..]));
    }
  }

  /** A section block is body lines and ends solid. */
  lemma SectionBlockGood(e: SchemaEntry, section: string)
    requires EntryOk(e) && section in e.active.Keys + e.commented.Keys
    ensures var ls := SectionBlock(e, section);
      AllGood(ls) && |ls| >= 2 && ls[0] == "" && ls[1] != [] && Solid(ls[|ls| - 1])
  {
    var c := SectionOf(e.commented, section);
    var a := SectionOf(e.active, section);
    SortedMembers(c.Keys);
    SortedMembers(a.Keys);
    var head := ["", OpenBracket + section + CloseBracket];
    var cl := SettingLines(Hash, c, SortedOf(c.Keys));
    var al := SettingLines("", a, SortedOf(a.Keys));
    assert SectionBlock(e, section) == head + cl + al;
    BlankGood();
    SectionHeaderGood(section);
    assert AllGood(head);
    SettingLinesGood(Hash, c, SortedOf(c.Keys));
    SettingLinesGood("", a, SortedOf(a.Keys));
    AllGoodAppend(head, cl);
    AllGoodAppend(head + cl, al);
  }

  /** The sections' blocks are body lines; when there are any, the first is blank and the last solid. */
  lemma {:induction false} SectionLinesGood(e: SchemaEntry, sections: seq<string>)
    requires EntryOk(e) && forall i :: 0 <= i < |sections| ==> sections[i] in e.active.Keys + e.commented.Keys
    ensures var ls := SectionLines(e, sections);
      AllGood(ls) && (sections == [] <==> ls == [])
      && (ls != [] ==> |ls| >= 2 && ls[0] == "" && ls[1] != [] && Solid(ls[|ls| - 1]))
    decreases |sections|
  {
    if sections != [] {
      var rest := sections[1..];
      forall i | 0 <= i < |rest| ensures rest[i] in e.active.Keys + e.commented.Keys {
        assert rest[i] == sections[i + 1];
      }
      var b := SectionBlock(e, sections[0]);
      var r := SectionLines(e, rest);
      assert SectionLines(e, sections) == b + r;
      SectionBlockGood(e, sections[0]);
      SectionLinesGood(e, rest);
      AllGoodAppend(b, r);
      assert (b + r)[0] == b[0] && (b + r)[1] == b[1];
      if r != [] {
        assert (b + r)[|b + r| - 1] == r[|r| - 1];
      } else {
        assert b + r == b;
      }
    }
  }

  /** Running over `a + b` is running over `a`, then over `b`. */
  lemma {:induction false} CommentRunAppend(st: CommentState, a: seq<string>, b: seq<string>)
    ensures CommentRun(st, a + b) == CommentRun(CommentRun(st, a), b)
    decreases |a|
  {
    if a == [] {
      assert a + b == b;
    } else {
      assert (a + b)[1..] == a[1..] + b;
      CommentRunAppend(CommentStep(st, a[0]), a[1..], b);
    }
  }

  /** A blank line changes nothing. */
  lemma BlankStep(st: CommentState)
    ensures CommentStep(st, "") == st
  {
    assert Trim("") == "";
  }

  /** `[section]` opens the section. */
  lemma SectionStep(st: CommentState, section: string)
    requires SectionNameOk(section)
    ensures CommentStep(st, OpenBracket + section + CloseBracket) == st.(section := Some(section))
  {
    var line := OpenBracket + section + CloseBracket;
    assert line[0] == '[' && line[|line| - 1] == ']';
    StripUntouched(line, Whitespace);
    assert line[..1] == OpenBracket;
    assert line[|line| - 1..] == CloseBracket;
    assert line[1..] == section + CloseBracket;
    assert LStrip(line, Brackets) == section + CloseBracket;
    assert (section + CloseBracket)[..|section|] == section;
    assert RStrip(section + CloseBracket, Brackets) == RStrip(section, Brackets) == section;
  }

  /** An active `key=value` line is not a commented setting. */
  lemma ActiveStep(st: CommentState, key: string, value: string)
    requires IsIdentifier(key) && Trimmed(value)
    ensures CommentStep(st, key + "=" + value) == st
  {
    IdentifierPlain(key);
    SettingTextPlain(key, value);
    var line := key + "=" + value;
    assert line[0] == key[0];
    IdentifierBreakFree(key);
  }

  /** A commented `#key=value` line inside a section records the setting. */
  lemma CommentedStep(st: CommentState, key: string, value: string)
    requires InSection(st) && IsIdentifier(key) && Trimmed(value)
    ensures CommentStep(st, Hash + key + "=" + value)
      == st.(commented := Put(st.commented, st.section.value, key, value))
  {
    var line := Hash + key + "=" + value;
    assert line == Hash + (key + "=" + value);
    assert line[0] == '#';
    assert line[|line| - 1] !in Whitespace by {
      if value == [] {
        assert line[|line| - 1] == '=';
      } else {
        assert line[|line| - 1] == value[|value| - 1];
      }
    }
    StripUntouched(line, Whitespace);
    assert Within(Hash, CommentChars);
    SettingOfMarked(Hash, key, value);
    StepSetting(st, line, key, value);
  }

  /** Active setting lines leave the state alone. */
  lemma {:induction false} ActiveRun(st: CommentState, m: map<string, string>, keys: seq<string>)
    requires SettingsOk(m) && forall i :: 0 <= i < |keys| ==> keys[i] in m
    ensures CommentRun(st, SettingLines("", m, keys)) == st
    decreases |keys|
  {
    if keys != [] {
      var k := keys[0];
      ActiveStep(st, k, m[k]);
      assert "" + k + "=" + m[k] == k + "=" + m[k];
      ActiveRun(st, m, keys[1..]);
    }
  }

  /** `Put` for each key in turn. */
  function PutAll(c: Settings, section: string, m: map<string, string>, keys: seq<string>): Settings
    requires forall i :: 0 <= i < |keys| ==> keys[i] in m
    decreases |keys|
  {
    if keys == [] then c else PutAll(Put(c, section, keys[0], m[keys[0]]), section, m, keys[1..])
  }

  /** Commented setting lines inside a section record each setting in turn. */
  lemma {:induction false} CommentedRun(st: CommentState, m: map<string, string>, keys: seq<string>)
    requires InSection(st) && SettingsOk(m) && forall i :: 0 <= i < |keys| ==> keys[i] in m
    ensures CommentRun(st, SettingLines(Hash, m, keys))
      == st.(commented := PutAll(st.commented, st.section.value, m, keys))
    decreases |keys|
  {
    if keys != [] {
      var k := keys[0];
      CommentedStep(st, k, m[k]);
      CommentedRun(st.(commented := Put(st.commented, st.section.value, k, m[k])), m, keys[1..]);
    }
  }

  /** The settings of the given keys. */
  function Restrict(m: map<string, string>, keys: seq<string>): map<string, string>
  {
    map k | k in keys && k in m :: m[k]
  }

  lemma RestrictCons(m: map<string, string>, keys: seq<string>)
    requires keys != [] && keys[0] in m
    ensures Restrict(m, keys) == Restrict(m, keys[1..])[keys[0] := m[keys[0]]]
  {
    forall x | x in keys ensures x == keys[0] || x in keys[1..] {
      var j :| 0 <= j < |keys| && keys[j] == x;
      if j > 0 {
        assert keys[1..][j - 1] == x;
      }
    }
  }

  /** Updating before a merge is updating after it, when the merged map agrees on the key. */
  lemma MergeUpdate<K, V>(a: map<K, V>, b: map<K, V>, k: K, v: V)
    requires k in b ==> b[k] == v
    ensures a[k := v] + b == (a + b[k := v])
  {
  }

  /** Recording the first key, then merging the rest, is merging them all. */
  lemma StepMerge(prior: map<string, string>, m: map<string, string>, keys: seq<string>)
    requires keys != [] && forall i :: 0 <= i < |keys| ==> keys[i] in m
    ensures prior[keys[0] := m[keys[0]]] + Restrict(m, keys[1..]) == prior + Restrict(m, keys)
  {
    RestrictCons(m, keys);
    MergeUpdate(prior, Restrict(m, keys[1..]), keys[0], m[keys[0]]);
  }

  /** Recording keys one by one adds them to the section. */
  lemma {:induction false} PutAllForm(c: Settings, section: string, m: map<string, string>, keys: seq<string>)
    requires forall i :: 0 <= i < |keys| ==> keys[i] in m
    ensures PutAll(c, section, m, keys)
      == if keys == [] then c else c[section := SectionOf(c, section) + Restrict(m, keys)]
    decreases |keys|
  {
    if keys != [] {
      var k := keys[0];
      var prior := SectionOf(c, section);
      var c1 := Put(c, section, k, m[k]);
      PutAllForm(c1, section, m, keys[1..]);
      StepMerge(prior, m, keys);
      if keys[1..] == [] {
        assert Restrict(m, keys[1..]) == map[];
        assert prior[k := m[k]] + map[] == prior[k := m[k]];
      } else {
        assert SectionOf(c1, section) == prior[k := m[k]];
      }
    }
  }

  /** Restricting to a list that holds every key changes nothing. */
  lemma RestrictAll(m: map<string, string>, keys: seq<string>)
    requires forall x :: x in m ==> x in keys
    ensures Restrict(m, keys) == m
  {
  }

  /** The sorted list holds every element, once. */
  lemma SortedCovers(s: set<string>)
    ensures forall x :: x in s ==> x in SortedOf(s)
    ensures |SortedOf(s)| == |s|
  {
    SortedOfProps(s);
  }

  /** Recording every key of a fresh section stores the section, unless it has no keys. */
  lemma FreshSection(c: Settings, section: string, m: map<string, string>, keys: seq<string>)
    requires section !in c && keys == SortedOf(m.Keys)
    requires forall i :: 0 <= i < |keys| ==> keys[i] in m
    ensures PutAll(c, section, m, keys) == if m == map[] then c else c[section := m]
  {
    SortedCovers(m.Keys);
    PutAllForm(c, section, m, keys);
    assert SectionOf(c, section) == map[];
    if keys != [] {
      RestrictAll(m, keys);
      assert map[] + m == m;
    } else {
      assert |m.Keys| == 0;
    }
  }

  /** A section's settings stored whole, unless it has none. */
  function AddSection(c: Settings, section: string, m: map<string, string>): Settings
  {
    if m == map[] then c else c[section := m]
  }

  /** The lines of one section block read back as that section's commented settings. */
  lemma BlockRunParts(st: CommentState, section: string, c: map<string, string>, a: map<string, string>,
                      ck: seq<string>, ak: seq<string>)
    requires SectionNameOk(section) && section !in st.commented
    requires SettingsOk(c) && SettingsOk(a) && ck == SortedOf(c.Keys)
    requires (forall i :: 0 <= i < |ck| ==> ck[i] in c) && (forall i :: 0 <= i < |ak| ==> ak[i] in a)
    ensures CommentRun(st, ["", OpenBracket + section + CloseBracket] + SettingLines(Hash, c, ck) + SettingLines("", a, ak))
      == CommentState(AddSection(st.commented, section, c), Some(section))
  {
    var head := ["", OpenBracket + section + CloseBracket];
    var cl := SettingLines(Hash, c, ck);
    var al := SettingLines("", a, ak);
    var st1 := st.(section := Some(section));
    HeadRun(st, section);
    CommentedRun(st1, c, ck);
    FreshSection(st.commented, section, c, ck);
    var st2 := st1.(commented := AddSection(st.commented, section, c));
    ActiveRun(st2, a, ak);
    CommentRunAppend(st, head, cl);
    CommentRunAppend(st, head + cl, al);
  }

  /** Two lines are two steps. */
  lemma RunTwo(st: CommentState, x: string, y: string)
    ensures CommentRun(st, [x, y]) == CommentStep(CommentStep(st, x), y)
  {
    var s1 := CommentStep(st, x);
    var s2 := CommentStep(s1, y);
    assert [x, y][1..] == [y];
    assert [y][1..] == [];
    assert CommentRun(s1, [y]) == CommentRun(s2, []) == s2;
  }

  /** A block's blank line and `[section]` line open the section. */
  lemma HeadRun(st: CommentState, section: string)
    requires SectionNameOk(section)
    ensures CommentRun(st, ["", OpenBracket + section + CloseBracket]) == st.(section := Some(section))
  {
    RunTwo(st, "", OpenBracket + section + CloseBracket);
    BlankStep(st);
    SectionStep(st, section);
  }

  /** A section block opens its section and stores its commented settings. */
  lemma BlockRun(st: CommentState, e: SchemaEntry, section: string)
    requires EntryOk(e) && section in e.active.Keys + e.commented.Keys && section !in st.commented
    ensures CommentRun(st, SectionBlock(e, section))
      == CommentState(AddSection(st.commented, section, SectionOf(e.commented, section)), Some(section))
  {
    var c := SectionOf(e.commented, section);
    var a := SectionOf(e.active, section);
    SortedMembers(c.Keys);
    SortedMembers(a.Keys);
    BlockRunParts(st, section, c, a, SortedOf(c.Keys), SortedOf(a.Keys));
  }

  /** The non-empty commented sections among the given ones. */
  ghost function Collected(e: SchemaEntry, sections: seq<string>): Settings
  {
    map s | s in sections && SectionOf(e.commented, s) != map[] :: SectionOf(e.commented, s)
  }

  lemma CollectedCons(e: SchemaEntry, sections: seq<string>)
    requires sections != []
    ensures var s := sections[0];
      Collected(e, sections) == AddSection(Collected(e, sections[1..]), s, SectionOf(e.commented, s))
  {
    var s := sections[0];
    forall x | x in sections ensures x == s || x in sections[1..] {
      var j :| 0 <= j < |sections| && sections[j] == x;
      if j > 0 {
        assert sections[1..][j - 1] == x;
      }
    }
  }

  /** A strictly sorted list's head is not repeated in its tail. */
  lemma SortedTail(xs: seq<string>)
    requires xs != [] && StrictlySorted(xs)
    ensures StrictlySorted(xs[1..]) && xs[0] !in xs[1..]
  {
    if xs[0] in xs[1..] {
      var j :| 0 <= j < |xs[1..]| && xs[1..][j] == xs[0];
      assert Less(xs[0], xs[j + 1]);
      LessIrreflexive(xs[0]);
    }
  }

  /** The section blocks read back as the non-empty commented sections. */
  lemma {:induction false} SectionsRun(st: CommentState, e: SchemaEntry, sections: seq<string>)
    requires EntryOk(e) && StrictlySorted(sections)
    requires forall i :: 0 <= i < |sections| ==> sections[i] in e.active.Keys + e.commented.Keys
    requires forall i :: 0 <= i < |sections| ==> sections[i] !in st.commented
    ensures CommentRun(st, SectionLines(e, sections)).commented == st.commented + Collected(e, sections)
    decreases |sections|
  {
    if sections == [] {
      assert Collected(e, sections) == map[];
    } else {
      var s := sections[0];
      var c := SectionOf(e.commented, s);
      BlockRun(st, e, s);
      var st1 := CommentState(AddSection(st.commented, s, c), Some(s));
      SortedTail(sections);
      forall i | 0 <= i < |sections[1..]| ensures sections[1..][i] !in st1.commented {
        assert sections[1..][i] == sections[i + 1];
      }
      SectionsRun(st1, e, sections[1..]);
      CommentRunAppend(st, SectionBlock(e, s), SectionLines(e, sections[1..]));
      CollectedCons(e, sections);
      var rest := Collected(e, sections[1..]);
      assert s !in rest;
      if c != map[] {
        MergeUpdate(st.commented, rest, s, c);
      }
    }
  }

  /** An entry's lines read back as its non-empty commented sections. */
  lemma EntryCommented(e: SchemaEntry)
    requires EntryOk(e)
    ensures CommentRun(CommentStart, EntryLines(e)).commented == NonEmptySections(e.commented)
  {
    var union := e.active.Keys + e.commented.Keys;
    SortedStrict(union);
    SortedMembers(union);
    SortedCovers(union);
    SectionsCommented(e, SortedOf(union));
  }

  /** Blocks for a sorted list of sections covering the commented ones read back as those sections. */
  lemma SectionsCommented(e: SchemaEntry, sections: seq<string>)
    requires EntryOk(e) && StrictlySorted(sections)
    requires forall i :: 0 <= i < |sections| ==> sections[i] in e.active.Keys + e.commented.Keys
    requires forall s :: s in e.commented ==> s in sections
    ensures CommentRun(CommentStart, SectionLines(e, sections)).commented == NonEmptySections(e.commented)
  {
    SectionsRun(CommentStart, e, sections);
    EmptyMerge(Collected(e, sections));
    CollectedAll(e, sections);
  }

  lemma EmptyMerge<K, V>(m: map<K, V>)
    ensures map[] + m == m
  {
  }

  /** Collecting over a list of every commented section gives its non-empty sections. */
  lemma CollectedAll(e: SchemaEntry, sections: seq<string>)
    requires forall s :: s in e.commented ==> s in sections
    ensures Collected(e, sections) == NonEmptySections(e.commented)
  {
  }

  lemma SortedStrict(s: set<string>)
    ensures StrictlySorted(SortedOf(s))
  {
    SortedOfProps(s);
  }

  /** Trailing blank lines do not change a body. */
  lemma BodyTrailing(lines: seq<string>)
    ensures Body(lines + ["", ""]) == Body(lines)
  {
    if lines == [] {
      assert [] + ["", ""] == ["", ""];
      assert Join(["", ""], "\n") == "\n";
      StripSnoc("", '\n', {'\n'});
    } else {
      JoinSnoc(lines, "", "\n");
      JoinSnoc(lines + [""], "", "\n");
      assert lines + [""] + [""] == lines + ["", ""];
      var j := Join(lines, "\n");
      assert Join(lines + ["", ""], "\n") == (j + "\n") + "\n";
      StripSnoc(j + "\n", '\n', {'\n'});
      StripSnoc(j, '\n', {'\n'});
    }
  }

  /** A body that opens with a blank line is the rest of its lines joined. */
  lemma BodyLeadingBlank(lines: seq<string>)
    requires |lines| >= 2 && lines[0] == "" && lines[1] != [] && Solid(lines[|lines| - 1])
    requires AllGood(lines)
    ensures Body(lines) == Join(lines[1..], "\n") && SplitLines(Body(lines)) == lines[1..]
  {
    var tail := lines[1..];
    var j := Join(tail, "\n");
    assert Join(lines, "\n") == "\n" + j;
    assert GoodLine(tail[0]);
    JoinFirstChar(tail, "\n");
    JoinLastChar(tail, "\n");
    assert tail[|tail| - 1] == lines[|lines| - 1];
    assert "\n"[0] == '\n';
    assert Within("\n", {'\n'});
    LStripPrefix("\n", j, {'\n'});
    assert '\n' in Whitespace;
    StripUntouched(j, {'\n'});
    forall k | 0 <= k < |tail| ensures Avoids(tail[k], LineBreaks) {
      assert GoodLine(lines[k + 1]);
    }
    SplitJoinNewline(tail);
  }

  /** An entry's body reads back as the entry's commented settings. */
  lemma EntryRoundTrip(e: SchemaEntry)
    requires EntryOk(e)
    ensures CommentedOf(Body(EntryLines(e))) == NonEmptySections(e.commented)
  {
    var union := e.active.Keys + e.commented.Keys;
    var lines := EntryLines(e);
    SortedMembers(union);
    SectionLinesGood(e, SortedOf(union));
    EntryCommented(e);
    var final := NonEmptySections(e.commented);
    assert NonEmptySections(final) == final;
    if lines == [] {
      SortedCovers(union);
      assert e.commented == map[];
      assert Join(lines, "\n") == "";
    } else {
      BodyLeadingBlank(lines);
      BlankStep(CommentStart);
      assert CommentRun(CommentStart, lines) == CommentRun(CommentStart, lines[1..]);
    }
  }

  // ---------------------------------------------------------------------------
  // The whole dump and back

  /** The bodies a dump can carry: body lines, opening with a blank line and closing solid. */
  predicate BodyOk(lines: seq<string>)
  {
    AllGood(lines) && (lines != [] ==> lines[0] == "" && Solid(lines[|lines| - 1]))
  }

  /** Paths the "# path" header gives back, each with a body the dump can carry. */
  predicate PathsOk(bodies: map<string, seq<string>>, paths: seq<string>)
  {
    forall i :: 0 <= i < |paths| ==>
      paths[i] in bodies && PathOk(paths[i]) && Avoids(paths[i], LineBreaks) && BodyOk(bodies[paths[i]])
  }

  /** A file the parser reads back line for line. */
  predicate FileGood(f: DumpFile)
  {
    PathOk(f.path) && Avoids(f.path, LineBreaks) && AllGood(f.lines)
    && (f.lines == [] || !StartsWith(f.lines[0], Banner))
  }

  /** The files the dump lines make: every file but the last keeps the two blank lines after it. */
  function DumpFiles(bodies: map<string, seq<string>>, paths: seq<string>): seq<DumpFile>
    requires forall i :: 0 <= i < |paths| ==> paths[i] in bodies
  {
    if paths == [] then []
    else if |paths| == 1 then [DumpFile(paths[0], bodies[paths[0]])]
    else [DumpFile(paths[0], bodies[paths[0]] + ["", ""])] + DumpFiles(bodies, paths[1..])
  }

  /** A file that is not the first is written after one blank line. */
  lemma LinesFromLater(bodies: map<string, seq<string>>, paths: seq<string>)
    requires paths != [] && forall i :: 0 <= i < |paths| ==> paths[i] in bodies
    ensures LinesFrom(bodies, paths, false) == [""] + LinesFrom(bodies, paths, true)
  {
    var own := [SpaceMarker + paths[0]] + bodies[paths[0]] + [""];
    assert FileLines(paths[0], bodies[paths[0]], false) == [""] + own;
    assert FileLines(paths[0], bodies[paths[0]], true) == own;
    var tail := paths[1..];
    assert forall i :: 0 <= i < |tail| ==> tail[i] == paths[i + 1];
    var rest := LinesFrom(bodies, tail, false);
    assert LinesFrom(bodies, paths, false) == [""] + own + rest;
    assert LinesFrom(bodies, paths, true) == own + rest;
  }

  /** The dump lines are the files, one after the other, and a final blank line. */
  lemma {:induction false} DumpLayout(bodies: map<string, seq<string>>, paths: seq<string>)
    requires paths != [] && forall i :: 0 <= i < |paths| ==> paths[i] in bodies
    ensures LinesFrom(bodies, paths, true) == Flatten(DumpFiles(bodies, paths)) + [""]
    decreases |paths|
  {
    if |paths| == 1 {
      LayoutSingle(bodies, paths);
    } else {
      DumpLayout(bodies, paths[1..]);
      LayoutStep(bodies, paths);
    }
  }

  lemma LayoutSingle(bodies: map<string, seq<string>>, paths: seq<string>)
    requires |paths| == 1 && paths[0] in bodies
    ensures LinesFrom(bodies, paths, true) == Flatten(DumpFiles(bodies, paths)) + [""]
  {
    var p := paths[0];
    var fs := DumpFiles(bodies, paths);
    assert LinesFrom(bodies, paths[1..], false) == [];
    assert fs == [DumpFile(p, bodies[p])];
    assert fs[1..] == [];
    assert Flatten(fs) == [SpaceMarker + p] + bodies[p];
  }

  /** The first file, with the blank line that ends it and the one that separates it from the next. */
  lemma LayoutStep(bodies: map<string, seq<string>>, paths: seq<string>)
    requires |paths| > 1 && forall i :: 0 <= i < |paths| ==> paths[i] in bodies
    requires LinesFrom(bodies, paths[1..], true) == Flatten(DumpFiles(bodies, paths[1..])) + [""]
    ensures LinesFrom(bodies, paths, true) == Flatten(DumpFiles(bodies, paths)) + [""]
  {
    var p := paths[0];
    var body := bodies[p];
    var header := SpaceMarker + p;
    var rest := paths[1..];
    var fs := DumpFiles(bodies, paths);
    LinesFromLater(bodies, rest);
    var tail := Flatten(DumpFiles(bodies, rest));
    assert fs[1..] == DumpFiles(bodies, rest);
    assert Flatten(fs) == [header] + (body + ["", ""]) + tail;
    assert LinesFrom(bodies, paths, true) == ([header] + body + [""]) + ([""] + (tail + [""]));
  }

  /** Every file the dump lines make is read back line for line. */
  lemma {:induction false} DumpFilesGood(bodies: map<string, seq<string>>, paths: seq<string>)
    requires PathsOk(bodies, paths)
    ensures var fs := DumpFiles(bodies, paths); forall i :: 0 <= i < |fs| ==> FileGood(fs[i])
    decreases |paths|
  {
    if paths != [] {
      var p := paths[0];
      assert PathOk(p) && Avoids(p, LineBreaks) && BodyOk(bodies[p]);
      if |paths| > 1 {
        assert PathsOk(bodies, paths[1..]) by {
          forall i | 0 <= i < |paths[1..]| ensures paths[1..][i] == paths[i + 1] { }
        }
        DumpFilesGood(bodies, paths[1..]);
        BlankGood();
        assert AllGood(["", ""]);
        AllGoodAppend(bodies[p], ["", ""]);
        assert (bodies[p] + ["", ""])[0] == "";
        var fs := DumpFiles(bodies, paths);
        forall i | 0 <= i < |fs| ensures FileGood(fs[i]) {
          if i > 0 {
            assert fs[i] == DumpFiles(bodies, paths[1..])[i - 1];
          }
        }
      }
    }
  }

  /** The lines of good files hold no line break. */
  lemma {:induction false} FlattenBreakFree(fs: seq<DumpFile>)
    requires forall i :: 0 <= i < |fs| ==> FileGood(fs[i])
    ensures forall k :: 0 <= k < |Flatten(fs)| ==> Avoids(Flatten(fs)[k], LineBreaks)
    decreases |fs|
  {
    if fs != [] {
      var f := fs[0];
      assert FileGood(f);
      assert forall i :: 0 <= i < |fs[1..]| ==> fs[1..][i] == fs[i + 1];
      FlattenBreakFree(fs[1..]);
      var header := SpaceMarker + f.path;
      forall k | 0 <= k < |header| ensures header[k] !in LineBreaks {
        if k >= 2 {
          assert header[k] == f.path[k - 2];
        }
      }
      var ls := Flatten(fs);
      var tail := Flatten(fs[1..]);
      assert ls == [header] + f.lines + tail;
      assert Avoids(header, LineBreaks);
      forall k | 0 <= k < |ls| ensures Avoids(ls[k], LineBreaks) {
        if k == 0 {
          assert ls[0] == header;
        } else if k <= |f.lines| {
          assert ls[k] == f.lines[k - 1];
          assert GoodLine(f.lines[k - 1]);
        } else if k > |f.lines| {
          assert ls[k] == tail[k - 1 - |f.lines|];
          assert Avoids(tail[k - 1 - |f.lines|], LineBreaks);
        }
      }
    }
  }

  /** The dump's last file line is solid: the last body line, or the last header. */
  lemma {:induction false} DumpLastSolid(bodies: map<string, seq<string>>, paths: seq<string>)
    requires paths != [] && PathsOk(bodies, paths)
    ensures var ls := Flatten(DumpFiles(bodies, paths)); ls != [] && Solid(ls[|ls| - 1])
    decreases |paths|
  {
    var p := paths[0];
    var header := SpaceMarker + p;
    assert PathOk(p) && BodyOk(bodies[p]);
    var fs := DumpFiles(bodies, paths);
    if |paths| == 1 {
      assert fs[1..] == [];
      assert Flatten(fs) == [header] + bodies[p];
      assert header[|header| - 1] == p[|p| - 1];
    } else {
      assert PathsOk(bodies, paths[1..]) by {
        forall i | 0 <= i < |paths[1..]| ensures paths[1..][i] == paths[i + 1] { }
      }
      DumpLastSolid(bodies, paths[1..]);
      assert fs[1..] == DumpFiles(bodies, paths[1..]);
      var tail := Flatten(fs[1..]);
      assert Flatten(fs) == [header] + (bodies[p] + ["", ""]) + tail;
    }
  }

  /** `rstrip` drops a trailing character it strips. */
  lemma RStripSnoc(s: string, c: char, cs: set<char>)
    requires c in cs
    ensures RStrip(s + [c], cs) == RStrip(s, cs)
  {
    assert (s + [c])[..|s|] == s;
  }

  /** Stripping the joined dump drops exactly the newline the closing blank line adds. */
  lemma DumpTextStripped(bodies: map<string, seq<string>>, paths: seq<string>)
    requires paths != [] && PathsOk(bodies, paths)
    ensures RStrip(Join(LinesFrom(bodies, paths, true), "\n"), Whitespace) == Join(Flatten(DumpFiles(bodies, paths)), "\n")
  {
    var ls := Flatten(DumpFiles(bodies, paths));
    DumpLayout(bodies, paths);
    DumpLastSolid(bodies, paths);
    JoinSnoc(ls, "", "\n");
    var j := Join(ls, "\n");
    assert Join(LinesFrom(bodies, paths, true), "\n") == j + "\n";
    RStripSnoc(j, '\n', Whitespace);
    var z := ls[|ls| - 1];
    assert Solid(z);
    JoinLastChar(ls, "\n");
    assert j != [] && j[|j| - 1] !in Whitespace;
  }

  /** The dump text splits into the header and body lines of its files. */
  lemma DumpTextLines(bodies: map<string, seq<string>>, paths: seq<string>)
    requires paths != [] && PathsOk(bodies, paths)
    ensures SplitLines(RStrip(Join(LinesFrom(bodies, paths, true), "\n"), Whitespace) + "\n")
      == Flatten(DumpFiles(bodies, paths))
  {
    var fs := DumpFiles(bodies, paths);
    var ls := Flatten(fs);
    DumpTextStripped(bodies, paths);
    DumpLastSolid(bodies, paths);
    DumpFilesGood(bodies, paths);
    FlattenBreakFree(fs);
    JoinNewlineAppend(ls);
    SplitJoinLines(ls);
  }

  /** Each path's body, joined. */
  function BodyMap(bodies: map<string, seq<string>>, paths: seq<string>): map<string, string>
    requires forall i :: 0 <= i < |paths| ==> paths[i] in bodies
  {
    map p | p in paths :: Body(bodies[p])
  }

  lemma BodyMapCons(bodies: map<string, seq<string>>, paths: seq<string>)
    requires paths != [] && forall i :: 0 <= i < |paths| ==> paths[i] in bodies
    ensures BodyMap(bodies, paths) == BodyMap(bodies, paths[1..])[paths[0] := Body(bodies[paths[0]])]
  {
    forall x | x in paths ensures x == paths[0] || x in paths[1..] {
      var j :| 0 <= j < |paths| && paths[j] == x;
      if j > 0 {
        assert paths[1..][j - 1] == x;
      }
    }
  }

  /** Storing the dump's files stores each path's body: the blank lines between files do not count. */
  lemma {:induction false} ApplyDumpFiles(m: map<string, string>, bodies: map<string, seq<string>>, paths: seq<string>)
    requires forall i :: 0 <= i < |paths| ==> paths[i] in bodies
    ensures Apply(m, DumpFiles(bodies, paths)) == m + BodyMap(bodies, paths)
    decreases |paths|
  {
    if paths == [] {
      assert BodyMap(bodies, paths) == map[];
      EmptyMergeRight(m);
    } else {
      var p := paths[0];
      var b := Body(bodies[p]);
      var fs := DumpFiles(bodies, paths);
      BodyMapCons(bodies, paths);
      var rest := BodyMap(bodies, paths[1..]);
      if |paths| == 1 {
        assert rest == map[];
        assert fs[1..] == [];
        assert Apply(m, fs) == m[p := b];
      } else {
        BodyTrailing(bodies[p]);
        assert fs[1..] == DumpFiles(bodies, paths[1..]);
        assert Apply(m, fs) == Apply(m[p := b], DumpFiles(bodies, paths[1..]));
        ApplyDumpFiles(m[p := b], bodies, paths[1..]);
        MergeUpdate(m, rest, p, b);
      }
    }
  }

  lemma EmptyMergeRight<K, V>(m: map<K, V>)
    ensures m + map[] == m
  {
  }

  /** A well-formed entry's lines form a body the dump can carry. */
  lemma EntryBodyOk(e: SchemaEntry)
    requires EntryOk(e)
    ensures BodyOk(EntryLines(e))
  {
    SortedMembers(e.active.Keys + e.commented.Keys);
    SectionLinesGood(e, SectionNames(e));
  }

  /** The sorted paths of a well-formed schema, with their bodies, are what the dump can carry. */
  lemma SchemaPathsOk(schema: Schema)
    requires SchemaOk(schema)
    ensures PathsOk(Bodies(schema), SortedOf(schema.Keys))
  {
    var ps := SortedOf(schema.Keys);
    SortedMembers(schema.Keys);
    forall i | 0 <= i < |ps| ensures BodyOk(Bodies(schema)[ps[i]]) {
      EntryBodyOk(schema[ps[i]]);
    }
  }

  /** The dump text for at least one path parses back to each path's body. */
  lemma DumpParsesFrom(bodies: map<string, seq<string>>, paths: seq<string>)
    requires paths != [] && PathsOk(bodies, paths)
    ensures ParseDumpOf(RStrip(Join(LinesFrom(bodies, paths, true), "\n"), Whitespace) + "\n")
      == BodyMap(bodies, paths)
  {
    var fs := DumpFiles(bodies, paths);
    DumpTextLines(bodies, paths);
    DumpFilesGood(bodies, paths);
    FilesRoundTrip(fs);
    ApplyDumpFiles(map[], bodies, paths);
    EmptyMerge(BodyMap(bodies, paths));
  }

  /** An empty schema is written as a single newline, which holds no files. */
  lemma EmptyDump()
    ensures DumpText(map[]) == "\n" && ParseDumpOf("\n") == map[]
  {
    SortedCovers({});
    assert SplitLines("\n") == [""] by {
      assert FirstIn("\n", LineBreaks) == 0;
      assert "\n"[1..] == [];
    }
    ExtractOther("");
    assert DumpStep(DumpStart, "") == DumpStart;
  }

  /** `systemd_dump_from_schema` then `parse_systemd_dump`: one file per schema path, holding its entry's lines. */
  lemma DumpParses(schema: Schema)
    requires SchemaOk(schema)
    ensures ParseDumpOf(DumpText(schema)) == map p | p in schema :: Body(EntryLines(schema[p]))
  {
    if schema == map[] {
      EmptyDump();
    } else {
      DumpParsesBodies(schema);
      BodyMapOfSchema(schema);
    }
  }

  /** Each path's body, over the sorted paths. */
  ghost function SchemaBodies(schema: Schema): map<string, string>
  {
    SortedMembers(schema.Keys);
    BodyMap(Bodies(schema), SortedOf(schema.Keys))
  }

  lemma DumpParsesBodies(schema: Schema)
    requires SchemaOk(schema) && schema != map[]
    ensures ParseDumpOf(DumpText(schema)) == SchemaBodies(schema)
  {
    var ps := SortedOf(schema.Keys);
    SortedCovers(schema.Keys);
    SortedMembers(schema.Keys);
    assert ps != [] by {
      var p :| p in schema;
    }
    SchemaPathsOk(schema);
    DumpParsesFrom(Bodies(schema), ps);
  }

  /** Every path of the schema is in the sorted list, so the body map covers the schema. */
  lemma BodyMapOfSchema(schema: Schema)
    ensures SchemaBodies(schema) == map p | p in schema :: Body(EntryLines(schema[p]))
  {
    SortedCovers(schema.Keys);
    SortedMembers(schema.Keys);
  }

  /**
   * `systemd_schema_from_dump`: each parsed file's active settings (supplied by `active`, which
   * stands for the configparser reading) and commented settings.
   */
  function SchemaFromDump(dump: string, active: string -> Settings): (r: Schema)
    ensures r.Keys == HeadersOf(SplitLines(dump))
  {
    ParseKeys(dump);
    SchemaOfFiles(ParseDumpOf(dump), active)
  }

  /** The schema entry of each parsed file. */
  function SchemaOfFiles(files: map<string, string>, active: string -> Settings): (r: Schema)
    ensures r.Keys == files.Keys
    ensures forall p :: p in r ==> r[p].commented == CommentedOf(files[p])
  {
    map p | p in files :: SchemaEntry(active(files[p]), CommentedOf(files[p]))
  }

  /**
   * Schema to dump and back: the same paths, and each path's commented settings, less its empty
   * sections.
   */
  lemma SchemaRoundTrip(schema: Schema, active: string -> Settings)
    requires SchemaOk(schema)
    ensures var back := SchemaFromDump(DumpText(schema), active);
      back.Keys == schema.Keys
      && forall p :: p in schema ==> back[p].commented == NonEmptySections(schema[p].commented)
  {
    var files := ParseDumpOf(DumpText(schema));
    DumpParses(schema);
    EntriesBack(schema);
  }

  /** Every entry's body gives back its commented settings. */
  lemma EntriesBack(schema: Schema)
    requires SchemaOk(schema)
    ensures forall p :: p in schema ==>
      CommentedOf(Body(EntryLines(schema[p]))) == NonEmptySections(schema[p].commented)
  {
    forall p | p in schema
      ensures CommentedOf(Body(EntryLines(schema[p]))) == NonEmptySections(schema[p].commented)
    {
      EntryRoundTrip(schema[p]);
    }
  }

  // ---------------------------------------------------------------------------
  // Drop-in files

  /** The drop-in file name every edit writes. */
  const DropinName := "99-automatic-linux-network-repair.conf"
  const DropinSuffix := ".d"

  /** `_build_dropin_path`: the override directory when one is given, otherwise `<target>.d`. */
  function DropinPath(target: string, overrideDir: Option<string>): (r: string)
    ensures EndsWith(r, DropinName)
    ensures overrideDir.Some? && overrideDir.value != [] ==> StartsWith(r, overrideDir.value)
    ensures !(overrideDir.Some? && overrideDir.value != []) ==> StartsWith(r, target + DropinSuffix)
  {
    assert DropinName[0] == '9';
    var dir := if overrideDir.Some? && overrideDir.value != [] then overrideDir.value else target + DropinSuffix;
    PathJoin(dir, DropinName)
  }

  /** The file sits directly in the chosen directory, "/" joining them unless the directory ends with one. */
  lemma DropinLayout(target: string, overrideDir: Option<string>)
    ensures overrideDir.Some? && overrideDir.value != [] && !EndsWith(overrideDir.value, "/")
      ==> DropinPath(target, overrideDir) == overrideDir.value + "/" + DropinName
    ensures overrideDir.Some? && EndsWith(overrideDir.value, "/")
      ==> DropinPath(target, overrideDir) == overrideDir.value + DropinName
    ensures (overrideDir.None? || overrideDir == Some([]))
      ==> DropinPath(target, overrideDir) == target + DropinSuffix + "/" + DropinName
  {
    assert DropinName[0] == '9';
    assert !StartsWith(DropinName, "/");
  }
}
