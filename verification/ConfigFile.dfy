/** The per-peer `config.toml`: two quoted scalar keys, written with quotes escaped and read line by line. */
module ConfigFile {
  import opened Wrappers

  const STORAGE_KEY := "storage_backend"
  const LABEL_KEY := "label"
  const SQLITE := "sqlite"
  const COMMENT_1 := "# entity-core-godot peer configuration"
  const COMMENT_2 := "# Spec: GUIDE-PERSISTENCE.md \U{00A7}1"

  datatype PeerConfig = PeerConfig(storageBackend: string, labelText: Option<string>)

  const DefaultConfig := PeerConfig(SQLITE, None)

  // ---------- string operations ----------

  /** Unicode white space. */
  predicate IsSpace(c: char) {
    var n := c as int;
    9 <= n <= 13 || n == 32 || n == 0x85 || n == 0xA0 || n == 0x1680 || 0x2000 <= n <= 0x200A
    || n == 0x2028 || n == 0x2029 || n == 0x202F || n == 0x205F || n == 0x3000
  }

  function TrimStart(s: string): (r: string)
    ensures s != "" && !IsSpace(s[0]) ==> r == s
  {
    if s != "" && IsSpace(s[0]) then TrimStart(s[1..]) else s
  }

  function TrimEnd(s: string): (r: string)
    ensures s != "" && !IsSpace(s[|s| - 1]) ==> r == s
  {
    if s != "" && IsSpace(s[|s| - 1]) then TrimEnd(s[..|s| - 1]) else s
  }

  function Trim(s: string): string {
    TrimEnd(TrimStart(s))
  }

  /** The lines of a text: each newline ends one, a carriage return before it goes too, and an empty last one is dropped. */
  function Lines(s: string): seq<string>
    decreases |s|
  {
    if s == "" then []
    else
      var i := FirstIndex(s, '\n');
      if i == |s| then [s] else [DropReturn(s[..i])] + Lines(s[i + 1..])
  }

  function DropReturn(line: string): string {
    if line != "" && line[|line| - 1] == '\r' then line[..|line| - 1] else line
  }

  /** Where a character first occurs, or the length. */
  function FirstIndex(s: string, c: char): (i: nat)
    ensures i <= |s| && c !in s[..i] && (i < |s| ==> s[i] == c)
  {
    if s == "" then 0
    else if s[0] == c then 0
    else
      var i := FirstIndex(s[1..], c);
      assert s[..i + 1] == [s[0]] + s[1..][..i];
      i + 1
  }

  function Escape(s: string): string {
    if s == "" then "" else (if s[0] == '"' then ['\\', '"'] else [s[0]]) + Escape(s[1..])
  }

  /** Replacing each backslash and quote by the quote, left to right. */
  function Unescape(s: string): string {
    if s == "" then ""
    else if |s| >= 2 && s[0] == '\\' && s[1] == '"' then ['"'] + Unescape(s[2..])
    else [s[0]] + Unescape(s[1..])
  }

  /** Surrounding quotes go only as a pair. */
  function StripQuotes(v: string): string {
    if |v| >= 2 && v[0] == '"' && v[|v| - 1] == '"' then v[1..|v| - 1] else v
  }

  function Unquote(v: string): string {
    Unescape(StripQuotes(Trim(v)))
  }

  // ---------- reading and writing ----------

  /** The key and the raw value of a line that sets something. */
  function Setting(line: string): Option<(string, string)> {
    var t := Trim(line);
    var i := FirstIndex(t, '=');
    if t == "" || t[0] == '#' || i == |t| then None else Some((Trim(t[..i]), t[i + 1..]))
  }

  function Assign(cfg: PeerConfig, key: string, value: string): PeerConfig {
    if key == STORAGE_KEY then cfg.(storageBackend := value)
    else if key == LABEL_KEY then cfg.(labelText := if value == "" then None else Some(value))
    else cfg
  }

  function ReadLine(cfg: PeerConfig, line: string): PeerConfig {
    match Setting(line)
    case None => cfg
    case Some((key, raw)) => Assign(cfg, key, Unquote(raw))
  }

  function ReadLines(cfg: PeerConfig, lines: seq<string>): PeerConfig {
    if lines == [] then cfg else ReadLine(ReadLines(cfg, lines[..|lines| - 1]), lines[|lines| - 1])
  }

  /** `read_config`, given the text of the file if it could be read. */
  function Read(body: Option<string>): PeerConfig {
    if body.None? then DefaultConfig else ReadLines(DefaultConfig, Lines(body.value))
  }

  function Quoted(key: string, value: string): string {
    key + " = \"" + Escape(value) + "\""
  }

  /** The text `write_config` writes. */
  function Written(labelText: Option<string>): string {
    COMMENT_1 + "\n" + (COMMENT_2 + "\n" + (Quoted(STORAGE_KEY, SQLITE) + "\n" +
      ((if labelText.Some? then Quoted(LABEL_KEY, labelText.value) else "") + "\n")))
  }

  method ReadConfig(body: Option<string>) returns (cfg: PeerConfig)
    ensures cfg == Read(body)
  {
    cfg := DefaultConfig;
    if body.None? { return; }
    var lines := Lines(body.value);
    for i := 0 to |lines|
      invariant cfg == ReadLines(DefaultConfig, lines[..i])
    {
      assert lines[..i + 1][..i] == lines[..i];
      var setting := Setting(lines[i]);
      if setting.Some? {
        var (key, raw) := setting.value;
        if key == STORAGE_KEY {
          cfg := cfg.(storageBackend := Unquote(raw));
        } else if key == LABEL_KEY {
          var l := Unquote(raw);
          cfg := cfg.(labelText := if l == "" then None else Some(l));
        }
      }
    }
    assert lines[..|lines|] == lines;
  }

  // ---------- a quoted setting reads back ----------

  lemma {:induction false} UnescapeEscape(s: string)
    ensures Unescape(Escape(s)) == s
    ensures Escape(s) != "" ==> Escape(s)[0] != '"'
    decreases |s|
  {
    if s != "" {
      UnescapeEscape(s[1..]);
      var rest := Escape(s[1..]);
      if s[0] == '"' {
        assert Escape(s)[2..] == rest;
      } else {
        assert Escape(s)[1..] == rest;
        assert |Escape(s)| >= 2 ==> Escape(s)[1] == rest[0];
      }
    }
  }

  lemma {:induction false} FirstIndexIs(s: string, c: char, i: nat)
    requires i < |s| && s[i] == c && c !in s[..i]
    ensures FirstIndex(s, c) == i
    decreases i
  {
    if i > 0 {
      assert s[0] in s[..i];
      assert forall x :: x in s[1..][..i - 1] ==> x in s[..i];
      FirstIndexIs(s[1..], c, i - 1);
    }
  }

  ghost predicate PlainKey(key: string) {
    key != "" && key[0] != '#' && '=' !in key && !IsSpace(key[0]) && !IsSpace(key[|key| - 1])
  }

  lemma TrimOf(s: string)
    requires s != "" && !IsSpace(s[0]) && !IsSpace(s[|s| - 1])
    ensures Trim(s) == s
  {}

  /** Trimming one space off either end. */
  lemma TrimSpace(s: string)
    requires s != "" && !IsSpace(s[0]) && !IsSpace(s[|s| - 1])
    ensures Trim(s + " ") == s && Trim(" " + s) == s
  {
    assert (s + " ")[0] == s[0] && (s + " ")[..|s|] == s;
    assert (" " + s)[1..] == s;
  }

  lemma {:induction false} QuotedIsSetting(key: string, value: string)
    requires PlainKey(key)
    ensures Setting(Quoted(key, value)) == Some((key, " " + ("\"" + Escape(value) + "\"")))
    ensures DropReturn(Quoted(key, value)) == Quoted(key, value)
  {
    var line := Quoted(key, value);
    var inner := "\"" + Escape(value) + "\"";
    assert line == (key + " ") + ("=" + (" " + inner));
    assert line[0] == key[0] && line[|line| - 1] == '"';
    TrimOf(line);
    var i := |key| + 1;
    assert line[..i] == key + " " && line[i] == '=' && line[i + 1..] == " " + inner;
    FirstIndexIs(line, '=', i);
    TrimSpace(key);
  }

  lemma {:induction false} QuotedUnquotes(value: string)
    ensures Unquote(" " + ("\"" + Escape(value) + "\"")) == value
  {
    var inner := "\"" + Escape(value) + "\"";
    assert inner[0] == '"' && inner[|inner| - 1] == '"';
    TrimSpace(inner);
    assert StripQuotes(inner) == Escape(value);
    UnescapeEscape(value);
  }

  /** A quoted setting sets its key to its value, whatever quotes, backslashes, equals signs and white space the value holds. */
  lemma {:induction false} QuotedReadsBack(cfg: PeerConfig, key: string, value: string)
    requires PlainKey(key)
    ensures ReadLine(cfg, Quoted(key, value)) == Assign(cfg, key, value)
    ensures DropReturn(Quoted(key, value)) == Quoted(key, value)
  {
    QuotedIsSetting(key, value);
    QuotedUnquotes(value);
  }

  /** A bare value without quotes, backslashes and surrounding white space is taken as it is, with or without spaces around the equals sign. */
  lemma {:induction false} BareReadsBack(cfg: PeerConfig, key: string, gap: string, value: string)
    requires PlainKey(key) && (gap == "" || gap == " ")
    requires value != "" && !IsSpace(value[0]) && !IsSpace(value[|value| - 1]) && '\\' !in value && '"' !in value
    ensures ReadLine(cfg, key + gap + "=" + gap + value) == Assign(cfg, key, value)
  {
    BareIsSetting(key, gap, value);
    BareTrims(gap, value);
    NothingEscaped(value);
  }

  lemma BareTrims(gap: string, value: string)
    requires value != "" && !IsSpace(value[0]) && !IsSpace(value[|value| - 1]) && (gap == "" || gap == " ")
    ensures Trim(gap + value) == value
  {
    if gap == "" {
      assert gap + value == value;
      TrimOf(value);
    } else {
      TrimSpace(value);
    }
  }

  lemma SplitsAtEquals(a: string, b: string)
    requires '=' !in a
    ensures var line := a + "=" + b; FirstIndex(line, '=') == |a| && line[..|a|] == a && line[|a| + 1..] == b
  {
    var line := a + "=" + b;
    assert line[..|a|] == a && line[|a|] == '=';
    FirstIndexIs(line, '=', |a|);
  }

  lemma SettingOf(a: string, b: string)
    requires '=' !in a && a != "" && a[0] != '#' && Trim(a + "=" + b) == a + "=" + b
    ensures Setting(a + "=" + b) == Some((Trim(a), b))
  {
    SplitsAtEquals(a, b);
    assert (a + "=" + b)[0] == a[0];
  }

  lemma {:induction false} BareIsSetting(key: string, gap: string, value: string)
    requires PlainKey(key) && value != "" && !IsSpace(value[|value| - 1]) && (gap == "" || gap == " ")
    ensures Setting(key + gap + "=" + gap + value) == Some((key, gap + value))
  {
    var a, b := key + gap, gap + value;
    var line := a + "=" + b;
    assert line == key + gap + "=" + gap + value;
    assert line[0] == key[0] && line[|line| - 1] == value[|value| - 1];
    TrimOf(line);
    SettingOf(a, b);
    if gap == "" { assert a == key; TrimOf(key); } else { TrimSpace(key); }
  }

  lemma {:induction false} NothingEscaped(s: string)
    requires '\\' !in s && '"' !in s
    ensures Unescape(s) == s && StripQuotes(s) == s
    decreases |s|
  {
    if s != "" {
      assert s[0] in s;
      assert forall c :: c in s[1..] ==> c in s;
      NothingEscaped(s[1..]);
      assert s == [s[0]] + s[1..];
    }
  }

  /** Of two settings of one key the later one counts. */
  lemma {:induction false} LaterSettingWins(cfg: PeerConfig, line: string, key: string, value: string)
    requires PlainKey(key) && Setting(line).Some? && Setting(line).value.0 == key
    ensures ReadLine(ReadLine(cfg, line), Quoted(key, value)) == ReadLine(cfg, Quoted(key, value))
  {
    QuotedReadsBack(cfg, key, value);
    QuotedReadsBack(ReadLine(cfg, line), key, value);
  }

  // ---------- lines ----------

  lemma {:induction false} EscapeKeepsLine(s: string)
    ensures '\n' in Escape(s) <==> '\n' in s
    decreases |s|
  {
    if s != "" {
      EscapeKeepsLine(s[1..]);
      assert s == [s[0]] + s[1..];
    }
  }

  lemma LinesCons(line: string, rest: string)
    requires '\n' !in line
    ensures Lines(line + "\n" + rest) == [DropReturn(line)] + Lines(rest)
  {
    var s := line + "\n" + rest;
    assert s[..|line|] == line && s[|line|] == '\n' && s[|line| + 1..] == rest;
    FirstIndexIs(s, '\n', |line|);
  }

  lemma {:induction false} ReadCons(cfg: PeerConfig, line: string, rest: seq<string>)
    ensures ReadLines(cfg, [line] + rest) == ReadLines(ReadLine(cfg, line), rest)
    decreases |rest|
  {
    if rest == [] {
      assert [line] + rest == [line] && [line][..0] == [];
      assert ReadLines(cfg, [line][..0]) == cfg;
    } else {
      var all, front, last := [line] + rest, rest[..|rest| - 1], rest[|rest| - 1];
      assert all[..|all| - 1] == [line] + front && all[|all| - 1] == last;
      ReadCons(cfg, line, front);
      assert ReadLines(cfg, all) == ReadLine(ReadLines(cfg, [line] + front), last);
    }
  }

  lemma CommentIgnored(cfg: PeerConfig, line: string)
    requires line != "" && line[0] == '#'
    ensures ReadLine(cfg, line) == cfg && ReadLine(cfg, DropReturn(line)) == cfg
  {
    CommentTrims(line);
    if |line| > 1 { CommentTrims(line[..|line| - 1]); }
  }

  lemma {:induction false} CommentTrims(line: string)
    requires line != "" && line[0] == '#'
    ensures Trim(line) != "" && Trim(line)[0] == '#'
    decreases |line|
  {
    if IsSpace(line[|line| - 1]) {
      CommentTrims(line[..|line| - 1]);
    }
  }

  lemma KeysArePlain()
    ensures PlainKey(STORAGE_KEY) && PlainKey(LABEL_KEY) && STORAGE_KEY != LABEL_KEY
  {
    assert STORAGE_KEY[|STORAGE_KEY| - 1] == 'd' && LABEL_KEY[|LABEL_KEY| - 1] == 'l';
  }

  /** The first line of a text takes effect first. */
  lemma ReadAhead(cfg: PeerConfig, line: string, rest: string)
    requires '\n' !in line
    ensures ReadLines(cfg, Lines(line + "\n" + rest)) == ReadLines(ReadLine(cfg, DropReturn(line)), Lines(rest))
  {
    LinesCons(line, rest);
    ReadCons(cfg, DropReturn(line), Lines(rest));
  }

  lemma CommentAhead(line: string, rest: string)
    requires line != "" && line[0] == '#' && '\n' !in line
    ensures ReadLines(DefaultConfig, Lines(line + "\n" + rest)) == ReadLines(DefaultConfig, Lines(rest))
  {
    ReadAhead(DefaultConfig, line, rest);
    CommentIgnored(DefaultConfig, line);
  }

  lemma {:induction false} StorageAhead(rest: string)
    ensures ReadLines(DefaultConfig, Lines(Quoted(STORAGE_KEY, SQLITE) + "\n" + rest)) == ReadLines(DefaultConfig, Lines(rest))
  {
    KeysArePlain();
    EscapeKeepsLine(SQLITE);
    ReadAhead(DefaultConfig, Quoted(STORAGE_KEY, SQLITE), rest);
    QuotedReadsBack(DefaultConfig, STORAGE_KEY, SQLITE);
  }

  lemma CommentsAreComments()
    ensures COMMENT_1 != "" && COMMENT_1[0] == '#' && '\n' !in COMMENT_1
    ensures COMMENT_2 != "" && COMMENT_2[0] == '#' && '\n' !in COMMENT_2
  {}

  /** What the written text reads as, up to the label line. */
  lemma {:induction false} HeaderReads(tail: string)
    ensures Read(Some(COMMENT_1 + "\n" + (COMMENT_2 + "\n" + (Quoted(STORAGE_KEY, SQLITE) + "\n" + tail))))
         == ReadLines(DefaultConfig, Lines(tail))
  {
    var third := Quoted(STORAGE_KEY, SQLITE) + "\n" + tail;
    CommentsAreComments();
    StorageAhead(tail);
    CommentAhead(COMMENT_2, third);
    CommentAhead(COMMENT_1, COMMENT_2 + "\n" + third);
  }

  /** The label line by itself. */
  lemma {:induction false} LabelLineReads(l: string)
    requires '\n' !in l
    ensures ReadLines(DefaultConfig, Lines(Quoted(LABEL_KEY, l) + "\n" + "")) == Assign(DefaultConfig, LABEL_KEY, l)
  {
    KeysArePlain();
    EscapeKeepsLine(l);
    ReadAhead(DefaultConfig, Quoted(LABEL_KEY, l), "");
    QuotedReadsBack(DefaultConfig, LABEL_KEY, l);
  }

  /** Without a newline in it, the label is read back as it was written; an empty one reads as none. */
  lemma {:induction false} LabelReadsBack(l: string)
    requires '\n' !in l
    ensures Read(Some(Written(Some(l)))) == PeerConfig(SQLITE, if l == "" then None else Some(l))
  {
    var line := Quoted(LABEL_KEY, l);
    HeaderReads(line + "\n");
    LabelLineReads(l);
    assert line + "\n" + "" == line + "\n";
    assert Assign(DefaultConfig, LABEL_KEY, l) == PeerConfig(SQLITE, if l == "" then None else Some(l)) by { KeysArePlain(); }
  }

  // ---------- labels never hold a newline ----------

  lemma {:induction false} TrimKeepsLine(s: string)
    ensures '\n' !in s ==> '\n' !in TrimStart(s) && '\n' !in TrimEnd(s)
    decreases |s|
  {
    if s != "" {
      TrimKeepsLine(s[1..]);
      TrimKeepsLine(s[..|s| - 1]);
    }
  }

  lemma {:induction false} UnescapeKeepsLine(s: string)
    ensures '\n' !in s ==> '\n' !in Unescape(s)
    decreases |s|
  {
    if s != "" {
      UnescapeKeepsLine(s[1..]);
      if |s| >= 2 { UnescapeKeepsLine(s[2..]); }
    }
  }

  lemma UnquoteKeepsLine(v: string)
    requires '\n' !in v
    ensures '\n' !in Unquote(v)
  {
    TrimKeepsLine(v);
    TrimKeepsLine(TrimStart(v));
    UnescapeKeepsLine(StripQuotes(Trim(v)));
  }

  lemma DropReturnKeepsLine(line: string)
    requires '\n' !in line
    ensures '\n' !in DropReturn(line)
  {}

  ghost predicate HoldNoNewline(lines: seq<string>) {
    forall k :: 0 <= k < |lines| ==> '\n' !in lines[k]
  }

  lemma {:induction false} LinesHoldNoNewline(s: string)
    ensures HoldNoNewline(Lines(s))
    decreases |s|
  {
    if s != "" {
      var i := FirstIndex(s, '\n');
      if i == |s| {
        assert s[..i] == s;
      } else {
        DropReturnKeepsLine(s[..i]);
        LinesHoldNoNewline(s[i + 1..]);
      }
    }
  }

  ghost predicate OneLine(l: Option<string>) {
    l.Some? ==> '\n' !in l.value
  }

  lemma ReadLineOneLine(cfg: PeerConfig, line: string)
    requires '\n' !in line && OneLine(cfg.labelText)
    ensures OneLine(ReadLine(cfg, line).labelText)
  {
    TrimKeepsLine(line);
    TrimKeepsLine(TrimStart(line));
    if Setting(line).Some? { UnquoteKeepsLine(Setting(line).value.1); }
  }

  lemma {:induction false} ReadLinesOneLine(cfg: PeerConfig, lines: seq<string>)
    requires OneLine(cfg.labelText) && HoldNoNewline(lines)
    ensures OneLine(ReadLines(cfg, lines).labelText)
    decreases |lines|
  {
    if lines != [] {
      ReadLinesOneLine(cfg, lines[..|lines| - 1]);
      ReadLineOneLine(ReadLines(cfg, lines[..|lines| - 1]), lines[|lines| - 1]);
    }
  }

  lemma {:induction false} ReadIsOneLine(body: string)
    ensures OneLine(Read(Some(body)).labelText)
  {
    LinesHoldNoNewline(body);
    ReadLinesOneLine(DefaultConfig, Lines(body));
  }

  /** The exact reach of the round trip: a label is read back as written if and only if it is not empty and holds no newline. */
  lemma LabelSurvivesExactly(l: string)
    ensures Read(Some(Written(Some(l)))).labelText == Some(l) <==> l != "" && '\n' !in l
    ensures '\n' !in l ==> Read(Some(Written(Some(l)))).storageBackend == SQLITE
  {
    if '\n' !in l {
      LabelReadsBack(l);
    } else {
      ReadIsOneLine(Written(Some(l)));
    }
  }

  lemma NoLabelReadsBack()
    ensures Read(Some(Written(None))) == DefaultConfig
  {
    HeaderReads("" + "\n");
    LinesCons("", "");
    assert "" + "\n" + "" == "" + "\n";
    ReadCons(DefaultConfig, "", []);
    assert [""] + [] == [""];
  }

  // ---------- other keys ----------

  /** A line that sets neither of the two keys. */
  predicate Foreign(line: string) {
    var setting := Setting(line);
    setting.None? || (setting.value.0 != STORAGE_KEY && setting.value.0 != LABEL_KEY)
  }

  /** The first line of a text, by where its newline is. */
  lemma {:induction false} LinesAt(s: string, i: nat)
    requires i < |s| && s[i] == '\n' && '\n' !in s[..i]
    ensures Lines(s) == [DropReturn(s[..i])] + Lines(s[i + 1..])
  {
    FirstIndexIs(s, '\n', i);
  }

  lemma {:induction false} FirstLineOfConcat(a: string, b: string, i: nat)
    requires i < |a| && a[i] == '\n' && '\n' !in a[..i]
    ensures Lines(a + b) == [DropReturn(a[..i])] + Lines(a[i + 1..] + b)
  {
    var s := a + b;
    assert s[..i] == a[..i] && s[i + 1..] == a[i + 1..] + b;
    LinesAt(s, i);
  }

  lemma {:induction false} HasLineEnd(a: string)
    requires a != "" && a[|a| - 1] == '\n'
    ensures FirstIndex(a, '\n') < |a|
  {
    assert a[..|a|] == a && '\n' in a;
  }

  lemma {:induction false} Regroup(whole: seq<string>, first: seq<string>, rest: seq<string>, more: seq<string>)
    requires whole == first + (rest + more)
    ensures whole == (first + rest) + more
  {}

  lemma {:induction false} LinesConcat(a: string, b: string)
    requires a == "" || a[|a| - 1] == '\n'
    ensures Lines(a + b) == Lines(a) + Lines(b)
    decreases |a|
  {
    if a == "" {
      assert a + b == b;
    } else {
      HasLineEnd(a);
      var i := FirstIndex(a, '\n');
      var rest := a[i + 1..];
      LinesConcat(rest, b);
      FirstLineOfConcat(a, b, i);
      Regroup(Lines(a + b), [DropReturn(a[..i])], Lines(rest), Lines(b));
      LinesAt(a, i);
    }
  }

  lemma {:induction false} ForeignLinesIgnored(cfg: PeerConfig, lines: seq<string>, more: seq<string>)
    requires forall i :: 0 <= i < |more| ==> Foreign(more[i])
    ensures ReadLines(cfg, lines + more) == ReadLines(cfg, lines)
    decreases |more|
  {
    if more == [] {
      assert lines + more == lines;
    } else {
      assert (lines + more)[..|lines + more| - 1] == lines + more[..|more| - 1];
      ForeignLinesIgnored(cfg, lines, more[..|more| - 1]);
    }
  }

  /** Appending any text whose lines set neither key changes nothing, for any file that ends in a newline. */
  lemma {:induction false} UnknownKeysAreIgnored(body: string, extra: string)
    requires body != "" && body[|body| - 1] == '\n' && forall i :: 0 <= i < |Lines(extra)| ==> Foreign(Lines(extra)[i])
    ensures Read(Some(body + extra)) == Read(Some(body))
  {
    LinesConcat(body, extra);
    ForeignLinesIgnored(DefaultConfig, Lines(body), Lines(extra));
  }
}
