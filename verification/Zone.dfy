/** A reader of the zone files Stalwart writes (section 5.1 of RFC 1035). */
module Zone {
  import opened Wrappers
  import opened Sequences
  import opened Text

  /** `line`: as it was written, for a person to paste. */
  datatype ZoneRecord = ZoneRecord(name: string, kind: string, value: string, line: string)

  const TXT := "TXT"

  // ---- Lines and words -------------------------------------------------------------

  function StripReturn(line: string): string {
    if line != [] && line[|line| - 1] == '\r' then line[..|line| - 1] else line
  }

  /** `str::lines`: a line ends with a newline, or a return and a newline. */
  function Lines(s: string): seq<string> {
    var parts := Split(s, '\n');
    var last := parts[|parts| - 1];
    var ended := parts[..|parts| - 1];
    seq(|ended|, i requires 0 <= i < |ended| => StripReturn(ended[i])) + if last == [] then [] else [last]
  }

  /** `str::split_whitespace`. */
  function Words(s: string): seq<string>
    decreases |s|
  {
    if s == [] then []
    else if Space(s[0]) then Words(s[1..])
    else
      var n := FirstSpace(s);
      [s[..n]] + Words(s[n..])
  }

  /** `str::split_once` on a text: what follows its first occurrence. */
  function AfterFirst(s: string, sep: string): Option<string> {
    if sep <= s then Some(s[|sep|..]) else if s == [] then None else AfterFirst(s[1..], sep)
  }

  function TrimDots(name: string): string {
    if name != [] && name[|name| - 1] == '.' then TrimDots(name[..|name| - 1]) else name
  }

  // ---- Quoted strings --------------------------------------------------------------

  function Outside(data: string): seq<string>
    decreases |data|, 0
  {
    if data == [] then []
    else if data[0] == '"' then Inside(data[1..], [])
    else Outside(data[1..])
  }

  /** Within a string, of which `s` was read. */
  function Inside(data: string, s: string): seq<string>
    decreases |data|, 1
  {
    if data == [] then [s]
    else if data[0] == '"' then [s] + Outside(data[1..])
    else if data[0] != '\\' then Inside(data[1..], s + [data[0]])
    else if |data| == 1 then [s]
    else Inside(data[2..], s + [data[1]])
  }

  method QuotedStrings(data: string) returns (out: seq<string>)
    ensures out == Outside(data)
  {
    out := [];
    var i := 0;
    while i < |data|
      invariant i <= |data| && out + Outside(data[i..]) == Outside(data)
      decreases |data| - i
    {
      var c := data[i];
      i := i + 1;
      assert data[i - 1..][1..] == data[i..];
      if c != '"' { continue; }
      var s, open := "", true;
      while open && i < |data|
        invariant i <= |data|
        invariant open ==> out + Inside(data[i..], s) == Outside(data)
        invariant !open ==> out + [s] + Outside(data[i..]) == Outside(data)
        decreases |data| - i, open
      {
        var c := data[i];
        assert data[i..][1..] == data[i + 1..];
        i := i + 1;
        if c == '\\' {
          if i < |data| {
            assert data[i - 1..][2..] == data[i + 1..];
            s := s + [data[i]];
            i := i + 1;
          }
        } else if c == '"' {
          Regrouped(out, [s], Outside(data[i..]));
          open := false;
        } else {
          s := s + [c];
        }
      }
      out := out + [s];
    }
  }

  function Concat(parts: seq<string>): string {
    if parts == [] then [] else parts[0] + Concat(parts[1..])
  }

  /** What a resolver's answer says in TXT: the quoted strings as one, or the whole of it. */
  function TxtValue(data: string): string {
    var start := TrimStart(data);
    if start != [] && start[0] == '"' then Concat(Outside(data)) else data
  }

  // ---- The zone --------------------------------------------------------------------

  function RecordOf(name: string, kind: string, line: string): ZoneRecord {
    var data := match AfterFirst(line, " IN " + kind + " ") case None => "" case Some(d) => Trim(d);
    ZoneRecord(TrimDots(name), kind, if kind == TXT then Concat(Outside(data)) else data, line)
  }

  datatype Pending = Pending(name: string, kind: string, text: string)

  predicate Opens(line: string) {
    var t := TrimEnd(line);
    t != [] && t[|t| - 1] == '('
  }

  /** The records of some lines, one of which may be open since before. */
  function Read(lines: seq<string>, pending: Option<Pending>): seq<ZoneRecord>
    decreases |lines|
  {
    if lines == [] then []
    else
      var raw := lines[0];
      match pending
      case Some(p) =>
        var text := p.text + "\n" + raw;
        if Trim(raw) == ")" then [RecordOf(p.name, p.kind, text)] + Read(lines[1..], None)
        else Read(lines[1..], Some(p.(text := text)))
      case None =>
        var words := Words(raw);
        if |words| < 3 || words[1] != "IN" then Read(lines[1..], None)
        else if Opens(raw) then Read(lines[1..], Some(Pending(words[0], words[2], raw)))
        else [RecordOf(words[0], words[2], raw)] + Read(lines[1..], None)
  }

  method ParseZone(zone: string) returns (out: seq<ZoneRecord>)
    ensures out == Read(Lines(zone), None)
  {
    out := [];
    var pending: Option<Pending> := None;
    var lines := Lines(zone);
    for i := 0 to |lines|
      invariant out + Read(lines[i..], pending) == Read(lines, None)
    {
      var raw := lines[i];
      assert lines[i..][1..] == lines[i + 1..];
      match pending {
        case Some(p) =>
          var text := p.text + "\n" + raw;
          if Trim(raw) == ")" {
            Regrouped(out, [RecordOf(p.name, p.kind, text)], Read(lines[i + 1..], None));
            out := out + [RecordOf(p.name, p.kind, text)];
            pending := None;
          } else {
            pending := Some(p.(text := text));
          }
        case None =>
          var words := Words(raw);
          if |words| < 3 || words[1] != "IN" { continue; }
          if Opens(raw) {
            pending := Some(Pending(words[0], words[2], raw));
          } else {
            Regrouped(out, [RecordOf(words[0], words[2], raw)], Read(lines[i + 1..], None));
            out := out + [RecordOf(words[0], words[2], raw)];
          }
      }
    }
  }

  // ---- What Stalwart writes --------------------------------------------------------

  /** A string's characters, each escaped or not. */
  type Escaped = seq<(char, bool)>

  function Plain(e: Escaped): string {
    if e == [] then [] else [e[0].0] + Plain(e[1..])
  }

  function Escape(e: Escaped): string {
    if e == [] then [] else (if e[0].1 then ['\\', e[0].0] else [e[0].0]) + Escape(e[1..])
  }

  /** A quote and a backslash are escaped; nothing ends the line. */
  predicate Writable(e: Escaped) {
    forall c | c in e :: (c.0 == '"' || c.0 == '\\' ==> c.1) && c.0 != '\n' && c.0 != '\r'
  }

  function Quoted(e: Escaped): string {
    ['"'] + Escape(e) + ['"']
  }

  /** A value however it is cut into quoted strings, on one line or each on its own. */
  datatype Data =
    | Bare(kind: string, data: string)
    | Quotes(strings: seq<Escaped>, eachItsLine: bool)

  /** A record, or a line that is none: a comment, an empty line. */
  datatype Written = Written(name: string, data: Data) | Remark(line: string)

  function SpacedOut(strings: seq<Escaped>): string {
    if strings == [] then [] else if |strings| == 1 then Quoted(strings[0])
    else Quoted(strings[0]) + " " + SpacedOut(strings[1..])
  }

  function OwnLines(strings: seq<Escaped>): seq<string> {
    if strings == [] then [] else ["    " + Quoted(strings[0])] + OwnLines(strings[1..])
  }

  function Head(w: Written, kind: string): string
    requires w.Written?
  {
    w.name + ". IN " + kind + " "
  }

  function LinesOf(w: Written): (lines: seq<string>)
    ensures lines != []
  {
    if w.Remark? then [w.line]
    else
    match w.data
    case Bare(kind, data) => [Head(w, kind) + data]
    case Quotes(strings, false) => [Head(w, TXT) + SpacedOut(strings)]
    case Quotes(strings, true) => [Head(w, TXT) + "("] + OwnLines(strings) + [")"]
  }

  function ValueOf(d: Data): string {
    match d
    case Bare(_, data) => data
    case Quotes(strings, _) => PlainAll(strings)
  }

  function PlainAll(strings: seq<Escaped>): string {
    if strings == [] then [] else Plain(strings[0]) + PlainAll(strings[1..])
  }

  /** Lines that end with a newline, or a return and a newline; `ended`: the last one too. */
  function TextOf(lines: seq<string>, crlf: bool, ended: bool): string {
    if lines == [] then []
    else if |lines| == 1 && !ended then lines[0]
    else Marked(lines[0], crlf) + ['\n'] + TextOf(lines[1..], crlf, ended)
  }

  function Marked(line: string, crlf: bool): string {
    line + if crlf then ['\r'] else []
  }

  function KindOf(d: Data): string {
    if d.Bare? then d.kind else TXT
  }

  /** As it is read back: its lines, joined. */
  function Back(w: Written): ZoneRecord
    requires w.Written?
  {
    ZoneRecord(w.name, KindOf(w.data), ValueOf(w.data), Join(LinesOf(w), '\n'))
  }

  /** A name is a word, its final dot apart; bare data is no text's, and opens nothing; a line
      that is no record does not read as one. */
  predicate Sane(w: Written) {
    if w.Remark? then OneLine(w.line) && (|Words(w.line)| < 3 || Words(w.line)[1] != "IN")
    else
    && w.name != [] && Word(w.name) && w.name[|w.name| - 1] != '.'
    && match w.data
       case Bare(kind, data) =>
         && kind != [] && Word(kind) && kind != TXT
         && data != [] && Trimmed(data) && data[|data| - 1] != '(' && '\n' !in data && '\r' !in data
       case Quotes(strings, _) => strings != [] && forall e | e in strings :: Writable(e)
  }

  // ---- Quoted strings read back ----------------------------------------------------

  lemma InsideStep(c: char, escaped: bool, after: string, s: string)
    requires c == '"' || c == '\\' ==> escaped
    ensures Inside((if escaped then ['\\', c] else [c]) + after, s) == Inside(after, s + [c])
  {
    var data := (if escaped then ['\\', c] else [c]) + after;
    assert escaped ==> data[2..] == after;
    assert !escaped ==> data[1..] == after;
  }

  lemma {:induction false} InsideReads(e: Escaped, s: string, rest: string)
    requires Writable(e)
    ensures Inside(Escape(e) + (['"'] + rest), s) == [s + Plain(e)] + Outside(rest)
    decreases |e|
  {
    if e == [] {
      assert Escape(e) + (['"'] + rest) == ['"'] + rest && (['"'] + rest)[1..] == rest;
      assert s + Plain(e) == s;
    } else {
      var c, after := e[0].0, Escape(e[1..]) + (['"'] + rest);
      assert e[0] in e && forall x | x in e[1..] :: x in e;
      InsideReads(e[1..], s + [c], rest);
      InsideStep(c, e[0].1, after, s);
      Regrouped(if e[0].1 then ['\\', c] else [c], Escape(e[1..]), ['"'] + rest);
      Regrouped(s, [c], Plain(e[1..]));
    }
  }

  /** A string that is never closed is read to the end, a last lone backslash apart. */
  lemma {:induction false} OpenStringReads(e: Escaped, s: string, lone: bool)
    requires Writable(e)
    ensures Inside(Escape(e) + (if lone then ['\\'] else []), s) == [s + Plain(e)]
    ensures var end: string := if lone then ['\\'] else [];
            Outside(['"'] + (Escape(e) + end)) == Inside(Escape(e) + end, [])
    decreases |e|
  {
    var end: string := if lone then ['\\'] else [];
    assert (['"'] + (Escape(e) + end))[1..] == Escape(e) + end;
    if e == [] {
      assert Escape(e) + end == end && s + Plain(e) == s;
    } else {
      var c, after := e[0].0, Escape(e[1..]) + end;
      assert e[0] in e && forall x | x in e[1..] :: x in e;
      OpenStringReads(e[1..], s + [c], lone);
      InsideStep(c, e[0].1, after, s);
      Regrouped(if e[0].1 then ['\\', c] else [c], Escape(e[1..]), end);
      Regrouped(s, [c], Plain(e[1..]));
    }
  }

  lemma QuotedReads(e: Escaped, rest: string)
    requires Writable(e)
    ensures Outside(Quoted(e) + rest) == [Plain(e)] + Outside(rest)
  {
    var data := Quoted(e) + rest;
    InsideReads(e, [], rest);
    assert data[0] == '"' && data[1..] == Escape(e) + (['"'] + rest);
    assert [] + Plain(e) == Plain(e);
  }

  lemma {:induction false} OutsideSkips(gap: string, rest: string)
    requires '"' !in gap
    ensures Outside(gap + rest) == Outside(rest)
  {
    if gap == [] {
      assert gap + rest == rest;
    } else {
      assert gap[0] in gap && (gap + rest)[0] == gap[0] && (gap + rest)[1..] == gap[1..] + rest;
      OutsideSkips(gap[1..], rest);
    }
  }

  lemma {:induction false} SpacedOutReads(strings: seq<Escaped>)
    requires strings != [] && forall e | e in strings :: Writable(e)
    ensures Concat(Outside(SpacedOut(strings))) == PlainAll(strings)
    decreases |strings|
  {
    assert strings[0] in strings && forall e | e in strings[1..] :: e in strings;
    if |strings| == 1 {
      QuotedReads(strings[0], []);
      assert Quoted(strings[0]) + [] == Quoted(strings[0]);
      assert strings[1..] == [];
    } else {
      var rest := SpacedOut(strings[1..]);
      SpacedOutReads(strings[1..]);
      QuotedReads(strings[0], " " + rest);
      OutsideSkips(" ", rest);
      Regrouped(Quoted(strings[0]), " ", rest);
      assert ([Plain(strings[0])] + Outside(rest))[1..] == Outside(rest);
    }
  }

  /** A value is the same however it was cut and escaped, and the same read by `txt_value`. */
  lemma TxtValueReads(strings: seq<Escaped>)
    requires strings != [] && forall e | e in strings :: Writable(e)
    ensures TxtValue(SpacedOut(strings)) == PlainAll(strings)
  {
    SpacedOutReads(strings);
    assert SpacedOut(strings)[0] == '"';
  }

  lemma {:induction false} TrimmedOf(gap: string, rest: string)
    requires (forall c | c in gap :: Space(c)) && (rest == [] || !Space(rest[0]))
    ensures TrimStart(gap + rest) == rest
  {
    if gap == [] {
      assert gap + rest == rest;
    } else {
      assert (gap + rest)[0] == gap[0] && gap[0] in gap && (gap + rest)[1..] == gap[1..] + rest;
      TrimmedOf(gap[1..], rest);
    }
  }

  /** Spaces before it make no difference to a quoted value; one that is not quoted is read as
      it stands, whatever quotes come later. */
  lemma TxtValueByItsStart(gap: string, rest: string)
    requires (forall c | c in gap :: Space(c)) && (rest == [] || !Space(rest[0]))
    ensures TxtValue(gap + rest) == if rest != [] && rest[0] == '"' then TxtValue(rest) else gap + rest
  {
    TrimmedOf(gap, rest);
    TrimmedOf([], rest);
    assert [] + rest == rest;
    assert '"' !in gap;
    OutsideSkips(gap, rest);
  }

  // ---- Lines read back -------------------------------------------------------------

  predicate OneLine(line: string) {
    '\n' !in line && '\r' !in line
  }

  /** The lines that end, each with its mark, and what follows the last newline. */
  function Parts(lines: seq<string>, crlf: bool, ended: bool): seq<string> {
    if lines == [] then [[]]
    else if |lines| == 1 && !ended then [lines[0]]
    else [Marked(lines[0], crlf)] + Parts(lines[1..], crlf, ended)
  }

  lemma {:induction false} TextSplits(lines: seq<string>, crlf: bool, ended: bool)
    requires forall l | l in lines :: OneLine(l)
    ensures Split(TextOf(lines, crlf, ended), '\n') == Parts(lines, crlf, ended)
    decreases |lines|
  {
    if lines != [] {
      assert lines[0] in lines && forall l | l in lines[1..] :: l in lines;
      if |lines| == 1 && !ended {
        SplitOf(lines[0], '\n');
      } else {
        TextSplits(lines[1..], crlf, ended);
        SplitOf(Marked(lines[0], crlf), '\n');
        SplitAt(Marked(lines[0], crlf), '\n', TextOf(lines[1..], crlf, ended));
      }
    }
  }

  lemma {:induction false} PartAt(lines: seq<string>, crlf: bool, ended: bool, i: nat)
    requires ended || lines != []
    ensures var parts := Parts(lines, crlf, ended);
            && |parts| == |lines| + (if ended then 1 else 0)
            && (i < |parts| - 1 ==> parts[i] == Marked(lines[i], crlf))
            && parts[|parts| - 1] == if ended then [] else lines[|lines| - 1]
    decreases |lines|
  {
    if lines != [] && !(|lines| == 1 && !ended) {
      var rest := Parts(lines[1..], crlf, ended);
      PartAt(lines[1..], crlf, ended, if i == 0 then 0 else i - 1);
      assert Parts(lines, crlf, ended) == [Marked(lines[0], crlf)] + rest;
      assert |lines[1..]| == |lines| - 1;
    }
  }

  lemma MarkStripped(line: string, crlf: bool)
    requires OneLine(line)
    ensures StripReturn(Marked(line, crlf)) == line
  {
    if crlf {
      assert Marked(line, crlf)[..|line|] == line;
    } else {
      assert Marked(line, crlf) == line;
      if line != [] { assert line[|line| - 1] in line; }
    }
  }

  lemma LinesRead(lines: seq<string>, crlf: bool, ended: bool)
    requires forall l | l in lines :: OneLine(l)
    requires ended || (lines != [] && lines[|lines| - 1] != [])
    ensures Lines(TextOf(lines, crlf, ended)) == lines
  {
    TextSplits(lines, crlf, ended);
    var parts, read := Parts(lines, crlf, ended), Lines(TextOf(lines, crlf, ended));
    PartAt(lines, crlf, ended, 0);
    assert |read| == |lines|;
    forall i | 0 <= i < |lines| ensures read[i] == lines[i] {
      PartAt(lines, crlf, ended, i);
      assert lines[i] in lines;
      if i < |parts| - 1 {
        MarkStripped(lines[i], crlf);
        assert read[i] == StripReturn(parts[i]);
      }
    }
  }

  // ---- A head read back ------------------------------------------------------------

  lemma {:induction false} WordAnd(a: string, b: string)
    requires Word(a) && Word(b)
    ensures Word(a + b)
  {
    if a == [] {
      assert a + b == b;
    } else {
      assert (a + b)[1..] == a[1..] + b;
      WordAnd(a[1..], b);
    }
  }

  lemma WordsOf(word: string, rest: string)
    requires word != [] && Word(word)
    ensures Words(word + " " + rest) == [word] + Words(rest)
  {
    var s := word + " " + rest;
    FirstSpaceAt(word, rest);
    assert s[..|word|] == word && s[|word|..] == " " + rest;
    assert (" " + rest)[1..] == rest;
  }

  lemma ThreeWords(a: string, b: string, c: string, rest: string)
    requires a != [] && Word(a) && b != [] && Word(b) && c != [] && Word(c)
    ensures Words(a + " " + (b + " " + (c + " " + rest))) == [a, b, c] + Words(rest)
  {
    WordsOf(c, rest);
    WordsOf(b, c + " " + rest);
    WordsOf(a, b + " " + (c + " " + rest));
  }

  lemma HeadRegrouped(name: string, kind: string, rest: string)
    ensures name + ". IN " + kind + " " + rest == name + "." + " " + ("IN" + " " + (kind + " " + rest))
  {
    assert ". IN " == "." + " " + "IN" + " ";
  }

  lemma HeadWords(name: string, kind: string, rest: string)
    requires name != [] && Word(name) && kind != [] && Word(kind)
    ensures Words(name + ". IN " + kind + " " + rest) == [name + ".", "IN", kind] + Words(rest)
  {
    WordAnd(name, ".");
    ThreeWords(name + ".", "IN", kind, rest);
    HeadRegrouped(name, kind, rest);
  }

  lemma {:induction false} AfterWord(word: string, sep: string, rest: string)
    requires Word(word) && sep != [] && Space(sep[0])
    ensures AfterFirst(word + sep + rest, sep) == Some(rest)
  {
    var s := word + sep + rest;
    if word == [] {
      assert s == sep + rest;
    } else {
      assert s[0] == word[0] && !(sep <= s);
      assert s[1..] == word[1..] + sep + rest;
      AfterWord(word[1..], sep, rest);
    }
  }

  lemma HeadData(name: string, kind: string, rest: string)
    requires Word(name)
    ensures AfterFirst(name + ". IN " + kind + " " + rest, " IN " + kind + " ") == Some(rest)
  {
    WordAnd(name, ".");
    AfterWord(name + ".", " IN " + kind + " ", rest);
    assert name + ". IN " + kind + " " + rest == name + "." + (" IN " + kind + " ") + rest;
  }

  lemma OneDot(name: string)
    requires name != [] && name[|name| - 1] != '.'
    ensures TrimDots(name + ".") == name
  {
    assert (name + ".")[..|name|] == name;
  }

  lemma OpensAt(line: string, last: string)
    requires last != [] && !Space(last[|last| - 1])
    ensures Opens(line + last) <==> last[|last| - 1] == '('
  {
  }

  // ---- A record read back ----------------------------------------------------------

  lemma {:induction false} SpacedOutEnds(strings: seq<Escaped>)
    requires strings != []
    ensures SpacedOut(strings) != [] && SpacedOut(strings)[0] == '"'
    ensures SpacedOut(strings)[|SpacedOut(strings)| - 1] == '"'
    ensures Trimmed(SpacedOut(strings))
    decreases |strings|
  {
    if |strings| > 1 { SpacedOutEnds(strings[1..]); }
  }

  /** What is left of a text after its head's parenthesis. */
  function Tail(strings: seq<Escaped>): string {
    if strings == [] then "\n)" else "\n    " + Quoted(strings[0]) + Tail(strings[1..])
  }

  lemma {:induction false} TailReads(strings: seq<Escaped>)
    requires forall e | e in strings :: Writable(e)
    ensures Concat(Outside(Tail(strings))) == PlainAll(strings)
    ensures |Tail(strings)| > 0 && Tail(strings)[|Tail(strings)| - 1] == ')'
    decreases |strings|
  {
    if strings == [] {
      OutsideSkips("\n)", []);
      assert "\n)" + [] == "\n)";
    } else {
      var rest := Tail(strings[1..]);
      assert strings[0] in strings && forall e | e in strings[1..] :: e in strings;
      TailReads(strings[1..]);
      QuotedReads(strings[0], rest);
      OutsideSkips("\n    ", Quoted(strings[0]) + rest);
      Regrouped("\n    ", Quoted(strings[0]), rest);
      assert ([Plain(strings[0])] + Outside(rest))[1..] == Outside(rest);
    }
  }

  lemma RecordReads(name: string, kind: string, data: string)
    requires name != [] && Word(name) && name[|name| - 1] != '.' && Trimmed(data)
    ensures RecordOf(name + ".", kind, name + ". IN " + kind + " " + data)
            == ZoneRecord(name, kind, if kind == TXT then Concat(Outside(data)) else data,
                          name + ". IN " + kind + " " + data)
  {
    HeadData(name, kind, data);
    OneDot(name);
    TrimTrimmed(data);
  }

  lemma QuotedLineGoesOn(e: Escaped)
    ensures Trim("    " + Quoted(e)) != ")"
  {
    var q := Quoted(e);
    assert q[0] == '"' && q[|q| - 1] == '"';
    TrimStartSpaces(q);
    TrimTrimmed(q);
  }

  lemma TrimStartSpaces(q: string)
    requires q != [] && !Space(q[0])
    ensures TrimStart("    " + q) == q
  {
    assert TrimStart(" " + q) == q by { assert (" " + q)[1..] == q; }
    assert TrimStart("  " + q) == q by { assert ("  " + q)[1..] == " " + q; }
    assert TrimStart("   " + q) == q by { assert ("   " + q)[1..] == "  " + q; }
    assert ("    " + q)[1..] == "   " + q;
  }

  lemma TailGoesOn(text: string, e: Escaped, tail: string)
    ensures text + "\n" + ("    " + Quoted(e)) + tail == text + ("\n    " + Quoted(e) + tail)
  {
    assert "\n    " == "\n" + "    ";
  }

  lemma MoreLine(p: Pending, raw: string, others: seq<string>)
    ensures var text := p.text + "\n" + raw;
            Read([raw] + others, Some(p)) ==
            if Trim(raw) == ")" then [RecordOf(p.name, p.kind, text)] + Read(others, None)
            else Read(others, Some(Pending(p.name, p.kind, text)))
  {
    assert ([raw] + others)[1..] == others;
  }

  lemma {:induction false} OwnLinesRead(name: string, kind: string, text: string, strings: seq<Escaped>,
                                        rest: seq<string>)
    ensures Read(OwnLines(strings) + ([")"] + rest), Some(Pending(name, kind, text)))
            == [RecordOf(name, kind, text + Tail(strings))] + Read(rest, None)
    decreases |strings|
  {
    if strings == [] {
      assert OwnLines(strings) + ([")"] + rest) == [")"] + rest;
      assert text + "\n" + ")" == text + Tail(strings);
      TrimTrimmed(")");
      MoreLine(Pending(name, kind, text), ")", rest);
    } else {
      var line, others := "    " + Quoted(strings[0]), OwnLines(strings[1..]) + ([")"] + rest);
      Regrouped([line], OwnLines(strings[1..]), [")"] + rest);
      MoreLine(Pending(name, kind, text), line, others);
      QuotedLineGoesOn(strings[0]);
      OwnLinesRead(name, kind, text + "\n" + line, strings[1..], rest);
      TailGoesOn(text, strings[0], Tail(strings[1..]));
    }
  }

  lemma JoinOnce(first: string, others: seq<string>)
    requires others != []
    ensures Join([first] + others, '\n') == first + "\n" + Join(others, '\n')
  {
    assert ([first] + others)[1..] == others;
  }

  lemma {:induction false} OwnLinesJoin(first: string, strings: seq<Escaped>)
    ensures Join([first] + (OwnLines(strings) + [")"]), '\n') == first + Tail(strings)
    decreases |strings|
  {
    if strings == [] {
      assert OwnLines(strings) + [")"] == [")"];
      JoinOnce(first, [")"]);
      assert first + "\n" + ")" == first + Tail(strings);
    } else {
      var line, others := "    " + Quoted(strings[0]), OwnLines(strings[1..]) + [")"];
      Regrouped([line], OwnLines(strings[1..]), [")"]);
      JoinOnce(first, [line] + others);
      OwnLinesJoin(line, strings[1..]);
      Regrouped(first + "\n", line, Tail(strings[1..]));
      TailGoesOn(first, strings[0], Tail(strings[1..]));
    }
  }

  lemma BareReads(w: Written, rest: seq<string>)
    requires Sane(w) && w.Written? && w.data.Bare?
    ensures Read(LinesOf(w) + rest, None) == [Back(w)] + Read(rest, None)
  {
    var kind, data := w.data.kind, w.data.data;
    var line := Head(w, kind) + data;
    HeadWords(w.name, kind, data);
    OpensAt(Head(w, kind), data);
    RecordReads(w.name, kind, data);
    OneLineReads(line, rest);
  }

  lemma OnOneLineReads(w: Written, rest: seq<string>)
    requires Sane(w) && w.Written? && w.data.Quotes? && !w.data.eachItsLine
    ensures Read(LinesOf(w) + rest, None) == [Back(w)] + Read(rest, None)
  {
    SpacedOutEnds(w.data.strings);
    SpacedOutReads(w.data.strings);
    TextLineReads(w.name, SpacedOut(w.data.strings), rest);
    assert LinesOf(w) == [w.name + ". IN " + TXT + " " + SpacedOut(w.data.strings)];
  }

  lemma TextLineReads(name: string, data: string, rest: seq<string>)
    requires name != [] && Word(name) && name[|name| - 1] != '.'
    requires data != [] && Trimmed(data) && data[|data| - 1] == '"'
    ensures var line := name + ". IN " + TXT + " " + data;
            Read([line] + rest, None) == [ZoneRecord(name, TXT, Concat(Outside(data)), line)] + Read(rest, None)
  {
    var head := name + ". IN " + TXT + " ";
    assert Word(TXT);
    HeadWords(name, TXT, data);
    OpensAt(head, data);
    RecordReads(name, TXT, data);
    OneLineReads(head + data, rest);
  }

  lemma OneLineReads(line: string, others: seq<string>)
    requires |Words(line)| >= 3 && Words(line)[1] == "IN" && !Opens(line)
    ensures Read([line] + others, None) == [RecordOf(Words(line)[0], Words(line)[2], line)] + Read(others, None)
  {
    assert ([line] + others)[1..] == others;
  }

  lemma OpenLineReads(first: string, words: seq<string>, others: seq<string>)
    requires Words(first) == words && |words| >= 3 && words[1] == "IN" && Opens(first)
    ensures Read([first] + others, None) == Read(others, Some(Pending(words[0], words[2], first)))
  {
    assert ([first] + others)[1..] == others;
  }

  lemma OwnTextReads(name: string, strings: seq<Escaped>)
    requires name != [] && Word(name) && name[|name| - 1] != '.' && forall e | e in strings :: Writable(e)
    ensures var text := name + ". IN " + TXT + " " + "(" + Tail(strings);
            RecordOf(name + ".", TXT, text) == ZoneRecord(name, TXT, PlainAll(strings), text)
  {
    var tail := Tail(strings);
    TailReads(strings);
    assert name + ". IN " + TXT + " " + "(" + tail == name + ". IN " + TXT + " " + ("(" + tail);
    RecordReads(name, TXT, "(" + tail);
    OutsideSkips("(", tail);
  }

  lemma OnOwnLinesReads(w: Written, rest: seq<string>)
    requires Sane(w) && w.Written? && w.data.Quotes? && w.data.eachItsLine
    ensures Read(LinesOf(w) + rest, None) == [Back(w)] + Read(rest, None)
  {
    var strings, first := w.data.strings, Head(w, TXT) + "(";
    assert Word(TXT);
    HeadWords(w.name, TXT, "(");
    OpensAt(Head(w, TXT), "(");
    OwnLinesFrom(first, w.name + ".", strings, rest);
    OwnLinesJoin(first, strings);
    Regrouped([first], OwnLines(strings), [")"]);
    OwnTextReads(w.name, strings);
  }

  lemma OwnLinesFrom(first: string, word: string, strings: seq<Escaped>, rest: seq<string>)
    requires |Words(first)| >= 3 && Words(first)[0] == word && Words(first)[1] == "IN" && Words(first)[2] == TXT
    requires Opens(first)
    ensures Read([first] + OwnLines(strings) + [")"] + rest, None)
            == [RecordOf(word, TXT, first + Tail(strings))] + Read(rest, None)
  {
    Regrouped([first], OwnLines(strings), [")"]);
    Regrouped([first], OwnLines(strings) + [")"], rest);
    Regrouped(OwnLines(strings), [")"], rest);
    OpenLineReads(first, Words(first), OwnLines(strings) + ([")"] + rest));
    OwnLinesRead(word, TXT, first, strings, rest);
  }

  function AllLines(ws: seq<Written>): seq<string> {
    if ws == [] then [] else LinesOf(ws[0]) + AllLines(ws[1..])
  }

  function AllBack(ws: seq<Written>): seq<ZoneRecord> {
    if ws == [] then [] else (if ws[0].Remark? then [] else [Back(ws[0])]) + AllBack(ws[1..])
  }

  lemma {:induction false} AllRead(ws: seq<Written>)
    requires forall w | w in ws :: Sane(w)
    ensures Read(AllLines(ws), None) == AllBack(ws)
    decreases |ws|
  {
    if ws != [] {
      assert ws[0] in ws && forall w | w in ws[1..] :: w in ws;
      AllRead(ws[1..]);
      var rest := AllLines(ws[1..]);
      if ws[0].Remark? {
        assert ([ws[0].line] + rest)[1..] == rest;
      } else if ws[0].data.Bare? {
        BareReads(ws[0], rest);
      } else if ws[0].data.eachItsLine {
        OnOwnLinesReads(ws[0], rest);
      } else {
        OnOneLineReads(ws[0], rest);
      }
    }
  }

  // ---- A zone read back ------------------------------------------------------------

  lemma {:induction false} WordHolds(s: string, c: char)
    requires Word(s) && Space(c)
    ensures c !in s
  {
    if s != [] { WordHolds(s[1..], c); }
  }

  lemma {:induction false} EscapeHolds(e: Escaped, c: char)
    requires c != '\\' && forall x | x in e :: x.0 != c
    ensures c !in Escape(e)
  {
    if e != [] {
      assert e[0] in e && forall x | x in e[1..] :: x in e;
      EscapeHolds(e[1..], c);
    }
  }

  lemma QuotedIsOneLine(e: Escaped)
    requires Writable(e)
    ensures OneLine(Quoted(e))
  {
    EscapeHolds(e, '\n');
    EscapeHolds(e, '\r');
  }

  lemma {:induction false} StringsAreOneLine(strings: seq<Escaped>)
    requires forall e | e in strings :: Writable(e)
    ensures OneLine(SpacedOut(strings)) && forall l | l in OwnLines(strings) :: OneLine(l)
    decreases |strings|
  {
    if strings != [] {
      assert strings[0] in strings && forall e | e in strings[1..] :: e in strings;
      QuotedIsOneLine(strings[0]);
      StringsAreOneLine(strings[1..]);
    }
  }

  lemma LinesAreOneLine(w: Written)
    requires Sane(w)
    ensures forall l | l in LinesOf(w) :: OneLine(l)
  {
    if w.Remark? { return; }
    WordHolds(w.name, '\n');
    WordHolds(w.name, '\r');
    match w.data
    case Bare(kind, _) =>
      WordHolds(kind, '\n');
      WordHolds(kind, '\r');
    case Quotes(strings, _) => StringsAreOneLine(strings);
  }

  lemma {:induction false} AllAreOneLine(ws: seq<Written>)
    requires forall w | w in ws :: Sane(w)
    ensures forall l | l in AllLines(ws) :: OneLine(l)
  {
    if ws != [] {
      assert ws[0] in ws && forall w | w in ws[1..] :: w in ws;
      LinesAreOneLine(ws[0]);
      AllAreOneLine(ws[1..]);
    }
  }

  /** Every record of a zone comes back, and nothing else: its name, its kind, its value —
      however a text was cut into strings and escaped, on one line or several, whatever other
      lines stand between and however lines end — and its line as it was written. */
  lemma ZoneReadsBack(ws: seq<Written>, crlf: bool, ended: bool)
    requires forall w | w in ws :: Sane(w)
    requires ended || (ws != [] && ws[|ws| - 1] != Remark([]))
    ensures Read(Lines(TextOf(AllLines(ws), crlf, ended)), None) == AllBack(ws)
  {
    AllAreOneLine(ws);
    if !ended { LastLine(ws); }
    LinesRead(AllLines(ws), crlf, ended);
    AllRead(ws);
  }

  lemma {:induction false} LastLine(ws: seq<Written>)
    requires ws != [] && Sane(ws[|ws| - 1]) && ws[|ws| - 1] != Remark([])
    ensures AllLines(ws) != [] && AllLines(ws)[|AllLines(ws)| - 1] != []
  {
    if |ws| > 1 { LastLine(ws[1..]); } else { assert ws[1..] == []; }
  }
}
