/** Reading the text back: what a reader of Markdown finds in the lines that the formatter writes. */
module MarkdownReader {
  import opened Markdown
  import opened MarkdownPrinter

  // ---------- A reader of lines, cells and headings ----------

  /** The pieces of a text between separators; always at least one. */
  function Split(text: string, separator: char): (parts: seq<string>)
    ensures |parts| > 0
  {
    if text == "" then [""]
    else
      var rest := Split(text[1..], separator);
      if text[0] == separator then [""] + rest else [[text[0]] + rest[0]] + rest[1..]
  }

  lemma {:induction false} SplitConcatenation(a: string, b: string, separator: char)
    ensures Split(a + [separator] + b, separator) == Split(a, separator) + Split(b, separator)
  {
    if a == "" {
      assert ("" + [separator] + b)[1..] == b;
    } else {
      assert (a + [separator] + b)[1..] == a[1..] + [separator] + b;
      SplitConcatenation(a[1..], b, separator);
    }
  }

  lemma {:induction false} SplitOne(a: string, separator: char)
    requires separator !in a
    ensures Split(a, separator) == [a]
  {
    if a != "" {
      SplitOne(a[1..], separator);
      assert [a[0]] + a[1..] == a;
    }
  }

  /** The cells of a line of a table: what stands between two bars, without one blank on each side. */
  function Cells(line: string): seq<string> {
    var parts := Split(line, '|');
    if |parts| < 3 then [] else Trimmed(parts[1..|parts| - 1])
  }

  function Trimmed(parts: seq<string>): (cells: seq<string>)
    ensures |cells| == |parts|
  {
    if parts == [] then [] else [Unpadded(parts[0])] + Trimmed(parts[1..])
  }

  function Unpadded(s: string): string {
    if |s| >= 2 && s[0] == ' ' && s[|s| - 1] == ' ' then s[1..|s| - 1] else s
  }

  /** How many number signs the line begins with. */
  function Depth(line: string): nat {
    if line != "" && line[0] == '#' then 1 + Depth(line[1..]) else 0
  }

  /** What stands between the first '(' and the last ')'. */
  function InParentheses(line: string): string { UpToLast(AfterFirst(line)) }

  function AfterFirst(line: string): string {
    if line == "" then "" else if line[0] == '(' then line[1..] else AfterFirst(line[1..])
  }

  function UpToLast(line: string): string {
    if line == "" then ""
    else if line[|line| - 1] == ')' then line[..|line| - 1]
    else UpToLast(line[..|line| - 1])
  }

  // ---------- Lines of tables ----------

  lemma UnpaddedIs(a: string)
    ensures Unpadded(" " + a + " ") == a
  {
    assert (" " + a + " ")[1..|a| + 1] == a;
  }

  lemma TwoBetweenBars(x: string, y: string)
    requires '|' !in x && '|' !in y
    ensures Split("|" + x + "|" + y + "|", '|') == ["", x, y, ""]
  {
    assert "|" + x + "|" + y + "|" == "" + ['|'] + (x + ['|'] + (y + ['|'] + ""));
    SplitConcatenation("", x + ['|'] + (y + ['|'] + ""), '|');
    SplitConcatenation(x, y + ['|'] + "", '|');
    SplitConcatenation(y, "", '|');
    SplitOne(x, '|');
    SplitOne(y, '|');
    hide Split;
    assert [""] + ([x] + ([y] + [""])) == ["", x, y, ""];
  }

  /** A line with two cells. */
  lemma TwoCells(a: string, b: string)
    requires '|' !in a && '|' !in b
    ensures Cells("| " + a + " | " + b + " |") == [a, b]
  {
    var x, y := " " + a + " ", " " + b + " ";
    CellsBetweenBars(x, y);
    UnpaddedIs(a);
    UnpaddedIs(b);
    hide Cells, Unpadded;
    assert "| " + a + " | " + b + " |" == "|" + x + "|" + y + "|";
  }

  lemma {:induction false} SeparatorSplits(s: string, separator: char)
    requires separator in s
    ensures |Split(s, separator)| >= 2
  {
    if s[0] != separator { SeparatorSplits(s[1..], separator); }
  }

  /** A bar inside a field name or a value makes more cells. */
  lemma BarsMakeMoreCells(a: string, b: string)
    requires '|' in a || '|' in b
    ensures |Cells("| " + a + " | " + b + " |")| > 2
  {
    var x, y := " " + a + " ", " " + b + " ";
    assert "| " + a + " | " + b + " |" == "" + ['|'] + (x + ['|'] + (y + ['|'] + ""));
    SplitConcatenation("", x + ['|'] + (y + ['|'] + ""), '|');
    SplitConcatenation(x, y + ['|'] + "", '|');
    SplitConcatenation(y, "", '|');
    if '|' in a {
      var i :| 0 <= i < |a| && a[i] == '|';
      assert x[i + 1] == '|';
      SeparatorSplits(x, '|');
    } else {
      var i :| 0 <= i < |b| && b[i] == '|';
      assert y[i + 1] == '|';
      SeparatorSplits(y, '|');
    }
  }

  /** A row of the table is a line whose first cell is the field and whose second is the value as it is shown, if and
      only if neither has a bar in it: bars are not escaped. */
  lemma RowReadsBackIff(show: Value -> string, at: Path, key: string, value: Value)
    ensures Render(show, Row(at, key, value)) == Line(key, show(value)) + ['\n']
    ensures Cells(Line(key, show(value))) == [key, show(value)] <==> '|' !in key && '|' !in show(value)
  {
    if '|' in key || '|' in show(value) {
      BarsMakeMoreCells(key, show(value));
    } else {
      TwoCells(key, show(value));
    }
    hide Cells;
  }

  function Line(a: string, b: string): string { "| " + a + " | " + b + " |" }

  lemma {:induction false} SplitAppend(a: string, x: string, separator: char)
    requires separator !in x
    ensures var parts := Split(a, separator);
            Split(a + x, separator) == parts[..|parts| - 1] + [parts[|parts| - 1] + x]
  {
    if a == "" {
      assert "" + x == x;
      SplitOne(x, separator);
    } else {
      assert (a + x)[1..] == a[1..] + x;
      SplitAppend(a[1..], x, separator);
      LastPartGrows(a[0], Split(a[1..], separator), x, separator);
    }
  }

  lemma LastPartGrows(c: char, rest: seq<string>, x: string, separator: char)
    requires rest != []
    ensures
      var n := |rest| - 1;
      var grown := rest[..n] + [rest[n] + x];
      if c == separator then
        [""] + grown == ([""] + rest)[..n + 1] + [([""] + rest)[n + 1] + x]
      else
        var parts := [[c] + rest[0]] + rest[1..];
        [[c] + grown[0]] + grown[1..] == parts[..n] + [parts[n] + x]
  {
    if |rest| == 1 { assert [c] + (rest[0] + x) == [c] + rest[0] + x; }
  }

  /** The lines of the rows. */
  function RowLines(show: Value -> string, fields: map<string, Value>, keys: seq<string>): seq<string>
    requires forall k | k in keys :: k in fields
  {
    if keys == [] then []
    else
      var k := keys[|keys| - 1];
      RowLines(show, fields, keys[..|keys| - 1]) + [Line(k, show(fields[k]))]
  }

  /** Field names and shown values without bars and line ends, which would be part of the table's own structure. */
  ghost predicate IsPlain(show: Value -> string, fields: map<string, Value>, keys: seq<string>) {
    forall k | k in keys ::
      k in fields && '|' !in k && '\n' !in k && '|' !in show(fields[k]) && '\n' !in show(fields[k])
  }

  lemma {:induction false} RowLinesAre(show: Value -> string, fields: map<string, Value>, keys: seq<string>, i: nat)
    requires IsPlain(show, fields, keys) && i < |keys|
    ensures |RowLines(show, fields, keys)| == |keys|
    ensures Cells(RowLines(show, fields, keys)[i]) == [keys[i], show(fields[keys[i]])]
  {
    hide Cells;
    var n := |keys| - 1;
    var k := keys[n];
    TwoCells(k, show(fields[k]));
    if n > 0 {
      assert forall l | l in keys[..n] :: l in keys;
      RowLinesAre(show, fields, keys[..n], if i < n then i else 0);
    }
  }

  lemma OneMoreLine(before: string, lines: seq<string>, line: string)
    requires Split(before, '\n') == lines + [""] && '\n' !in line
    ensures Split(before + (line + ['\n']), '\n') == lines + [line] + [""]
  {
    hide Split;
    SplitAppend(before, line, '\n');
    assert (lines + [""])[..|lines|] == lines && "" + line == line;
    SplitConcatenation(before + line, "", '\n');
    EmptySplit('\n');
    assert before + (line + ['\n']) == before + line + ['\n'] + "";
  }

  lemma EmptySplit(separator: char)
    ensures Split("", separator) == [""]
  {
  }

  lemma TextOfRows(show: Value -> string, at: Path, fields: map<string, Value>, keys: seq<string>)
    requires keys != [] && forall k | k in keys :: k in fields
    ensures var front, k := keys[..|keys| - 1], keys[|keys| - 1];
            Text(show, Rows(at, fields, keys)) ==
            Text(show, Rows(at, fields, front)) + (Line(k, show(fields[k])) + ['\n'])
  {
    var front, k := keys[..|keys| - 1], keys[|keys| - 1];
    var row := Row(at + [Field(k)], k, fields[k]);
    TextAdds(show, Rows(at, fields, front), [row]);
    TextOne(show, row);
    RowIsLine(show, at + [Field(k)], k, fields[k]);
    hide Text, Render, Line;
  }

  lemma {:induction false} RowsReadBack(show: Value -> string, at: Path, fields: map<string, Value>, keys: seq<string>)
    requires IsPlain(show, fields, keys)
    ensures Split(Text(show, Rows(at, fields, keys)), '\n') == RowLines(show, fields, keys) + [""]
  {
    if keys != [] {
      var front, k := keys[..|keys| - 1], keys[|keys| - 1];
      assert forall l | l in front :: l in keys;
      RowsReadBack(show, at, fields, front);
      TextOfRows(show, at, fields, keys);
      NoNewline(k, show(fields[k]));
      hide Split, Text, Line, Rows;
      OneMoreLine(Text(show, Rows(at, fields, front)), RowLines(show, fields, front), Line(k, show(fields[k])));
    }
  }

  lemma RowIsLine(show: Value -> string, at: Path, key: string, value: Value)
    ensures Render(show, Row(at, key, value)) == Line(key, show(value)) + ['\n']
  {
  }

  lemma NoNewline(a: string, b: string)
    requires '\n' !in a && '\n' !in b
    ensures '\n' !in Line(a, b)
  {
  }

  /** The text of a table, read line by line and cell by cell: a head, a rule of as many columns, and then the fields in
      order, each beside its value; two line ends close it. */
  lemma TableReadsBack(show: Value -> string, at: Path, fields: map<string, Value>)
    requires RowKeys(fields) != {} && IsPlain(show, fields, InOrder(RowKeys(fields)))
    ensures var lines, keys := Split(Text(show, TableRows(at, fields)), '\n'), InOrder(RowKeys(fields));
            && |lines| == |keys| + 4
            && Cells(lines[0]) == ["Field", "Value"] && Cells(lines[1]) == ["-------", "-------"]
            && (forall i | 0 <= i < |keys| :: Cells(lines[i + 2]) == [keys[i], show(fields[keys[i]])])
            && lines[|keys| + 2] == "" && lines[|keys| + 3] == ""
  {
    hide Split, Cells, RowKeys;
    var keys := InOrder(RowKeys(fields));
    TableLines(show, at, fields);
    HeadCells();
    RuleCells();
    forall i | 0 <= i < |keys| ensures |RowLines(show, fields, keys)| == |keys|
                                       && Cells(RowLines(show, fields, keys)[i]) == [keys[i], show(fields[keys[i]])]
    {
      RowLinesAre(show, fields, keys, i);
    }
    SomeKey(RowKeys(fields));
  }

  lemma SomeKey(keys: set<string>)
    requires keys != {}
    ensures |InOrder(keys)| > 0
  {
    var k :| k in keys;
    assert k in InOrder(keys);
  }

  const HEAD := "| Field | Value |"
  const DASHES := "-------"

  lemma HeadCells()
    ensures Cells(HEAD) == ["Field", "Value"]
  {
    TwoCells("Field", "Value");
    hide Cells;
    assert HEAD == "| " + "Field" + " | " + "Value" + " |";
  }

  lemma RuleCells()
    ensures Cells("|" + DASHES + "|" + DASHES + "|") == [DASHES, DASHES]
  {
    CellsBetweenBars(DASHES, DASHES);
  }

  lemma CellsBetweenBars(x: string, y: string)
    requires '|' !in x && '|' !in y
    ensures Cells("|" + x + "|" + y + "|") == [Unpadded(x), Unpadded(y)]
  {
    TwoBetweenBars(x, y);
    hide Split, Unpadded;
    assert ["", x, y, ""][1..3] == [x, y];
    assert [x, y][1..] == [y] && [y][1..] == [];
    assert Trimmed([y]) == [Unpadded(y)];
    assert Trimmed([x, y]) == [Unpadded(x)] + [Unpadded(y)];
  }

  lemma TableLines(show: Value -> string, at: Path, fields: map<string, Value>)
    requires RowKeys(fields) != {} && IsPlain(show, fields, InOrder(RowKeys(fields)))
    ensures Split(Text(show, TableRows(at, fields)), '\n')
         == [HEAD, "|" + DASHES + "|" + DASHES + "|"] + RowLines(show, fields, InOrder(RowKeys(fields))) + ["", ""]
  {
    hide RowKeys, Split, Text, HEAD, DASHES;
    var keys, rule := InOrder(RowKeys(fields)), "|" + DASHES + "|" + DASHES + "|";
    var body := Text(show, Rows(at, fields, keys));
    TableText(show, Rows(at, fields, keys));
    RowsReadBack(show, at, fields, keys);
    NoNewlineInHead();
    SplitConcatenation(HEAD, rule + ['\n'] + (body + ['\n'] + ""), '\n');
    SplitConcatenation(rule, body + ['\n'] + "", '\n');
    SplitConcatenation(body, "", '\n');
    SplitOne(HEAD, '\n');
    SplitOne(rule, '\n');
    EmptySplit('\n');
    var lines := RowLines(show, fields, keys);
    assert [HEAD] + ([rule] + ((lines + [""]) + [""])) == [HEAD, rule] + lines + ["", ""];
  }

  lemma NoNewlineInHead()
    ensures '\n' !in HEAD && '\n' !in "|" + DASHES + "|" + DASHES + "|"
  {
  }

  lemma TableText(show: Value -> string, rows: seq<Piece>)
    ensures Text(show, [TableHead, TableRule] + rows + [TableEnd])
         == HEAD + ['\n'] + (("|" + DASHES + "|" + DASHES + "|") + ['\n'] + (Text(show, rows) + ['\n'] + ""))
  {
    var body := Text(show, rows);
    TextAdds(show, [TableHead], [TableRule]);
    TextAdds(show, [TableHead, TableRule], rows);
    TextAdds(show, [TableHead, TableRule] + rows, [TableEnd]);
    TextOne(show, TableHead);
    TextOne(show, TableRule);
    TextOne(show, TableEnd);
    HeadText(show);
    hide Text, Render, HEAD, DASHES;
    assert [TableHead] + [TableRule] == [TableHead, TableRule];
  }

  lemma HeadText(show: Value -> string)
    ensures Render(show, TableHead) == HEAD + ['\n']
    ensures Render(show, TableRule) == ("|" + DASHES + "|" + DASHES + "|") + ['\n']
    ensures Render(show, TableEnd) == ['\n']
  {
  }

  // ---------- Headings, bullets, images and rules ----------

  lemma {:induction false} DepthOf(n: nat, rest: string)
    requires rest == "" || rest[0] != '#'
    ensures |Repeat('#', n)| == n && Depth(Repeat('#', n) + rest) == n
  {
    if n == 0 {
      assert "" + rest == rest;
    } else {
      assert Repeat('#', n) + rest == Repeat('#', n - 1) + (['#'] + rest);
      RepeatInFront(n - 1);
      assert (['#'] + Repeat('#', n - 1) + rest)[1..] == Repeat('#', n - 1) + rest;
      DepthOf(n - 1, rest);
    }
  }

  lemma {:induction false} RepeatInFront(n: nat)
    ensures Repeat('#', n) + ['#'] == ['#'] + Repeat('#', n)
  {
    if n > 0 { RepeatInFront(n - 1); }
  }

  /** A heading is as deep as its level says, and its text follows. */
  lemma HeadingReadsBack(show: Value -> string, at: Path, level: nat, text: string)
    ensures var line := Render(show, Heading(at, level, text));
            Depth(line) == level && |line| > level && line[level..] == " " + text + "\n\n"
  {
    var rest := " " + text + "\n\n";
    DepthOf(level, rest);
    assert Render(show, Heading(at, level, text)) == Repeat('#', level) + rest;
  }

  /** A title is a heading of depth two. */
  lemma TitleReadsBack(show: Value -> string, name: string)
    ensures var line := Render(show, Title(name)); Depth(line) == 2 && line[2..] == " " + name + "\n\n"
  {
    var line, rest := Render(show, Title(name)), " " + name + "\n\n";
    assert line == "##" + rest && line[1..] == "#" + rest && line[1..][1..] == rest;
    assert Depth(rest) == 0;
  }

  /** A bullet is a dash and the value as it is shown. */
  lemma BulletReadsBack(show: Value -> string, at: Path, value: Value)
    ensures var line := Render(show, Bullet(at, value)); "- " <= line && line[2..] == show(value) + "\n"
  {
  }

  lemma {:induction false} AfterFirstIs(a: string, b: string)
    requires '(' !in a
    ensures AfterFirst(a + ['('] + b) == b
  {
    if a != "" {
      assert (a + ['('] + b)[1..] == a[1..] + ['('] + b;
      AfterFirstIs(a[1..], b);
    }
  }

  lemma {:induction false} UpToLastIs(a: string, b: string)
    requires ')' !in b
    ensures UpToLast(a + [')'] + b) == a
  {
    var s := a + [')'] + b;
    if b == "" {
      assert s[..|s| - 1] == a;
    } else {
      assert s[..|s| - 1] == a + [')'] + b[..|b| - 1];
      UpToLastIs(a, b[..|b| - 1]);
    }
  }

  /** An image has its source between the parentheses, even if that has some of its own. */
  lemma ImageReadsBack(show: Value -> string, at: Path, src: string)
    ensures var line := Render(show, Image(at, src)); "**Spectrogram:**\n\n!" <= line && InParentheses(line) == src
  {
    var front := "**Spectrogram:**\n\n![Spectrogram]";
    assert Render(show, Image(at, src)) == front + ['('] + (src + [')'] + "\n\n");
    AfterFirstIs(front, src + [')'] + "\n\n");
    UpToLastIs(src, "\n\n");
  }

  /** A rule is a line of three dashes between empty lines. */
  lemma RuleReadsBack(show: Value -> string)
    ensures Split(Render(show, Rule), '\n') == ["", "---", "", ""]
  {
    assert Render(show, Rule) == "" + ['\n'] + ("---" + ['\n'] + ("" + ['\n'] + ""));
    SplitConcatenation("", "---" + ['\n'] + ("" + ['\n'] + ""), '\n');
    SplitConcatenation("---", "" + ['\n'] + "", '\n');
    SplitConcatenation("", "", '\n');
    SplitOne("---", '\n');
    SplitOne("", '\n');
  }
}
