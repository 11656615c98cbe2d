/** The methods that print a tree as Markdown. The maps of the tree are objects, which may be shared, and which the
    methods leave as they are. They are visited in an arbitrary order, and writes may fail half-way; the output is
    nevertheless a function of the tree, or the beginning of it. */
module MarkdownPrinter {
  import opened Markdown

  // ---------- Text ----------

  function Repeat(c: char, n: nat): string { if n == 0 then "" else Repeat(c, n - 1) + [c] }

  /** `show` is how fmt prints a value with %v. */
  function Render(show: Value -> string, piece: Piece): string {
    match piece
    case Title(name) => "## " + name + "\n\n"
    case Rule => "\n---\n\n"
    case TableHead => "| Field | Value |\n"
    case TableRule => "|-------|-------|\n"
    case TableEnd => "\n"
    case Heading(_, level, text) => Repeat('#', level) + " " + text + "\n\n"
    case Row(_, key, value) => "| " + key + " | " + show(value) + " |\n"
    case Bullet(_, value) => "- " + show(value) + "\n"
    case Image(_, src) => "**Spectrogram:**\n\n![Spectrogram](" + src + ")\n\n"
  }

  function Text(show: Value -> string, pieces: seq<Piece>): string {
    if pieces == [] then "" else Text(show, pieces[..|pieces| - 1]) + Render(show, pieces[|pieces| - 1])
  }

  lemma {:induction false} TextAdds(show: Value -> string, a: seq<Piece>, b: seq<Piece>)
    ensures Text(show, a + b) == Text(show, a) + Text(show, b)
  {
    hide Render;
    if b == [] {
      assert a + b == a;
    } else {
      TextAdds(show, a, b[..|b| - 1]);
      assert (a + b)[..|a + b| - 1] == a + b[..|b| - 1];
    }
  }

  lemma TextOne(show: Value -> string, piece: Piece)
    ensures Text(show, [piece]) == Render(show, piece) && Text(show, []) == ""
  {
    hide Render;
    assert [piece][..0] == [];
  }

  // ---------- The writer ----------

  /** The text was written, or, after an error, some part of its beginning. */
  ghost predicate Wrote(before: string, after: string, ok: bool, text: string) {
    if ok then after == before + text else exists n :: 0 <= n <= |text| && after == before + text[..n]
  }

  lemma WroteBoth(a: string, b: string, c: string, ok: bool, s: string, t: string)
    requires Wrote(a, b, true, s) && Wrote(b, c, ok, t)
    ensures Wrote(a, c, ok, s + t)
  {
    if !ok {
      var n :| 0 <= n <= |t| && c == b + t[..n];
      assert (s + t)[..|s| + n] == s + t[..n];
      assert c == a + (s + t)[..|s| + n];
    }
  }

  lemma WroteLess(a: string, b: string, s: string, t: string)
    requires Wrote(a, b, false, s)
    ensures Wrote(a, b, false, s + t)
  {
    var n :| 0 <= n <= |s| && b == a + s[..n];
    assert (s + t)[..n] == s[..n];
  }

  /** What has been printed since `before`. */
  ghost predicate Printed(show: Value -> string, before: string, after: string, ok: bool, pieces: seq<Piece>) {
    Wrote(before, after, ok, Text(show, pieces))
  }

  lemma PrintedNothing(show: Value -> string, out: string)
    ensures Printed(show, out, out, true, [])
  {
  }

  lemma PrintedBoth(show: Value -> string, a: string, b: string, c: string, ok: bool, p: seq<Piece>, q: seq<Piece>)
    requires Printed(show, a, b, true, p) && Printed(show, b, c, ok, q)
    ensures Printed(show, a, c, ok, p + q)
  {
    hide Text, Wrote;
    TextAdds(show, p, q);
    WroteBoth(a, b, c, ok, Text(show, p), Text(show, q));
  }

  lemma PrintedLess(show: Value -> string, a: string, b: string, p: seq<Piece>, q: seq<Piece>)
    requires Printed(show, a, b, false, p)
    ensures Printed(show, a, b, false, p + q)
  {
    hide Text, Wrote;
    TextAdds(show, p, q);
    WroteLess(a, b, Text(show, p), Text(show, q));
  }

  lemma PrintedPart(show: Value -> string, a: string, b: string, p: seq<Piece>, all: seq<Piece>)
    requires Printed(show, a, b, false, p) && p <= all
    ensures Printed(show, a, b, false, all)
  {
    PrintedLess(show, a, b, p, all[|p|..]);
    assert p + all[|p|..] == all;
  }

  /** `limits`: how many characters each of the next writes accepts, if it fails. */
  datatype Limit = NoLimit | Limit(n: nat)

  /** An error is reported exactly when one write has failed, and nothing is written after it. */
  ghost function Failures(ok: bool): nat { if ok then 0 else 1 }

  class Writer {
    const show: Value -> string
    var out: string
    var limits: seq<Limit>
    ghost var failures: nat   // how many writes have failed

    constructor (show: Value -> string, limits: seq<Limit>)
      ensures this.show == show && out == "" && this.limits == limits && failures == 0
    {
      this.show, out, this.limits, failures := show, "", limits, 0;
    }

    method Write(text: string) returns (ok: bool)
      modifies this
      ensures Wrote(old(out), out, ok, text)
      ensures failures == old(failures) + Failures(ok)
    {
      var limit := NoLimit;
      if limits != [] { limit, limits := limits[0], limits[1..]; }
      if limit.Limit? && limit.n < |text| {
        failures := failures + 1;
        out := out + text[..limit.n];
        return false;
      }
      out := out + text;
      return true;
    }

    /** One call of Fprintf or Fprintln. */
    method Print(piece: Piece) returns (ok: bool)
      modifies this
      ensures Printed(show, old(out), out, ok, [piece])
      ensures failures == old(failures) + Failures(ok)
    {
      TextOne(show, piece);
      ok := Write(Render(show, piece));
    }
  }

  // ---------- Keys and fields ----------

  method SortStrings(keys: seq<string>) returns (sorted: seq<string>)
    requires forall i, j | 0 <= i < j < |keys| :: keys[i] != keys[j]
    ensures Ordered(sorted) && forall k :: k in sorted <==> k in keys
  {
    sorted := [];
    for n := 0 to |keys|
      invariant Ordered(sorted) && forall k :: k in sorted <==> k in keys[..n]
    {
      InsertKeepsOrder(keys[n], sorted);
      sorted := Insert(keys[n], sorted);
    }
  }

  method SortedKeys<T>(data: map<string, T>) returns (keys: seq<string>)
    ensures keys == InOrder(data.Keys)
    ensures forall i, j | 0 <= i < j < |keys| :: keys[i] != keys[j] && IsBefore(keys[i], keys[j])
  {
    keys := [];
    var rest := data.Keys;
    while rest != {}
      invariant rest <= data.Keys
      invariant forall k :: k in keys <==> k in data.Keys && k !in rest
      invariant forall i, j | 0 <= i < j < |keys| :: keys[i] != keys[j]
      decreases |rest|
    {
      var key :| key in rest;
      keys := keys + [key];
      rest := rest - {key};
    }
    keys := SortStrings(keys);
    OrderOfIsInOrder(keys, data.Keys);
    forall i, j | 0 <= i < j < |keys| ensures IsBefore(keys[i], keys[j]) { InOrderIsSorted(data.Keys, i, j); }
  }

  // ---------- Maps on the heap ----------

  /** A Go map. */
  class Fields {
    var entries: map<string, Shape>

    constructor ()
      ensures entries == map[]
    {
      entries := map[];
    }
  }

  /** A value as the caller hands it over: maps are references. */
  datatype Shape =
    | StrShape(s: string)
    | PlainShape(text: string)
    | MapShape(ref: Fields)
    | ListShape(items: seq<Shape>)

  datatype DataShape = DataShape(name: string, meta: Fields)

  /** The shape stands for the value v; all its maps are among `repr`. */
  ghost predicate Represents(h: Shape, v: Value, repr: set<Fields>)
    reads repr
    decreases v
  {
    match v
    case Str(s) => h == StrShape(s)
    case Plain(text) => h == PlainShape(text)
    case Map(fields) =>
      && h.MapShape? && h.ref in repr && h.ref.entries.Keys == fields.Keys
      && forall k | k in fields :: Represents(h.ref.entries[k], fields[k], repr)
    case List(items) =>
      && h.ListShape? && |h.items| == |items|
      && forall i | 0 <= i < |items| :: Represents(h.items[i], items[i], repr)
  }

  predicate IsSectionShape(h: Shape) { h.MapShape? || h.ListShape? }

  /** The part of a map with the given keys. */
  function Part<T>(data: map<string, T>, keys: set<string>): map<string, T>
  {
    map k | k in data && k in keys :: data[k]
  }

  lemma PartStarts<T>(data: map<string, T>, keys: set<string>)
    requires keys <= data.Keys
    ensures Part(data, keys - data.Keys) == map[]
  {
  }

  lemma PartGrows<T>(data: map<string, T>, keys: set<string>, rest: set<string>, k: string)
    requires k in rest && k in keys && k in data
    ensures Part(data, keys - rest)[k := data[k]] == Part(data, keys - (rest - {k}))
  {
  }

  lemma PartEnds<T>(data: map<string, T>)
    ensures Part(data, data.Keys - {}) == data
  {
  }

  function NestedShapes(entries: map<string, Shape>): set<string> { set k | k in entries && IsSectionShape(entries[k]) }

  function PlainShapes(entries: map<string, Shape>): set<string> { set k | k in entries && !IsSectionShape(entries[k]) }

  /** A plain value does not depend on the heap. */
  function PlainValue(h: Shape): Value
    requires !IsSectionShape(h)
  {
    if h.StrShape? then Str(h.s) else Plain(h.text)
  }

  function PlainMap(entries: map<string, Shape>): map<string, Value>
    requires forall k | k in entries :: !IsSectionShape(entries[k])
  {
    map k | k in entries :: PlainValue(entries[k])
  }

  lemma SameKind(h: Shape, v: Value, repr: set<Fields>)
    requires Represents(h, v, repr)
    ensures IsSectionShape(h) <==> IsSection(v)
    ensures !IsSection(v) ==> PlainValue(h) == v
    ensures h.MapShape? <==> v.Map?
  {
  }

  /** What fmt finds when it prints a value. */
  method ReadValue(h: Shape, ghost v: Value, ghost repr: set<Fields>) returns (x: Value)
    requires Represents(h, v, repr)
    ensures x == v
    decreases v, 1
  {
    match h
    case StrShape(s) => x := Str(s);
    case PlainShape(text) => x := Plain(text);
    case MapShape(data) => x := ReadMap(data, v, repr);
    case ListShape(items) => x := ReadItems(items, v, repr);
  }

  method ReadMap(data: Fields, ghost v: Value, ghost repr: set<Fields>) returns (x: Value)
    requires v.Map? && Represents(MapShape(data), v, repr)
    ensures x == v
    decreases v, 0
  {
    hide Part;
    var found: map<string, Value> := map[];
    var rest := data.entries.Keys;
    PartStarts(v.fields, v.fields.Keys);
    while rest != {}
      invariant rest <= v.fields.Keys && found == Part(v.fields, v.fields.Keys - rest)
      decreases |rest|
    {
      var key :| key in rest;
      var value := ReadValue(data.entries[key], v.fields[key], repr);
      PartGrows(v.fields, v.fields.Keys, rest, key);
      found := found[key := value];
      rest := rest - {key};
    }
    PartEnds(v.fields);
    x := Map(found);
  }

  method ReadItems(items: seq<Shape>, ghost v: Value, ghost repr: set<Fields>) returns (x: Value)
    requires v.List? && Represents(ListShape(items), v, repr)
    ensures x == v
    decreases v, 0
  {
    var found: seq<Value> := [];
    for i := 0 to |items|
      invariant found == v.items[..i]
    {
      var value := ReadValue(items[i], v.items[i], repr);
      found := found + [value];
    }
    x := List(found);
  }

  /** Two new maps with the plain and the nested fields. */
  method SeparateFields(data: Fields) returns (scalars: Fields, nested: Fields)
    ensures fresh(scalars) && fresh(nested) && scalars != nested
    ensures scalars.entries == Part(data.entries, PlainShapes(data.entries))
    ensures nested.entries == Part(data.entries, NestedShapes(data.entries))
  {
    scalars := new Fields();
    nested := new Fields();
    var rest := data.entries.Keys;
    while rest != {}
      invariant rest <= data.entries.Keys
      invariant scalars.entries == Part(data.entries, PlainShapes(data.entries) - rest)
      invariant nested.entries == Part(data.entries, NestedShapes(data.entries) - rest)
      decreases |rest|
    {
      var key :| key in rest;
      var value := data.entries[key];
      if IsSectionShape(value) {
        nested.entries := nested.entries[key := value];
      } else {
        scalars.entries := scalars.entries[key := value];
      }
      rest := rest - {key};
    }
    assert PlainShapes(data.entries) - {} == PlainShapes(data.entries);
    assert NestedShapes(data.entries) - {} == NestedShapes(data.entries);
  }

  /** What the two maps are for the value that the map stands for. */
  lemma Separated(data: Fields, v: Value, repr: set<Fields>)
    requires v.Map? && Represents(MapShape(data), v, repr)
    ensures PlainShapes(data.entries) == PlainKeys(v.fields) && NestedShapes(data.entries) == NestedKeys(v.fields)
    ensures PlainMap(Part(data.entries, PlainShapes(data.entries))) == Part(v.fields, PlainKeys(v.fields))
    ensures forall k | k in NestedKeys(v.fields) ::
              k in Part(data.entries, NestedShapes(data.entries))
              && Represents(Part(data.entries, NestedShapes(data.entries))[k], v.fields[k], repr)
  {
    forall k | k in v.fields
      ensures IsSectionShape(data.entries[k]) <==> IsSection(v.fields[k])
      ensures !IsSection(v.fields[k]) ==> PlainValue(data.entries[k]) == v.fields[k]
    {
      SameKind(data.entries[k], v.fields[k], repr);
    }
  }

  /** Only the plain fields matter to a table. */
  lemma PartTable(at: Path, data: map<string, Value>)
    ensures Table(at, Part(data, PlainKeys(data))) == Table(at, data)
  {
    var part := Part(data, PlainKeys(data));
    assert PlainKeys(part) == PlainKeys(data);
    assert HasSpectrogram(part) <==> HasSpectrogram(data);
    assert RowKeys(part) == RowKeys(data);
    RowsAreFields(data);
    SameRows(at, part, data, InOrder(RowKeys(data)));
  }

  lemma {:induction false} SameRows(at: Path, a: map<string, Value>, b: map<string, Value>, keys: seq<string>)
    requires forall k | k in keys :: k in a && k in b && a[k] == b[k]
    ensures Rows(at, a, keys) == Rows(at, b, keys)
  {
    if keys != [] { SameRows(at, a, b, keys[..|keys| - 1]); }
  }

  // ---------- Tables ----------

  lemma RowsGrow(at: Path, fields: map<string, Value>, keys: seq<string>, n: nat)
    requires n < |keys| && forall k | k in keys :: k in fields
    ensures Rows(at, fields, keys[..n + 1]) == Rows(at, fields, keys[..n])
              + [Row(at + [Field(keys[n])], keys[n], fields[keys[n]])]
  {
    assert keys[..n + 1][..n] == keys[..n];
  }

  lemma {:induction false} RowsPrefix(at: Path, fields: map<string, Value>, keys: seq<string>, n: nat)
    requires n <= |keys| && forall k | k in keys :: k in fields
    ensures Rows(at, fields, keys[..n]) <= Rows(at, fields, keys)
    decreases |keys| - n
  {
    if n < |keys| {
      RowsGrow(at, fields, keys, n);
      RowsPrefix(at, fields, keys, n + 1);
    } else {
      assert keys[..n] == keys;
    }
  }

  /** The rows, one for each of the keys. */
  method PrintRows(w: Writer, fields: Fields, keys: seq<string>, ghost all: map<string, Value>, ghost at: Path)
    returns (ok: bool)
    requires forall k | k in fields.entries :: !IsSectionShape(fields.entries[k])
    requires all == PlainMap(fields.entries) && forall k | k in keys :: k in fields.entries
    modifies w
    ensures Printed(w.show, old(w.out), w.out, ok, Rows(at, all, keys))
    ensures w.failures == old(w.failures) + Failures(ok)
  {
    hide Printed, Rows;
    ok := true;
    ghost var before := w.out;
    NoRows(at, all);
    PrintedNothing(w.show, before);
    assert keys[..0] == [];
    for n := 0 to |keys|
      invariant Printed(w.show, before, w.out, true, Rows(at, all, keys[..n]))
      invariant w.failures == old(w.failures)
    {
      ghost var middle := w.out;
      var row := Row([], keys[n], PlainValue(fields.entries[keys[n]]));
      ghost var piece := Row(at + [Field(keys[n])], keys[n], all[keys[n]]);
      ok := w.Print(row);
      SameText(w.show, middle, w.out, ok, row, piece);
      PrintedBoth(w.show, before, middle, w.out, ok, Rows(at, all, keys[..n]), [piece]);
      RowsGrow(at, all, keys, n);
      if !ok {
        RowsPrefix(at, all, keys, n + 1);
        PrintedPart(w.show, before, w.out, Rows(at, all, keys[..n + 1]), Rows(at, all, keys));
        return;
      }
    }
    assert keys[..|keys|] == keys;
  }

  lemma NoRows(at: Path, fields: map<string, Value>)
    ensures Rows(at, fields, []) == []
  {
  }

  /** The text of a piece does not depend on its origin. */
  lemma SameText(show: Value -> string, a: string, b: string, ok: bool, p: Piece, q: Piece)
    requires Printed(show, a, b, ok, [p]) && Render(show, p) == Render(show, q)
    ensures Printed(show, a, b, ok, [q])
  {
    TextOne(show, p);
    TextOne(show, q);
  }

  method PrintTableRows(w: Writer, fields: Fields, ghost all: map<string, Value>, ghost at: Path) returns (ok: bool)
    requires forall k | k in fields.entries :: !IsSectionShape(fields.entries[k])
    requires fields.entries != map[] && all == PlainMap(fields.entries)
    modifies w
    ensures Printed(w.show, old(w.out), w.out, ok,
                    [TableHead, TableRule] + Rows(at, all, InOrder(all.Keys)) + [TableEnd])
    ensures w.failures == old(w.failures) + Failures(ok)
  {
    hide Printed, Rows;
    ghost var before := w.out;
    ghost var rows := Rows(at, all, InOrder(all.Keys));
    ghost var whole := [TableHead, TableRule] + rows + [TableEnd];
    assert all.Keys == fields.entries.Keys;
    ok := w.Print(TableHead);
    if !ok {
      PrintedPart(w.show, before, w.out, [TableHead], whole);
      return;
    }
    ghost var middle := w.out;
    ok := w.Print(TableRule);
    PrintedBoth(w.show, before, middle, w.out, ok, [TableHead], [TableRule]);
    assert [TableHead] + [TableRule] == [TableHead, TableRule];
    if !ok {
      PrintedPart(w.show, before, w.out, [TableHead, TableRule], whole);
      return;
    }
    var keys := SortedKeys(fields.entries);
    middle := w.out;
    ok := PrintRows(w, fields, keys, all, at);
    PrintedBoth(w.show, before, middle, w.out, ok, [TableHead, TableRule], rows);
    if !ok {
      PrintedPart(w.show, before, w.out, [TableHead, TableRule] + rows, whole);
      return;
    }
    middle := w.out;
    ok := w.Print(TableEnd);
    PrintedBoth(w.show, before, middle, w.out, ok, [TableHead, TableRule] + rows, [TableEnd]);
  }

  /** Takes the spectrogram fields out of the map object it is given. */
  method TakeSpectrogram(fields: Fields) returns (hasSpectrogram: bool, path: string)
    requires forall k | k in fields.entries :: !IsSectionShape(fields.entries[k])
    modifies fields
    ensures forall k | k in fields.entries :: !IsSectionShape(fields.entries[k])
    ensures PlainMap(fields.entries) == Part(PlainMap(old(fields.entries)), RowKeys(PlainMap(old(fields.entries))))
    ensures hasSpectrogram == HasSpectrogram(PlainMap(old(fields.entries)))
    ensures path == if hasSpectrogram then PlainMap(old(fields.entries))[SPECTROGRAM_PATH].s else ""
  {
    ghost var all := PlainMap(fields.entries);
    hasSpectrogram := SPECTROGRAM_PATH in fields.entries && fields.entries[SPECTROGRAM_PATH].StrShape?;
    path := if hasSpectrogram then fields.entries[SPECTROGRAM_PATH].s else "";
    if hasSpectrogram { fields.entries := fields.entries - {SPECTROGRAM_PATH, SPECTROGRAM_REL_PATH}; }
    assert PlainMap(fields.entries).Keys == RowKeys(all);
  }

  lemma PartRows(at: Path, all: map<string, Value>, part: map<string, Value>)
    requires part == Part(all, RowKeys(all))
    ensures part.Keys == RowKeys(all)
    ensures part == map[] ==> TableRows(at, all) == []
    ensures part != map[] ==>
              TableRows(at, all) == [TableHead, TableRule] + Rows(at, part, InOrder(part.Keys)) + [TableEnd]
  {
    RowsAreFields(all);
    assert part.Keys == RowKeys(all);
    SameRows(at, part, all, InOrder(part.Keys));
  }

  method PrintTable(w: Writer, fields: Fields, ghost at: Path) returns (ok: bool)
    requires forall k | k in fields.entries :: !IsSectionShape(fields.entries[k])
    modifies w, fields
    ensures Printed(w.show, old(w.out), w.out, ok, Table(at, PlainMap(old(fields.entries))))
    ensures w.failures == old(w.failures) + Failures(ok)
    ensures forall k | k in fields.entries :: !IsSectionShape(fields.entries[k])
    ensures PlainMap(fields.entries) == Part(PlainMap(old(fields.entries)), RowKeys(PlainMap(old(fields.entries))))
  {
    hide Printed, TableRows, Rows, Images, RowKeys, Part;
    ghost var before, all := w.out, PlainMap(fields.entries);
    var hasSpectrogram, path := TakeSpectrogram(fields);
    ghost var left := PlainMap(fields.entries);
    PartRows(at, all, left);
    ok := true;
    PrintedNothing(w.show, before);
    if fields.entries != map[] {
      assert left.Keys == fields.entries.Keys;
      ok := PrintTableRows(w, fields, left, at);
      if !ok {
        PrintedLess(w.show, before, w.out, TableRows(at, all), Images(at, all));
        return;
      }
    }
    ghost var middle := w.out;
    ok := PrintImage(w, hasSpectrogram, path, at, all);
    PrintedBoth(w.show, before, middle, w.out, ok, TableRows(at, all), Images(at, all));
  }

  method PrintImage(w: Writer, hasSpectrogram: bool, path: string, ghost at: Path, ghost all: map<string, Value>)
    returns (ok: bool)
    requires hasSpectrogram == HasSpectrogram(all)
    requires path == if hasSpectrogram then all[SPECTROGRAM_PATH].s else ""
    modifies w
    ensures Printed(w.show, old(w.out), w.out, ok, Images(at, all))
    ensures w.failures == old(w.failures) + Failures(ok)
  {
    hide Printed;
    ghost var before := w.out;
    if hasSpectrogram && path != "" {
      ok := w.Print(Image([], path));
      SameText(w.show, before, w.out, ok, Image([], path), Image(at + [Field(SPECTROGRAM_PATH)], path));
    } else {
      ok := true;
      PrintedNothing(w.show, before);
    }
  }

  // ---------- Maps and lists ----------

  lemma NestedGrow(at: Path, v: Value, keys: seq<string>, level: nat, n: nat)
    requires v.Map? && n < |keys| && forall k | k in keys :: k in v.fields
    ensures Nested(at, v, keys[..n + 1], level)
         == Nested(at, v, keys[..n], level) + Section(at + [Field(keys[n])], keys[n], v.fields[keys[n]], level)
  {
    hide Section;
    assert keys[..n + 1][..n] == keys[..n];
  }

  lemma {:induction false} NestedPrefix(at: Path, v: Value, keys: seq<string>, level: nat, n: nat)
    requires v.Map? && n <= |keys| && forall k | k in keys :: k in v.fields
    ensures Nested(at, v, keys[..n], level) <= Nested(at, v, keys, level)
    decreases |keys| - n
  {
    hide Section, Nested;
    if n < |keys| {
      NestedGrow(at, v, keys, level, n);
      NestedPrefix(at, v, keys, level, n + 1);
    } else {
      assert keys[..n] == keys;
    }
  }

  lemma {:induction false} ItemsPrefix(at: Path, v: Value, n: nat, level: nat)
    requires v.List? && n <= |v.items|
    ensures Items(at, v, n, level) <= Items(at, v, |v.items|, level)
    decreases |v.items| - n
  {
    hide ItemPieces;
    if n < |v.items| { ItemsPrefix(at, v, n + 1, level); }
  }

  lemma NoneNested(at: Path, v: Value, level: nat)
    requires v.Map?
    ensures Nested(at, v, [], level) == []
  {
  }

  /** The table of a map's plain fields and its nested fields, one level deeper than `level`. */
  method PrintFields(w: Writer, data: Fields, level: nat, ghost v: Value, ghost repr: set<Fields>, ghost at: Path)
    returns (ok: bool)
    requires v.Map? && Represents(MapShape(data), v, repr)
    modifies w
    ensures Printed(w.show, old(w.out), w.out, ok,
                    Table(at, v.fields) + Nested(at, v, InOrder(NestedKeys(v.fields)), level))
    ensures w.failures == old(w.failures) + Failures(ok)
    decreases v, 1
  {
    hide Printed, Table, Nested, Section;
    ghost var before := w.out;
    Separated(data, v, repr);
    var scalars, nested := SeparateFields(data);
    hide Represents, Part, PlainShapes, NestedShapes;
    ok := true;
    PartTable(at, v.fields);
    if scalars.entries != map[] {
      ok := PrintTable(w, scalars, at);
      if !ok {
        PrintedLess(w.show, before, w.out, Table(at, v.fields), Nested(at, v, InOrder(NestedKeys(v.fields)), level));
        return;
      }
    } else {
      NoTable(at, v.fields);
      PrintedNothing(w.show, before);
    }
    ghost var middle := w.out;
    ok := PrintNested(w, nested, level, v, repr, at);
    PrintedBoth(w.show, before, middle, w.out, ok, Table(at, v.fields),
                Nested(at, v, InOrder(NestedKeys(v.fields)), level));
  }

  lemma NoTable(at: Path, data: map<string, Value>)
    requires Part(data, PlainKeys(data)) == map[]
    ensures Table(at, data) == []
  {
    assert Part(data, PlainKeys(data)).Keys == PlainKeys(data);
    RowsAreFields(data);
    assert RowKeys(data) == {};
    assert SPECTROGRAM_PATH !in PlainKeys(data);
  }

  method PrintNested(w: Writer, nested: Fields, level: nat, ghost v: Value, ghost repr: set<Fields>, ghost at: Path)
    returns (ok: bool)
    requires v.Map? && nested.entries.Keys == NestedKeys(v.fields)
    requires forall k | k in nested.entries :: Represents(nested.entries[k], v.fields[k], repr)
    modifies w
    ensures Printed(w.show, old(w.out), w.out, ok, Nested(at, v, InOrder(NestedKeys(v.fields)), level))
    ensures w.failures == old(w.failures) + Failures(ok)
    decreases v, 0
  {
    hide Printed, Nested, Section, Represents, IsBefore, Ordered;
    ghost var before := w.out;
    var keys := SortedKeys(nested.entries);
    ok := true;
    NoneNested(at, v, level);
    PrintedNothing(w.show, before);
    assert keys[..0] == [];
    for n := 0 to |keys|
      invariant forall k | k in nested.entries :: Represents(nested.entries[k], v.fields[k], repr)
      invariant forall k | k in keys[..n] :: k in v.fields
      invariant Printed(w.show, before, w.out, true, Nested(at, v, keys[..n], level))
      invariant w.failures == old(w.failures)
    {
      ghost var middle := w.out;
      assert keys[n] in nested.entries;
      ok := PrintValue(w, keys[n], nested.entries[keys[n]], level, v.fields[keys[n]], repr, at + [Field(keys[n])]);
      PrintedBoth(w.show, before, middle, w.out, ok, Nested(at, v, keys[..n], level),
                  Section(at + [Field(keys[n])], keys[n], v.fields[keys[n]], level));
      NestedGrow(at, v, keys, level, n);
      if !ok {
        NestedPrefix(at, v, keys, level, n + 1);
        PrintedPart(w.show, before, w.out, Nested(at, v, keys[..n + 1], level), Nested(at, v, keys, level));
        return;
      }
    }
    assert keys[..|keys|] == keys;
  }

  method PrintValue(w: Writer, key: string, value: Shape, level: nat, ghost v: Value, ghost repr: set<Fields>,
                    ghost at: Path)
    returns (ok: bool)
    requires Represents(value, v, repr)
    modifies w
    ensures Printed(w.show, old(w.out), w.out, ok, Section(at, key, v, level))
    ensures w.failures == old(w.failures) + Failures(ok)
    decreases v, 3
  {
    hide Printed;
    SameKind(value, v, repr);
    match value
    case MapShape(data) => ok := PrintMapSection(w, key, data, level, v, repr, at);
    case ListShape(slice) => ok := PrintSliceSection(w, key, slice, level, v, repr, at);
    case _ =>
      ok := true;
      PrintedNothing(w.show, w.out);
  }

  method PrintHeading(w: Writer, level: nat, text: string, ghost at: Path) returns (ok: bool)
    modifies w
    ensures Printed(w.show, old(w.out), w.out, ok, [Heading(at, Min(level, MAX_HEADING_LEVEL), text)])
    ensures w.failures == old(w.failures) + Failures(ok)
  {
    hide Printed;
    ghost var before := w.out;
    ok := w.Print(Heading([], Min(level, MAX_HEADING_LEVEL), text));
    SameText(w.show, before, w.out, ok, Heading([], Min(level, MAX_HEADING_LEVEL), text),
             Heading(at, Min(level, MAX_HEADING_LEVEL), text));
  }

  method PrintMapSection(w: Writer, key: string, data: Fields, level: nat,
                         ghost v: Value, ghost repr: set<Fields>, ghost at: Path) returns (ok: bool)
    requires v.Map? && Represents(MapShape(data), v, repr)
    modifies w
    ensures Printed(w.show, old(w.out), w.out, ok, Section(at, key, v, level))
    ensures w.failures == old(w.failures) + Failures(ok)
    decreases v, 2
  {
    hide Printed, Table, Nested, Represents;
    ghost var before := w.out;
    ghost var heading := [Heading(at, Min(level, MAX_HEADING_LEVEL), key)];
    ghost var table := Table(at, v.fields);
    ghost var rest := Nested(at, v, InOrder(NestedKeys(v.fields)), level + 1);
    assert Section(at, key, v, level) == heading + (table + rest);
    ok := PrintHeading(w, level, key, at);
    if !ok {
      PrintedLess(w.show, before, w.out, heading, table + rest);
      return;
    }
    ghost var middle := w.out;
    ok := PrintFields(w, data, level + 1, v, repr, at);
    PrintedBoth(w.show, before, middle, w.out, ok, heading, table + rest);
  }

  method PrintSliceSection(w: Writer, key: string, slice: seq<Shape>, level: nat,
                           ghost v: Value, ghost repr: set<Fields>, ghost at: Path) returns (ok: bool)
    requires v.List? && Represents(ListShape(slice), v, repr)
    modifies w
    ensures Printed(w.show, old(w.out), w.out, ok, Section(at, key, v, level))
    ensures w.failures == old(w.failures) + Failures(ok)
    decreases v, 2
  {
    hide Printed, Items, ItemPieces;
    ghost var before := w.out;
    ghost var heading := [Heading(at, Min(level, MAX_HEADING_LEVEL), key)];
    assert Section(at, key, v, level) == heading + Items(at, v, |v.items|, level);
    ok := PrintHeading(w, level, key, at);
    if !ok {
      PrintedLess(w.show, before, w.out, heading, Items(at, v, |v.items|, level));
      return;
    }
    NoItems(at, v, level);
    assert heading + [] == heading;
    for index := 0 to |slice|
      invariant Represents(ListShape(slice), v, repr)
      invariant Printed(w.show, before, w.out, true, heading + Items(at, v, index, level))
      invariant w.failures == old(w.failures)
    {
      ghost var middle := w.out;
      ghost var shown := heading + Items(at, v, index, level);
      ghost var pieces := ItemPieces(at + [Item(index)], index + 1, v.items[index], level);
      ok := PrintItem(w, index, slice[index], level, v.items[index], repr, at + [Item(index)]);
      PrintedBoth(w.show, before, middle, w.out, ok, shown, pieces);
      ItemsGrow(at, v, index, level);
      assert shown + pieces == heading + Items(at, v, index + 1, level);
      if !ok {
        ItemsPrefix(at, v, index + 1, level);
        PrintedPart(w.show, before, w.out, heading + Items(at, v, index + 1, level),
                    heading + Items(at, v, |v.items|, level));
        return;
      }
    }
  }

  lemma NoItems(at: Path, v: Value, level: nat)
    requires v.List?
    ensures Items(at, v, 0, level) == []
  {
  }

  lemma ItemsGrow(at: Path, v: Value, n: nat, level: nat)
    requires v.List? && n < |v.items|
    ensures Items(at, v, n + 1, level) == Items(at, v, n, level) + ItemPieces(at + [Item(n)], n + 1, v.items[n], level)
  {
  }

  method PrintItem(w: Writer, index: nat, item: Shape, level: nat, ghost v: Value, ghost repr: set<Fields>,
                   ghost at: Path)
    returns (ok: bool)
    requires Represents(item, v, repr)
    modifies w
    ensures Printed(w.show, old(w.out), w.out, ok, ItemPieces(at, index + 1, v, level))
    ensures w.failures == old(w.failures) + Failures(ok)
    decreases v, 2
  {
    hide Printed, Table, Nested, Represents;
    ghost var before := w.out;
    SameKind(item, v, repr);
    if item.MapShape? {
      ghost var heading := [Heading(at, Min(level + 1, MAX_HEADING_LEVEL), "Stream " + Decimal(index + 1))];
      ghost var table := Table(at, v.fields);
      ghost var rest := Nested(at, v, InOrder(NestedKeys(v.fields)), level + 2);
      assert ItemPieces(at, index + 1, v, level) == heading + (table + rest);
      ok := PrintHeading(w, level + 1, "Stream " + Decimal(index + 1), at);
      if !ok {
        PrintedLess(w.show, before, w.out, heading, table + rest);
        return;
      }
      ghost var middle := w.out;
      ok := PrintFields(w, item.ref, level + 2, v, repr, at);
      PrintedBoth(w.show, before, middle, w.out, ok, heading, table + rest);
    } else {
      var shown := ReadValue(item, v, repr);
      ok := w.Print(Bullet([], shown));
      SameText(w.show, before, w.out, ok, Bullet([], shown), Bullet(at, v));
    }
  }

  // ---------- Entries ----------

  lemma DocumentGrow(meta: map<string, Value>, keys: seq<string>, level: nat, n: nat)
    requires n < |keys| && forall k | k in keys :: k in meta
    ensures Document(meta, keys[..n + 1], level)
         == Document(meta, keys[..n], level) + Section([Field(keys[n])], keys[n], meta[keys[n]], level)
  {
    hide Section;
    assert keys[..n + 1][..n] == keys[..n];
  }

  lemma {:induction false} DocumentPrefix(meta: map<string, Value>, keys: seq<string>, level: nat, n: nat)
    requires n <= |keys| && forall k | k in keys :: k in meta
    ensures Document(meta, keys[..n], level) <= Document(meta, keys, level)
    decreases |keys| - n
  {
    hide Section, Document;
    if n < |keys| {
      DocumentGrow(meta, keys, level, n);
      DocumentPrefix(meta, keys, level, n + 1);
    } else {
      assert keys[..n] == keys;
    }
  }

  lemma NoDocument(meta: map<string, Value>, level: nat)
    ensures Document(meta, [], level) == []
  {
  }

  method PrintMap(w: Writer, meta: Fields, level: nat, ghost v: Value, ghost repr: set<Fields>) returns (ok: bool)
    requires v.Map? && Represents(MapShape(meta), v, repr)
    modifies w
    ensures Printed(w.show, old(w.out), w.out, ok, Document(v.fields, InOrder(v.fields.Keys), level))
    ensures w.failures == old(w.failures) + Failures(ok)
  {
    hide Printed, Document, Section, IsBefore, Ordered;
    ghost var before := w.out;
    var keys := SortedKeys(meta.entries);
    ok := true;
    NoDocument(v.fields, level);
    PrintedNothing(w.show, before);
    assert keys[..0] == [];
    for n := 0 to |keys|
      invariant Represents(MapShape(meta), v, repr)
      invariant forall k | k in keys[..n] :: k in v.fields
      invariant Printed(w.show, before, w.out, true, Document(v.fields, keys[..n], level))
      invariant w.failures == old(w.failures)
    {
      ghost var middle := w.out;
      assert keys[n] in v.fields;
      ok := PrintValue(w, keys[n], meta.entries[keys[n]], level, v.fields[keys[n]], repr, [Field(keys[n])]);
      PrintedBoth(w.show, before, middle, w.out, ok, Document(v.fields, keys[..n], level),
                  Section([Field(keys[n])], keys[n], v.fields[keys[n]], level));
      DocumentGrow(v.fields, keys, level, n);
      if !ok {
        DocumentPrefix(v.fields, keys, level, n + 1);
        PrintedPart(w.show, before, w.out, Document(v.fields, keys[..n + 1], level), Document(v.fields, keys, level));
        return;
      }
    }
    assert keys[..|keys|] == keys;
  }

  ghost predicate DataRepresents(d: DataShape, data: Data, repr: set<Fields>)
    reads repr
  {
    d.name == data.name && Represents(MapShape(d.meta), Map(data.meta), repr)
  }

  method PrintOne(w: Writer, d: DataShape, ghost data: Data, ghost repr: set<Fields>) returns (ok: bool)
    requires DataRepresents(d, data, repr)
    modifies w
    ensures Printed(w.show, old(w.out), w.out, ok, Entry(data))
    ensures w.failures == old(w.failures) + Failures(ok)
  {
    hide Printed, Document;
    ghost var before := w.out;
    ok := w.Print(Title(d.name));
    if !ok {
      PrintedLess(w.show, before, w.out, [Title(data.name)], Body(data.meta));
      return;
    }
    ghost var middle := w.out;
    if d.meta.entries != map[] {
      ok := PrintMap(w, d.meta, TOP_LEVEL, Map(data.meta), repr);
    } else {
      assert data.meta.Keys == {};
      assert InOrder(data.meta.Keys) == [];
      NoDocument(data.meta, TOP_LEVEL);
      PrintedNothing(w.show, middle);
    }
    PrintedBoth(w.show, before, middle, w.out, ok, [Title(data.name)], Body(data.meta));
  }

  lemma {:induction false} EntriesPrefix(data: seq<Data>, n: nat)
    requires n <= |data|
    ensures Entries(data, n) <= Entries(data, |data|)
    decreases |data| - n
  {
    hide Entry;
    if n < |data| { EntriesPrefix(data, n + 1); }
  }

  /** The output is a function of the data, whatever the order in which maps are visited; if a write fails, it is the
      beginning of that output, and the error is reported. The maps of the data are as before. */
  method PrintAll(w: Writer, data: seq<DataShape>, ghost values: seq<Data>, ghost repr: set<Fields>) returns (ok: bool)
    requires |data| == |values| && forall i | 0 <= i < |data| :: DataRepresents(data[i], values[i], repr)
    modifies w
    ensures Printed(w.show, old(w.out), w.out, ok, Entries(values, |values|))
    ensures w.failures == old(w.failures) + Failures(ok)
    ensures forall fields | fields in repr :: fields.entries == old(fields.entries)
  {
    hide Printed, Entry, DataRepresents;
    ghost var before := w.out;
    ok := true;
    PrintedNothing(w.show, before);
    for i := 0 to |data|
      invariant forall n | 0 <= n < |data| :: DataRepresents(data[n], values[n], repr)
      invariant Printed(w.show, before, w.out, true, Entries(values, i))
      invariant w.failures == old(w.failures)
    {
      ghost var shown, middle := Entries(values, i), w.out;
      EntriesPrefix(values, i + 1);
      if i > 0 {
        ok := w.Print(Rule);
        PrintedBoth(w.show, before, middle, w.out, ok, shown, [Rule]);
        shown, middle := shown + [Rule], w.out;
        if !ok {
          PrintedPart(w.show, before, w.out, shown, Entries(values, |values|));
          return;
        }
      }
      ok := PrintOne(w, data[i], values[i], repr);
      PrintedBoth(w.show, before, middle, w.out, ok, shown, Entry(values[i]));
      assert shown + Entry(values[i]) == Entries(values, i + 1);
      if !ok {
        PrintedPart(w.show, before, w.out, Entries(values, i + 1), Entries(values, |values|));
        return;
      }
    }
  }
}
