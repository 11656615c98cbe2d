/** What the Markdown formatter prints for a tree of maps, lists and plain values: the specification as a sequence of
    pieces, each of which remembers which value of the tree it shows. */
module Markdown {

  /** A plain value is either a string or something else that prints as `text`. */
  datatype Value =
    | Str(s: string)
    | Plain(text: string)
    | Map(fields: map<string, Value>)
    | List(items: seq<Value>)

  datatype Data = Data(name: string, meta: map<string, Value>)

  /** How to get from a value to one inside it. */
  datatype Step = Field(key: string) | Item(index: nat)

  type Path = seq<Step>

  datatype Piece =
    | Title(name: string)
    | Rule
    | TableHead
    | TableRule
    | TableEnd
    | Heading(origin: Path, level: nat, text: string)
    | Row(origin: Path, key: string, value: Value)
    | Bullet(origin: Path, value: Value)
    | Image(origin: Path, src: string)

  const MAX_HEADING_LEVEL: nat := 6
  const SPECTROGRAM_PATH := "spectrogram_path"
  const SPECTROGRAM_REL_PATH := "spectrogram_rel_path"

  // ---------- The order of keys ----------

  /** Strings in the order of their characters, as sort.Strings puts them. */
  predicate AtMost(s: string, t: string) {
    s == [] || (t != [] && (s[0] < t[0] || (s[0] == t[0] && AtMost(s[1..], t[1..]))))
  }

  lemma {:induction false} AtMostIsTotal(s: string, t: string)
    ensures AtMost(s, t) || AtMost(t, s)
    ensures AtMost(s, t) && AtMost(t, s) ==> s == t
  {
    if s != [] && t != [] && s[0] == t[0] {
      AtMostIsTotal(s[1..], t[1..]);
      assert s == [s[0]] + s[1..] && t == [t[0]] + t[1..];
    }
  }

  lemma {:induction false} AtMostIsTransitive(s: string, t: string, u: string)
    requires AtMost(s, t) && AtMost(t, u)
    ensures AtMost(s, u)
  {
    if s != [] && s[0] == t[0] && t[0] == u[0] { AtMostIsTransitive(s[1..], t[1..], u[1..]); }
  }

  /** One string is the beginning of the other, or they first differ at a place where s has the smaller character. */
  ghost predicate IsBefore(s: string, t: string) {
    s <= t || exists i :: 0 <= i < |s| && i < |t| && s[..i] == t[..i] && s[i] < t[i]
  }

  lemma {:induction false} AtMostIsBefore(s: string, t: string)
    requires AtMost(s, t)
    ensures IsBefore(s, t)
  {
    if s != [] {
      if s[0] == t[0] {
        var u, v := s[1..], t[1..];
        AtMostIsBefore(u, v);
        assert s == [s[0]] + u && t == [t[0]] + v;
        if !(u <= v) {
          var i :| 0 <= i < |u| && i < |v| && u[..i] == v[..i] && u[i] < v[i];
          assert s[..i + 1] == [s[0]] + u[..i] && t[..i + 1] == [t[0]] + v[..i];
          assert s[i + 1] < t[i + 1];
        }
      } else {
        assert s[..0] == t[..0];
      }
    }
  }

  lemma {:induction false} PrefixIsAtMost(s: string, t: string)
    requires s <= t
    ensures AtMost(s, t)
  {
    if s != [] {
      assert s[1..] <= t[1..];
      PrefixIsAtMost(s[1..], t[1..]);
    }
  }

  lemma {:induction false} SmallerIsAtMost(s: string, t: string, i: nat)
    requires i < |s| && i < |t| && s[..i] == t[..i] && s[i] < t[i]
    ensures AtMost(s, t)
  {
    if i > 0 {
      assert s[0] == s[..i][0] == t[0];
      assert s[1..][..i - 1] == s[..i][1..] && t[1..][..i - 1] == t[..i][1..];
      SmallerIsAtMost(s[1..], t[1..], i - 1);
    }
  }

  lemma AtMostIffBefore(s: string, t: string)
    ensures AtMost(s, t) <==> IsBefore(s, t)
  {
    if AtMost(s, t) {
      AtMostIsBefore(s, t);
    } else if s <= t {
      PrefixIsAtMost(s, t);
    } else if i :| 0 <= i < |s| && i < |t| && s[..i] == t[..i] && s[i] < t[i] {
      SmallerIsAtMost(s, t, i);
    }
  }

  predicate Ordered(keys: seq<string>) {
    forall i, j | 0 <= i < j < |keys| :: AtMost(keys[i], keys[j]) && keys[i] != keys[j]
  }

  /** The keys in order, each once. */
  ghost predicate IsOrderOf(keys: seq<string>, set_: set<string>) {
    Ordered(keys) && forall k :: k in keys <==> k in set_
  }

  /** There is only one way to put a set of keys in order. */
  lemma {:induction false} OrderIsUnique(a: seq<string>, b: seq<string>)
    requires Ordered(a) && Ordered(b) && forall k :: k in a <==> k in b
    ensures a == b
  {
    assert a != [] ==> a[0] in b;
    assert b != [] ==> b[0] in a;
    if a != [] && b != [] {
      var x, y := a[0], b[0];
      assert x in b && y in a;
      assert AtMost(x, y) && AtMost(y, x) by {
        AtMostIsTotal(x, x);
        assert x == y || AtMost(x, y);
        assert x == y || AtMost(y, x);
      }
      AtMostIsTotal(x, y);
      forall k ensures k in a[1..] <==> k in b[1..] {
        assert k in a[1..] <==> k in a && k != x;
        assert k in b[1..] <==> k in b && k != y;
      }
      OrderIsUnique(a[1..], b[1..]);
      assert a == [x] + a[1..] && b == [y] + b[1..];
    }
  }

  function Insert(k: string, keys: seq<string>): seq<string> {
    if keys == [] || AtMost(k, keys[0]) then [k] + keys else [keys[0]] + Insert(k, keys[1..])
  }

  lemma {:induction false} InsertKeepsOrder(k: string, keys: seq<string>)
    requires Ordered(keys) && k !in keys
    ensures Ordered(Insert(k, keys))
    ensures forall l :: l in Insert(k, keys) <==> l == k || l in keys
  {
    if keys == [] {
    } else if AtMost(k, keys[0]) {
      forall i | 0 <= i < |keys| ensures AtMost(k, keys[i]) {
        if i > 0 { AtMostIsTransitive(k, keys[0], keys[i]); }
      }
    } else {
      AtMostIsTotal(k, keys[0]);
      InsertKeepsOrder(k, keys[1..]);
      var rest := Insert(k, keys[1..]);
      forall i | 0 <= i < |rest| ensures AtMost(keys[0], rest[i]) && keys[0] != rest[i] {
        assert rest[i] in rest;
      }
      assert keys == [keys[0]] + keys[1..];
    }
  }

  /** The keys of a set in order. The choice of the key to take out does not matter. */
  ghost function InOrder(keys: set<string>): seq<string>
    ensures IsOrderOf(InOrder(keys), keys)
  {
    if keys == {} then []
    else
      var k :| k in keys;
      var rest := InOrder(keys - {k});
      InsertKeepsOrder(k, rest);
      Insert(k, rest)
  }

  lemma InOrderIsSorted(keys: set<string>, i: nat, j: nat)
    requires i < j < |InOrder(keys)|
    ensures IsBefore(InOrder(keys)[i], InOrder(keys)[j])
  {
    AtMostIffBefore(InOrder(keys)[i], InOrder(keys)[j]);
  }

  lemma OrderOfIsInOrder(keys: seq<string>, set_: set<string>)
    requires IsOrderOf(keys, set_)
    ensures keys == InOrder(set_)
  {
    OrderIsUnique(keys, InOrder(set_));
  }

  // ---------- The pieces ----------

  function Min(x: nat, y: nat): nat { if x <= y then x else y }

  predicate IsSection(v: Value) { v.Map? || v.List? }

  function NestedKeys(fields: map<string, Value>): set<string> { set k | k in fields && IsSection(fields[k]) }

  function PlainKeys(fields: map<string, Value>): set<string> { set k | k in fields && !IsSection(fields[k]) }

  predicate HasSpectrogram(fields: map<string, Value>) {
    SPECTROGRAM_PATH in fields && fields[SPECTROGRAM_PATH].Str?
  }

  /** The fields that get a row of the table. */
  function RowKeys(fields: map<string, Value>): set<string> {
    if HasSpectrogram(fields) then PlainKeys(fields) - {SPECTROGRAM_PATH, SPECTROGRAM_REL_PATH} else PlainKeys(fields)
  }

  function Rows(at: Path, fields: map<string, Value>, keys: seq<string>): seq<Piece>
    requires forall k | k in keys :: k in fields
  {
    if keys == [] then []
    else
      var k := keys[|keys| - 1];
      Rows(at, fields, keys[..|keys| - 1]) + [Row(at + [Field(k)], k, fields[k])]
  }

  ghost function TableRows(at: Path, fields: map<string, Value>): seq<Piece> {
    if RowKeys(fields) == {} then []
    else [TableHead, TableRule] + Rows(at, fields, InOrder(RowKeys(fields))) + [TableEnd]
  }

  function Images(at: Path, fields: map<string, Value>): seq<Piece> {
    if HasSpectrogram(fields) && fields[SPECTROGRAM_PATH].s != ""
    then [Image(at + [Field(SPECTROGRAM_PATH)], fields[SPECTROGRAM_PATH].s)] else []
  }

  ghost function Table(at: Path, fields: map<string, Value>): seq<Piece> { TableRows(at, fields) + Images(at, fields) }

  /** What is printed for the value at the path `at`, under the name `key`. */
  ghost function Section(at: Path, key: string, v: Value, level: nat): seq<Piece>
    decreases v, 1, 0
  {
    match v
    case Map(fields) =>
      [Heading(at, Min(level, MAX_HEADING_LEVEL), key)] + Table(at, fields)
      + Nested(at, v, InOrder(NestedKeys(fields)), level + 1)
    case List(items) => [Heading(at, Min(level, MAX_HEADING_LEVEL), key)] + Items(at, v, |items|, level)
    case _ => []
  }

  ghost function Nested(at: Path, v: Value, keys: seq<string>, level: nat): seq<Piece>
    requires v.Map? && forall k | k in keys :: k in v.fields
    decreases v, 0, |keys|
  {
    if keys == [] then []
    else
      var k := keys[|keys| - 1];
      Nested(at, v, keys[..|keys| - 1], level) + Section(at + [Field(k)], k, v.fields[k], level)
  }

  /** The first n items. */
  ghost function Items(at: Path, v: Value, n: nat, level: nat): seq<Piece>
    requires v.List? && n <= |v.items|
    decreases v, 0, n
  {
    if n == 0 then []
    else Items(at, v, n - 1, level) + ItemPieces(at + [Item(n - 1)], n, v.items[n - 1], level)
  }

  ghost function ItemPieces(at: Path, n: nat, v: Value, level: nat): seq<Piece>
    decreases v, 1, 0
  {
    if v.Map? then
      [Heading(at, Min(level + 1, MAX_HEADING_LEVEL), "Stream " + Decimal(n))] + Table(at, v.fields)
      + Nested(at, v, InOrder(NestedKeys(v.fields)), level + 2)
    else [Bullet(at, v)]
  }

  function Decimal(n: nat): string {
    if n < 10 then [('0' as int + n) as char] else Decimal(n / 10) + [('0' as int + n % 10) as char]
  }

  // ---------- Reading a number ----------

  predicate AreDigits(s: string) { s != [] && forall c | c in s :: '0' <= c <= '9' }

  /** The number that a decimal numeral stands for, its digits read from left to right. */
  function NumberOf(s: string): int {
    if s == [] then 0 else 10 * NumberOf(s[..|s| - 1]) + (s[|s| - 1] as int - '0' as int)
  }

  /** A numeral as it is read: no superfluous zero in front. */
  predicate IsNumeral(s: string, n: nat) { AreDigits(s) && NumberOf(s) == n && (s[0] == '0' ==> |s| == 1) }

  lemma {:induction false} DecimalIsNumeral(n: nat)
    ensures IsNumeral(Decimal(n), n)
  {
    if n >= 10 {
      DecimalIsNumeral(n / 10);
      var front, last := Decimal(n / 10), ('0' as int + n % 10) as char;
      assert (front + [last])[..|front|] == front;
      assert NumberOf("0") == 0 by { assert "0"[..0] == ""; }
      assert |front| == 1 ==> front == [front[0]];
      assert front != "0";
    } else {
      assert Decimal(n)[..0] == [];
    }
  }

  ghost function Document(meta: map<string, Value>, keys: seq<string>, level: nat): seq<Piece>
    requires forall k | k in keys :: k in meta
  {
    if keys == [] then []
    else
      var k := keys[|keys| - 1];
      Document(meta, keys[..|keys| - 1], level) + Section([Field(k)], k, meta[k], level)
  }

  // ---------- Every value is shown once ----------

  /** The value that a path leads to. */
  datatype Found = Missing | Here(value: Value)

  function Lookup(v: Value, p: Path): Found
    decreases |p|
  {
    if p == [] then Here(v)
    else if p[0].Field? && v.Map? && p[0].key in v.fields then Lookup(v.fields[p[0].key], p[1..])
    else if p[0].Item? && v.List? && p[0].index < |v.items| then Lookup(v.items[p[0].index], p[1..])
    else Missing
  }

  /** A field that is replaced by the image, or left out because there is one. */
  predicate Dropped(fields: map<string, Value>, k: string) {
    && "spectrogram_path" in fields && fields["spectrogram_path"].Str?
    && (k == "spectrogram_rel_path" || (k == "spectrogram_path" && fields[k].s == ""))
  }

  /** The path leads from the printed map or list v to a value that has a heading, a row, a bullet or an image of its
      own: any value but the dropped fields and what lies inside a list that is an item of a list. */
  predicate Shown(v: Value, p: Path)
    decreases |p|
  {
    if p == [] then IsSection(v)
    else
      match v
      case Map(fields) =>
        p[0].Field? && p[0].key in fields
        && if IsSection(fields[p[0].key]) then Shown(fields[p[0].key], p[1..])
           else |p| == 1 && !Dropped(fields, p[0].key)
      case List(items) =>
        p[0].Item? && p[0].index < |items|
        && if items[p[0].index].Map? then Shown(items[p[0].index], p[1..]) else |p| == 1
      case _ => false
  }

  predicate Shows(piece: Piece, q: Path) {
    match piece
    case Heading(origin, _, _) => origin == q
    case Row(origin, _, _) => origin == q
    case Bullet(origin, _) => origin == q
    case Image(origin, _) => origin == q
    case _ => false
  }

  /** How many pieces show what lies at q. */
  function Count(pieces: seq<Piece>, q: Path): nat {
    if pieces == [] then 0
    else Count(pieces[..|pieces| - 1], q) + if Shows(pieces[|pieces| - 1], q) then 1 else 0
  }

  lemma {:induction false} CountAdds(a: seq<Piece>, b: seq<Piece>, q: Path)
    ensures Count(a + b, q) == Count(a, q) + Count(b, q)
  {
    if b == [] {
      assert a + b == a;
    } else {
      CountAdds(a, b[..|b| - 1], q);
      assert (a + b)[..|a + b| - 1] == a + b[..|b| - 1];
    }
  }

  function One(b: bool): nat { if b then 1 else 0 }

  /** The path goes on from `at` by the field k. */
  predicate Through(at: Path, q: Path) { at < q && q[|at|].Field? }

  lemma {:induction false} CountRows(at: Path, fields: map<string, Value>, keys: seq<string>, q: Path)
    requires Ordered(keys) && forall k | k in keys :: k in fields
    ensures Count(Rows(at, fields, keys), q) == One(|q| == |at| + 1 && Through(at, q) && q[|at|].key in keys)
  {
    if keys != [] {
      var k, rest := keys[|keys| - 1], keys[..|keys| - 1];
      CountRows(at, fields, rest, q);
      CountAdds(Rows(at, fields, rest), [Row(at + [Field(k)], k, fields[k])], q);
      LastIsNew(keys);
      assert at + [Field(k)] == q <==> |q| == |at| + 1 && Through(at, q) && q[|at|].key == k;
    }
  }

  lemma LastIsNew(keys: seq<string>)
    requires Ordered(keys) && keys != []
    ensures Ordered(keys[..|keys| - 1]) && keys[|keys| - 1] !in keys[..|keys| - 1]
    ensures forall l :: l in keys <==> l in keys[..|keys| - 1] || l == keys[|keys| - 1]
  {
    assert keys == keys[..|keys| - 1] + [keys[|keys| - 1]];
  }

  lemma CountTable(at: Path, fields: map<string, Value>, q: Path)
    ensures Count(Table(at, fields), q) ==
            One(|q| == |at| + 1 && Through(at, q) && q[|at|].key in PlainKeys(fields) && !Dropped(fields, q[|at|].key))
  {
    CountTableRows(at, fields, q);
    CountImages(at, fields, q);
    CountAdds(TableRows(at, fields), Images(at, fields), q);
  }

  lemma CountTableRows(at: Path, fields: map<string, Value>, q: Path)
    ensures Count(TableRows(at, fields), q) == One(|q| == |at| + 1 && Through(at, q) && q[|at|].key in RowKeys(fields))
  {
    hide RowKeys;
    assert RowKeys(fields) <= fields.Keys by { RowsAreFields(fields); }
    var keys := InOrder(RowKeys(fields));
    var rows := Rows(at, fields, keys);
    CountRows(at, fields, keys, q);
    assert [TableHead, TableRule] == [TableHead] + [TableRule];
    CountAdds([TableHead], [TableRule], q);
    CountAdds([TableHead, TableRule], rows, q);
    CountAdds([TableHead, TableRule] + rows, [TableEnd], q);
  }

  lemma RowsAreFields(fields: map<string, Value>)
    ensures RowKeys(fields) <= PlainKeys(fields) <= fields.Keys
  {
  }

  lemma CountImages(at: Path, fields: map<string, Value>, q: Path)
    ensures Count(Images(at, fields), q) ==
            One(|q| == |at| + 1 && Through(at, q) && HasSpectrogram(fields) && q[|at|].key == SPECTROGRAM_PATH
                && fields[SPECTROGRAM_PATH].s != "")
  {
    var p := at + [Field(SPECTROGRAM_PATH)];
    assert p == q <==> |q| == |at| + 1 && Through(at, q) && q[|at|].key == SPECTROGRAM_PATH;
    assert Count([], q) == 0;
    if Images(at, fields) != [] { assert Images(at, fields)[..0] == []; }
  }

  /** A path that is shown ends at the map, at a plain field, or goes on into a nested one. */
  lemma MapPaths(at: Path, v: Value, q: Path)
    requires v.Map? && at < q
    ensures Shown(v, q[|at|..]) <==>
            && Through(at, q) && q[|at|].key in v.fields
            && if IsSection(v.fields[q[|at|].key]) then Shown(v.fields[q[|at|].key], q[|at| + 1..])
               else |q| == |at| + 1 && !Dropped(v.fields, q[|at|].key)
  {
    hide Dropped;
    var p := q[|at|..];
    assert p[0] == q[|at|] && p[1..] == q[|at| + 1..];
  }

  /** One heading, the table, and the nested fields. */
  lemma CountMap(at: Path, heading: Piece, v: Value, nested: seq<Piece>, q: Path)
    requires v.Map? && heading.Heading? && heading.origin == at
    requires Count(nested, q) == One(Through(at, q) && q[|at|].key in NestedKeys(v.fields)
                                     && Shown(v.fields[q[|at|].key], q[|at| + 1..]))
    ensures Count([heading] + Table(at, v.fields) + nested, q) == One(at <= q && Shown(v, q[|at|..]))
  {
    hide Table, Count, HasSpectrogram, Dropped, Shown;
    CountTable(at, v.fields, q);
    CountAdds([heading], Table(at, v.fields), q);
    CountAdds([heading] + Table(at, v.fields), nested, q);
    CountOne(heading, q);
    if at < q {
      MapPaths(at, v, q);
    } else if at == q {
      assert q[|at|..] == [];
      SectionIsShown(v);
    }
  }

  lemma SectionIsShown(v: Value)
    ensures Shown(v, []) <==> IsSection(v)
  {
  }

  lemma CountOne(piece: Piece, q: Path)
    ensures Count([piece], q) == One(Shows(piece, q))
  {
    assert [piece][..0] == [];
  }

  lemma {:induction false} CountSection(at: Path, key: string, v: Value, level: nat, q: Path)
    ensures Count(Section(at, key, v, level), q) == One(at <= q && Shown(v, q[|at|..]))
    decreases v, 1, 0
  {
    hide Table, Count;
    var heading := Heading(at, Min(level, MAX_HEADING_LEVEL), key);
    match v
    case Map(fields) =>
      var keys := InOrder(NestedKeys(fields));
      CountNested(at, v, keys, level + 1, q);
      CountMap(at, heading, v, Nested(at, v, keys, level + 1), q);
    case List(items) =>
      CountItems(at, v, |items|, level, q);
      CountAdds([heading], Items(at, v, |items|, level), q);
      CountOne(heading, q);
      if at < q {
        assert q[|at|..][1..] == q[|at| + 1..] && q[|at|..] != [];
      } else if at == q {
        assert q[|at|..] == [];
      }
    case Str(_) => CountNone(q);
    case Plain(_) => CountNone(q);
  }

  lemma CountNone(q: Path)
    ensures Count([], q) == 0
  {
  }

  lemma {:induction false} CountNested(at: Path, v: Value, keys: seq<string>, level: nat, q: Path)
    requires v.Map? && Ordered(keys) && forall k | k in keys :: k in v.fields
    ensures Count(Nested(at, v, keys, level), q) ==
            One(Through(at, q) && q[|at|].key in keys && Shown(v.fields[q[|at|].key], q[|at| + 1..]))
    decreases v, 0, |keys|
  {
    hide Section, Count, Shown;
    if keys == [] {
      CountNone(q);
    } else {
      var k, rest := keys[|keys| - 1], keys[..|keys| - 1];
      LastIsNew(keys);
      CountNested(at, v, rest, level, q);
      CountSection(at + [Field(k)], k, v.fields[k], level, q);
      CountAdds(Nested(at, v, rest, level), Section(at + [Field(k)], k, v.fields[k], level), q);
      assert at + [Field(k)] <= q <==> Through(at, q) && q[|at|].key == k;
    }
  }

  /** What is counted for the item w at the place q[|at|]. */
  predicate ShownItem(w: Value, p: Path) { if w.Map? then Shown(w, p) else p == [] }

  lemma {:induction false} CountItems(at: Path, v: Value, n: nat, level: nat, q: Path)
    requires v.List? && n <= |v.items|
    ensures Count(Items(at, v, n, level), q) ==
            One(at < q && q[|at|].Item? && q[|at|].index < n && ShownItem(v.items[q[|at|].index], q[|at| + 1..]))
    decreases v, 0, n
  {
    hide ItemPieces, Count, ShownItem;
    if n == 0 {
      CountNone(q);
    } else {
      var w := v.items[n - 1];
      CountItems(at, v, n - 1, level, q);
      CountItem(at + [Item(n - 1)], n, w, level, q);
      CountAdds(Items(at, v, n - 1, level), ItemPieces(at + [Item(n - 1)], n, w, level), q);
      assert at + [Item(n - 1)] <= q <==> at < q && q[|at|] == Item(n - 1);
    }
  }

  lemma {:induction false} CountItem(at: Path, n: nat, v: Value, level: nat, q: Path)
    ensures Count(ItemPieces(at, n, v, level), q) == One(at <= q && ShownItem(v, q[|at|..]))
    decreases v, 1, 0
  {
    hide Table, Count, Shown;
    if v.Map? {
      var keys := InOrder(NestedKeys(v.fields));
      CountNested(at, v, keys, level + 2, q);
      CountMap(at, Heading(at, Min(level + 1, MAX_HEADING_LEVEL), "Stream " + Decimal(n)), v,
               Nested(at, v, keys, level + 2), q);
    } else {
      CountOne(Bullet(at, v), q);
      assert at == q <==> at <= q && q[|at|..] == [];
    }
  }

  lemma {:induction false} CountDocument(meta: map<string, Value>, keys: seq<string>, level: nat, q: Path)
    requires Ordered(keys) && forall k | k in keys :: k in meta
    ensures Count(Document(meta, keys, level), q) ==
            One(q != [] && q[0].Field? && q[0].key in keys && Shown(meta[q[0].key], q[1..]))
  {
    hide Section, Count, Shown;
    if keys == [] {
      CountNone(q);
    } else {
      var k, rest := keys[|keys| - 1], keys[..|keys| - 1];
      LastIsNew(keys);
      CountDocument(meta, rest, level, q);
      CountSection([Field(k)], k, meta[k], level, q);
      CountAdds(Document(meta, rest, level), Section([Field(k)], k, meta[k], level), q);
      assert [Field(k)] <= q <==> q != [] && q[0] == Field(k);
    }
  }

  const TOP_LEVEL: nat := 3

  /** What is printed for an entry below its title. */
  ghost function Body(meta: map<string, Value>): seq<Piece> { Document(meta, InOrder(meta.Keys), TOP_LEVEL) }

  /** Every value below a map or list at the top has exactly one piece of the output to itself: a heading, a row, a
      bullet or an image. No other path has any, and plain values at the top have none. */
  lemma EachValueIsShownOnce(meta: map<string, Value>, q: Path)
    ensures Count(Body(meta), q) ==
            if q != [] && q[0].Field? && q[0].key in meta && Shown(meta[q[0].key], q[1..]) then 1 else 0
  {
    CountDocument(meta, InOrder(meta.Keys), TOP_LEVEL, q);
  }

  // ---------- Every piece tells the truth ----------

  /** The piece shows what lies at its origin, under the right name, and headings are as deep as their value. */
  predicate Truthful(root: Value, piece: Piece) {
    match piece
    case Heading(o, level, text) =>
      && o != [] && Lookup(root, o).Here? && IsSection(Lookup(root, o).value)
      && level == (if |o| <= 4 then |o| + 2 else 6)
      && (match o[|o| - 1]
          case Field(k) => text == k
          case Item(i) => "Stream " <= text && IsNumeral(text[7..], i + 1))
    case Row(o, key, value) =>
      o != [] && o[|o| - 1] == Field(key) && Lookup(root, o) == Here(value) && !IsSection(value)
    case Bullet(o, value) => o != [] && o[|o| - 1].Item? && Lookup(root, o) == Here(value) && !value.Map?
    case Image(o, src) =>
      o != [] && o[|o| - 1] == Field("spectrogram_path") && Lookup(root, o) == Here(Str(src)) && src != ""
    case _ => true
  }

  predicate AllTruthful(root: Value, pieces: seq<Piece>) { forall piece | piece in pieces :: Truthful(root, piece) }

  lemma {:induction false} LookupGoesOn(root: Value, at: Path, v: Value, step: Step)
    requires Lookup(root, at) == Here(v)
    ensures Lookup(root, at + [step]) == Lookup(v, [step])
    decreases |at|
  {
    if at == [] {
      assert at + [step] == [step];
    } else {
      assert (at + [step])[1..] == at[1..] + [step];
      var next := if at[0].Field? then root.fields[at[0].key] else root.items[at[0].index];
      LookupGoesOn(next, at[1..], v, step);
    }
  }

  lemma FieldLookup(root: Value, at: Path, v: Value, k: string)
    requires Lookup(root, at) == Here(v) && v.Map? && k in v.fields
    ensures Lookup(root, at + [Field(k)]) == Here(v.fields[k])
  {
    LookupGoesOn(root, at, v, Field(k));
    assert [Field(k)][1..] == [];
  }

  lemma ItemLookup(root: Value, at: Path, v: Value, i: nat)
    requires Lookup(root, at) == Here(v) && v.List? && i < |v.items|
    ensures Lookup(root, at + [Item(i)]) == Here(v.items[i])
  {
    LookupGoesOn(root, at, v, Item(i));
    assert [Item(i)][1..] == [];
  }

  lemma {:induction false} RowsAreTruthful(root: Value, at: Path, v: Value, keys: seq<string>)
    requires Lookup(root, at) == Here(v) && v.Map? && forall k | k in keys :: k in v.fields && !IsSection(v.fields[k])
    ensures AllTruthful(root, Rows(at, v.fields, keys))
  {
    if keys != [] {
      RowsAreTruthful(root, at, v, keys[..|keys| - 1]);
      FieldLookup(root, at, v, keys[|keys| - 1]);
    }
  }

  lemma TableIsTruthful(root: Value, at: Path, v: Value)
    requires Lookup(root, at) == Here(v) && v.Map?
    ensures AllTruthful(root, Table(at, v.fields))
  {
    hide Lookup;
    RowsAreFields(v.fields);
    RowsAreTruthful(root, at, v, InOrder(RowKeys(v.fields)));
    if SPECTROGRAM_PATH in v.fields { FieldLookup(root, at, v, SPECTROGRAM_PATH); }
  }

  lemma {:induction false} SectionIsTruthful(root: Value, at: Path, key: string, v: Value)
    requires Lookup(root, at) == Here(v) && at != [] && at[|at| - 1] == Field(key)
    ensures AllTruthful(root, Section(at, key, v, |at| + 2))
    decreases v, 1, 0
  {
    hide Lookup, Table;
    match v
    case Map(fields) =>
      TableIsTruthful(root, at, v);
      NestedIsTruthful(root, at, v, InOrder(NestedKeys(fields)));
    case List(items) => ItemsAreTruthful(root, at, v, |items|);
    case _ =>
  }

  lemma {:induction false} NestedIsTruthful(root: Value, at: Path, v: Value, keys: seq<string>)
    requires Lookup(root, at) == Here(v) && v.Map? && forall k | k in keys :: k in v.fields
    ensures AllTruthful(root, Nested(at, v, keys, |at| + 3))
    decreases v, 0, |keys|
  {
    hide Lookup, Section, Truthful;
    if keys != [] {
      var k := keys[|keys| - 1];
      NestedIsTruthful(root, at, v, keys[..|keys| - 1]);
      FieldLookup(root, at, v, k);
      SectionIsTruthful(root, at + [Field(k)], k, v.fields[k]);
    }
  }

  lemma {:induction false} ItemsAreTruthful(root: Value, at: Path, v: Value, n: nat)
    requires Lookup(root, at) == Here(v) && v.List? && n <= |v.items|
    ensures AllTruthful(root, Items(at, v, n, |at| + 2))
    decreases v, 0, n
  {
    hide Lookup, ItemPieces, Truthful;
    if n > 0 {
      var w, here := v.items[n - 1], at + [Item(n - 1)];
      ItemsAreTruthful(root, at, v, n - 1);
      ItemLookup(root, at, v, n - 1);
      ItemIsTruthful(root, here, n, w);
    }
  }

  lemma {:induction false} ItemIsTruthful(root: Value, here: Path, n: nat, w: Value)
    requires Lookup(root, here) == Here(w) && here != [] && n > 0 && here[|here| - 1] == Item(n - 1)
    ensures AllTruthful(root, ItemPieces(here, n, w, |here| + 1))
    decreases w, 1, 0
  {
    hide Lookup, Table;
    DecimalIsNumeral(n);
    assert ("Stream " + Decimal(n))[7..] == Decimal(n);
    hide IsNumeral, Decimal;
    if w.Map? {
      TableIsTruthful(root, here, w);
      NestedIsTruthful(root, here, w, InOrder(NestedKeys(w.fields)));
    }
  }

  lemma {:induction false} DocumentIsTruthful(meta: map<string, Value>, keys: seq<string>)
    requires forall k | k in keys :: k in meta
    ensures AllTruthful(Map(meta), Document(meta, keys, TOP_LEVEL))
  {
    hide Section, Truthful;
    if keys != [] {
      var k := keys[|keys| - 1];
      DocumentIsTruthful(meta, keys[..|keys| - 1]);
      assert [Field(k)][1..] == [];
      assert Lookup(meta[k], []) == Here(meta[k]);
      SectionIsTruthful(Map(meta), [Field(k)], k, meta[k]);
    }
  }

  /** Every piece of the output shows the value at its origin, under its name, and a heading is as deep as its value. */
  lemma BodyIsTruthful(meta: map<string, Value>)
    ensures AllTruthful(Map(meta), Body(meta))
  {
    DocumentIsTruthful(meta, InOrder(meta.Keys));
  }

  // ---------- All entries ----------

  ghost function Entry(data: Data): seq<Piece> { [Title(data.name)] + Body(data.meta) }

  /** The first n entries, with a rule between two of them. */
  ghost function Entries(data: seq<Data>, n: nat): seq<Piece>
    requires n <= |data|
  {
    if n == 0 then []
    else Entries(data, n - 1) + (if n > 1 then [Rule] else []) + Entry(data[n - 1])
  }
}
