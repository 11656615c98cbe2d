/** Which roots and keys a Locker accepts on Unix, and where an entry's directory lies.
    Paths are byte strings, as in Go: lengths count bytes, and white space is recognised in its UTF-8 form. */
module Paths {

  type Byte = b: int | 0 <= b < 256
  type Text = seq<Byte>

  const SLASH: Byte := 0x2F
  const DOT: Byte := 0x2E
  const NUL: Byte := 0
  const CURRENT_DIR: Text := [DOT]
  const PARENT_DIR: Text := [DOT, DOT]
  const LOCK_FILE_NAME: Text := [DOT, 0x6C, 0x6F, 0x63, 0x6B]
  const PATH_COMPONENT_MAX_LENGTH := 255

  datatype PathError = TooLong | Empty | ForbiddenCharacters | ForbiddenKeyword

  datatype Verdict = Accepted | Rejected(error: PathError)

  // ---------- Validation ----------

  /** Bytes taken by the Unicode white-space character at the start of s, 0 if s does not start with one. */
  function SpaceWidth(s: Text): (w: nat)
    ensures w <= |s|
  {
    if |s| >= 1 && (s[0] == 0x20 || 0x09 <= s[0] <= 0x0D) then 1
    else if |s| >= 2 && s[0] == 0xC2 && (s[1] == 0x85 || s[1] == 0xA0) then 2
    else if |s| >= 3 && s[0] == 0xE1 && s[1] == 0x9A && s[2] == 0x80 then 3
    else if |s| >= 3 && s[0] == 0xE2 && s[1] == 0x80
            && (0x80 <= s[2] <= 0x8A || s[2] == 0xA8 || s[2] == 0xA9 || s[2] == 0xAF) then 3
    else if |s| >= 3 && s[0] == 0xE2 && s[1] == 0x81 && s[2] == 0x9F then 3
    else if |s| >= 3 && s[0] == 0xE3 && s[1] == 0x80 && s[2] == 0x80 then 3
    else 0
  }

  /** True when trimming white space from s leaves nothing. */
  predicate Blank(s: Text) {
    s == [] || (SpaceWidth(s) > 0 && Blank(s[SpaceWidth(s)..]))
  }

  function ValidatePlatformSpecific(component: Text): Verdict {
    if NUL in component || SLASH in component then Rejected(ForbiddenCharacters)
    else if component == CURRENT_DIR || component == PARENT_DIR then Rejected(ForbiddenKeyword)
    else Accepted
  }

  function ValidatePathComponent(component: Text): Verdict {
    if |component| > PATH_COMPONENT_MAX_LENGTH then Rejected(TooLong)
    else if Blank(component) then Rejected(Empty)
    else ValidatePlatformSpecific(component)
  }

  predicate ValidComponent(component: Text) {
    ValidatePathComponent(component).Accepted?
  }

  // ---------- What is valid ----------

  /** The Unicode characters with the property White_Space. */
  predicate IsWhiteSpace(c: nat) {
    || 0x09 <= c <= 0x0D || c == 0x20 || c == 0x85 || c == 0xA0 || c == 0x1680 || 0x2000 <= c <= 0x200A
    || c == 0x2028 || c == 0x2029 || c == 0x202F || c == 0x205F || c == 0x3000
  }

  /** The UTF-8 form of a character below 0x10000. */
  function Utf8(c: nat): Text
    requires c < 0x10000
  {
    if c < 0x80 then [c]
    else if c < 0x800 then [0xC0 + c / 0x40, 0x80 + c % 0x40]
    else [0xE0 + c / 0x1000, 0x80 + c / 0x40 % 0x40, 0x80 + c % 0x40]
  }

  predicate AllWhite(chars: seq<nat>) { forall i | 0 <= i < |chars| :: IsWhiteSpace(chars[i]) }

  function Encoded(chars: seq<nat>): Text
    requires AllWhite(chars)
  {
    if chars == [] then [] else Utf8(chars[0]) + Encoded(chars[1..])
  }

  /** The text is made of white-space characters, or empty. */
  ghost predicate IsWhite(s: Text) { exists chars :: AllWhite(chars) && s == Encoded(chars) }

  lemma SpaceIsWhite(s: Text) returns (c: nat)
    requires SpaceWidth(s) > 0
    ensures IsWhiteSpace(c) && s[..SpaceWidth(s)] == Utf8(c)
  {
    if SpaceWidth(s) == 1 { c := s[0]; }
    else if SpaceWidth(s) == 2 { c := s[1]; }
    else {
      var x: int, y: int, z: int := s[0], s[1], s[2];
      c := 0x1000 * (x - 0xE0) + 0x40 * (y - 0x80) + (z - 0x80);
    }
  }

  lemma WhiteIsSpace(c: nat, rest: Text)
    requires IsWhiteSpace(c)
    ensures SpaceWidth(Utf8(c) + rest) == |Utf8(c)| > 0
  {
    var s := Utf8(c) + rest;
    assert s[..|Utf8(c)|] == Utf8(c);
  }

  lemma {:induction false} BlankIsWhite(s: Text)
    requires Blank(s)
    ensures IsWhite(s)
  {
    hide SpaceWidth, Utf8, IsWhiteSpace;
    if s == [] {
      assert AllWhite([]) && s == Encoded([]);
    } else {
      var c := SpaceIsWhite(s);
      var rest := s[SpaceWidth(s)..];
      BlankIsWhite(rest);
      var chars :| AllWhite(chars) && rest == Encoded(chars);
      assert s == Utf8(c) + rest;
      OneMoreWhite(c, chars);
      hide *;
    }
  }

  lemma OneMoreWhite(c: nat, chars: seq<nat>)
    requires IsWhiteSpace(c) && AllWhite(chars)
    ensures IsWhite(Utf8(c) + Encoded(chars))
  {
    assert c < 0x10000;
    hide IsWhiteSpace, Utf8;
    assert ([c] + chars)[1..] == chars;
    assert AllWhite([c] + chars) && Utf8(c) + Encoded(chars) == Encoded([c] + chars);
  }

  lemma {:induction false} WhiteIsBlank(chars: seq<nat>)
    requires AllWhite(chars)
    ensures Blank(Encoded(chars))
  {
    if chars != [] {
      var rest := Encoded(chars[1..]);
      WhiteIsBlank(chars[1..]);
      WhiteIsSpace(chars[0], rest);
      assert (Utf8(chars[0]) + rest)[|Utf8(chars[0])|..] == rest;
    }
  }

  lemma BlankIffWhite(s: Text)
    ensures Blank(s) <==> IsWhite(s)
  {
    if Blank(s) { BlankIsWhite(s); }
    if IsWhite(s) {
      var chars :| AllWhite(chars) && s == Encoded(chars);
      WhiteIsBlank(chars);
    }
  }

  /** A component is valid if and only if it has at most 255 bytes, neither NUL nor a separator, is neither "." nor ".."
      and not made of white space alone. */
  lemma ValidIff(c: Text)
    ensures ValidComponent(c) <==>
            |c| <= 255 && 0 !in c && 0x2F !in c && c != [0x2E] && c != [0x2E, 0x2E] && !IsWhite(c)
  {
    BlankIffWhite(c);
    hide Blank, IsWhite;
  }

  /** Which error an invalid component gets: the first condition that it violates. */
  lemma ErrorOf(c: Text)
    ensures |c| > 255 ==> ValidatePathComponent(c) == Rejected(TooLong)
    ensures |c| <= 255 && IsWhite(c) ==> ValidatePathComponent(c) == Rejected(Empty)
    ensures |c| <= 255 && !IsWhite(c) && (0 in c || 0x2F in c) ==>
              ValidatePathComponent(c) == Rejected(ForbiddenCharacters)
    ensures c == [0x2E] || c == [0x2E, 0x2E] ==> ValidatePathComponent(c) == Rejected(ForbiddenKeyword)
  {
    BlankIffWhite(c);
    if c == [0x2E] || c == [0x2E, 0x2E] { assert SpaceWidth(c) == 0; }
    hide Blank, IsWhite;
  }

  /** The pieces between separators, as strings.SplitSeq yields them (always at least one). */
  function Split(path: Text): (parts: seq<Text>)
    ensures |parts| > 0
  {
    if path == [] then [[]]
    else
      var rest := Split(path[1..]);
      if path[0] == SLASH then [[]] + rest
      else [[path[0]] + rest[0]] + rest[1..]
  }

  /** A root is valid when each of its non-empty components is. */
  predicate ValidRoot(path: Text) {
    forall i :: 0 <= i < |Split(path)| && Split(path)[i] != [] ==> ValidComponent(Split(path)[i])
  }

  /** Checks the components from left to right and reports the first that is not valid. */
  method ValidatePath(path: Text) returns (v: Verdict)
    ensures v.Accepted? <==> ValidRoot(path)
    ensures v.Rejected? ==>
              exists i :: 0 <= i < |Split(path)| && Split(path)[i] != []
                          && v == ValidatePathComponent(Split(path)[i])
                          && forall j :: 0 <= j < i && Split(path)[j] != [] ==> ValidComponent(Split(path)[j])
  {
    var parts := Split(path);
    for i := 0 to |parts|
      invariant forall j :: 0 <= j < i && parts[j] != [] ==> ValidComponent(parts[j])
    {
      if parts[i] != [] {
        v := ValidatePathComponent(parts[i]);
        if v.Rejected? { return v; }
      }
    }
    v := Accepted;
  }

  // ---------- Joining ----------

  function NonEmpty(parts: seq<Text>): seq<Text> {
    if parts == [] then []
    else if parts[0] == [] then NonEmpty(parts[1..])
    else [parts[0]] + NonEmpty(parts[1..])
  }

  function Components(path: Text): seq<Text> { NonEmpty(Split(path)) }

  predicate Rooted(path: Text) { |path| > 0 && path[0] == SLASH }

  function Glue(parts: seq<Text>): Text {
    if parts == [] then []
    else if |parts| == 1 then parts[0]
    else parts[0] + [SLASH] + Glue(parts[1..])
  }

  /** Drops empty and "." parts and lets ".." cancel the part before it. */
  function Resolve(rooted: bool, parts: seq<Text>, done: seq<Text>): seq<Text>
    decreases |parts|
  {
    if parts == [] then done
    else if parts[0] == [] || parts[0] == CURRENT_DIR then Resolve(rooted, parts[1..], done)
    else if parts[0] == PARENT_DIR then
      if done != [] && done[|done| - 1] != PARENT_DIR then Resolve(rooted, parts[1..], done[..|done| - 1])
      else if rooted then Resolve(rooted, parts[1..], done)
      else Resolve(rooted, parts[1..], done + [PARENT_DIR])
    else Resolve(rooted, parts[1..], done + [parts[0]])
  }

  /** filepath.Clean: the shortest equivalent path by lexical processing. */
  function Clean(path: Text): Text {
    var body := Glue(Resolve(Rooted(path), Split(path), []));
    if Rooted(path) then [SLASH] + body
    else if body == [] then CURRENT_DIR
    else body
  }

  /** filepath.Join of two elements: empty elements are left out. */
  function Join(first: Text, second: Text): Text {
    if first != [] then Clean(first + [SLASH] + second)
    else if second != [] then Clean(second)
    else []
  }

  function EntryDir(root: Text, key: Text): Text { Join(root, key) }

  function LockFilePath(root: Text, key: Text): Text { Join(EntryDir(root, key), LOCK_FILE_NAME) }

  // ---------- Where entries lie ----------

  lemma {:induction false} SplitAtSlash(a: Text, b: Text)
    ensures Split(a + [SLASH] + b) == Split(a) + Split(b)
  {
    if a == [] {
      assert ([] + [SLASH] + b)[1..] == b;
    } else {
      assert (a + [SLASH] + b)[1..] == a[1..] + [SLASH] + b;
      SplitAtSlash(a[1..], b);
    }
  }

  lemma {:induction false} SplitSlashFree(c: Text)
    requires SLASH !in c
    ensures Split(c) == [c]
  {
    if c != [] {
      SplitSlashFree(c[1..]);
      assert [c[0]] + c[1..] == c;
    }
  }

  lemma {:induction false} NonEmptyConcat(a: seq<Text>, b: seq<Text>)
    ensures NonEmpty(a + b) == NonEmpty(a) + NonEmpty(b)
  {
    if a == [] {
      assert a + b == b;
    } else {
      assert (a + b)[1..] == a[1..] + b;
      NonEmptyConcat(a[1..], b);
    }
  }

  /** Without "." and ".." parts, cleaning only removes the empty parts. */
  lemma {:induction false} ResolvePlain(rooted: bool, parts: seq<Text>, done: seq<Text>)
    requires CURRENT_DIR !in parts && PARENT_DIR !in parts
    ensures Resolve(rooted, parts, done) == done + NonEmpty(parts)
  {
    if parts != [] {
      ResolvePlain(rooted, parts[1..], if parts[0] == [] then done else done + [parts[0]]);
    }
  }

  ghost predicate Plain(parts: seq<Text>) {
    forall i :: 0 <= i < |parts| ==> parts[i] != [] && SLASH !in parts[i]
  }

  /** Rendering a list of components and splitting it again gives the list back. */
  lemma {:induction false} GlueRoundTrip(parts: seq<Text>)
    requires Plain(parts)
    ensures Components(Glue(parts)) == parts
    ensures parts != [] ==> Glue(parts) != [] && !Rooted(Glue(parts))
  {
    if |parts| == 1 {
      SplitSlashFree(parts[0]);
      assert NonEmpty([parts[0]]) == [parts[0]] + NonEmpty([]);
    } else if |parts| > 1 {
      GlueRoundTrip(parts[1..]);
      SplitAtSlash(parts[0], Glue(parts[1..]));
      SplitSlashFree(parts[0]);
      NonEmptyConcat(Split(parts[0]), Split(Glue(parts[1..])));
      assert NonEmpty([parts[0]]) == [parts[0]] + NonEmpty([]);
    }
  }

  lemma {:induction false} SplitHasNoSlash(path: Text)
    ensures forall i :: 0 <= i < |Split(path)| ==> SLASH !in Split(path)[i]
  {
    if path != [] { SplitHasNoSlash(path[1..]); }
  }

  lemma {:induction false} NonEmptyIsPlain(parts: seq<Text>)
    requires forall i :: 0 <= i < |parts| ==> SLASH !in parts[i]
    ensures Plain(NonEmpty(parts))
  {
    if parts != [] { NonEmptyIsPlain(parts[1..]); }
  }

  lemma ValidComponentIsPlain(c: Text)
    requires ValidComponent(c)
    ensures c != [] && SLASH !in c && c != CURRENT_DIR && c != PARENT_DIR
  {
    assert Blank([]);
  }

  /** Cleaning a valid root, a separator and a valid key removes the empty parts and nothing else. */
  lemma EntryParts(root: Text, key: Text)
    requires root != [] && ValidRoot(root) && ValidComponent(key)
    ensures Resolve(Rooted(root), Split(root + [SLASH] + key), []) == Components(root) + [key]
    ensures Plain(Components(root) + [key])
  {
    ValidComponentIsPlain(key);
    var parts := Split(root) + [key];
    SplitAtSlash(root, key);
    SplitSlashFree(key);
    SplitHasNoSlash(root);
    forall i | 0 <= i < |parts|
      ensures SLASH !in parts[i] && parts[i] != CURRENT_DIR && parts[i] != PARENT_DIR
    {
      if i < |Split(root)| && parts[i] != [] { ValidComponentIsPlain(Split(root)[i]); }
    }
    hide ValidComponent, ValidRoot, Split;
    ResolvePlain(Rooted(root), parts, []);
    NonEmptyConcat(Split(root), [key]);
    assert NonEmpty([key]) == [key] + NonEmpty([]);
    assert [] + NonEmpty(parts) == Components(root) + [key];
    NonEmptyIsPlain(parts);
  }

  /** A path made of components, with or without a separator in front, has these components. */
  lemma ComponentsOfGlue(rooted: bool, parts: seq<Text>)
    requires Plain(parts) && parts != []
    ensures var path := (if rooted then [SLASH] else []) + Glue(parts);
            Components(path) == parts && Rooted(path) == rooted
  {
    GlueRoundTrip(parts);
    hide Plain, Glue, NonEmpty, Split;
    if rooted {
      SlashInFront(Glue(parts));
    } else {
      assert [] + Glue(parts) == Glue(parts);
    }
  }

  lemma SlashInFront(path: Text)
    ensures Components([SLASH] + path) == Components(path)
  {
    assert ([SLASH] + path)[1..] == path;
    assert Split([SLASH] + path) == [[]] + Split(path);
    assert ([[]] + Split(path))[1..] == Split(path);
  }

  /** Under the empty root, which is a valid one, the directory of a key is the key. */
  lemma EmptyRoot(key: Text)
    requires ValidComponent(key)
    ensures Components([]) == [] && EntryDir([], key) == Glue([key]) == key && !Rooted(key)
    ensures Components(key) == [key] && Plain([key])
  {
    ValidComponentIsPlain(key);
    SplitSlashFree(key);
    ResolvePlain(false, [key], []);
    assert NonEmpty([key]) == [key] + NonEmpty([]);
  }

  /** The directory of a valid key under a valid root: the root's components, then the key. */
  lemma EntryComponents(root: Text, key: Text)
    requires ValidRoot(root) && ValidComponent(key)
    ensures Components(EntryDir(root, key)) == Components(root) + [key]
    ensures Rooted(EntryDir(root, key)) == Rooted(root)
    ensures Plain(Components(root) + [key])
    ensures EntryDir(root, key) == (if Rooted(root) then [SLASH] else []) + Glue(Components(root) + [key])
  {
    if root == [] {
      EmptyRoot(key);
      return;
    }
    EntryParts(root, key);
    var all := Components(root) + [key];
    hide Plain, Split, Resolve, Components;
    ComponentsOfGlue(Rooted(root), all);
    GlueIsNotEmpty(all);
    assert Rooted(root + [SLASH] + key) == Rooted(root);
    assert [] + Glue(all) == Glue(all);
  }

  lemma GlueIsNotEmpty(parts: seq<Text>)
    requires Plain(parts) && parts != []
    ensures Glue(parts) != []
  {
    GlueRoundTrip(parts);
  }

  /** Distinct keys never share a directory, and no entry is the root or lies inside another entry. */
  lemma EntriesAreIndependent(root: Text, a: Text, b: Text)
    requires ValidRoot(root) && ValidComponent(a) && ValidComponent(b)
    ensures a != b ==> EntryDir(root, a) != EntryDir(root, b)
    ensures Components(EntryDir(root, a)) != Components(root)
    ensures a != b ==> !(Components(EntryDir(root, a)) <= Components(EntryDir(root, b)))
  {
    EntryComponents(root, a);
    EntryComponents(root, b);
    var base := Components(root);
    assert (base + [a])[|base|] == a;
    assert (base + [b])[|base|] == b;
  }

  /** An entry's directory could itself be a root. */
  lemma EntryIsValidRoot(root: Text, key: Text)
    requires ValidRoot(root) && ValidComponent(key)
    ensures EntryDir(root, key) != [] && ValidRoot(EntryDir(root, key))
  {
    EntryComponents(root, key);
    ComponentsAreValid(Split(root));
    var all := Components(root) + [key];
    hide Plain, EntryDir, ValidComponent;
    GlueIsNotEmpty(all);
    SplitOfGlue(all);
    if Rooted(root) {
      SplitAtSlash([], Glue(all));
      assert [SLASH] + Glue(all) == [] + [SLASH] + Glue(all);
    } else {
      assert [] + Glue(all) == Glue(all);
    }
  }

  /** The lock file of an entry lies directly in the entry's directory, and in no other entry. */
  lemma LockFileInsideEntry(root: Text, key: Text)
    requires ValidRoot(root) && ValidComponent(key)
    ensures Components(LockFilePath(root, key)) == Components(root) + [key, [0x2E, 0x6C, 0x6F, 0x63, 0x6B]]
  {
    EntryComponents(root, key);
    EntryIsValidRoot(root, key);
    assert ValidComponent(LOCK_FILE_NAME) by { assert SpaceWidth(LOCK_FILE_NAME) == 0; }
    EntryComponents(EntryDir(root, key), LOCK_FILE_NAME);
    assert Components(root) + [key] + [LOCK_FILE_NAME] == Components(root) + [key, LOCK_FILE_NAME];
  }

  lemma {:induction false} SplitOfGlue(parts: seq<Text>)
    requires Plain(parts) && parts != []
    ensures Split(Glue(parts)) == parts
  {
    if |parts| == 1 {
      SplitSlashFree(parts[0]);
    } else {
      SplitOfGlue(parts[1..]);
      SplitAtSlash(parts[0], Glue(parts[1..]));
      SplitSlashFree(parts[0]);
    }
  }

  lemma {:induction false} ComponentsAreValid(parts: seq<Text>)
    requires forall i :: 0 <= i < |parts| && parts[i] != [] ==> ValidComponent(parts[i])
    ensures forall i :: 0 <= i < |NonEmpty(parts)| ==> ValidComponent(NonEmpty(parts)[i])
  {
    if parts != [] { ComponentsAreValid(parts[1..]); }
  }
}
