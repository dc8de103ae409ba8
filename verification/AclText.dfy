/** The ACL text of the host helper: the dictionary that parse_acl builds, the canonical
    text that acl_text prints, and the proof that one undoes the other. */
module AclText {
  import opened Outcomes
  import opened Texts

  datatype Kind = User | Group | Mask | Other

  datatype Key = Key(kind: Kind, id: string)

  datatype Perms = Perms(read: bool, write: bool, execute: bool)

  type Entries = map<Key, Perms>

  datatype ParseError = UnexpectedFormat | InvalidOrDuplicateEntry | Incomplete | NoMask

  const OWNER := Key(User, "")
  const OWNING_GROUP := Key(Group, "")
  const MASK := Key(Mask, "")
  const OTHERS := Key(Other, "")

  // ---------------------------------------------------------------- single lines

  function KindText(kind: Kind): string {
    match kind
    case User => "user"
    case Group => "group"
    case Mask => "mask"
    case Other => "other"
  }

  function Flag(allowed: bool, letter: char): char {
    if allowed then letter else '-'
  }

  function PermsText(p: Perms): string {
    [Flag(p.read, 'r'), Flag(p.write, 'w'), Flag(p.execute, 'x')]
  }

  function LineText(key: Key, p: Perms): string {
    KindText(key.kind) + ":" + key.id + ":" + PermsText(p)
  }

  predicate IsDigit(c: char) { '0' <= c <= '9' }

  predicate AllDigits(s: string) { forall i | 0 <= i < |s| :: IsDigit(s[i]) }

  function ParsePerms(s: string): Option<Perms> {
    if |s| == 3 && s[0] in "r-" && s[1] in "w-" && s[2] in "x-"
    then Some(Perms(s[0] == 'r', s[1] == 'w', s[2] == 'x'))
    else None
  }

  /** The identity and permissions fields of a line whose kind field was read. */
  function ParseFields(kind: Kind, rest: string): Option<(Key, Perms)> {
    if |rest| < 4 || rest[|rest| - 4] != ':' || !AllDigits(rest[..|rest| - 4]) then None
    else match ParsePerms(rest[|rest| - 3..])
      case None => None
      case Some(p) => Some((Key(kind, rest[..|rest| - 4]), p))
  }

  function Head(kind: Kind): string { KindText(kind) + ":" }

  /** The whole-line match of the helper's entry pattern. */
  function ParseLine(line: string): Option<(Key, Perms)> {
    if Head(User) <= line then ParseFields(User, line[|Head(User)|..])
    else if Head(Group) <= line then ParseFields(Group, line[|Head(Group)|..])
    else if Head(Mask) <= line then ParseFields(Mask, line[|Head(Mask)|..])
    else if Head(Other) <= line then ParseFields(Other, line[|Head(Other)|..])
    else None
  }

  lemma PermsRoundTrip(p: Perms)
    ensures ParsePerms(PermsText(p)) == Some(p)
  {
  }

  lemma ParseFieldsOfText(kind: Kind, id: string, p: Perms)
    requires AllDigits(id)
    ensures ParseFields(kind, id + ":" + PermsText(p)) == Some((Key(kind, id), p))
  {
    var rest := id + ":" + PermsText(p);
    assert rest[..|rest| - 4] == id;
    assert rest[|rest| - 3..] == PermsText(p);
    PermsRoundTrip(p);
  }

  lemma FieldsAreText(kind: Kind, rest: string, key: Key, p: Perms)
    requires ParseFields(kind, rest) == Some((key, p))
    ensures key.kind == kind && AllDigits(key.id) && rest == key.id + ":" + PermsText(p)
  {
  }

  lemma HeadsDiffer(a: Kind, b: Kind)
    requires a != b
    ensures Head(a) != "" && Head(b) != "" && Head(a)[0] != Head(b)[0]
  {
  }

  /** At most one kind fits a line. */
  lemma ParseLineOfKind(kind: Kind, line: string)
    requires Head(kind) <= line
    ensures ParseLine(line) == ParseFields(kind, line[|Head(kind)|..])
  {
    if kind != User { HeadsDiffer(kind, User); }
    if kind != Group { HeadsDiffer(kind, Group); }
    if kind != Mask { HeadsDiffer(kind, Mask); }
    if kind != Other { HeadsDiffer(kind, Other); }
  }

  lemma PrintedLineParses(key: Key, p: Perms)
    requires AllDigits(key.id)
    ensures ParseLine(LineText(key, p)) == Some((key, p))
  {
    var line, rest := LineText(key, p), key.id + ":" + PermsText(p);
    assert line == Head(key.kind) + rest;
    assert line[|Head(key.kind)|..] == rest;
    ParseLineOfKind(key.kind, line);
    ParseFieldsOfText(key.kind, key.id, p);
  }

  lemma ParsedFieldsArePrinted(kind: Kind, line: string, key: Key, p: Perms)
    requires Head(kind) <= line && ParseFields(kind, line[|Head(kind)|..]) == Some((key, p))
    ensures line == LineText(key, p) && AllDigits(key.id)
  {
    FieldsAreText(kind, line[|Head(kind)|..], key, p);
    assert line == Head(kind) + line[|Head(kind)|..];
  }

  lemma ParsedLineIsPrinted(line: string, key: Key, p: Perms)
    requires ParseLine(line) == Some((key, p))
    ensures line == LineText(key, p) && AllDigits(key.id)
  {
    var kind :| Head(kind) <= line;
    ParseLineOfKind(kind, line);
    ParsedFieldsArePrinted(kind, line, key, p);
  }

  /** A line is accepted exactly when it is the printed form of an entry with a decimal
      identity, and then it stands for that entry and no other. */
  lemma LineMeaning(line: string, key: Key, p: Perms)
    ensures ParseLine(line) == Some((key, p)) <==> line == LineText(key, p) && AllDigits(key.id)
  {
    if ParseLine(line) == Some((key, p)) {
      ParsedLineIsPrinted(line, key, p);
    }
    if line == LineText(key, p) && AllDigits(key.id) {
      PrintedLineParses(key, p);
    }
  }

  // ---------------------------------------------------------------- splitting a text

  /** The separators of str.splitlines. Carriage return and line feed count singly here:
      the pair only adds an empty line, and parse_acl skips empty lines. */
  predicate IsLineBreak(c: char) {
    || '\n' <= c <= '\r'
    || '\U{1C}' <= c <= '\U{1E}'
    || c == '\U{85}' || c == '\U{2028}' || c == '\U{2029}'
  }

  predicate OneLine(s: string) { forall i | 0 <= i < |s| :: !IsLineBreak(s[i]) }

  function KeepNonempty(line: string): seq<string> {
    if line == "" then [] else [line]
  }

  /** The nonempty lines of a text of which the current line has been read up to current. */
  function LinesFrom(current: string, text: string): seq<string>
    decreases text
  {
    if text == "" then KeepNonempty(current)
    else if IsLineBreak(text[0]) then KeepNonempty(current) + LinesFrom("", text[1..])
    else LinesFrom(current + [text[0]], text[1..])
  }

  function Lines(text: string): seq<string> { LinesFrom("", text) }

  lemma {:induction false} FirstLine(current: string, line: string, rest: string)
    requires OneLine(line) && current + line != ""
    ensures LinesFrom(current, line + "\n" + rest) == [current + line] + Lines(rest)
    decreases line
  {
    var text := line + "\n" + rest;
    if line == "" {
      assert text[1..] == rest;
      assert current + line == current;
    } else {
      assert text[1..] == line[1..] + "\n" + rest;
      assert current + [line[0]] + line[1..] == current + line;
      FirstLine(current + [line[0]], line[1..], rest);
    }
  }

  // ---------------------------------------------------------------- parse_acl

  predicate Misplaced(key: Key) { (key.kind.Mask? || key.kind.Other?) && key.id != "" }

  /** The entries dictionary after the given lines, started from entries. */
  function Collect(lines: seq<string>, entries: Entries): Result<Entries, ParseError> {
    if lines == [] then Ok(entries)
    else match ParseLine(lines[0])
      case None => Err(UnexpectedFormat)
      case Some((key, p)) =>
        if Misplaced(key) || key in entries then Err(InvalidOrDuplicateEntry)
        else Collect(lines[1..], entries[key := p])
  }

  predicate HasBase(entries: Entries) {
    OWNER in entries && OWNING_GROUP in entries && OTHERS in entries
  }

  predicate HasNamed(entries: Entries) { exists key | key in entries :: key.id != "" }

  function CheckComplete(entries: Entries): Result<Entries, ParseError> {
    if !HasBase(entries) then Err(Incomplete)
    else if HasNamed(entries) && MASK !in entries then Err(NoMask)
    else Ok(entries)
  }

  function Parse(text: string): Result<Entries, ParseError> {
    match Collect(Lines(text), map[])
    case Err(e) => Err(e)
    case Ok(entries) => CheckComplete(entries)
  }

  /** parse_acl as written: one pass over the lines that fills a dictionary. */
  method ParseAcl(text: string) returns (r: Result<Entries, ParseError>)
    ensures r == Parse(text)
  {
    var lines := Lines(text);
    var entries: Entries := map[];
    var i := 0;
    while i < |lines|
      invariant 0 <= i <= |lines|
      invariant Collect(lines, map[]) == Collect(lines[i..], entries)
    {
      var parsed := ParseLine(lines[i]);
      if parsed.None? {
        return Err(UnexpectedFormat);
      }
      var (key, p) := parsed.value;
      if Misplaced(key) || key in entries {
        return Err(InvalidOrDuplicateEntry);
      }
      entries := entries[key := p];
      i := i + 1;
    }
    if !HasBase(entries) {
      return Err(Incomplete);
    }
    if HasNamed(entries) && MASK !in entries {
      return Err(NoMask);
    }
    return Ok(entries);
  }

  /** What an ACL dictionary accepted by the helper looks like. */
  predicate WellFormed(entries: Entries) {
    && HasBase(entries)
    && (HasNamed(entries) ==> MASK in entries)
    && (forall key | key in entries :: AllDigits(key.id) && !Misplaced(key))
  }

  type Acl = e: Entries | WellFormed(e)
    witness map[OWNER := Perms(true, true, false), OWNING_GROUP := Perms(false, false, false),
                OTHERS := Perms(false, false, false)]

  lemma {:induction false} CollectedAreWellFormed(lines: seq<string>, entries: Entries)
    requires Collect(lines, entries).Ok?
    requires forall key | key in entries :: AllDigits(key.id) && !Misplaced(key)
    ensures forall key | key in Collect(lines, entries).value :: AllDigits(key.id) && !Misplaced(key)
  {
    if lines != [] {
      var (key, p) := ParseLine(lines[0]).value;
      LineMeaning(lines[0], key, p);
      CollectedAreWellFormed(lines[1..], entries[key := p]);
    }
  }

  /** Whatever parse_acl accepts is a well-formed ACL. */
  lemma ParsedIsWellFormed(text: string)
    requires Parse(text).Ok?
    ensures WellFormed(Parse(text).value)
  {
    CollectedAreWellFormed(Lines(text), map[]);
  }

  // ---------------------------------------------------------------- the sorted order

  /** Python's order on the pairs (kind, identity). */
  predicate KeyAtMost(a: Key, b: Key) {
    if a.kind == b.kind then TextAtMost(a.id, b.id)
    else TextAtMost(KindText(a.kind), KindText(b.kind))
  }

  lemma KeyOrder(a: Key, b: Key, c: Key)
    ensures KeyAtMost(a, b) || KeyAtMost(b, a)
    ensures KeyAtMost(a, b) && KeyAtMost(b, a) ==> a == b
    ensures KeyAtMost(a, b) && KeyAtMost(b, c) ==> KeyAtMost(a, c)
  {
    TextOrderTotal(a.id, b.id);
    if a.kind == b.kind && KeyAtMost(a, b) && KeyAtMost(b, a) {
      TextOrderAntisymmetric(a.id, b.id);
    }
    if a.kind == b.kind == c.kind && KeyAtMost(a, b) && KeyAtMost(b, c) {
      TextOrderTransitive(a.id, b.id, c.id);
    }
  }

  predicate IsLeast(least: Key, keys: set<Key>) {
    least in keys && forall k | k in keys :: KeyAtMost(least, k)
  }

  lemma {:induction false} LeastExists(keys: set<Key>)
    requires keys != {}
    ensures exists least :: IsLeast(least, keys)
  {
    var one :| one in keys;
    KeyOrder(one, one, one);
    if keys == {one} {
      assert IsLeast(one, keys);
    } else {
      LeastExists(keys - {one});
      var m :| IsLeast(m, keys - {one});
      KeyOrder(one, m, m);
      var least := if KeyAtMost(one, m) then one else m;
      forall k | k in keys ensures KeyAtMost(least, k) {
        KeyOrder(one, m, k);
      }
      assert IsLeast(least, keys);
    }
  }

  function Least(keys: set<Key>): (least: Key)
    requires keys != {}
    ensures IsLeast(least, keys)
  {
    LeastExists(keys);
    assert forall a, b | IsLeast(a, keys) && IsLeast(b, keys) :: a == b by {
      forall a, b | IsLeast(a, keys) && IsLeast(b, keys) ensures a == b {
        KeyOrder(a, b, b);
      }
    }
    var least :| IsLeast(least, keys);
    least
  }

  // ---------------------------------------------------------------- acl_text

  /** sorted(entries.items()): the keys in ascending order. */
  function SortedKeys(keys: set<Key>): (sorted: seq<Key>)
    ensures forall k :: k in sorted <==> k in keys
    ensures forall i, j | 0 <= i < j < |sorted| :: sorted[i] != sorted[j] && KeyAtMost(sorted[i], sorted[j])
    decreases |keys|
  {
    if keys == {} then []
    else
      var least := Least(keys);
      [least] + SortedKeys(keys - {least})
  }

  function PrintedLines(keys: seq<Key>, entries: Entries): seq<string>
    requires forall k | k in keys :: k in entries
  {
    if keys == [] then []
    else [LineText(keys[0], entries[keys[0]])] + PrintedLines(keys[1..], entries)
  }

  function Joined(lines: seq<string>): string {
    if lines == [] then "" else lines[0] + "\n" + Joined(lines[1..])
  }

  function Text(entries: Entries): string {
    Joined(PrintedLines(SortedKeys(entries.Keys), entries))
  }

  predicate Ascending(keys: seq<Key>) {
    forall i, j | 0 <= i < j < |keys| :: keys[i] != keys[j] && KeyAtMost(keys[i], keys[j])
  }

  lemma {:induction false} AscendingIsSorted(listing: seq<Key>, keys: set<Key>)
    requires Ascending(listing) && forall k :: k in listing <==> k in keys
    ensures SortedKeys(keys) == listing
  {
    if listing == [] {
      assert keys == {};
    } else {
      assert listing[0] in keys;
      var least := Least(keys);
      KeyOrder(listing[0], least, least);
      AscendingIsSorted(listing[1..], keys - {least});
    }
  }

  lemma KindsFirst(a: Key, b: Key)
    requires a.kind != b.kind && KindText(a.kind)[0] < KindText(b.kind)[0]
    ensures a != b && KeyAtMost(a, b)
  {
  }

  lemma FiveAscend(group: Key, mask: Key, others: Key, owner: Key, user: Key)
    requires group.kind == Group && mask.kind == Mask && others.kind == Other
    requires owner.kind == user.kind == User && owner.id == "" && user.id != ""
    ensures Ascending([group, mask, others, owner, user])
  {
    KindsFirst(group, mask);
    KindsFirst(group, others);
    KindsFirst(group, owner);
    KindsFirst(group, user);
    KindsFirst(mask, others);
    KindsFirst(mask, owner);
    KindsFirst(mask, user);
    KindsFirst(others, owner);
    KindsFirst(others, user);
  }

  lemma Letters(id: string, p: Perms)
    ensures LineText(OWNING_GROUP, p) == "group::" + PermsText(p)
    ensures LineText(MASK, p) == "mask::" + PermsText(p)
    ensures LineText(OTHERS, p) == "other::" + PermsText(p)
    ensures LineText(OWNER, p) == "user::" + PermsText(p)
    ensures LineText(Key(User, id), p) == "user:" + id + ":" + PermsText(p)
    ensures PermsText(Perms(true, true, false)) == "rw-" && PermsText(Perms(false, false, true)) == "--x"
  {
  }

  lemma {:induction false} LinesFromLeast(listing: seq<Key>, acl: Entries, n: nat)
    requires n < |listing| && forall k | k in listing :: k in acl
    ensures Joined(PrintedLines(listing[n..], acl)) ==
            LineText(listing[n], acl[listing[n]]) + "\n" + Joined(PrintedLines(listing[n + 1..], acl))
  {
    assert listing[n..][1..] == listing[n + 1..];
  }

  lemma {:induction false} FiveLines(listing: seq<Key>, acl: Entries)
    requires |listing| == 5 && forall k | k in listing :: k in acl
    ensures Joined(PrintedLines(listing, acl)) ==
              LineText(listing[0], acl[listing[0]]) + "\n" + (LineText(listing[1], acl[listing[1]]) + "\n" + (
              LineText(listing[2], acl[listing[2]]) + "\n" + (LineText(listing[3], acl[listing[3]]) + "\n" + (
              LineText(listing[4], acl[listing[4]]) + "\n" + ""))))
  {
    assert listing[0..] == listing && listing[5..] == [];
    LinesFromLeast(listing, acl, 0);
    LinesFromLeast(listing, acl, 1);
    LinesFromLeast(listing, acl, 2);
    LinesFromLeast(listing, acl, 3);
    LinesFromLeast(listing, acl, 4);
  }

  /** The text of an ACL with one named user, in full: the order of its lines and the letters of
      its kinds. */
  lemma PrintedAcl(id: string, acl: Acl)
    requires id != "" && acl.Keys == {OWNER, OWNING_GROUP, MASK, OTHERS, Key(User, id)}
    ensures Text(acl) ==
              "group::" + PermsText(acl[OWNING_GROUP]) + "\n" + ("mask::" + PermsText(acl[MASK]) + "\n" + (
              "other::" + PermsText(acl[OTHERS]) + "\n" + ("user::" + PermsText(acl[OWNER]) + "\n" + (
              "user:" + id + ":" + PermsText(acl[Key(User, id)]) + "\n" + ""))))
    ensures PermsText(Perms(true, true, false)) == "rw-" && PermsText(Perms(false, false, true)) == "--x"
  {
    FiveAscend(OWNING_GROUP, MASK, OTHERS, OWNER, Key(User, id));
    var listing := [OWNING_GROUP, MASK, OTHERS, OWNER, Key(User, id)];
    AscendingIsSorted(listing, acl.Keys);
    FiveLines(listing, acl);
    Letters(id, acl[OWNING_GROUP]);
    Letters(id, acl[MASK]);
    Letters(id, acl[OTHERS]);
    Letters(id, acl[OWNER]);
    Letters(id, acl[Key(User, id)]);
  }

  // ---------------------------------------------------------------- round trip

  predicate PrintableLine(line: string) { line != "" && OneLine(line) }

  lemma {:induction false} LinesOfJoined(lines: seq<string>)
    requires forall line | line in lines :: PrintableLine(line)
    ensures Lines(Joined(lines)) == lines
  {
    if lines != [] {
      assert PrintableLine(lines[0]);
      assert "" + lines[0] == lines[0];
      FirstLine("", lines[0], Joined(lines[1..]));
      LinesOfJoined(lines[1..]);
      assert lines == [lines[0]] + lines[1..];
    }
  }

  lemma PrintedLineIsPrintable(key: Key, p: Perms)
    requires AllDigits(key.id)
    ensures PrintableLine(LineText(key, p))
  {
  }

  lemma {:induction false} PrintedLinesArePrintable(keys: seq<Key>, entries: Entries)
    requires forall k | k in keys :: k in entries && AllDigits(k.id)
    ensures forall line | line in PrintedLines(keys, entries) :: PrintableLine(line)
  {
    if keys != [] {
      PrintedLineIsPrintable(keys[0], entries[keys[0]]);
      PrintedLinesArePrintable(keys[1..], entries);
    }
  }

  /** Reading back the lines printed for distinct new keys adds exactly their entries. */
  lemma {:induction false} CollectPrinted(keys: seq<Key>, entries: Entries, done: Entries)
    requires forall k | k in keys :: k in entries && AllDigits(k.id) && !Misplaced(k) && k !in done
    requires forall i, j | 0 <= i < j < |keys| :: keys[i] != keys[j]
    ensures Collect(PrintedLines(keys, entries), done).Ok?
    ensures var read := Collect(PrintedLines(keys, entries), done).value;
            && (forall k :: k in read <==> k in done || k in keys)
            && (forall k | k in done :: read[k] == done[k])
            && (forall k | k in keys :: read[k] == entries[k])
  {
    if keys != [] {
      var key, p := keys[0], entries[keys[0]];
      PrintedLineParses(key, p);
      CollectPrinted(keys[1..], entries, done[key := p]);
      assert key in done[key := p] && done[key := p][key] == p;
    }
  }

  lemma LinesOfText(acl: Acl)
    ensures Lines(Text(acl)) == PrintedLines(SortedKeys(acl.Keys), acl)
  {
    PrintedLinesArePrintable(SortedKeys(acl.Keys), acl);
    LinesOfJoined(PrintedLines(SortedKeys(acl.Keys), acl));
  }

  lemma CollectAll(keys: seq<Key>, acl: Acl)
    requires forall k :: k in keys <==> k in acl
    requires forall i, j | 0 <= i < j < |keys| :: keys[i] != keys[j]
    ensures Collect(PrintedLines(keys, acl), map[]) == Ok(acl)
  {
    var nothing: Entries := map[];
    CollectPrinted(keys, acl, nothing);
    var read := Collect(PrintedLines(keys, acl), nothing).value;
    assert forall k :: k in read <==> k in acl;
    assert read == acl;
  }

  /** Printing an ACL and parsing the text gives the ACL back. */
  lemma RoundTrip(acl: Acl)
    ensures Parse(Text(acl)) == Ok(acl)
  {
    LinesOfText(acl);
    CollectAll(SortedKeys(acl.Keys), acl);
  }

  /** The keys list every entry of the dictionary once, in any order. */
  ghost predicate Enumerates(keys: seq<Key>, entries: Entries) {
    && (forall k :: k in keys <==> k in entries)
    && (forall i, j | 0 <= i < j < |keys| :: keys[i] != keys[j])
  }

  lemma {:induction false} CollectedLines(lines: seq<string>, done: Entries, read: Entries)
    returns (keys: seq<Key>)
    requires Collect(lines, done) == Ok(read)
    ensures forall k | k in done :: k in read && read[k] == done[k]
    ensures forall k :: k in read <==> k in done || k in keys
    ensures forall k | k in keys :: k !in done
    ensures forall i, j | 0 <= i < j < |keys| :: keys[i] != keys[j]
    ensures lines == PrintedLines(keys, read)
  {
    if lines == [] {
      keys := [];
    } else {
      var (key, p) := ParseLine(lines[0]).value;
      LineMeaning(lines[0], key, p);
      var rest := CollectedLines(lines[1..], done[key := p], read);
      keys := [key] + rest;
      assert key in done[key := p] && done[key := p][key] == p;
      assert keys[1..] == rest;
      assert read[key] == p;
    }
  }

  /** Exactly the texts parse_acl accepts, and what it reads from them: one line for each
      entry of a well-formed ACL, in any order. */
  lemma ParseMeaning(text: string, entries: Entries)
    ensures Parse(text) == Ok(entries) <==>
            WellFormed(entries) && exists keys ::
              Enumerates(keys, entries) && Lines(text) == PrintedLines(keys, entries)
  {
    if Parse(text) == Ok(entries) {
      ParsedIsWellFormed(text);
      var keys := CollectedLines(Lines(text), map[], entries);
      assert Enumerates(keys, entries);
    }
    if WellFormed(entries) && exists keys ::
        Enumerates(keys, entries) && Lines(text) == PrintedLines(keys, entries) {
      var keys :| Enumerates(keys, entries) && Lines(text) == PrintedLines(keys, entries);
      CollectAll(keys, entries);
    }
  }

  /** Comparing two canonical texts compares the ACLs, as the helper relies on. */
  lemma SameTextSameAcl(a: Acl, b: Acl)
    ensures Text(a) == Text(b) <==> a == b
  {
    RoundTrip(a);
    RoundTrip(b);
  }
}
