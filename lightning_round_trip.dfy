/**
 * Writing a map with PRESERVE_COMMENTS and reading the file back gives the same
 * map, for the maps the format can represent faithfully ("canonical" maps):
 * keys and values are plain text the line syntax cannot mistake for something
 * else, comment and blank-line entries carry exactly the synthetic keys the
 * reader would give them at their position, no map repeats a key, and the file
 * does not end in a blank line (which `readAllLines` would drop).
 */
module LightningRoundTrip {
  import opened JavaText
  import opened LightningDocument
  import opened LightningParser
  import opened LightningReader
  import opened LightningWriter

  /**
   * A key, scalar or list item that survives the line syntax: not empty, already
   * trimmed, and free of the characters the reader splits or branches on.
   */
  predicate SafeChar(c: char) {
    c != '{' && c != '}' && c != '=' && c != ',' && c != '[' && c != ']' && c != '\n' && c != '\r'
  }
  predicate SafeText(s: string) {
    && s != [] && IsTrimmed(s)
    && forall i :: 0 <= i < |s| ==> SafeChar(s[i])
  }

  /** A key must also not start a comment. */
  predicate SafeKey(k: string) {
    SafeText(k) && k[0] != '#'
  }

  /** The text of a comment line that reads back as the same comment. */
  predicate SafeComment(t: string) {
    StartsWith(t, "#") && IsTrimmed(t) && '}' !in t && '\n' !in t && '\r' !in t
  }

  /** Writer indentation: spaces only. */
  predicate IsIndent(s: string) {
    forall i :: 0 <= i < |s| ==> s[i] == ' '
  }

  /** A line the file can hold as one line. */
  predicate LineClean(s: string) {
    '\n' !in s && '\r' !in s
  }

  predicate AllClean(ls: seq<string>) {
    forall k :: 0 <= k < |ls| ==> LineClean(ls[k])
  }

  /** The blank-line counter after the reader has passed entry `e`. */
  function NextBlank(e: Entry, blank: int): int {
    if e.value == Marker(BLANK_LINE) then blank + 1 else blank
  }

  /** The comment counter after `e`: only top-level comments advance it. */
  function NextComment(e: Entry, nested: bool, comment: int): int {
    if e.value == Marker(COMMENT) && !nested then comment + 1 else comment
  }

  /** The pending block key after `e`: a block's key stays pending. */
  function NextKey(e: Entry, key: Option<string>): Option<string> {
    if e.value.Block? then Some(e.key) else key
  }

  /**
   * `e` is canonical when read at a point where the counters stand at `blank`
   * and `comment`: a comment or blank entry has the synthetic key the reader
   * would build there, any other entry has a safe key and a safe value, a
   * top-level list is not empty (an empty one is written as "[]" and read back
   * as one empty item), and a block's body is canonical with unique keys.
   */
  predicate CanonicalEntry(e: Entry, nested: bool, blank: int, comment: int)
    decreases e, 1
  {
    if e.value == Marker(COMMENT) then
      var c := if nested then comment else comment + 1;
      && LastIndexOf(e.key, "{=}") >= 0
      && SafeComment(CommentText(e.key))
      && e.key == CommentKey(CommentText(e.key), c)
    else if e.value == Marker(BLANK_LINE) then
      e.key == BlankKey(blank + 1)
    else
      && SafeKey(e.key)
      && match e.value
         case Scalar(v) => SafeText(v)
         case StrList(items) =>
           && (forall i :: 0 <= i < |items| ==> SafeText(items[i]))
           && (!nested ==> items != [])
         case Block(body) => DistinctKeys(body) && CanonicalEntries(body, true, blank, comment)
         case Marker(_) => false
  }

  /** Each entry canonical at the counters the entries before it leave. */
  predicate CanonicalEntries(es: seq<Entry>, nested: bool, blank: int, comment: int)
    decreases es, 0
  {
    es == [] ||
    (&& CanonicalEntry(es[0], nested, blank, comment)
     && CanonicalEntries(es[1..], nested, NextBlank(es[0], blank), NextComment(es[0], nested, comment)))
  }

  /** A map that survives being written with comments and read back. */
  predicate Canonical(m: DataMap) {
    && CanonicalEntries(m, false, -1, -1)
    && DistinctKeys(m)
    && (m != [] ==> m[|m| - 1].value != Marker(BLANK_LINE))
  }

  lemma NoBreakOfClean(s: string)
    requires LineClean(s)
    ensures NoLineBreak(s)
  {
    forall j | 0 <= j < |s|
      ensures !IsLineBreak(s[j])
    {
      assert s[j] in s;
    }
  }

  lemma {:induction false} JoinAvoids(items: seq<string>, sep: string, c: char)
    requires c !in sep && forall k :: 0 <= k < |items| ==> c !in items[k]
    ensures c !in Join(items, sep)
  {
    if |items| > 1 {
      JoinAvoids(items[1..], sep, c);
    }
  }

  lemma ClassifyComment(t: string, nested: bool)
    requires SafeComment(t)
    ensures Classify(t, nested) == Comment
  {
    assert t[0] == '#' && t != "}";
  }

  lemma ClassifyOpen(k: string, nested: bool)
    requires SafeKey(k)
    ensures IsTrimmed(k + " {")
    ensures Classify(k + " {", nested) == OpenBlock(Some(k))
  {
    var line := k + " {";
    OpenerShape(k);
    OpenerKey(k);
  }

  lemma OpenerShape(k: string)
    requires SafeKey(k)
    ensures IsTrimmed(k + " {") && k + " {" != "{" && k + " {" != "}" && k + " {" != ""
    ensures '}' !in k + " {" && !StartsWith(k + " {", "#") && EndsWith(k + " {", "{")
  {
    var line := k + " {";
    assert line[0] == k[0] && line[|line| - 1] == '{';
    assert '}' !in k by {
      forall i | 0 <= i < |k|
        ensures k[i] != '}'
      {
        assert SafeChar(k[i]);
      }
    }
  }

  /** The block key `readData` derives from the opener "k {". */
  lemma OpenerKey(k: string)
    requires SafeKey(k)
    ensures Trim(RemoveChar(k + " {", '{')) == k
  {
    assert RemoveChar(k + " {", '{') == k + " " by {
      SafeTextAvoids(k);
      RemoveCharAppend(k, " {", '{');
      RemoveCharSpec(k, '{');
      OpenerTail();
    }
    TrailingSpaceTrim(k);
  }

  lemma OpenerTail()
    ensures RemoveChar(" {", '{') == " "
  {
    assert " {"[1..] == "{";
    assert "{"[1..] == "";
  }

  /** The space before an opener's brace is trimmed away with it. */
  lemma TrailingSpaceTrim(k: string)
    requires IsTrimmed(k) && k != []
    ensures Trim(k + " ") == k
  {
    TrimAround("", k, " ");
    assert "" + k + " " == k + " ";
  }

  /** A value line "k = v" is classified as that assignment. */
  lemma ClassifyAssignment(k: string, v: string, nested: bool)
    requires SafeKey(k)
    requires v != [] && IsTrimmed(v) && '{' !in v && '}' !in v && '=' !in v
    ensures IsTrimmed(k + " = " + v)
    ensures Classify(k + " = " + v, nested) == Assignment(k, v)
  {
    var line := k + " = " + v;
    assert line[0] == k[0] && line[|line| - 1] == v[|v| - 1];
    assert line != "}" && line != "";
    assert '}' !in line;
    assert !StartsWith(line, "#");
    assert !EndsWith(line, "{");
    SplitAssignment(k, v);
    assert Contains(line, " = ");
    TrimTrimmed(k);
    TrimTrimmed(v);
    assert AssignmentParts(line) == (k, v);
  }

  /** `readList` sees an item line the writer printed as "- " and the item. */
  lemma ItemLineTrim(item: string, indent: string)
    requires IsIndent(indent) && SafeText(item)
    ensures Trim(indent + "  - " + item) == "- " + item
  {
    var line := "- " + item;
    assert line[0] == '-' && line[|line| - 1] == item[|item| - 1];
    assert AllWhite(indent + "  ");
    TrimAround(indent + "  ", line, "");
    assert indent + "  " + line + "" == indent + "  - " + item;
  }

  lemma ItemLineShape(item: string)
    requires SafeText(item)
    ensures !EndsWith("- " + item, "]") && StartsWith("- " + item, "- ")
  {
    var line := "- " + item;
    assert line[|line| - 1] == item[|item| - 1];
    assert line[|line| - 1] in item;
  }

  lemma ItemTextTrim(item: string)
    requires SafeText(item)
    ensures Trim(("- " + item)[1..]) == item
  {
    var line := "- " + item;
    assert line[1..] == " " + item;
    TrimAround(" ", item, "");
    assert " " + item + "" == " " + item;
  }

  /** One step of `readList`: the first remaining line, trimmed, decides. */
  lemma ReadListStep(line: string, tail: seq<string>, acc: seq<string>)
    ensures ReadListSpec([line] + tail, acc)
         == (var t := Trim(line);
             if EndsWith(t, "]") then Ok((acc, tail))
             else if StartsWith(t, "- ") then ReadListSpec(tail, acc + [Trim(t[1..])])
             else Err(ListNotClosedProperly))
  {
    assert ([line] + tail)[0] == line && ([line] + tail)[1..] == tail;
  }

  /** The item lines of a nested list, then its closing line, are read back as the items. */
  lemma {:induction false} ItemLinesRoundTrip(items: seq<string>, indent: string, rest: seq<string>, acc: seq<string>)
    requires IsIndent(indent)
    requires forall i :: 0 <= i < |items| ==> SafeText(items[i])
    ensures ReadListSpec(ItemLines(items, indent) + rest, acc) == Ok((acc + items, rest))
  {
    if items == [] {
      ListCloseReads(indent, rest, acc);
      assert acc + items == acc;
    } else {
      ItemLineStep(items, indent, rest, acc);
      ItemLinesRoundTrip(items[1..], indent, rest, acc + [items[0]]);
      AppendHead(acc, items);
    }
  }

  lemma ListCloseReads(indent: string, rest: seq<string>, acc: seq<string>)
    requires IsIndent(indent)
    ensures ReadListSpec(ItemLines([], indent) + rest, acc) == Ok((acc, rest))
  {
    assert AllWhite(indent);
    TrimAround(indent, "]", "");
    assert indent + "]" + "" == indent + "]";
    ReadListStep(indent + "]", rest, acc);
  }

  lemma ItemLineStep(items: seq<string>, indent: string, rest: seq<string>, acc: seq<string>)
    requires IsIndent(indent) && items != [] && SafeText(items[0])
    ensures ReadListSpec(ItemLines(items, indent) + rest, acc)
         == ReadListSpec(ItemLines(items[1..], indent) + rest, acc + [items[0]])
  {
    var item := items[0];
    var line := indent + "  - " + item;
    ItemLineTrim(item, indent);
    ItemLineShape(item);
    ItemTextTrim(item);
    var tail := ItemLines(items[1..], indent) + rest;
    ReadListStep(line, tail, acc);
    assert Trim(line) == "- " + item;
    assert ItemLines(items, indent) == [line] + ItemLines(items[1..], indent);
    ConcatAssoc([line], ItemLines(items[1..], indent), rest);
  }

  lemma ItemLinesClean(items: seq<string>, indent: string)
    requires IsIndent(indent)
    requires forall i :: 0 <= i < |items| ==> SafeText(items[i])
    ensures AllClean(ItemLines(items, indent))
  {
    ItemLinesShape(items, indent);
    assert '\n' !in indent && '\r' !in indent;
  }

  lemma SafeTextAvoids(s: string)
    requires SafeText(s)
    ensures '{' !in s && '}' !in s && '=' !in s && ',' !in s && ']' !in s && '\n' !in s && '\r' !in s
  {
    forall i | 0 <= i < |s|
      ensures s[i] != '{' && s[i] != '}' && s[i] != '=' && s[i] != ',' && s[i] != ']'
      ensures s[i] != '\n' && s[i] != '\r'
    {
      assert SafeChar(s[i]);
    }
  }

  /** With unique keys, the next entry's key is not yet in the map read so far. */
  lemma FreshKey(acc: DataMap, es: seq<Entry>)
    requires es != [] && DistinctKeys(acc + es)
    ensures KeyIndex(acc, es[0].key) < 0
    ensures Put(acc, es[0].key, es[0].value) == acc + [es[0]]
    ensures (acc + [es[0]]) + es[1..] == acc + es
    ensures DistinctKeys((acc + [es[0]]) + es[1..])
  {
    forall j | 0 <= j < |acc|
      ensures acc[j].key != es[0].key
    {
      assert (acc + es)[j] == acc[j] && (acc + es)[|acc|] == es[0];
    }
    assert (acc + [es[0]]) + es[1..] == acc + es;
    PutSpec(acc, es[0].key, es[0].value);
  }

  lemma ScanCloseStep(line: string, tail: seq<string>, blank: int, comment: int, key: Option<string>, m: DataMap)
    requires Trim(line) == "}"
    ensures Scan([line] + tail, true, blank, comment, key, m) == Ok((m, tail))
  {
    assert Classify("}", true) == CloseBlock;
    StepClose(line, tail, blank, comment, key, m);
  }

  lemma ScanBlankStep(line: string, tail: seq<string>, nested: bool, blank: int, comment: int, key: Option<string>, m: DataMap)
    requires Trim(line) == ""
    ensures Scan([line] + tail, nested, blank, comment, key, m)
         == Scan(tail, nested, blank + 1, comment, key, Put(m, BlankKey(blank + 1), Marker(BLANK_LINE)))
  {
    assert Classify("", nested) == Blank;
    StepBlank(line, tail, nested, blank, comment, key, m);
  }

  /** A new key goes to the end of the map. */
  lemma PutFresh(m: DataMap, e: Entry)
    requires KeyIndex(m, e.key) < 0
    ensures Put(m, e.key, e.value) == m + [e]
  {
    PutSpec(m, e.key, e.value);
  }

  /** Indentation disappears under `trim`. */
  lemma IndentedTrim(w: string, s: string)
    requires IsIndent(w) && IsTrimmed(s) && s != []
    ensures Trim(w + s) == s
  {
    TrimAround(w, s, "");
    assert w + s + "" == w + s;
  }

  /** A comment line inside a block reads back as the comment entry it was written from. */
  lemma NestedCommentReadsBack(e: Entry, indent: string, rest: seq<string>, blank: int, comment: int,
                               key: Option<string>, acc: DataMap)
    requires IsIndent(indent) && e.value == Marker(COMMENT)
    requires CanonicalEntry(e, true, blank, comment) && KeyIndex(acc, e.key) < 0
    ensures EntryTagged(e)
    ensures Scan(EntryLines(e, indent, true) + rest, true, blank, comment, key, acc)
         == Scan(rest, true, blank, comment, key, acc + [e])
  {
    var text := CommentText(e.key);
    assert e.key == text + "{=}" + IntToString(comment);
    assert e.key[..1] == text[..1];
    assert IsCommentEntry(e);
    var line := indent + "  " + text;
    assert EntryLines(e, indent, true) == [line];
    IndentedTrim(indent + "  ", text);
    ClassifyComment(text, true);
    StepComment(line, rest, true, blank, comment, key, acc);
    PutFresh(acc, e);
  }

  lemma NestedBlankReadsBack(e: Entry, indent: string, rest: seq<string>, blank: int, comment: int,
                             key: Option<string>, acc: DataMap)
    requires e.value == Marker(BLANK_LINE)
    requires CanonicalEntry(e, true, blank, comment) && KeyIndex(acc, e.key) < 0
    ensures EntryTagged(e)
    ensures Scan(EntryLines(e, indent, true) + rest, true, blank, comment, key, acc)
         == Scan(rest, true, blank + 1, comment, key, acc + [e])
  {
    assert e.key == "{=}emptyline" + IntToString(blank + 1);
    assert e.key[..12] == "{=}emptyline";
    assert IsBlankEntry(e) && !IsCommentEntry(e);
    assert EntryLines(e, indent, true) == [""];
    ScanBlankStep("", rest, true, blank, comment, key, acc);
    PutFresh(acc, e);
  }

  /** The line "k = v" printed at indentation `w` is read as that assignment. */
  lemma AssignmentLine(w: string, k: string, v: string, nested: bool)
    requires IsIndent(w) && SafeKey(k)
    requires v != [] && IsTrimmed(v) && '{' !in v && '}' !in v && '=' !in v
    ensures Classify(Trim(w + k + " = " + v), nested) == Assignment(k, v)
  {
    ClassifyAssignment(k, v, nested);
    assert w + k + " = " + v == w + (k + " = " + v);
    IndentedTrim(w, k + " = " + v);
  }

  /** The line "k = v" printed at the top level is read as that assignment. */
  lemma TopAssignmentLine(k: string, v: string)
    requires SafeKey(k)
    requires v != [] && IsTrimmed(v) && '{' !in v && '}' !in v && '=' !in v
    ensures Classify(Trim(k + " = " + v), false) == Assignment(k, v)
  {
    ClassifyAssignment(k, v, false);
    TrimTrimmed(k + " = " + v);
  }

  /** A safe scalar is kept verbatim, and no line after it is read. */
  lemma ScalarValue(v: string, rest: seq<string>)
    requires SafeText(v)
    ensures AssignedValue(rest, v) == Ok((Scalar(v), rest))
  {
    assert !StartsWith(v, "[") by {
      assert SafeChar(v[0]);
      assert v[..1][0] == v[0] && "["[0] == '[';
    }
  }

  lemma NestedScalarReadsBack(e: Entry, indent: string, rest: seq<string>, blank: int, comment: int,
                              key: Option<string>, acc: DataMap)
    requires IsIndent(indent) && e.value.Scalar?
    requires CanonicalEntry(e, true, blank, comment) && KeyIndex(acc, e.key) < 0
    ensures EntryTagged(e)
    ensures Scan(EntryLines(e, indent, true) + rest, true, blank, comment, key, acc)
         == Scan(rest, true, blank, comment, key, acc + [e])
  {
    var k, v := e.key, e.value.text;
    var line := indent + "  " + k + " = " + v;
    assert EntryLines(e, indent, true) == [line];
    SafeTextAvoids(v);
    AssignmentLine(indent + "  ", k, v, true);
    StepAssignment(line, rest, true, blank, comment, key, acc, k, v);
    ScalarValue(v, rest);
    PutFresh(acc, e);
  }

  /** A right-hand side of "[" alone hands the following lines to the list reader. */
  lemma ListOpener(rest: seq<string>)
    ensures AssignedValue(rest, "[") == (var list := ReadListSpec(rest, []);
      if list.Err? then Err(list.error) else Ok((StrList(list.value.0), list.value.1)))
  {
    assert StartsWith("[", "[") && !EndsWith("[", "]");
  }

  /** A list opened by "[" is read from the item lines that follow, up to the closing line. */
  lemma ListValue(items: seq<string>, indent: string, rest: seq<string>)
    requires IsIndent(indent)
    requires forall i :: 0 <= i < |items| ==> SafeText(items[i])
    ensures AssignedValue(ItemLines(items, indent) + rest, "[") == Ok((StrList(items), rest))
  {
    ListOpener(ItemLines(items, indent) + rest);
    ItemLinesRoundTrip(items, indent, rest, []);
    assert [] + items == items;
  }

  lemma NestedListReadsBack(e: Entry, indent: string, rest: seq<string>, blank: int, comment: int,
                            key: Option<string>, acc: DataMap)
    requires IsIndent(indent) && e.value.StrList?
    requires CanonicalEntry(e, true, blank, comment) && KeyIndex(acc, e.key) < 0
    ensures EntryTagged(e)
    ensures Scan(EntryLines(e, indent, true) + rest, true, blank, comment, key, acc)
         == Scan(rest, true, blank, comment, key, acc + [e])
  {
    var k, items := e.key, e.value.items;
    var inner := indent + "  ";
    var line := inner + k + " = [";
    assert line == inner + k + " = " + "[";
    AssignmentLine(inner, k, "[", true);
    assert EntryLines(e, indent, true) == [line] + ItemLines(items, inner);
    ConcatAssoc([line], ItemLines(items, inner), rest);
    StepAssignment(line, ItemLines(items, inner) + rest, true, blank, comment, key, acc, k, "[");
    ListValue(items, inner, rest);
    PutFresh(acc, e);
  }

  /** A block's closing line "}" at any indentation. */
  lemma CloseTrim(indent: string)
    requires IsIndent(indent)
    ensures Trim(indent + "}") == "}"
  {
    IndentedTrim(indent, "}");
  }

  /** A block's lines are its first entry's lines followed by the lines of the rest of the block. */
  lemma BodyLinesCons(es: seq<Entry>, indent: string)
    requires es != []
    ensures BodyLines(es, indent, true) == EntryLines(es[0], indent, true) + BodyLines(es[1..], indent, true)
  {
    ConcatAssoc(EntryLines(es[0], indent, true), EntriesLines(es[1..], indent, true), [indent + "}"]);
  }

  /** Every entry tagged when the first one and all the others are. */
  lemma TaggedCons(es: seq<Entry>)
    requires es != [] && EntryTagged(es[0]) && CommentKeysTagged(es[1..])
    ensures CommentKeysTagged(es)
  {
    forall i | 0 <= i < |es|
      ensures EntryTagged(es[i])
    {
      if i > 0 {
        assert es[i] == es[1..][i - 1];
      }
    }
  }

  /**
   * A block opener "k {" at indentation `w`, then the block's body and closing
   * line, read back as the block; the key stays pending for the lines after it.
   */
  lemma {:induction false} BlockReadsBack(line: string, w: string, k: string, body: seq<Entry>, rest: seq<string>,
                                          nested: bool, blank: int, comment: int, key: Option<string>, acc: DataMap)
    requires Classify(Trim(line), nested) == OpenBlock(Some(k))
    requires IsIndent(w) && KeyIndex(acc, k) < 0
    requires DistinctKeys(body) && CanonicalEntries(body, true, blank, comment)
    ensures CommentKeysTagged(body)
    ensures Scan([line] + (BodyLines(body, w, true) + rest), nested, blank, comment, key, acc)
         == Scan(rest, nested, blank, comment, Some(k), acc + [Entry(k, Block(body))])
    decreases body, 1
  {
    var inside := BodyLines(body, w, true) + rest;
    StepOpenNamed(line, inside, nested, blank, comment, key, acc, k);
    BodyReadsBack(body, w, rest, blank, comment, None, []);
    assert [] + body == body;
    assert Scan(inside, true, blank, comment, None, []) == Ok((body, rest));
    BlockStored(body, rest, nested, blank, comment, k, acc);
  }

  /** The opener "k {" printed at indentation `w` opens a block named `k`. */
  lemma OpenerLine(w: string, k: string, nested: bool)
    requires IsIndent(w) && SafeKey(k)
    ensures Classify(Trim(w + k + " {"), nested) == OpenBlock(Some(k))
  {
    ClassifyOpen(k, nested);
    assert w + k + " {" == w + (k + " {");
    IndentedTrim(w, k + " {");
  }

  /** A named opener: the block's body is read, then stored under the name. */
  lemma StepOpenNamed(line: string, tail: seq<string>, nested: bool, blank: int, comment: int, key: Option<string>,
                      m: DataMap, k: string)
    requires Classify(Trim(line), nested) == OpenBlock(Some(k))
    ensures Scan([line] + tail, nested, blank, comment, key, m)
         == Continue(BlockValue(Scan(tail, true, blank, comment, None, [])), nested, blank, comment, Some(k), m, k)
  {
    StepOpen(line, tail, nested, blank, comment, key, m, Some(k));
  }

  /** A block read in full is stored under its key at the end of the map, and reading goes on. */
  lemma BlockStored(body: seq<Entry>, rest: seq<string>, nested: bool, blank: int, comment: int, k: string, acc: DataMap)
    requires KeyIndex(acc, k) < 0
    ensures Continue(BlockValue(Ok((body, rest))), nested, blank, comment, Some(k), acc, k)
         == Scan(rest, nested, blank, comment, Some(k), acc + [Entry(k, Block(body))])
  {
    PutFresh(acc, Entry(k, Block(body)));
  }

  /**
   * Any canonical entry inside a block, written by `writeWithComments`, reads back
   * as itself, with the counters and pending key moved on as the reader moves them.
   */
  lemma {:induction false} NestedEntryReadsBack(e: Entry, indent: string, rest: seq<string>, blank: int, comment: int,
                                                key: Option<string>, acc: DataMap)
    requires IsIndent(indent)
    requires CanonicalEntry(e, true, blank, comment) && KeyIndex(acc, e.key) < 0
    ensures EntryTagged(e)
    ensures Scan(EntryLines(e, indent, true) + rest, true, blank, comment, key, acc)
         == Scan(rest, true, NextBlank(e, blank), comment, NextKey(e, key), acc + [e])
    decreases e, 2
  {
    if e.value == Marker(COMMENT) {
      NestedCommentReadsBack(e, indent, rest, blank, comment, key, acc);
    } else if e.value == Marker(BLANK_LINE) {
      NestedBlankReadsBack(e, indent, rest, blank, comment, key, acc);
    } else if e.value.Scalar? {
      NestedScalarReadsBack(e, indent, rest, blank, comment, key, acc);
    } else if e.value.StrList? {
      NestedListReadsBack(e, indent, rest, blank, comment, key, acc);
    } else if e.value.Block? {
      var inner := indent + "  ";
      var body := e.value.body;
      assert !IsCommentEntry(e) && !IsBlankEntry(e);
      assert EntryLines(e, indent, true) == [inner + e.key + " {"] + BodyLines(body, inner, true);
      ConcatAssoc([inner + e.key + " {"], BodyLines(body, inner, true), rest);
      OpenerLine(inner, e.key, true);
      BlockReadsBack(inner + e.key + " {", inner, e.key, body, rest, true, blank, comment, key, acc);
    }
  }

  /**
   * The lines `writeWithComments` prints for a block's entries and its closing
   * "}", followed by anything, are read back by `read` as exactly those entries,
   * leaving what follows.
   */
  lemma {:induction false} BodyReadsBack(es: seq<Entry>, indent: string, rest: seq<string>, blank: int, comment: int,
                                         key: Option<string>, acc: DataMap)
    requires IsIndent(indent)
    requires CanonicalEntries(es, true, blank, comment) && DistinctKeys(acc + es)
    ensures CommentKeysTagged(es)
    ensures Scan(BodyLines(es, indent, true) + rest, true, blank, comment, key, acc) == Ok((acc + es, rest))
    decreases es, 0
  {
    if es == [] {
      assert BodyLines(es, indent, true) == [indent + "}"];
      CloseTrim(indent);
      ScanCloseStep(indent + "}", rest, blank, comment, key, acc);
      assert acc + es == acc;
    } else {
      var e := es[0];
      BodyLinesCons(es, indent);
      ConcatAssoc(EntryLines(e, indent, true), BodyLines(es[1..], indent, true), rest);
      FreshKey(acc, es);
      NestedEntryReadsBack(e, indent, BodyLines(es[1..], indent, true) + rest, blank, comment, key, acc);
      BodyReadsBack(es[1..], indent, rest, NextBlank(e, blank), comment, NextKey(e, key), acc + [e]);
      TaggedCons(es);
    }
  }

  /** A top-level comment line reads back as its entry and advances the comment counter. */
  lemma TopCommentReadsBack(e: Entry, rest: seq<string>, blank: int, comment: int, key: Option<string>, acc: DataMap)
    requires e.value == Marker(COMMENT)
    requires CanonicalEntry(e, false, blank, comment) && KeyIndex(acc, e.key) < 0
    ensures EntryTagged(e)
    ensures Scan(TopLines(e, true) + rest, false, blank, comment, key, acc)
         == Scan(rest, false, blank, comment + 1, key, acc + [e])
  {
    var text := CommentText(e.key);
    assert e.key == text + "{=}" + IntToString(comment + 1);
    assert e.key[..1] == text[..1];
    assert IsCommentEntry(e);
    assert TopLines(e, true) == [text];
    TrimTrimmed(text);
    ClassifyComment(text, false);
    StepComment(text, rest, false, blank, comment, key, acc);
    PutFresh(acc, e);
  }

  lemma TopBlankReadsBack(e: Entry, rest: seq<string>, blank: int, comment: int, key: Option<string>, acc: DataMap)
    requires e.value == Marker(BLANK_LINE)
    requires CanonicalEntry(e, false, blank, comment) && KeyIndex(acc, e.key) < 0
    ensures EntryTagged(e)
    ensures Scan(TopLines(e, true) + rest, false, blank, comment, key, acc)
         == Scan(rest, false, blank + 1, comment, key, acc + [e])
  {
    assert e.key == "{=}emptyline" + IntToString(blank + 1);
    assert e.key[..12] == "{=}emptyline";
    assert IsBlankEntry(e) && !IsCommentEntry(e);
    assert TopLines(e, true) == [""];
    ScanBlankStep("", rest, false, blank, comment, key, acc);
    PutFresh(acc, e);
  }

  lemma TopScalarReadsBack(e: Entry, rest: seq<string>, blank: int, comment: int, key: Option<string>, acc: DataMap)
    requires e.value.Scalar?
    requires CanonicalEntry(e, false, blank, comment) && KeyIndex(acc, e.key) < 0
    ensures EntryTagged(e)
    ensures Scan(TopLines(e, true) + rest, false, blank, comment, key, acc)
         == Scan(rest, false, blank, comment, key, acc + [e])
  {
    var k, v := e.key, e.value.text;
    var line := k + " = " + v;
    assert TopLines(e, true) == [line];
    assert Classify(Trim(line), false) == Assignment(k, v) by {
      SafeTextAvoids(v);
      TopAssignmentLine(k, v);
    }
    StepAssignment(line, rest, false, blank, comment, key, acc, k, v);
    ScalarValue(v, rest);
    PutFresh(acc, e);
  }

  /**
   * The one-line form "[a, b, ...]" of a non-empty list of safe items: an
   * assignment's value the reader takes for an inline list, split back into the
   * same items.
   */
  lemma InlineList(items: seq<string>)
    requires items != []
    requires forall i :: 0 <= i < |items| ==> SafeText(items[i])
    ensures var v := "[" + Join(items, ", ") + "]";
      && v != [] && IsTrimmed(v) && '{' !in v && '}' !in v && '=' !in v
      && StartsWith(v, "[") && EndsWith(v, "]") && InlineItems(v) == items
  {
    var joined := Join(items, ", ");
    JoinedItemsAvoid(items);
    Bracketed(joined);
    ItemsAvoid(items);
    SplitJoinItems(items);
  }

  lemma JoinedItemsAvoid(items: seq<string>)
    requires forall i :: 0 <= i < |items| ==> SafeText(items[i])
    ensures '{' !in Join(items, ", ") && '}' !in Join(items, ", ") && '=' !in Join(items, ", ")
  {
    ItemsAvoid(items);
    JoinAvoids(items, ", ", '{');
    JoinAvoids(items, ", ", '}');
    JoinAvoids(items, ", ", '=');
  }

  /** Text in brackets: trimmed, opening with "[" and closing with "]", the text itself in between. */
  lemma Bracketed(t: string)
    ensures var v := "[" + t + "]";
      && StartsWith(v, "[") && EndsWith(v, "]") && IsTrimmed(v) && v[1..|v| - 1] == t
      && ('{' !in v <==> '{' !in t) && ('}' !in v <==> '}' !in t) && ('=' !in v <==> '=' !in t)
  {
    var v := "[" + t + "]";
    assert v[0] == '[' && v[|v| - 1] == ']';
    assert v[..1] == "[" && v[|v| - 1..] == "]";
    assert v[1..|v| - 1] == t;
  }

  /** Safe items hold none of the characters the line syntax uses. */
  lemma ItemsAvoid(items: seq<string>)
    requires forall i :: 0 <= i < |items| ==> SafeText(items[i])
    ensures forall i :: 0 <= i < |items| ==> items[i] != [] && ',' !in items[i]
    ensures forall i :: 0 <= i < |items| ==> '{' !in items[i] && '}' !in items[i] && '=' !in items[i]
  {
    forall i | 0 <= i < |items|
      ensures '{' !in items[i] && '}' !in items[i] && '=' !in items[i] && ',' !in items[i]
    {
      SafeTextAvoids(items[i]);
    }
  }

  /** An inline list is read from its own line alone. */
  lemma InlineListValue(items: seq<string>, rest: seq<string>)
    requires items != []
    requires forall i :: 0 <= i < |items| ==> SafeText(items[i])
    ensures AssignedValue(rest, "[" + Join(items, ", ") + "]") == Ok((StrList(items), rest))
  {
    InlineList(items);
  }

  lemma TopListReadsBack(e: Entry, rest: seq<string>, blank: int, comment: int, key: Option<string>, acc: DataMap)
    requires e.value.StrList?
    requires CanonicalEntry(e, false, blank, comment) && KeyIndex(acc, e.key) < 0
    ensures EntryTagged(e)
    ensures Scan(TopLines(e, true) + rest, false, blank, comment, key, acc)
         == Scan(rest, false, blank, comment, key, acc + [e])
  {
    var k, items := e.key, e.value.items;
    var v := "[" + Join(items, ", ") + "]";
    var line := k + " = " + v;
    assert TopLines(e, true) == [line];
    assert Classify(Trim(line), false) == Assignment(k, v) by {
      InlineList(items);
      TopAssignmentLine(k, v);
    }
    StepAssignment(line, rest, false, blank, comment, key, acc, k, v);
    InlineListValue(items, rest);
    PutFresh(acc, e);
  }

  /**
   * Any canonical top-level entry, written by `topLayerWriteWithComments`, reads
   * back as itself, with the counters and pending key moved on as `readData` moves them.
   */
  lemma TopEntryReadsBack(e: Entry, rest: seq<string>, blank: int, comment: int, key: Option<string>, acc: DataMap)
    requires CanonicalEntry(e, false, blank, comment) && KeyIndex(acc, e.key) < 0
    ensures EntryTagged(e)
    ensures Scan(TopLines(e, true) + rest, false, blank, comment, key, acc)
         == Scan(rest, false, NextBlank(e, blank), NextComment(e, false, comment), NextKey(e, key), acc + [e])
  {
    if e.value == Marker(COMMENT) {
      TopCommentReadsBack(e, rest, blank, comment, key, acc);
    } else if e.value == Marker(BLANK_LINE) {
      TopBlankReadsBack(e, rest, blank, comment, key, acc);
    } else if e.value.Scalar? {
      TopScalarReadsBack(e, rest, blank, comment, key, acc);
    } else if e.value.StrList? {
      TopListReadsBack(e, rest, blank, comment, key, acc);
    } else if e.value.Block? {
      TopBlockReadsBack(e, rest, blank, comment, key, acc);
    }
  }

  lemma TopBlockReadsBack(e: Entry, rest: seq<string>, blank: int, comment: int, key: Option<string>, acc: DataMap)
    requires e.value.Block?
    requires CanonicalEntry(e, false, blank, comment) && KeyIndex(acc, e.key) < 0
    ensures EntryTagged(e)
    ensures Scan(TopLines(e, true) + rest, false, blank, comment, key, acc)
         == Scan(rest, false, blank, comment, Some(e.key), acc + [e])
  {
    var body := e.value.body;
    var line := e.key + " {";
    assert TopLines(e, true) == [line] + BodyLines(body, "", true);
    ConcatAssoc([line], BodyLines(body, "", true), rest);
    assert Classify(Trim(line), false) == OpenBlock(Some(e.key)) by {
      ClassifyOpen(e.key, false);
      TrimTrimmed(line);
    }
    BlockReadsBack(line, "", e.key, body, rest, false, blank, comment, key, acc);
  }

  /** The lines of the entries `es`, written at the top level, read back by `readData` as those entries. */
  lemma {:induction false} DocEntriesReadBack(es: seq<Entry>, blank: int, comment: int, key: Option<string>, acc: DataMap)
    requires CanonicalEntries(es, false, blank, comment) && DistinctKeys(acc + es)
    ensures CommentKeysTagged(es)
    ensures Scan(DocLines(es, true), false, blank, comment, key, acc) == Ok((acc + es, []))
  {
    if es == [] {
      assert acc + es == acc;
    } else {
      var e := es[0];
      FreshKey(acc, es);
      TopEntryReadsBack(e, DocLines(es[1..], true), blank, comment, key, acc);
      DocEntriesReadBack(es[1..], NextBlank(e, blank), NextComment(e, false, comment), NextKey(e, key), acc + [e]);
      TaggedCons(es);
    }
  }

  lemma CleanAppend(a: seq<string>, b: seq<string>)
    requires AllClean(a) && AllClean(b)
    ensures AllClean(a + b)
  {
    forall k | 0 <= k < |a + b|
      ensures LineClean((a + b)[k])
    {
      if k < |a| {
        assert (a + b)[k] == a[k];
      } else {
        assert (a + b)[k] == b[k - |a|];
      }
    }
  }

  lemma IndentClean(w: string)
    requires IsIndent(w)
    ensures LineClean(w)
  {
    assert '\n' !in w && '\r' !in w by {
      forall i | 0 <= i < |w|
        ensures w[i] != '\n' && w[i] != '\r'
      {
        assert w[i] == ' ';
      }
    }
  }

  /** No line a canonical entry inside a block prints holds a line break. */
  lemma {:induction false} EntryClean(e: Entry, indent: string, blank: int, comment: int)
    requires IsIndent(indent) && CanonicalEntry(e, true, blank, comment)
    ensures AllClean(EntryLines(e, indent, true))
    decreases e, 1
  {
    var inner := indent + "  ";
    IndentClean(inner);
    if e.value == Marker(COMMENT) {
      var text := CommentText(e.key);
      assert e.key == text + "{=}" + IntToString(comment);
      assert e.key[..1] == text[..1];
      assert EntryLines(e, indent, true) == [inner + text];
    } else if e.value == Marker(BLANK_LINE) {
      assert EntryLines(e, indent, true) == [""];
    } else {
      var k := e.key;
      SafeTextAvoids(k);
      assert !IsCommentEntry(e) && !IsBlankEntry(e);
      match e.value
      case Scalar(v) =>
        SafeTextAvoids(v);
        assert EntryLines(e, indent, true) == [inner + k + " = " + v];
      case StrList(items) =>
        ItemLinesClean(items, inner);
        CleanAppend([inner + k + " = ["], ItemLines(items, inner));
      case Block(body) =>
        BodyClean(body, inner, blank, comment);
        CleanAppend([inner + k + " {"], BodyLines(body, inner, true));
    }
  }

  lemma {:induction false} BodyClean(es: seq<Entry>, indent: string, blank: int, comment: int)
    requires IsIndent(indent) && CanonicalEntries(es, true, blank, comment)
    ensures AllClean(BodyLines(es, indent, true))
    decreases es, 0
  {
    IndentClean(indent);
    if es != [] {
      BodyLinesCons(es, indent);
      EntryClean(es[0], indent, blank, comment);
      BodyClean(es[1..], indent, NextBlank(es[0], blank), comment);
      CleanAppend(EntryLines(es[0], indent, true), BodyLines(es[1..], indent, true));
    }
  }

  /**
   * No line a canonical top-level entry prints holds a line break, and only a
   * blank-line entry ends in an empty line.
   */
  lemma TopClean(e: Entry, blank: int, comment: int)
    requires CanonicalEntry(e, false, blank, comment)
    ensures AllClean(TopLines(e, true))
    ensures e.value != Marker(BLANK_LINE) ==> TopLines(e, true)[|TopLines(e, true)| - 1] != ""
  {
    if e.value == Marker(COMMENT) {
      var text := CommentText(e.key);
      assert e.key == text + "{=}" + IntToString(comment + 1);
      assert e.key[..1] == text[..1];
      assert TopLines(e, true) == [text];
    } else if e.value == Marker(BLANK_LINE) {
      assert TopLines(e, true) == [""];
    } else {
      var k := e.key;
      SafeTextAvoids(k);
      assert !IsCommentEntry(e) && !IsBlankEntry(e);
      match e.value
      case Scalar(v) =>
        SafeTextAvoids(v);
        assert TopLines(e, true) == [k + " = " + v];
      case StrList(items) =>
        InlineList(items);
        var v := "[" + Join(items, ", ") + "]";
        assert '\n' !in v && '\r' !in v by {
          ItemsClean(items);
          JoinAvoids(items, ", ", '\n');
          JoinAvoids(items, ", ", '\r');
        }
        assert TopLines(e, true) == [k + " = " + v];
      case Block(body) =>
        BodyClean(body, "", blank, comment);
        CleanAppend([k + " {"], BodyLines(body, "", true));
        assert TopLines(e, true) == [k + " {"] + BodyLines(body, "", true);
    }
  }

  lemma ItemsClean(items: seq<string>)
    requires forall i :: 0 <= i < |items| ==> SafeText(items[i])
    ensures forall i :: 0 <= i < |items| ==> '\n' !in items[i] && '\r' !in items[i]
  {
    forall i | 0 <= i < |items|
      ensures '\n' !in items[i] && '\r' !in items[i]
    {
      SafeTextAvoids(items[i]);
    }
  }

  /** The lines of a canonical document hold no line break; the last is empty only after a blank-line entry. */
  lemma {:induction false} DocClean(es: seq<Entry>, blank: int, comment: int)
    requires CanonicalEntries(es, false, blank, comment)
    ensures AllClean(DocLines(es, true))
    ensures es != [] && es[|es| - 1].value != Marker(BLANK_LINE)
            ==> DocLines(es, true) != [] && DocLines(es, true)[|DocLines(es, true)| - 1] != ""
  {
    if es != [] {
      var e := es[0];
      var head, tail := TopLines(e, true), DocLines(es[1..], true);
      TopClean(e, blank, comment);
      DocClean(es[1..], NextBlank(e, blank), NextComment(e, false, comment));
      CleanAppend(head, tail);
      if |es| == 1 {
        assert tail == [] && head + tail == head;
      } else {
        assert es[1..][|es| - 2] == es[|es| - 1];
        assert (head + tail)[|head + tail| - 1] == tail[|tail| - 1];
      }
    }
  }

  /**
   * The round trip: a canonical map, written by `writeData` with PRESERVE_COMMENTS
   * and split into lines as `readAllLines` splits the file, is read back by
   * `readData` as the same map.
   */
  lemma RoundTrip(m: DataMap)
    requires Canonical(m)
    ensures CommentKeysTagged(m)
    ensures WriteDataSpec(m, PRESERVE_COMMENTS) == Written(DocText(m, true))
    ensures ReadAllLines(DocText(m, true)) == DocLines(m, true)
    ensures ReadDataSpec(ReadAllLines(DocText(m, true))) == Ok(m)
  {
    DocReadsBack(m);
    DocTextReadsBack(m);
  }

  /** The lines written for a canonical map are parsed back into the same map. */
  lemma DocReadsBack(m: DataMap)
    requires Canonical(m)
    ensures CommentKeysTagged(m)
    ensures ReadDataSpec(DocLines(m, true)) == Ok(m)
  {
    DocEntriesReadBack(m, -1, -1, None, []);
    assert [] + m == m;
  }

  /** The file text of a canonical map splits back into exactly the lines written. */
  lemma DocTextReadsBack(m: DataMap)
    requires Canonical(m)
    ensures ReadAllLines(DocText(m, true)) == DocLines(m, true)
  {
    var ls := DocLines(m, true);
    DocClean(m, -1, -1);
    forall k | 0 <= k < |ls|
      ensures NoLineBreak(ls[k])
    {
      NoBreakOfClean(ls[k]);
    }
    ReadAllLinesJoin(ls);
  }
}
