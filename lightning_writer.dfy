/**
 * LightningEditor's writer. `writeData` picks one of two writers by the config
 * setting: one prints comments and blank lines back, the other skips them. Both
 * walk the map in iteration order, print nested entries two spaces deeper per
 * level, and close each block with "}" at its opener's indentation.
 *
 * The output is specified line by line: `TopLines` and `EntryLines` give the
 * lines an entry prints, and the text is those lines joined by '\n' (the line
 * separator `println` is taken to write). The methods, which append to a
 * `TextSink` as the Java code prints to its `PrintWriter`, are proved to produce
 * exactly that text.
 */
module LightningWriter {
  import opened JavaText
  import opened LightningDocument

  /** FlatFile.ConfigSetting; `OtherSetting` stands for any value besides the two the writer knows. */
  datatype ConfigSetting = PRESERVE_COMMENTS | SKIP_COMMENTS | OtherSetting

  /** An entry the comment-keeping writers print as a comment. */
  predicate IsCommentEntry(e: Entry) {
    StartsWith(e.key, "#") && e.value == Marker(COMMENT)
  }

  /** An entry the comment-keeping writers print as an empty line. */
  predicate IsBlankEntry(e: Entry) {
    StartsWith(e.key, "{=}emptyline") && e.value == Marker(BLANK_LINE)
  }

  /** An entry the comment-skipping writers print nothing for. */
  predicate IsSkipped(e: Entry) {
    StartsWith(e.key, "#") || e.value == Marker(COMMENT)
    || StartsWith(e.key, "{=}emptyline") || e.value == Marker(BLANK_LINE)
  }

  /**
   * Every comment entry, at any depth, has "{=}" in its key, so that cutting the
   * key at its last "{=}" is defined (Java would throw otherwise).
   */
  predicate CommentKeysTagged(m: DataMap)
    decreases m
  {
    forall i :: 0 <= i < |m| ==> EntryTagged(m[i])
  }

  predicate EntryTagged(e: Entry)
    decreases e
  {
    && (IsCommentEntry(e) ==> LastIndexOf(e.key, "{=}") >= 0)
    && (e.value.Block? ==> CommentKeysTagged(e.value.body))
  }

  /**
   * The comment text a comment entry prints: its key up to the last "{=}". For a
   * key without "{=}" the Java code throws instead, and the writer methods stop
   * there, so the whole key given here then is never printed.
   */
  function CommentText(key: string): string {
    var i := LastIndexOf(key, "{=}");
    if i >= 0 then key[..i] else key
  }

  /** The value's `toString` where a writer prints `key + " = " + value`. */
  function ValueString(v: Value): string
    requires !v.Block?
  {
    match v
    case Scalar(s) => s
    // the list factory's `toString`, taken to be AbstractCollection's
    case StrList(items) => "[" + Join(items, ", ") + "]"
    case Marker(t) => LineTypeName(t)
  }

  /** The lines `writeList` prints: one "- item" line per item, then the closing "]". */
  function ItemLines(items: seq<string>, indent: string): (ls: seq<string>)
    ensures |ls| == |items| + 1 && ls[|items|] == indent + "]"
  {
    if items == [] then [indent + "]"]
    else [indent + "  - " + items[0]] + ItemLines(items[1..], indent)
  }

  /** Line `i` of a list is its `i`-th item, marked "- " and indented one step more. */
  lemma {:induction false} ItemLinesShape(items: seq<string>, indent: string)
    ensures forall i :: 0 <= i < |items| ==> ItemLines(items, indent)[i] == indent + "  - " + items[i]
  {
    if items != [] {
      ItemLinesShape(items[1..], indent);
      var ls := ItemLines(items, indent);
      forall i | 0 <= i < |items|
        ensures ls[i] == indent + "  - " + items[i]
      {
        if i > 0 {
          assert ls[i] == ItemLines(items[1..], indent)[i - 1];
        }
      }
    }
  }

  /**
   * The lines a nested writer called with indentation `indent` prints for entry
   * `e`; `keep` tells the comment-keeping writer from the comment-skipping one.
   */
  function EntryLines(e: Entry, indent: string, keep: bool): (ls: seq<string>)
    ensures ls != []
    decreases e, 2
  {
    var inner := indent + "  ";
    if keep && IsCommentEntry(e) then [inner + CommentText(e.key)]
    else if keep && IsBlankEntry(e) then [""]
    else if !keep && IsSkipped(e) then [""]
    else
      match e.value
      case Block(body) =>
        [inner + e.key + " {"] + BodyLines(body, inner, keep)
      case StrList(items) => [inner + e.key + " = ["] + ItemLines(items, inner)
      case _ => [inner + e.key + " = " + ValueString(e.value)]
  }

  /** The lines of the entries `es`, one entry after another. */
  function EntriesLines(es: seq<Entry>, indent: string, keep: bool): seq<string>
    decreases es, 0
  {
    if es == [] then []
    else
      EntryLines(es[0], indent, keep) + EntriesLines(es[1..], indent, keep)
  }

  /** What `writeWithComments` / `writeWithOutComments` print after a block opener: the body, then "}". */
  function BodyLines(body: seq<Entry>, indent: string, keep: bool): seq<string>
    decreases body, 1
  {
    EntriesLines(body, indent, keep) + [indent + "}"]
  }

  /**
   * The lines `topLayerWriteWithComments` (`keep`) or `topLayerWriteWithOutComments`
   * prints for a top-level entry. A top-level list is printed on one line in the
   * first and over several lines, indented, in the second.
   */
  function TopLines(e: Entry, keep: bool): (ls: seq<string>)
    ensures ls != []
  {
    if keep && IsCommentEntry(e) then [CommentText(e.key)]
    else if keep && IsBlankEntry(e) then [""]
    else if !keep && IsSkipped(e) then [""]
    else
      match e.value
      case Block(body) =>
        [e.key + " {"] + BodyLines(body, "", keep)
      case StrList(items) =>
        if keep then [e.key + " = " + ValueString(e.value)]
        else ["  " + e.key + " = ["] + ItemLines(items, "  ")
      case _ => [e.key + " = " + ValueString(e.value)]
  }

  /** The lines of a whole file: the top-level entries' lines in map order. */
  function DocLines(m: DataMap, keep: bool): seq<string> {
    if m == [] then []
    else
      TopLines(m[0], keep) + DocLines(m[1..], keep)
  }

  /** The text of a whole file: its lines joined by single line breaks. */
  function DocText(m: DataMap, keep: bool): string
  {
    Join(DocLines(m, keep), "\n")
  }

  /** The position of the first entry, in map order, that the comment-keeping writers throw on. */
  function FirstUntagged(m: DataMap): (i: nat)
    requires !CommentKeysTagged(m)
    ensures i < |m| && !EntryTagged(m[i])
    ensures forall j :: 0 <= j < i ==> EntryTagged(m[j])
  {
    if !EntryTagged(m[0]) then 0
    else
      UntaggedTail(m);
      var i := FirstUntagged(m[1..]);
      assert forall j :: 1 <= j <= i ==> m[j] == m[1..][j - 1];
      i + 1
  }

  /** An untagged entry after only tagged ones is the first the writers throw on. */
  lemma FirstUntaggedAt(m: DataMap, i: nat)
    requires i < |m| && !EntryTagged(m[i])
    requires forall j :: 0 <= j < i ==> EntryTagged(m[j])
    ensures FirstUntagged(m) == i
  {
  }

  lemma UntaggedTail(m: DataMap)
    requires !CommentKeysTagged(m) && EntryTagged(m[0])
    ensures !CommentKeysTagged(m[1..])
  {
    var i :| 0 <= i < |m| && !EntryTagged(m[i]);
    assert m[1..][i - 1] == m[i];
  }

  /**
   * What the comment-keeping nested writer has printed for an entry when the
   * `substring(0, -1)` of a comment key without "{=}" throws: the line break before
   * the entry and, for a block, its opener and what the body's writer printed.
   */
  function EntryStopText(e: Entry, indent: string): string
    requires !EntryTagged(e)
    decreases e, 2
  {
    if IsCommentEntry(e) then "\n"
    else "\n" + (indent + "  " + e.key + " {") + BodyStopText(e.value.body, indent + "  ")
  }

  /** ... for a body: every entry before the one it throws on, then what that one printed; no "}". */
  function BodyStopText(body: seq<Entry>, indent: string): string
    requires !CommentKeysTagged(body)
    decreases body, 1
  {
    var i := FirstUntagged(body);
    Breaks(EntriesLines(body[..i], indent, true)) + EntryStopText(body[i], indent)
  }

  /** ... for a top-level entry: nothing for a comment, the opener and the body's text for a block. */
  function TopStopText(e: Entry): string
    requires !EntryTagged(e)
  {
    if IsCommentEntry(e) then ""
    else (e.key + " {") + BodyStopText(e.value.body, "")
  }

  /**
   * The text `initalWriteWithComments` has printed when it throws: the top-level
   * entries before the one it throws on, a line break unless that is the first,
   * and what that entry printed. Closing the writer flushes it into the file.
   */
  function DocStopText(m: DataMap): string
    requires !CommentKeysTagged(m)
  {
    var i := FirstUntagged(m);
    Join(DocLines(m[..i], true), "\n") + (if i == 0 then "" else "\n") + TopStopText(m[i])
  }

  /**
   * What `writeData` leaves in the file, the `IllegalArgumentException` it throws
   * for an unknown setting, or the `StringIndexOutOfBoundsException` the
   * comment-keeping writer throws on a comment key without "{=}", with the text
   * the file holds once the writer is closed.
   */
  datatype WriteOutcome = Written(text: string) | IllegalConfigSetting | CommentKeyWithoutTag(partial: string)

  function WriteDataSpec(m: DataMap, setting: ConfigSetting): WriteOutcome
  {
    match setting
    case PRESERVE_COMMENTS =>
      if CommentKeysTagged(m) then Written(DocText(m, true)) else CommentKeyWithoutTag(DocStopText(m))
    case SKIP_COMMENTS => Written(DocText(m, false))
    case OtherSetting => IllegalConfigSetting
  }

  /** Each line printed after a line break: the text `println()` then `print(line)` leave. */
  function Breaks(ls: seq<string>): string {
    if ls == [] then "" else "\n" + ls[0] + Breaks(ls[1..])
  }

  /** Each line followed by a line break: the text `println(line)` leaves. */
  function Terminated(ls: seq<string>): string {
    if ls == [] then "" else ls[0] + "\n" + Terminated(ls[1..])
  }

  lemma {:induction false} BreaksAppend(a: seq<string>, b: seq<string>)
    ensures Breaks(a + b) == Breaks(a) + Breaks(b)
  {
    if a == [] {
      assert a + b == b;
    } else {
      assert (a + b)[1..] == a[1..] + b;
      BreaksAppend(a[1..], b);
    }
  }

  lemma BreaksOne(x: string)
    ensures Breaks([x]) == "\n" + x
  {
    assert [x][1..] == [];
  }

  lemma BreaksCons(x: string, ls: seq<string>)
    ensures Breaks([x] + ls) == "\n" + x + Breaks(ls)
  {
    assert ([x] + ls)[0] == x && ([x] + ls)[1..] == ls;
  }

  /** Printing a line break, a line and then more text, regrouped. */
  lemma AppendBreaks(before: string, x: string, rest: string)
    ensures before + "\n" + x + rest == before + ("\n" + x + rest)
  {
  }

  /** A prefix stays a prefix when the longer text is extended. */
  lemma PrefixExtend<T>(p: seq<T>, q: seq<T>, r: seq<T>)
    requires p <= q
    ensures p <= q + r
  {
    assert (q + r)[..|q|] == q;
  }

  lemma PrefixTrans<T>(p: seq<T>, q: seq<T>, r: seq<T>)
    requires p <= q && q <= r
    ensures p <= r
  {
    assert r[..|q|][..|p|] == r[..|p|];
  }

  /** The breaks of the first `i + 1` entries start the breaks of the whole body. */
  lemma BodyBreaksPrefix(es: seq<Entry>, i: nat, indent: string, keep: bool)
    requires i < |es|
    ensures Breaks(EntriesLines(es[..i + 1], indent, keep)) <= Breaks(BodyLines(es, indent, keep))
  {
    var front := EntriesLines(es[..i + 1], indent, keep);
    var back := EntriesLines(es[i + 1..], indent, keep) + [indent + "}"];
    EntriesLinesAppend(es[..i + 1], es[i + 1..], indent, keep);
    assert es[..i + 1] + es[i + 1..] == es;
    ConcatAssoc(front, EntriesLines(es[i + 1..], indent, keep), [indent + "}"]);
    BreaksAppend(front, back);
    PrefixExtend(Breaks(front), Breaks(front), Breaks(back));
  }

  /** Text cut short within the first `i + 1` top-level entries is cut short within the whole file. */
  lemma StoppedEarly(m: DataMap, i: nat, keep: bool, t: string)
    requires i < |m|
    requires t <= Join(DocLines(m[..i + 1], keep), "\n")
    ensures t <= DocText(m, keep)
  {
    DocTextPrefix(m, i, keep);
    PrefixTrans(t, Join(DocLines(m[..i + 1], keep), "\n"), DocText(m, keep));
  }

  /** The text of the first `i + 1` top-level entries starts the text of the whole file. */
  lemma DocTextPrefix(m: DataMap, i: nat, keep: bool)
    requires i < |m|
    ensures Join(DocLines(m[..i + 1], keep), "\n") <= DocText(m, keep)
  {
    var front := DocLines(m[..i + 1], keep);
    var back := DocLines(m[i + 1..], keep);
    DocLinesAppend(m[..i + 1], m[i + 1..], keep);
    assert m[..i + 1] + m[i + 1..] == m;
    DocLinesSnoc(m, i, keep);
    if back == [] {
      assert front + back == front;
    } else {
      JoinAppend(front, back);
      PrefixExtend(Join(front, "\n"), Join(front, "\n"), "\n" + Join(back, "\n"));
    }
  }

  lemma {:induction false} TerminatedAppend(a: seq<string>, x: string)
    ensures Terminated(a + [x]) == Terminated(a) + x + "\n"
  {
    if a != [] {
      assert (a + [x])[1..] == a[1..] + [x];
      TerminatedAppend(a[1..], x);
    }
  }

  /** Joining lines is printing the first and then each further one after a break. */
  lemma {:induction false} JoinIsBreaks(ls: seq<string>)
    requires ls != []
    ensures Join(ls, "\n") == ls[0] + Breaks(ls[1..])
  {
    if |ls| > 1 {
      JoinIsBreaks(ls[1..]);
    }
  }

  lemma JoinBreaksCons(x: string, ls: seq<string>)
    ensures Join([x] + ls, "\n") == x + Breaks(ls)
  {
    JoinIsBreaks([x] + ls);
    assert ([x] + ls)[0] == x && ([x] + ls)[1..] == ls;
  }

  /** Joining lines is printing all but the last with `println` and the last with `print`. */
  lemma {:induction false} JoinIsTerminated(ls: seq<string>, last: string)
    ensures Join(ls + [last], "\n") == Terminated(ls) + last
  {
    if ls != [] {
      assert (ls + [last])[1..] == ls[1..] + [last];
      JoinIsTerminated(ls[1..], last);
    }
  }

  lemma {:induction false} EntriesLinesAppend(a: seq<Entry>, b: seq<Entry>, indent: string, keep: bool)
    ensures EntriesLines(a + b, indent, keep) == EntriesLines(a, indent, keep) + EntriesLines(b, indent, keep)
  {
    if a == [] {
      assert a + b == b;
    } else {
      assert (a + b)[1..] == a[1..] + b;
      EntriesLinesAppend(a[1..], b, indent, keep);
    }
  }

  lemma {:induction false} DocLinesAppend(a: seq<Entry>, b: seq<Entry>, keep: bool)
    ensures DocLines(a + b, keep) == DocLines(a, keep) + DocLines(b, keep)
  {
    if a == [] {
      assert a + b == b;
    } else {
      assert (a + b)[1..] == a[1..] + b;
      DocLinesAppend(a[1..], b, keep);
    }
  }

  /** The `PrintWriter` the writers print to, reduced to the text written so far. */
  class TextSink {
    var text: string

    constructor ()
      ensures text == ""
    {
      text := "";
    }

    /** `print(s)`. */
    method Print(s: string)
      modifies this
      ensures text == old(text) + s
    {
      text := text + s;
    }

    /** `println(s)`. */
    method PrintLine(s: string)
      modifies this
      ensures text == old(text) + s + "\n"
    {
      text := text + s + "\n";
    }

    /** `println()`. */
    method NewLine()
      modifies this
      ensures text == old(text) + "\n"
    {
      text := text + "\n";
    }
  }

  /** `writeList`: prints the list's lines, the last without a line break. */
  method WriteList(list: seq<string>, indentationString: string, writer: TextSink)
    modifies writer
    ensures writer.text == old(writer.text) + Join(ItemLines(list, indentationString), "\n")
  {
    ghost var start := writer.text;
    ghost var lines := ItemLines(list, indentationString);
    ItemLinesShape(list, indentationString);
    for i := 0 to |list|
      invariant writer.text == start + Terminated(lines[..i])
    {
      writer.PrintLine(indentationString + "  - " + list[i]);
      TerminatedAppend(lines[..i], lines[i]);
      assert lines[..i + 1] == lines[..i] + [lines[i]];
      ConcatAssoc(start, Terminated(lines[..i]), lines[i] + "\n");
    }
    writer.Print(indentationString + "]");
    JoinIsTerminated(lines[..|list|], lines[|list|]);
    assert lines == lines[..|list|] + [lines[|list|]];
    ConcatAssoc(start, Terminated(lines[..|list|]), lines[|list|]);
  }

  /** The lines of one more entry extend the lines of the entries before it. */
  lemma EntriesLinesSnoc(es: seq<Entry>, i: nat, indent: string, keep: bool)
    requires i < |es|
    ensures EntriesLines(es[..i + 1], indent, keep)
         == EntriesLines(es[..i], indent, keep) + EntryLines(es[i], indent, keep)
  {
    EntriesLinesAppend(es[..i], [es[i]], indent, keep);
    assert es[..i] + [es[i]] == es[..i + 1];
    assert [es[i]][1..] == [];
  }

  /**
   * `writeWithComments`: a block's entries, each on a new line, then the closing
   * "}". On a comment key without "{=}" it stops with `ok` false, having printed a
   * prefix of what it prints otherwise.
   */
  method WriteWithComments(map_: seq<Entry>, indentationString: string, writer: TextSink) returns (ok: bool)
    modifies writer
    ensures ok == CommentKeysTagged(map_)
    ensures ok ==> writer.text == old(writer.text) + Breaks(BodyLines(map_, indentationString, true))
    ensures !ok ==> writer.text <= old(writer.text) + Breaks(BodyLines(map_, indentationString, true))
    ensures !ok ==> writer.text == old(writer.text) + BodyStopText(map_, indentationString)
    decreases map_, 1
  {
    ghost var start := writer.text;
    for i := 0 to |map_|
      invariant writer.text == start + Breaks(EntriesLines(map_[..i], indentationString, true))
      invariant forall j :: 0 <= j < i ==> EntryTagged(map_[j])
    {
      ghost var done := EntriesLines(map_[..i], indentationString, true);
      ghost var next := EntryLines(map_[i], indentationString, true);
      EntriesLinesSnoc(map_, i, indentationString, true);
      BreaksAppend(done, next);
      ConcatAssoc(start, Breaks(done), Breaks(next));
      ok := WriteEntryWithComments(map_[i], indentationString, writer);
      if !ok {
        FirstUntaggedAt(map_, i);
        ConcatAssoc(start, Breaks(done), EntryStopText(map_[i], indentationString));
        BodyBreaksPrefix(map_, i, indentationString, true);
        PrefixConcat(start, Breaks(done + next), Breaks(BodyLines(map_, indentationString, true)));
        PrefixTrans(writer.text, start + Breaks(done + next), start + Breaks(BodyLines(map_, indentationString, true)));
        return;
      }
    }
    ghost var all := EntriesLines(map_, indentationString, true);
    assert map_[..|map_|] == map_;
    writer.NewLine();
    writer.Print(indentationString + "}");
    BreaksAppend(all, [indentationString + "}"]);
    BreaksOne(indentationString + "}");
    AppendBreaks(start + Breaks(all), indentationString + "}", "");
    ConcatAssoc(start, Breaks(all), "\n" + (indentationString + "}"));
    ok := true;
  }

  /** Extending both sides of a prefix by the same front. */
  lemma PrefixConcat<T>(a: seq<T>, p: seq<T>, q: seq<T>)
    requires p <= q
    ensures a + p <= a + q
  {
    assert (a + q)[..|a + p|] == a + q[..|p|];
  }

  /**
   * One pass of the loop in `writeWithComments`: a line break, then the entry. A
   * comment key without "{=}" stops it, as `substring(0, -1)` throws, right after the
   * line break.
   */
  method WriteEntryWithComments(e: Entry, indentationString: string, writer: TextSink) returns (ok: bool)
    modifies writer
    ensures ok == EntryTagged(e)
    ensures ok ==> writer.text == old(writer.text) + Breaks(EntryLines(e, indentationString, true))
    ensures !ok ==> writer.text <= old(writer.text) + Breaks(EntryLines(e, indentationString, true))
    ensures !ok ==> writer.text == old(writer.text) + EntryStopText(e, indentationString)
    decreases e, 2
  {
    var inner := indentationString + "  ";
    writer.NewLine();
    if IsCommentEntry(e) {
      CommentEntryBreaks(e, indentationString);
      if LastIndexOf(e.key, "{=}") < 0 {
        PrefixExtend(writer.text, writer.text, inner + CommentText(e.key));
        return false;
      }
      writer.Print(inner + CommentText(e.key));
    } else if IsBlankEntry(e) {
      BlankEntryBreaks(e, indentationString);
      writer.Print("");
    } else {
      match e.value
      case Block(body) =>
        BlockEntryBreaks(e, indentationString);
        var head := inner + e.key + " {";
        ok := WriteBlockWithComments(head, body, inner, writer);
        AppendBreaks(old(writer.text), head, Breaks(BodyLines(body, inner, true)));
        if !ok {
          AppendBreaks(old(writer.text), head, BodyStopText(body, inner));
        }
        return;
      case StrList(items) =>
        ListEntryBreaks(e, indentationString);
        writer.PrintLine(inner + e.key + " = [");
        WriteList(items, inner, writer);
      case _ =>
        ScalarEntryBreaks(e, indentationString);
        writer.Print(inner + e.key + " = " + ValueString(e.value));
    }
    ok := true;
  }

  /**
   * A block's opener `head`, printed without a line break, then its body as
   * `writeWithComments` prints it at indentation `indent`.
   */
  method WriteBlockWithComments(head: string, body: seq<Entry>, indent: string, writer: TextSink) returns (ok: bool)
    modifies writer
    ensures ok == CommentKeysTagged(body)
    ensures ok ==> writer.text == old(writer.text) + head + Breaks(BodyLines(body, indent, true))
    ensures !ok ==> writer.text == old(writer.text) + head + BodyStopText(body, indent)
    ensures !ok ==> writer.text <= old(writer.text) + head + Breaks(BodyLines(body, indent, true))
    decreases body, 2
  {
    writer.Print(head);
    ok := WriteWithComments(body, indent, writer);
  }

  /** What the comment-keeping writer prints for a comment entry, its line break included. */
  lemma CommentEntryBreaks(e: Entry, indent: string)
    requires IsCommentEntry(e)
    ensures Breaks(EntryLines(e, indent, true)) == "\n" + (indent + "  " + CommentText(e.key))
    ensures EntryTagged(e) == (LastIndexOf(e.key, "{=}") >= 0)
    ensures !EntryTagged(e) ==> EntryStopText(e, indent) == "\n"
  {
    BreaksOne(indent + "  " + CommentText(e.key));
  }

  /** ... for a blank-line entry: a line break alone. */
  lemma BlankEntryBreaks(e: Entry, indent: string)
    requires !IsCommentEntry(e) && IsBlankEntry(e)
    ensures Breaks(EntryLines(e, indent, true)) == "\n" + ""
    ensures EntryTagged(e)
  {
    BreaksOne("");
  }

  /** ... for a block: its opener, then its body and closer as the nested writer prints them. */
  lemma BlockEntryBreaks(e: Entry, indent: string)
    requires !IsCommentEntry(e) && !IsBlankEntry(e) && e.value.Block?
    ensures Breaks(EntryLines(e, indent, true))
         == "\n" + (indent + "  " + e.key + " {") + Breaks(BodyLines(e.value.body, indent + "  ", true))
    ensures EntryTagged(e) == CommentKeysTagged(e.value.body)
    ensures !EntryTagged(e)
        ==> EntryStopText(e, indent) == "\n" + (indent + "  " + e.key + " {") + BodyStopText(e.value.body, indent + "  ")
  {
    BreaksCons(indent + "  " + e.key + " {", BodyLines(e.value.body, indent + "  ", true));
  }

  /** ... for a list: its opener with its line break, then the item lines `writeList` prints. */
  lemma ListEntryBreaks(e: Entry, indent: string)
    requires !IsCommentEntry(e) && !IsBlankEntry(e) && e.value.StrList?
    ensures Breaks(EntryLines(e, indent, true))
         == "\n" + (indent + "  " + e.key + " = [") + "\n" + Join(ItemLines(e.value.items, indent + "  "), "\n")
    ensures EntryTagged(e)
  {
    var rest := ItemLines(e.value.items, indent + "  ");
    JoinIsBreaks(rest);
    BreaksCons(indent + "  " + e.key + " = [", rest);
  }

  /** ... for any other value: one "key = value" line. */
  lemma ScalarEntryBreaks(e: Entry, indent: string)
    requires !IsCommentEntry(e) && !IsBlankEntry(e) && !e.value.Block? && !e.value.StrList?
    ensures Breaks(EntryLines(e, indent, true)) == "\n" + (indent + "  " + e.key + " = " + ValueString(e.value))
    ensures EntryTagged(e)
  {
    BreaksOne(indent + "  " + e.key + " = " + ValueString(e.value));
  }

  /** `writeWithOutComments`: as `writeWithComments`, but comment and blank entries print nothing. */
  method WriteWithOutComments(map_: seq<Entry>, indentationString: string, writer: TextSink)
    modifies writer
    ensures writer.text == old(writer.text) + Breaks(BodyLines(map_, indentationString, false))
    decreases map_, 1
  {
    ghost var start := writer.text;
    for i := 0 to |map_|
      invariant writer.text == start + Breaks(EntriesLines(map_[..i], indentationString, false))
    {
      ghost var done := EntriesLines(map_[..i], indentationString, false);
      ghost var next := EntryLines(map_[i], indentationString, false);
      EntriesLinesSnoc(map_, i, indentationString, false);
      WriteEntryWithOutComments(map_[i], indentationString, writer);
      BreaksAppend(done, next);
      ConcatAssoc(start, Breaks(done), Breaks(next));
    }
    ghost var all := EntriesLines(map_, indentationString, false);
    assert map_[..|map_|] == map_;
    writer.NewLine();
    writer.Print(indentationString + "}");
    BreaksAppend(all, [indentationString + "}"]);
    BreaksOne(indentationString + "}");
    AppendBreaks(start + Breaks(all), indentationString + "}", "");
    ConcatAssoc(start, Breaks(all), "\n" + (indentationString + "}"));
  }

  /** One pass of the loop in `writeWithOutComments`: a line break, then the entry unless it is skipped. */
  method WriteEntryWithOutComments(e: Entry, indentationString: string, writer: TextSink)
    modifies writer
    ensures writer.text == old(writer.text) + Breaks(EntryLines(e, indentationString, false))
    decreases e, 2
  {
    var inner := indentationString + "  ";
    writer.NewLine();
    if IsSkipped(e) {
      BreaksOne("");
    } else {
      match e.value
      case Block(body) =>
        var head := inner + e.key + " {";
        writer.Print(head);
        WriteWithOutComments(body, inner, writer);
        BreaksCons(head, BodyLines(body, inner, false));
        AppendBreaks(old(writer.text), head, Breaks(BodyLines(body, inner, false)));
      case StrList(items) =>
        var head := inner + e.key + " = [";
        writer.PrintLine(head);
        WriteList(items, inner, writer);
        JoinIsBreaks(ItemLines(items, inner));
        BreaksCons(head, ItemLines(items, inner));
        AppendBreaks(old(writer.text), head, Breaks(ItemLines(items, inner)));
      case _ =>
        writer.Print(inner + e.key + " = " + ValueString(e.value));
        BreaksOne(inner + e.key + " = " + ValueString(e.value));
    }
  }

  /**
   * `topLayerWriteWithComments`: one top-level entry, without a line break before
   * it; a comment key without "{=}" stops it before it prints anything of its own.
   */
  method TopLayerWriteWithComments(writer: TextSink, e: Entry) returns (ok: bool)
    modifies writer
    ensures ok == EntryTagged(e)
    ensures ok ==> writer.text == old(writer.text) + Join(TopLines(e, true), "\n")
    ensures !ok ==> writer.text <= old(writer.text) + Join(TopLines(e, true), "\n")
    ensures !ok ==> writer.text == old(writer.text) + TopStopText(e)
  {
    ok := true;
    if IsCommentEntry(e) {
      if LastIndexOf(e.key, "{=}") < 0 {
        PrefixExtend(writer.text, writer.text, Join(TopLines(e, true), "\n"));
        return false;
      }
      writer.Print(CommentText(e.key));
    } else if IsBlankEntry(e) {
      writer.Print("");
    } else if e.value.Block? {
      var head := e.key + " {";
      ghost var body := BodyLines(e.value.body, "", true);
      ok := WriteBlockWithComments(head, e.value.body, "", writer);
      assert TopLines(e, true) == [head] + body;
      JoinBreaksCons(head, body);
      ConcatAssoc(old(writer.text), head, Breaks(body));
    } else {
      writer.Print(e.key + " = " + ValueString(e.value));
    }
  }

  /** `topLayerWriteWithOutComments`: one top-level entry; a list goes over several indented lines. */
  method TopLayerWriteWithOutComments(writer: TextSink, e: Entry)
    modifies writer
    ensures writer.text == old(writer.text) + Join(TopLines(e, false), "\n")
  {
    if IsSkipped(e) {
      assert TopLines(e, false) == [""];
    } else if e.value.Block? {
      var head := e.key + " {";
      ghost var body := BodyLines(e.value.body, "", false);
      writer.Print(head);
      WriteWithOutComments(e.value.body, "", writer);
      assert TopLines(e, false) == [head] + body;
      JoinBreaksCons(head, body);
      ConcatAssoc(old(writer.text), head, Breaks(body));
    } else if e.value.StrList? {
      var head := "  " + e.key + " = [";
      ghost var items := ItemLines(e.value.items, "  ");
      writer.PrintLine(head);
      WriteList(e.value.items, "  ", writer);
      assert TopLines(e, false) == [head] + items;
      JoinCons(head, items, "\n");
      ConcatAssoc(old(writer.text), head + "\n", Join(items, "\n"));
    } else {
      writer.Print(e.key + " = " + ValueString(e.value));
    }
  }

  /** Joining two non-empty runs of lines puts exactly one line break between them. */
  lemma JoinAppend(a: seq<string>, b: seq<string>)
    requires a != [] && b != []
    ensures Join(a + b, "\n") == Join(a, "\n") + "\n" + Join(b, "\n")
  {
    JoinIsBreaks(a + b);
    assert (a + b)[1..] == a[1..] + b;
    BreaksAppend(a[1..], b);
    JoinIsBreaks(a);
    JoinIsBreaks(b);
  }

  lemma DocLinesSnoc(m: DataMap, i: nat, keep: bool)
    requires i < |m|
    ensures DocLines(m[..i + 1], keep) == DocLines(m[..i], keep) + TopLines(m[i], keep)
  {
    assert m[..i] + [m[i]] == m[..i + 1];
    DocLinesAppend(m[..i], [m[i]], keep);
    assert [m[i]][1..] == [];
    assert DocLines([m[i]], keep) == TopLines(m[i], keep) + DocLines([], keep);
  }

  /** One more tagged entry keeps a tagged front tagged. */
  lemma TaggedSnoc(m: DataMap, i: nat)
    requires i < |m| && CommentKeysTagged(m[..i]) && EntryTagged(m[i])
    ensures CommentKeysTagged(m[..i + 1])
  {
    var front, done := m[..i + 1], m[..i];
    forall j | 0 <= j < |front|
      ensures EntryTagged(front[j])
    {
      if j < i {
        assert front[j] == done[j];
      }
    }
  }

  /**
   * `initalWriteWithComments`: the first top-level entry, then each further one
   * after a single line break; nothing at all for an empty map. On a comment key
   * without "{=}" it stops with `ok` false; closing the writer then still flushes
   * what was printed, a prefix of the whole text, into the file.
   */
  method InitialWriteWithComments(m: DataMap) returns (text: string, ok: bool)
    ensures ok == CommentKeysTagged(m)
    ensures ok ==> text == DocText(m, true)
    ensures !ok ==> text <= DocText(m, true)
    ensures !ok ==> text == DocStopText(m)
  {
    var writer := new TextSink();
    ok := true;
    if m != [] {
      DocLinesSnoc(m, 0, true);
      assert m[..0] == [];
      ok := TopLayerWriteWithComments(writer, m[0]);
      assert DocLines(m[..1], true) == TopLines(m[0], true);
      if !ok {
        DocStopAt(m, 0);
        StoppedEarly(m, 0, true, writer.text);
        return writer.text, false;
      }
      assert writer.text == Join(TopLines(m[0], true), "\n");
      TaggedSnoc(m, 0);
      for i := 1 to |m|
        invariant writer.text == Join(DocLines(m[..i], true), "\n")
        invariant DocLines(m[..i], true) != []
        invariant CommentKeysTagged(m[..i])
      {
        DocLinesSnoc(m, i, true);
        JoinAppend(DocLines(m[..i], true), TopLines(m[i], true));
        writer.NewLine();
        ok := TopLayerWriteWithComments(writer, m[i]);
        if !ok {
          DocStopAt(m, i);
          StoppedEarly(m, i, true, writer.text);
          return writer.text, false;
        }
        TaggedSnoc(m, i);
      }
      assert m[..|m|] == m;
    }
    text := writer.text;
  }

  /** The top-level writer throws on entry `i` when every entry before it is tagged and it is not. */
  lemma DocStopAt(m: DataMap, i: nat)
    requires i < |m| && !EntryTagged(m[i]) && CommentKeysTagged(m[..i])
    ensures DocStopText(m) == Join(DocLines(m[..i], true), "\n") + (if i == 0 then "" else "\n") + TopStopText(m[i])
  {
    assert forall j :: 0 <= j < i ==> m[..i][j] == m[j];
    FirstUntaggedAt(m, i);
  }

  /** `initalWriteWithOutComments`: as `initalWriteWithComments`, with the comment-skipping writers. */
  method InitialWriteWithOutComments(m: DataMap) returns (text: string)
    ensures text == DocText(m, false)
  {
    var writer := new TextSink();
    if m != [] {
      DocLinesSnoc(m, 0, false);
      assert m[..0] == [];
      TopLayerWriteWithOutComments(writer, m[0]);
      assert DocLines(m[..1], false) == TopLines(m[0], false);
      assert writer.text == Join(TopLines(m[0], false), "\n");
      for i := 1 to |m|
        invariant writer.text == Join(DocLines(m[..i], false), "\n")
        invariant DocLines(m[..i], false) != []
      {
        DocLinesSnoc(m, i, false);
        writer.NewLine();
        TopLayerWriteWithOutComments(writer, m[i]);
        JoinAppend(DocLines(m[..i], false), TopLines(m[i], false));
      }
      assert m[..|m|] == m;
    }
    text := writer.text;
  }

  /** `writeData`: the text written under each setting, or the exception for an unknown setting. */
  method WriteData(m: DataMap, configSetting: ConfigSetting) returns (r: WriteOutcome)
    ensures r == WriteDataSpec(m, configSetting)
  {
    if configSetting == PRESERVE_COMMENTS {
      var text, ok := InitialWriteWithComments(m);
      r := if ok then Written(text) else CommentKeyWithoutTag(text);
    } else if configSetting == SKIP_COMMENTS {
      var text := InitialWriteWithOutComments(m);
      r := Written(text);
    } else {
      r := IllegalConfigSetting;
    }
  }

  /**
   * The entry as the comment-keeping writer would have to see it to print what the
   * comment-skipping writer prints: every skipped entry, at any depth, becomes a
   * blank-line marker.
   */
  function BlankedEntry(e: Entry): (r: Entry)
    ensures !IsCommentEntry(r)
    decreases e, 1
  {
    if IsSkipped(e) then Entry("{=}emptyline", Marker(BLANK_LINE))
    else
      match e.value
      case Block(body) => Entry(e.key, Block(BlankedAll(body)))
      case _ => e
  }

  function BlankedAll(es: seq<Entry>): (r: seq<Entry>)
    ensures |r| == |es|
    ensures forall i :: 0 <= i < |es| ==> r[i] == BlankedEntry(es[i])
    decreases es, 0
  {
    if es == [] then [] else [BlankedEntry(es[0])] + BlankedAll(es[1..])
  }

  /** A nested entry prints the same without comments as its blanked form prints with them. */
  lemma {:induction false} EntryLinesBlanked(e: Entry, indent: string)
    ensures EntryLines(e, indent, false) == EntryLines(BlankedEntry(e), indent, true)
    decreases e, 1
  {
    if !IsSkipped(e) && e.value.Block? {
      EntriesLinesBlanked(e.value.body, indent + "  ");
    }
  }

  lemma {:induction false} EntriesLinesBlanked(es: seq<Entry>, indent: string)
    ensures EntriesLines(es, indent, false) == EntriesLines(BlankedAll(es), indent, true)
    decreases es, 0
  {
    if es != [] {
      EntryLinesBlanked(es[0], indent);
      EntriesLinesBlanked(es[1..], indent);
      assert BlankedAll(es)[1..] == BlankedAll(es[1..]);
    }
  }

  /** No top-level value is a list (the one place where the two writers' layouts differ). */
  predicate NoTopLevelList(m: DataMap) {
    forall i :: 0 <= i < |m| ==> !m[i].value.StrList?
  }

  /**
   * For a map without top-level lists, SKIP_COMMENTS writes exactly what
   * PRESERVE_COMMENTS writes once every comment and blank line is made a blank line:
   * comments are dropped but their lines stay, empty.
   */
  lemma {:induction false} SkipCommentsIsBlanked(m: DataMap)
    requires NoTopLevelList(m)
    ensures DocLines(m, false) == DocLines(BlankedAll(m), true)
    ensures DocText(m, false) == DocText(BlankedAll(m), true)
  {
    if m != [] {
      var e := m[0];
      if !IsSkipped(e) && e.value.Block? {
        EntriesLinesBlanked(e.value.body, "");
      }
      assert TopLines(e, false) == TopLines(BlankedEntry(e), true);
      SkipCommentsIsBlanked(m[1..]);
      assert BlankedAll(m)[1..] == BlankedAll(m[1..]);
    }
  }

  /** No entry, at any depth, is a comment or blank line. */
  predicate NothingSkipped(es: seq<Entry>)
    decreases es, 1
  {
    forall i :: 0 <= i < |es| ==> EntryNotSkipped(es[i])
  }

  predicate EntryNotSkipped(e: Entry)
    decreases e, 0
  {
    !IsSkipped(e) && (e.value.Block? ==> NothingSkipped(e.value.body))
  }

  lemma {:induction false} BlankedUnchanged(es: seq<Entry>)
    requires NothingSkipped(es)
    ensures BlankedAll(es) == es
    decreases es
  {
    forall i | 0 <= i < |es|
      ensures BlankedEntry(es[i]) == es[i]
    {
      if es[i].value.Block? {
        BlankedUnchanged(es[i].value.body);
      }
    }
  }

  /** With no comment entry at all, every comment entry is trivially tagged. */
  lemma {:induction false} NothingSkippedTagged(es: seq<Entry>)
    requires NothingSkipped(es)
    ensures CommentKeysTagged(es)
    decreases es
  {
    forall i | 0 <= i < |es|
      ensures EntryTagged(es[i])
    {
      if es[i].value.Block? {
        NothingSkippedTagged(es[i].value.body);
      }
    }
  }

  /** With nothing to skip and no top-level list, the two settings write the same text. */
  lemma SettingsAgreeWithoutComments(m: DataMap)
    requires NoTopLevelList(m) && NothingSkipped(m)
    ensures WriteDataSpec(m, PRESERVE_COMMENTS) == WriteDataSpec(m, SKIP_COMMENTS)
  {
    SkipCommentsIsBlanked(m);
    BlankedUnchanged(m);
    NothingSkippedTagged(m);
  }
}
