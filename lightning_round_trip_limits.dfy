/**
 * Maps outside the domain of `RoundTrip` that the writer and reader do not carry
 * through unchanged: each lemma writes a map with comments kept, reads the text
 * back, and states what comes out instead.
 */
module LightningRoundTripLimits {
  import opened JavaText
  import opened LightningDocument
  import opened LightningParser
  import opened LightningReader
  import opened LightningWriter
  import opened LightningRoundTrip

  /** A line without line breaks and not empty is one line of the file. */
  lemma OneLineFile(line: string)
    requires line != [] && NoLineBreak(line)
    ensures ReadAllLines(Join([line], "\n")) == [line]
  {
    ReadAllLinesJoin([line]);
  }

  /** A file of one top-level entry. */
  lemma SingleEntryDoc(e: Entry, keep: bool)
    ensures DocLines([e], keep) == TopLines(e, keep)
  {
    assert [e][1..] == [];
  }

  /** A key starting with neither '#' nor '{' is neither a comment key nor a blank-line key. */
  lemma PlainKey(k: string)
    requires k != [] && k[0] != '#' && k[0] != '{'
    ensures !StartsWith(k, "#") && !StartsWith(k, "{=}emptyline")
  {
    assert k[..1][0] == k[0];
    if |k| >= 12 {
      assert k[..12][0] == k[0];
    }
  }

  /** A top-level scalar or list under a key that is neither a comment nor a blank-line key: "key = value". */
  lemma PlainTopLine(e: Entry)
    requires !StartsWith(e.key, "#") && !StartsWith(e.key, "{=}emptyline")
    requires e.value.Scalar? || e.value.StrList?
    ensures DocLines([e], true) == [e.key + " = " + ValueString(e.value)]
  {
    SingleEntryDoc(e, true);
  }

  /**
   * A map of one entry written as the one assignment line "k = v", whose value
   * the reader takes as `val`, is read back as the single entry `k` to `val`.
   */
  lemma OneAssignmentDoc(e: Entry, line: string, k: string, v: string, val: Value)
    requires DocLines([e], true) == [line]
    requires line != [] && LineClean(line)
    requires Classify(Trim(line), false) == Assignment(k, v)
    requires AssignedValue([], v) == Ok((val, []))
    ensures DocText([e], true) == line
    ensures ReadDataSpec(ReadAllLines(DocText([e], true))) == Ok([Entry(k, val)])
  {
    NoBreakOfClean(line);
    OneLineFile(line);
    assert [line] == [line] + [];
    StepAssignment(line, [], false, -1, -1, None, [], k, v);
    PutFresh([], Entry(k, val));
  }

  /**
   * An empty list at the top level is written "k = []", and `split(", ")` of the
   * empty text between the brackets gives one empty piece: it comes back holding
   * one empty item.
   */
  lemma EmptyListReadsAsOneEmptyItem(k: string)
    requires SafeKey(k)
    ensures DocText([Entry(k, StrList([]))], true) == k + " = " + "[]"
    ensures ReadDataSpec(ReadAllLines(DocText([Entry(k, StrList([]))], true))) == Ok([Entry(k, StrList([""]))])
  {
    var e := Entry(k, StrList([]));
    var t := Join([], ", ");
    var v := "[" + t + "]";
    assert SafeChar(k[0]);
    PlainKey(k);
    PlainTopLine(e);
    BracketedLine(k, t);
    assert InlineItems(v) == [""] by {
      NoItemSeparator(t);
    }
    OneAssignmentDoc(e, k + " = " + v, k, v, StrList([""]));
    EmptyBrackets();
  }

  /** `AbstractCollection.toString` of an empty list. */
  lemma EmptyBrackets()
    ensures "[" + Join([], ", ") + "]" == "[]"
  {
  }

  /** The line "k = [t]": one clean line, read as an assignment of "[t]". */
  lemma BracketedLine(k: string, t: string)
    requires SafeKey(k) && '{' !in t && '}' !in t && '=' !in t && LineClean(t)
    ensures var line := k + " = " + ("[" + t + "]");
      && line != [] && LineClean(line)
      && Classify(Trim(line), false) == Assignment(k, "[" + t + "]")
  {
    var v := "[" + t + "]";
    Bracketed(t);
    SafeTextAvoids(k);
    ClassifyAssignment(k, v, false);
    TrimTrimmed(k + " = " + v);
  }

  /**
   * A list holding one empty item, inside a block, is written with the item line
   * "    - ", which trims to "-": not an item line and not a closing one, so the
   * whole file fails to read.
   */
  lemma EmptyItemInBlockUnreadable(b: string, a: string)
    requires SafeKey(b) && SafeKey(a)
    ensures DocLines([Entry(b, Block([Entry(a, StrList([""]))]))], true)
         == [b + " {", "  " + a + " = [", "    - ", "  ]", "}"]
    ensures ReadDataSpec([b + " {", "  " + a + " = [", "    - ", "  ]", "}"]) == Err(ListNotClosedProperly)
  {
    EmptyItemLines(b, a);
    var open, line := b + " {", "  " + a + " = [";
    var items := ["    - ", "  ]", "}"];
    assert "  " + a + " = " + "[" == line;
    AssignmentLine("  ", a, "[", true);
    assert "  " + "  - " == "    - ";
    Front(["    - ", "  ]", "}"]);
    EmptyItemLine("  ", ["  ]", "}"]);
    UnreadableList(line, items, a, -1, -1);
    ClassifyOpen(b, false);
    TrimTrimmed(open);
    Front([open, line, "    - ", "  ]", "}"]);
    Front([line, "    - ", "  ]", "}"]);
    StepOpen(open, [line] + items, false, -1, -1, None, [], Some(b));
  }

  /** A non-empty sequence is its first element followed by the rest. */
  lemma Front<T>(s: seq<T>)
    requires s != []
    ensures s == [s[0]] + s[1..]
  {
  }

  lemma EmptyItemLines(b: string, a: string)
    requires SafeKey(b) && SafeKey(a)
    ensures DocLines([Entry(b, Block([Entry(a, StrList([""]))]))], true)
         == [b + " {", "  " + a + " = [", "    - ", "  ]", "}"]
  {
    var inner := Entry(a, StrList([""]));
    var outer := Entry(b, Block([inner]));
    SafeTextAvoids(a);
    SafeTextAvoids(b);
    PlainKey(a);
    PlainKey(b);
    assert ItemLines([""], "  ") == ["    - ", "  ]"] by {
      assert [""][1..] == [];
      assert "  " + "  - " + "" == "    - " && "  " + "]" == "  ]";
    }
    assert "" + "  " == "  ";
    assert EntryLines(inner, "", true) == ["  " + a + " = ["] + ItemLines([""], "  ");
    assert [inner][1..] == [];
    assert EntriesLines([inner], "", true) == EntryLines(inner, "", true);
    assert "" + "}" == "}";
    assert TopLines(outer, true) == [b + " {"] + BodyLines([inner], "", true);
    SingleEntryDoc(outer, true);
  }

  /** A list opener whose item lines the list reader rejects fails the block it is in. */
  lemma UnreadableList(line: string, tail: seq<string>, k: string, blank: int, comment: int)
    requires Classify(Trim(line), true) == Assignment(k, "[")
    requires ReadListSpec(tail, []).Err?
    ensures Scan([line] + tail, true, blank, comment, None, []) == Err(ListNotClosedProperly)
  {
    StepAssignment(line, tail, true, blank, comment, None, [], k, "[");
    ListOpener(tail);
  }

  /** The item line of an empty item trims to "-", which `readList` rejects. */
  lemma EmptyItemLine(w: string, tail: seq<string>)
    requires IsIndent(w)
    ensures ReadListSpec([w + "  - "] + tail, []) == Err(ListNotClosedProperly)
  {
    assert AllWhite(w + "  ");
    TrimAround(w + "  ", "-", " ");
    assert w + "  " + "-" + " " == w + "  - ";
    ReadListStep(w + "  - ", tail, []);
    assert !EndsWith("-", "]") && !StartsWith("-", "- ");
  }

  /**
   * A blank line as the last entry is written as a final line break, and
   * `readAllLines` does not start a line after a final terminator: any map that
   * otherwise reads back comes back without its trailing blank entry.
   */
  lemma TrailingBlankLineLost(m: DataMap, n: int)
    requires Canonical(m) && m != []
    ensures DocText(m + [Entry(BlankKey(n), Marker(BLANK_LINE))], true) == DocText(m, true) + "\n"
    ensures ReadDataSpec(ReadAllLines(DocText(m + [Entry(BlankKey(n), Marker(BLANK_LINE))], true))) == Ok(m)
  {
    var b := Entry(BlankKey(n), Marker(BLANK_LINE));
    var ls := DocLines(m, true);
    BlankEntryLine(n);
    DocLinesAppend(m, [b], true);
    SingleEntryDoc(b, true);
    DocClean(m, -1, -1);
    JoinAppend(ls, [""]);
    forall i | 0 <= i < |ls|
      ensures NoLineBreak(ls[i])
    {
      NoBreakOfClean(ls[i]);
    }
    ReadAllLinesTerminated(ls);
    DocReadsBack(m);
  }

  /** A blank-line entry is written as an empty line. */
  lemma BlankEntryLine(n: int)
    ensures TopLines(Entry(BlankKey(n), Marker(BLANK_LINE)), true) == [""]
  {
    var key := BlankKey(n);
    assert key[..12] == "{=}emptyline";
    assert key[..1][0] == '{';
  }

  /** A key with white space at its end is written as is, but read back trimmed. */
  lemma UntrimmedKeyTrimmed(k: string, v: string)
    requires SafeKey(k) && SafeText(v)
    ensures DocText([Entry(k + " ", Scalar(v))], true) == k + " " + " = " + v
    ensures ReadDataSpec(ReadAllLines(DocText([Entry(k + " ", Scalar(v))], true))) == Ok([Entry(k, Scalar(v))])
  {
    var e := Entry(k + " ", Scalar(v));
    var line := k + " " + " = " + v;
    assert SafeChar(k[0]) && (k + " ")[0] == k[0];
    PlainKey(k + " ");
    PlainTopLine(e);
    UntrimmedKeyLine(k, v);
    ScalarValue(v, []);
    OneAssignmentDoc(e, line, k, v, Scalar(v));
  }

  lemma UntrimmedKeyLine(k: string, v: string)
    requires SafeKey(k) && SafeText(v)
    ensures k + " " + " = " + v != [] && LineClean(k + " " + " = " + v)
    ensures Classify(Trim(k + " " + " = " + v), false) == Assignment(k, v)
  {
    var line := k + " " + " = " + v;
    UntrimmedKeyShape(k, v);
    TrimTrimmed(line);
    UntrimmedKeyParts(k, v);
  }

  lemma UntrimmedKeyShape(k: string, v: string)
    requires SafeKey(k) && SafeText(v)
    ensures var line := k + " " + " = " + v;
      && line != [] && LineClean(line) && '}' !in line
      && !StartsWith(line, "#") && !EndsWith(line, "{")
  {
    var line := k + " " + " = " + v;
    SafeTextAvoids(k);
    SafeTextAvoids(v);
    assert line[..1][0] == k[0];
    assert line[|line| - 1] == v[|v| - 1];
    assert line[|line| - 1] in v;
  }

  lemma UntrimmedKeyParts(k: string, v: string)
    requires SafeKey(k) && SafeText(v)
    ensures IsTrimmed(k + " " + " = " + v) && Contains(k + " " + " = " + v, " = ")
    ensures AssignmentParts(k + " " + " = " + v) == (k, v)
  {
    var line := k + " " + " = " + v;
    SafeTextAvoids(k);
    SafeTextAvoids(v);
    assert line[0] == k[0] && line[|line| - 1] == v[|v| - 1];
    SplitAssignment(k + " ", v);
    assert OccursAt(line, " = ", |k| + 1) by {
      assert line[|k| + 1..|k| + 4] == " = ";
    }
    IndexOfSpec(line, " = ");
    TrailingSpaceTrim(k);
    TrimTrimmed(v);
  }

  /** A scalar written in brackets is read back as an inline list. */
  lemma BracketedScalarReadsAsList(k: string, x: string)
    requires SafeKey(k) && SafeText(x)
    ensures DocText([Entry(k, Scalar("[" + x + "]"))], true) == k + " = " + ("[" + x + "]")
    ensures ReadDataSpec(ReadAllLines(DocText([Entry(k, Scalar("[" + x + "]"))], true))) == Ok([Entry(k, StrList([x]))])
  {
    var v := "[" + x + "]";
    var e := Entry(k, Scalar(v));
    var line := k + " = " + v;
    assert SafeChar(k[0]);
    PlainKey(k);
    PlainTopLine(e);
    SafeTextAvoids(x);
    BracketedLine(k, x);
    Bracketed(x);
    NoItemSeparator(x);
    assert InlineItems(v) == [x];
    OneAssignmentDoc(e, line, k, v, StrList([x]));
  }
}
