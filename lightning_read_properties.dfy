/**
 * Properties of what `readData` builds, for every input: the map it returns has
 * each key once at every depth, and each comment entry in it carries the "{=}"
 * tag the writer cuts at, so writing a map that was read never throws. Then the
 * behaviour of a repeated comment line inside a block, and the error each
 * malformed shape of file ends in.
 */
module LightningReadProperties {
  import opened JavaText
  import opened LightningDocument
  import opened LightningParser
  import opened LightningReader
  import opened LightningWriter
  import opened LightningRoundTrip

  /** Writing the same value twice under one key is writing it once; a later value replaces an earlier. */
  lemma {:induction false} PutOverwrites(m: DataMap, key: string, v: Value, w: Value)
    ensures Put(Put(m, key, v), key, w) == Put(m, key, w)
  {
    if m != [] && m[0].key != key {
      PutOverwrites(m[1..], key, v, w);
      assert Put(m, key, v)[1..] == Put(m[1..], key, v);
    }
  }

  /**
   * A map as the readers build it: keys distinct, each comment marker under a key
   * holding "{=}", and the same for every nested block.
   */
  predicate WellFormed(m: DataMap)
    decreases m
  {
    DistinctKeys(m) && forall i :: 0 <= i < |m| ==> WellFormedEntry(m[i])
  }

  predicate WellFormedEntry(e: Entry)
    decreases e
  {
    && (e.value == Marker(COMMENT) ==> LastIndexOf(e.key, "{=}") >= 0)
    && (e.value.Block? ==> WellFormed(e.value.body))
  }

  /** `put` of a well-formed entry keeps a map well-formed. */
  lemma PutWellFormed(m: DataMap, key: string, v: Value)
    requires WellFormed(m) && WellFormedEntry(Entry(key, v))
    ensures WellFormed(Put(m, key, v))
  {
    PutSpec(m, key, v);
    PutKeepsKeysDistinct(m, key, v);
    var r := Put(m, key, v);
    forall i | 0 <= i < |r|
      ensures WellFormedEntry(r[i])
    {
      if i < |m| && r[i] != Entry(key, v) {
        assert r[i] == m[i];
      }
    }
  }

  /** The loop of `readData` and `read` keeps the map it builds well-formed. */
  lemma {:induction false} ScanWellFormed(rest: seq<string>, nested: bool, blank: int, comment: int,
                                          key: Option<string>, m: DataMap)
    requires WellFormed(m)
    ensures Scan(rest, nested, blank, comment, key, m).Ok? ==> WellFormed(Scan(rest, nested, blank, comment, key, m).value.0)
    decreases |rest|, 1
  {
    if rest != [] {
      var line := Trim(rest[0]);
      var tail := rest[1..];
      match Classify(line, nested)
      case CloseBlock =>
      case StrayClose =>
      case Blank =>
        PutWellFormed(m, BlankKey(blank + 1), Marker(BLANK_LINE));
        ScanWellFormed(tail, nested, blank + 1, comment, key, Put(m, BlankKey(blank + 1), Marker(BLANK_LINE)));
      case Comment =>
        var c := if nested then comment else comment + 1;
        CommentKeyText(line, c);
        PutWellFormed(m, CommentKey(line, c), Marker(COMMENT));
        ScanWellFormed(tail, nested, blank, c, key, Put(m, CommentKey(line, c), Marker(COMMENT)));
      case OpenBlock(named) =>
        var k := if named.Some? then named else key;
        if k.Some? {
          ScanWellFormed(tail, true, blank, comment, None, []);
          ContinueWellFormed(BlockValue(Scan(tail, true, blank, comment, None, [])), nested, blank, comment, k, m, k.value);
        }
      case Assignment(k, v) =>
        ContinueWellFormed(AssignedValue(tail, v), nested, blank, comment, key, m, k);
      case BareKey =>
        if |tail| >= 2 && Contains(tail[1], "{") {
          ScanWellFormed(tail, nested, blank, comment, Some(line), m);
        }
    }
  }

  lemma {:induction false} ContinueWellFormed(read: Result<(Value, seq<string>)>, nested: bool, blank: int, comment: int,
                                              key: Option<string>, m: DataMap, k: string)
    requires WellFormed(m)
    requires read.Ok? ==> WellFormedEntry(Entry(k, read.value.0))
    ensures Continue(read, nested, blank, comment, key, m, k).Ok? ==> WellFormed(Continue(read, nested, blank, comment, key, m, k).value.0)
    decreases if read.Ok? then |read.value.1| else 0, 2
  {
    if read.Ok? {
      PutWellFormed(m, k, read.value.0);
      ScanWellFormed(read.value.1, nested, blank, comment, key, Put(m, k, read.value.0));
    }
  }

  /** Every map `readData` returns has distinct keys at every depth and tagged comment keys. */
  lemma ReadDataWellFormed(lines: seq<string>)
    ensures ReadDataSpec(lines).Ok? ==> WellFormed(ReadDataSpec(lines).value)
  {
    ScanWellFormed(lines, false, -1, -1, None, []);
  }

  lemma {:induction false} WellFormedTagged(m: DataMap)
    requires WellFormed(m)
    ensures CommentKeysTagged(m)
    decreases m
  {
    forall i | 0 <= i < |m|
      ensures EntryTagged(m[i])
    {
      if m[i].value.Block? {
        WellFormedTagged(m[i].value.body);
      }
    }
  }

  /**
   * What `readData` returns, `writeData` can write with comments kept: no comment
   * key lacks the "{=}" the writer cuts it at.
   */
  lemma ReadThenWrite(lines: seq<string>)
    ensures ReadDataSpec(lines).Ok? ==> DistinctKeys(ReadDataSpec(lines).value)
    ensures ReadDataSpec(lines).Ok? ==> WriteDataSpec(ReadDataSpec(lines).value, PRESERVE_COMMENTS).Written?
  {
    ReadDataWellFormed(lines);
    if ReadDataSpec(lines).Ok? {
      WellFormedTagged(ReadDataSpec(lines).value);
    }
  }

  /**
   * Inside a block the comment counter does not move, so a comment line repeated
   * right after itself gets the same key, and the second `put` changes nothing:
   * the block keeps the comment once.
   */
  lemma NestedCommentRepeated(line: string, tail: seq<string>, blank: int, comment: int,
                              key: Option<string>, m: DataMap)
    requires Classify(Trim(line), true) == Comment
    ensures Scan([line, line] + tail, true, blank, comment, key, m)
         == Scan([line] + tail, true, blank, comment, key, m)
  {
    var k := CommentKey(Trim(line), comment);
    var once := Put(m, k, Marker(COMMENT));
    assert ([line, line] + tail)[1..] == [line] + tail;
    assert ([line] + tail)[1..] == tail;
    calc {
      Scan([line, line] + tail, true, blank, comment, key, m);
      Scan([line] + tail, true, blank, comment, key, once);
      Scan(tail, true, blank, comment, key, Put(once, k, Marker(COMMENT)));
      { PutOverwrites(m, k, Marker(COMMENT), Marker(COMMENT)); }
      Scan(tail, true, blank, comment, key, once);
      Scan([line] + tail, true, blank, comment, key, m);
    }
  }

  /**
   * At the top level the counter moves, so the same comment line twice is kept
   * twice, under two different keys.
   */
  lemma TopCommentRepeated(t: string)
    requires SafeComment(t)
    ensures CommentKey(t, 0) != CommentKey(t, 1)
    ensures ReadDataSpec([t, t]) == Ok([Entry(CommentKey(t, 0), Marker(COMMENT)), Entry(CommentKey(t, 1), Marker(COMMENT))])
  {
    var first := Entry(CommentKey(t, 0), Marker(COMMENT));
    var second := Entry(CommentKey(t, 1), Marker(COMMENT));
    CommentKeysDiffer(t);
    TrimTrimmed(t);
    ClassifyComment(t, false);
    assert [t, t] == [t] + [t] && [t] == [t] + [];
    StepComment(t, [], false, -1, 0, None, [first]);
    PutFresh([first], second);
    assert Put([first], CommentKey(Trim(t), 1), Marker(COMMENT)) == [first, second];
    assert Scan([], false, -1, 1, None, [first, second]) == Ok(([first, second], []));
    assert Scan([t], false, -1, 0, None, [first]) == Ok(([first, second], []));
    StepComment(t, [t], false, -1, -1, None, []);
    PutFresh([], first);
    assert Scan([t, t], false, -1, -1, None, []) == Ok(([first, second], []));
  }

  /** The keys of the first and second top-level comment differ in their last character. */
  lemma CommentKeysDiffer(t: string)
    ensures CommentKey(t, 0) != CommentKey(t, 1)
  {
    assert IntToString(0) == "0" && IntToString(1) == "1";
    assert CommentKey(t, 0)[|t| + 3] == '0';
  }

  /** Inside a block the same comment line twice is kept once, under the counter's value on entry. */
  lemma NestedCommentKeptOnce(b: string, t: string)
    requires SafeKey(b) && SafeComment(t)
    ensures ReadDataSpec([b + " {", t, t, "}"])
         == Ok([Entry(b, Block([Entry(CommentKey(t, -1), Marker(COMMENT))]))])
  {
    var open, body := b + " {", [t, t, "}"];
    var e := Entry(CommentKey(t, -1), Marker(COMMENT));
    ClassifyOpen(b, false);
    TrimTrimmed(open);
    TrimTrimmed(t);
    ClassifyComment(t, true);
    assert [open, t, t, "}"] == [open] + body;
    StepOpen(open, body, false, -1, -1, None, [], Some(b));
    assert body == [t, t] + ["}"];
    NestedCommentRepeated(t, ["}"], -1, -1, None, []);
    StepComment(t, ["}"], true, -1, -1, None, []);
    PutFresh([], e);
    ScanCloseStep("}", [], -1, -1, None, [e]);
    assert ["}"] == ["}"] + [];
    PutFresh([], Entry(b, Block([e])));
  }

  /** At the top level, a first line holding "}" anywhere, once trimmed, fails the file. */
  lemma StrayCloseFails(line: string, rest: seq<string>)
    requires '}' in Trim(line)
    ensures ReadDataSpec([line] + rest) == Err(BlockClosedWithoutBeingOpened)
  {
    StepStray(line, rest, false, -1, -1, None, []);
  }

  /** Inside a block, a line holding "}" other than exactly "}" fails too, whatever was read before. */
  lemma NestedStrayCloseFails(line: string, rest: seq<string>, blank: int, comment: int,
                              key: Option<string>, m: DataMap)
    requires '}' in Trim(line) && Trim(line) != "}"
    ensures Scan([line] + rest, true, blank, comment, key, m) == Err(BlockClosedWithoutBeingOpened)
  {
    StepStray(line, rest, true, blank, comment, key, m);
  }

  /** A block still open when the file ends after one assignment in it. */
  lemma UnclosedBlockFails(b: string, k: string, v: string)
    requires SafeKey(b) && SafeKey(k) && SafeText(v)
    ensures ReadDataSpec([b + " {", k + " = " + v]) == Err(BlockDoesNotClose)
  {
    var open, line := b + " {", k + " = " + v;
    ClassifyOpen(b, false);
    TrimTrimmed(open);
    SafeTextAvoids(v);
    ClassifyAssignment(k, v, true);
    TrimTrimmed(line);
    StepAssignment(line, [], true, -1, -1, None, [], k, v);
    ScalarValue(v, []);
    assert [line] == [line] + [];
    PutFresh([], Entry(k, Scalar(v)));
    assert [open, line] == [open] + [line];
    StepOpen(open, [line], false, -1, -1, None, [], Some(b));
  }

  /** `readList` over lines none of which ends in "]" runs off the end of the file or stops at a stray line. */
  lemma {:induction false} ListNeverClosed(rest: seq<string>, acc: seq<string>)
    requires forall i :: 0 <= i < |rest| ==> !EndsWith(Trim(rest[i]), "]")
    ensures ReadListSpec(rest, acc) == Err(ListNotClosedProperly)
    decreases |rest|
  {
    if rest != [] {
      var line := Trim(rest[0]);
      if StartsWith(line, "- ") {
        forall i | 0 <= i < |rest[1..]|
          ensures !EndsWith(Trim(rest[1..][i]), "]")
        {
          assert rest[1..][i] == rest[i + 1];
        }
        ListNeverClosed(rest[1..], acc + [Trim(line[1..])]);
      }
    }
  }

  /** A list opened by "k = [" whose following lines never close it fails the whole file. */
  lemma UnclosedListFails(k: string, rest: seq<string>)
    requires SafeKey(k)
    requires forall i :: 0 <= i < |rest| ==> !EndsWith(Trim(rest[i]), "]")
    ensures ReadDataSpec([k + " = ["] + rest) == Err(ListNotClosedProperly)
  {
    var line := k + " = [";
    assert k + " = " + "[" == line;
    ClassifyAssignment(k, "[", false);
    TrimTrimmed(line);
    StepAssignment(line, rest, false, -1, -1, None, [], k, "[");
    ListOpener(rest);
    ListNeverClosed(rest, []);
  }

  /** A string lacking one of the characters of `sub` does not contain `sub`. */
  lemma NotContained(s: string, sub: string, j: int)
    requires 0 <= j < |sub| && sub[j] !in s
    ensures !Contains(s, sub)
  {
    forall i | 0 <= i
      ensures !OccursAt(s, sub, i)
    {
      if i + |sub| <= |s| {
        assert s[i..i + |sub|][j] == s[i + j];
        assert s[i + j] in s;
      }
    }
    IndexOfSpec(s, sub);
  }

  /** A safe key alone on its line is a bare key: the line before a block's "{". */
  lemma BareKeyLine(k: string, nested: bool)
    requires SafeKey(k)
    ensures Trim(k) == k
    ensures Classify(k, nested) == BareKey
  {
    SafeTextAvoids(k);
    TrimTrimmed(k);
    assert !StartsWith(k, "#") by {
      assert k[..1][0] == k[0];
    }
    assert !EndsWith(k, "{") by {
      assert k[|k| - 1] in k;
    }
    NotContained(k, " = ", 1);
  }

  /** A bare key with fewer than two lines after it: `lines.get(1)` is out of bounds. */
  lemma BareKeyAtEndFails(k: string, rest: seq<string>)
    requires SafeKey(k) && |rest| < 2
    ensures ReadDataSpec([k] + rest) == Err(LineIndexOutOfBounds(|rest|))
  {
    BareKeyLine(k, false);
    StepBareKey(k, rest, false, -1, -1, None, []);
  }

  /** A bare key whose line after next holds no "{". */
  lemma BareKeyWithoutBlockFails(k: string, l1: string, l2: string, rest: seq<string>)
    requires SafeKey(k) && '{' !in l2
    ensures ReadDataSpec([k, l1, l2] + rest) == Err(KeyDoesNotContainValueOrBlock)
  {
    BareKeyLine(k, false);
    NotContained(l2, "{", 0);
    var tail := [l1, l2] + rest;
    assert [k, l1, l2] + rest == [k] + tail && tail[1] == l2;
    StepBareKey(k, tail, false, -1, -1, None, []);
  }

  /** A "{" alone, at any indentation, with no bare key pending. */
  lemma AnonymousBlockFails(w: string, rest: seq<string>)
    requires IsIndent(w)
    ensures ReadDataSpec([w + "{"] + rest) == Err(KeyMustNotBeNull)
  {
    IndentedTrim(w, "{");
    assert Classify("{", false) == OpenBlock(None);
    StepOpen(w + "{", rest, false, -1, -1, None, [], None);
  }

  /** Of "k = v = w", `split(" = ")` keeps "k" and "v": the line assigns `v` to `k`, and `w` is dropped. */
  lemma LaterPiecesDropped(k: string, v: string, w: string, nested: bool)
    requires SafeKey(k) && SafeText(v) && SafeText(w)
    ensures IsTrimmed(k + " = " + v + " = " + w) && Contains(k + " = " + v + " = " + w, " = ")
    ensures AssignmentParts(k + " = " + v + " = " + w) == (k, v)
    ensures Classify(k + " = " + v + " = " + w, nested) == Assignment(k, v)
  {
    var line := k + " = " + v + " = " + w;
    SafeTextAvoids(k);
    SafeTextAvoids(v);
    SafeTextAvoids(w);
    ThreePieces(k, v, w);
    assert k + " = " + (v + " = " + w) == line;
    ThreePiecesBranch(k, v, w);
    SplitTrimmed(line, " = ");
    TrimTrimmed(k);
    TrimTrimmed(v);
    assert AssignmentParts(line) == (k, v);
  }

  /** "k = v = w", none of whose pieces holds '=', splits into those three pieces. */
  lemma ThreePieces(k: string, v: string, w: string)
    requires '=' !in k && '=' !in v && '=' !in w
    ensures IndexOf(k + " = " + (v + " = " + w), " = ") == |k|
    ensures SplitAll(k + " = " + (v + " = " + w), " = ") == [k, v, w]
  {
    SplitAssignmentHead(k, v + " = " + w);
    SplitAssignmentHead(v, w);
    NoAssignSeparator(w);
    assert SplitAll(w, " = ") == [w];
  }

  /** "k = v = w" is trimmed and takes none of the branches before the assignment's. */
  lemma ThreePiecesBranch(k: string, v: string, w: string)
    requires SafeKey(k) && SafeText(v) && SafeText(w)
    ensures var line := k + " = " + v + " = " + w;
      IsTrimmed(line) && '}' !in line && line != "" && !StartsWith(line, "#") && !EndsWith(line, "{")
  {
    var line := k + " = " + v + " = " + w;
    SafeTextAvoids(k);
    SafeTextAvoids(v);
    SafeTextAvoids(w);
    assert line[0] == k[0] && line[..1][0] == k[0];
    assert line[|line| - 1] == w[|w| - 1] && w[|w| - 1] in w;
  }

  /** "{" alone, however indented, opens a block with no key of its own. */
  lemma LoneOpener(nested: bool)
    ensures Trim("{") == "{" && Classify("{", nested) == OpenBlock(None)
  {
    TrimTrimmed("{");
    assert '}' !in "{";
  }

  /**
   * The pending key is never reset: after "b {" and its closing "}", a lone "{"
   * opens a block under `b` again, and `put` replaces the first block in place.
   */
  lemma PendingKeyReused(b: string, k: string, v: string)
    requires SafeKey(b) && SafeKey(k) && SafeText(v)
    ensures ReadDataSpec([b + " {", "}", "{", k + " = " + v, "}"])
         == Ok([Entry(b, Block([Entry(k, Scalar(v))]))])
  {
    var open, line := b + " {", k + " = " + v;
    var inner := Entry(k, Scalar(v));
    var first := [Entry(b, Block([]))];
    // the first block: "b {" then "}" at once
    ClassifyOpen(b, false);
    TrimTrimmed(open);
    var rest1 := ["{", line, "}"];
    assert [open, "}", "{", line, "}"] == [open] + (["}"] + rest1);
    ScanCloseStep("}", rest1, -1, -1, None, []);
    StepOpen(open, ["}"] + rest1, false, -1, -1, None, [], Some(b));
    PutFresh([], Entry(b, Block([])));
    // the second block: "{" under the pending key `b`
    SafeTextAvoids(v);
    ClassifyAssignment(k, v, true);
    TrimTrimmed(line);
    StepAssignment(line, ["}"], true, -1, -1, None, [], k, v);
    ScalarValue(v, ["}"]);
    PutFresh([], inner);
    ScanCloseStep("}", [], -1, -1, None, [inner]);
    assert ["}"] == ["}"] + [];
    assert Scan([line, "}"], true, -1, -1, None, []) == Ok(([inner], []));
    LoneOpener(false);
    assert rest1 == ["{"] + [line, "}"];
    StepOpen("{", [line, "}"], false, -1, -1, Some(b), first, None);
    assert Put(first, b, Block([inner])) == [Entry(b, Block([inner]))];
  }
}
