/**
 * LightningEditor's readers as the Java code runs them: `readData` for the top
 * level, `read` for a nested block and `readList` for a multi-line list, all
 * taking lines from the front of one shared list, so a nested call resumes
 * exactly where its caller stopped and leaves the rest for the caller. Each
 * method is proved to compute what `Scan` or `ReadListSpec` says.
 */
module LightningReader {
  import opened JavaText
  import opened LightningDocument
  import opened LightningParser

  // One step of `Scan`: the first line `line`, by the branch it takes, then `tail`.

  lemma StepClose(line: string, tail: seq<string>, blank: int, comment: int, key: Option<string>, m: DataMap)
    requires Classify(Trim(line), true) == CloseBlock
    ensures Scan([line] + tail, true, blank, comment, key, m) == Ok((m, tail))
  {
    assert ([line] + tail)[0] == line && ([line] + tail)[1..] == tail;
  }

  lemma StepStray(line: string, tail: seq<string>, nested: bool, blank: int, comment: int, key: Option<string>, m: DataMap)
    requires Classify(Trim(line), nested) == StrayClose
    ensures Scan([line] + tail, nested, blank, comment, key, m) == Err(BlockClosedWithoutBeingOpened)
  {
    assert ([line] + tail)[0] == line && ([line] + tail)[1..] == tail;
  }

  lemma StepBlank(line: string, tail: seq<string>, nested: bool, blank: int, comment: int, key: Option<string>, m: DataMap)
    requires Classify(Trim(line), nested) == Blank
    ensures Scan([line] + tail, nested, blank, comment, key, m)
         == Scan(tail, nested, blank + 1, comment, key, Put(m, BlankKey(blank + 1), Marker(BLANK_LINE)))
  {
    assert ([line] + tail)[0] == line && ([line] + tail)[1..] == tail;
  }

  lemma StepComment(line: string, tail: seq<string>, nested: bool, blank: int, comment: int, key: Option<string>, m: DataMap)
    requires Classify(Trim(line), nested) == Comment
    ensures Scan([line] + tail, nested, blank, comment, key, m)
         == (var c := if nested then comment else comment + 1;
             Scan(tail, nested, blank, c, key, Put(m, CommentKey(Trim(line), c), Marker(COMMENT))))
  {
    assert ([line] + tail)[0] == line && ([line] + tail)[1..] == tail;
  }

  lemma StepOpen(line: string, tail: seq<string>, nested: bool, blank: int, comment: int, key: Option<string>, m: DataMap,
                 named: Option<string>)
    requires Classify(Trim(line), nested) == OpenBlock(named)
    ensures Scan([line] + tail, nested, blank, comment, key, m)
         == (var k := if named.Some? then named else key;
             if k.None? then Err(KeyMustNotBeNull)
             else Continue(BlockValue(Scan(tail, true, blank, comment, None, [])), nested, blank, comment, k, m, k.value))
  {
    assert ([line] + tail)[0] == line && ([line] + tail)[1..] == tail;
  }

  lemma StepAssignment(line: string, tail: seq<string>, nested: bool, blank: int, comment: int, key: Option<string>, m: DataMap,
                       k: string, v: string)
    requires Classify(Trim(line), nested) == Assignment(k, v)
    ensures Scan([line] + tail, nested, blank, comment, key, m)
         == Continue(AssignedValue(tail, v), nested, blank, comment, key, m, k)
  {
    assert ([line] + tail)[0] == line && ([line] + tail)[1..] == tail;
  }

  lemma StepBareKey(line: string, tail: seq<string>, nested: bool, blank: int, comment: int, key: Option<string>, m: DataMap)
    requires Classify(Trim(line), nested) == BareKey
    ensures Scan([line] + tail, nested, blank, comment, key, m)
         == if |tail| < 2 then Err(LineIndexOutOfBounds(|tail|))
            else if Contains(tail[1], "{") then Scan(tail, nested, blank, comment, Some(Trim(line)), m)
            else Err(KeyDoesNotContainValueOrBlock)
  {
    assert ([line] + tail)[0] == line && ([line] + tail)[1..] == tail;
  }

  /** The `List<String>` of lines the readers share and consume from the front. */
  class LineQueue {
    var lines: seq<string>

    constructor (lines: seq<string>)
      ensures this.lines == lines
    {
      this.lines := lines;
    }

    /** `lines.get(0)` followed by `lines.remove(0)`. */
    method TakeFirst() returns (line: string)
      requires lines != []
      modifies this
      ensures line == old(lines)[0] && lines == old(lines)[1..]
    {
      line := lines[0];
      lines := lines[1..];
    }
  }

  /** `readList`: consumes the list's lines from `q`, including the closing one. */
  method ReadList(q: LineQueue) returns (r: Result<seq<string>>)
    modifies q
    ensures match ReadListSpec(old(q.lines), [])
            case Ok((items, after)) => r == Ok(items) && q.lines == after
            case Err(e) => r == Err(e)
  {
    var localList: seq<string> := [];
    while |q.lines| > 0
      invariant ReadListSpec(old(q.lines), []) == ReadListSpec(q.lines, localList)
      decreases |q.lines|
    {
      var tempLine := q.TakeFirst();
      tempLine := Trim(tempLine);
      if EndsWith(tempLine, "]") {
        return Ok(localList);
      } else if StartsWith(tempLine, "- ") {
        localList := localList + [Trim(tempLine[1..])];
      } else {
        return Err(ListNotClosedProperly);
      }
    }
    return Err(ListNotClosedProperly);
  }

  /** The value branch both readers share, reading a multi-line list from `q` when one starts. */
  method ReadValue(q: LineQueue, v: string) returns (r: Result<Value>)
    modifies q
    ensures match AssignedValue(old(q.lines), v)
            case Ok((value, after)) => r == Ok(value) && q.lines == after
            case Err(e) => r == Err(e)
  {
    if StartsWith(v, "[") && EndsWith(v, "]") {
      r := Ok(StrList(InlineItems(v)));
    } else if StartsWith(v, "[") && !EndsWith(v, "]") {
      var list := ReadList(q);
      if list.Err? {
        return Err(list.error);
      }
      r := Ok(StrList(list.value));
    } else {
      r := Ok(Scalar(v));
    }
  }

  /** Where one pass of a reader's loop leaves it: reading on with new counters, key and map, or finished. */
  datatype Pass = Next(blank: int, comment: int, key: Option<string>, m: DataMap) | Finished(result: Result<DataMap>)

  /**
   * The if-chain `readData` (`nested` false) and `read` (`nested` true) run on
   * each line: takes the first line of `q` and acts on it.
   */
  method ReadLine(q: LineQueue, nested: bool, blank: int, comment: int, tempKey: Option<string>, tempMap: DataMap)
    returns (p: Pass)
    requires q.lines != []
    modifies q
    ensures p.Next? ==> |q.lines| < |old(q.lines)|
    ensures p.Next? ==>
              Scan(old(q.lines), nested, blank, comment, tempKey, tempMap)
              == Scan(q.lines, nested, p.blank, p.comment, p.key, p.m)
    ensures p.Finished? ==>
              match Scan(old(q.lines), nested, blank, comment, tempKey, tempMap)
              case Ok((m, after)) => p.result == Ok(m) && q.lines == after
              case Err(e) => p.result == Err(e)
    decreases |q.lines|, 0
  {
    ghost var line, tail := q.lines[0], q.lines[1..];
    assert q.lines == [line] + tail;
    var tempLine := q.TakeFirst();
    tempLine := Trim(tempLine);
    match Classify(tempLine, nested)
    case CloseBlock =>
      StepClose(line, tail, blank, comment, tempKey, tempMap);
      return Finished(Ok(tempMap));
    case StrayClose =>
      StepStray(line, tail, nested, blank, comment, tempKey, tempMap);
      return Finished(Err(BlockClosedWithoutBeingOpened));
    case Blank =>
      StepBlank(line, tail, nested, blank, comment, tempKey, tempMap);
      return Next(blank + 1, comment, tempKey, Put(tempMap, BlankKey(blank + 1), Marker(BLANK_LINE)));
    case Comment =>
      StepComment(line, tail, nested, blank, comment, tempKey, tempMap);
      var c := if nested then comment else comment + 1;
      return Next(blank, c, tempKey, Put(tempMap, CommentKey(tempLine, c), Marker(COMMENT)));
    case OpenBlock(named) =>
      StepOpen(line, tail, nested, blank, comment, tempKey, tempMap, named);
      var k := tempKey;
      if named.Some? {
        k := named;
      } else if k.None? {
        return Finished(Err(KeyMustNotBeNull));
      }
      var body := Read(q, blank, comment);
      if body.Err? {
        return Finished(Err(body.error));
      }
      return Next(blank, comment, k, Put(tempMap, k.value, Block(body.value)));
    case Assignment(k, v) =>
      StepAssignment(line, tail, nested, blank, comment, tempKey, tempMap, k, v);
      var value := ReadValue(q, v);
      if value.Err? {
        return Finished(Err(value.error));
      }
      return Next(blank, comment, tempKey, Put(tempMap, k, value.value));
    case BareKey =>
      StepBareKey(line, tail, nested, blank, comment, tempKey, tempMap);
      if |q.lines| < 2 {
        return Finished(Err(LineIndexOutOfBounds(|q.lines|)));
      }
      if Contains(q.lines[1], "{") {
        return Next(blank, comment, Some(tempLine), tempMap);
      }
      return Finished(Err(KeyDoesNotContainValueOrBlock));
  }

  /**
   * `read`: the body of a block whose opening line was just consumed, up to and
   * including its closing "}". The counters are the caller's, copied.
   */
  method Read(q: LineQueue, blankLine: int, commentLine: int) returns (r: Result<DataMap>)
    modifies q
    ensures match Scan(old(q.lines), true, blankLine, commentLine, None, [])
            case Ok((body, after)) => r == Ok(body) && q.lines == after
            case Err(e) => r == Err(e)
    decreases |q.lines|, 1
  {
    var tempMap: DataMap := [];
    var tempKey: Option<string> := None;
    var blank := blankLine;
    var comment := commentLine;
    while |q.lines| > 0
      invariant |q.lines| <= |old(q.lines)|
      invariant Scan(old(q.lines), true, blankLine, commentLine, None, [])
             == Scan(q.lines, true, blank, comment, tempKey, tempMap)
      decreases |q.lines|
    {
      var p := ReadLine(q, true, blank, comment, tempKey, tempMap);
      if p.Finished? {
        return p.result;
      }
      blank, comment, tempKey, tempMap := p.blank, p.comment, p.key, p.m;
    }
    return Err(BlockDoesNotClose);
  }

  /** `readData` on a file whose lines were read as `fileLines`. */
  method ReadData(fileLines: seq<string>) returns (r: Result<DataMap>)
    ensures match Scan(fileLines, false, -1, -1, None, [])
            case Ok((m, _)) => r == Ok(m)
            case Err(e) => r == Err(e)
  {
    var lines := new LineQueue(fileLines);
    var tempMap: DataMap := [];
    var tempKey: Option<string> := None;
    var blankLine := -1;
    var commentLine := -1;
    while |lines.lines| > 0
      invariant fresh(lines)
      invariant Scan(fileLines, false, -1, -1, None, [])
             == Scan(lines.lines, false, blankLine, commentLine, tempKey, tempMap)
      decreases |lines.lines|
    {
      var p := ReadLine(lines, false, blankLine, commentLine, tempKey, tempMap);
      if p.Finished? {
        return p.result;
      }
      blankLine, commentLine, tempKey, tempMap := p.blank, p.comment, p.key, p.m;
    }
    return Ok(tempMap);
  }
}
