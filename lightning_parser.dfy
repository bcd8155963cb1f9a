/**
 * What LightningEditor's readers compute: `readData` for the top level, `read`
 * for a nested block and `readList` for a multi-line list. All three take lines
 * from the front of one shared list, so a nested call resumes exactly where its
 * caller stopped and leaves the rest for the caller.
 *
 * `Scan` and `ReadListSpec` state this as functions of the lines still to be
 * read; the methods in `LightningReader` are proved to agree with them.
 */
module LightningParser {
  import opened JavaText
  import opened LightningDocument

  /** The `IllegalStateException`s (and the one index error) reading can end in. */
  datatype ReadError =
    | BlockClosedWithoutBeingOpened
    | KeyMustNotBeNull
    | KeyDoesNotContainValueOrBlock
    | BlockDoesNotClose
    | ListNotClosedProperly
    | LineIndexOutOfBounds(length: nat)  // `lines.get(1)` on a list of `length` lines

  /** The exception's message. */
  function Message(e: ReadError): string {
    match e
    case BlockClosedWithoutBeingOpened => "Block closed without being opened"
    case KeyMustNotBeNull => "Key must not be null"
    case KeyDoesNotContainValueOrBlock => "Key does not contain value or block"
    case BlockDoesNotClose => "Block does not close"
    case ListNotClosedProperly => "List not closed properly"
    // the `IndexOutOfBoundsException` message of `ArrayList.get` since JDK 11
    case LineIndexOutOfBounds(length) => "Index 1 out of bounds for length " + NatToString(length)
  }

  datatype Result<T> = Ok(value: T) | Err(error: ReadError)

  /**
   * The key and value of an assignment line: the first two pieces of
   * `split(" = ")`, each trimmed; any further pieces are dropped.
   */
  function AssignmentParts(line: string): (string, string)
    requires IsTrimmed(line) && Contains(line, " = ")
  {
    SplitTrimmed(line, " = ");
    var parts := Split(line, " = ");
    (Trim(parts[0]), Trim(parts[1]))
  }

  /** The items of a one-line list `[a, b, ...]`: the text between the brackets split on ", ". */
  function InlineItems(v: string): seq<string>
    requires StartsWith(v, "[") && EndsWith(v, "]")
  {
    assert v[0] == '[' && v[|v| - 1] == ']';
    Split(v[1..|v| - 1], ", ")
  }

  /**
   * `readList`: items are "- " lines (the item is the rest after the dash, trimmed)
   * up to and including the first line ending in "]", whose own text is dropped.
   * On success, the lines after that closing line are left.
   */
  function ReadListSpec(rest: seq<string>, items: seq<string>): (r: Result<(seq<string>, seq<string>)>)
    ensures r.Ok? ==> |r.value.1| < |rest|
    ensures r.Err? ==> r.error == ListNotClosedProperly
    decreases |rest|
  {
    if rest == [] then Err(ListNotClosedProperly)
    else
      var line := Trim(rest[0]);
      if EndsWith(line, "]") then Ok((items, rest[1..]))
      else if StartsWith(line, "- ") then ReadListSpec(rest[1..], items + [Trim(line[1..])])
      else Err(ListNotClosedProperly)
  }

  /**
   * The value of an assignment whose trimmed right-hand side is `v`, with `rest`
   * the lines after the assignment: "[...]" on one line is an inline list, "[" with
   * no closing bracket starts a multi-line list read from `rest`, anything else is
   * kept verbatim as a scalar. Also gives the lines left afterwards.
   */
  function AssignedValue(rest: seq<string>, v: string): (r: Result<(Value, seq<string>)>)
    ensures r.Ok? ==> |r.value.1| <= |rest|
  {
    if StartsWith(v, "[") && EndsWith(v, "]") then Ok((StrList(InlineItems(v)), rest))
    else if StartsWith(v, "[") then
      var list := ReadListSpec(rest, []);
      if list.Err? then Err(list.error) else Ok((StrList(list.value.0), list.value.1))
    else Ok((Scalar(v), rest))
  }

  /** How the readers' if-chain treats one trimmed line. */
  datatype LineKind =
    | CloseBlock                              // exactly "}" inside a block
    | StrayClose                              // any other line holding "}"
    | Blank                                   // the empty line
    | Comment                                 // starts with "#"
    | OpenBlock(named: Option<string>)        // ends with "{"; "{" alone names no key
    | Assignment(key: string, value: string)  // holds " = "
    | BareKey                                 // anything else

  /** The branch of `readData` (`nested` false) or `read` (`nested` true) a trimmed line takes. */
  function Classify(line: string, nested: bool): (k: LineKind)
    requires IsTrimmed(line)
    ensures k == CloseBlock <==> nested && line == "}"
  {
    if nested && line == "}" then CloseBlock
    else if '}' in line then StrayClose
    else if line == "" then Blank
    else if StartsWith(line, "#") then Comment
    else if EndsWith(line, "{") then
      OpenBlock(if line != "{" then Some(Trim(RemoveChar(line, '{'))) else None)
    else if Contains(line, " = ") then
      var (k, v) := AssignmentParts(line);
      Assignment(k, v)
    else BareKey
  }

  /**
   * The loop of `readData` (`nested` false) and of `read` (`nested` true) from a
   * state where `rest` is left to read, the blank and comment counters stand at
   * `blank` and `comment`, the pending block key is `key` and the map built so far
   * is `m`. On success it gives the finished map and the lines left after it: none
   * at the top level, those after the closing "}" in a block.
   */
  function Scan(rest: seq<string>, nested: bool, blank: int, comment: int, key: Option<string>, m: DataMap)
    : (r: Result<(DataMap, seq<string>)>)
    ensures r.Ok? && nested ==> |r.value.1| < |rest|
    ensures r.Ok? && !nested ==> r.value.1 == []
    decreases |rest|, 1
  {
    if rest == [] then
      if nested then Err(BlockDoesNotClose) else Ok((m, []))
    else
      var line := Trim(rest[0]);
      var tail := rest[1..];
      match Classify(line, nested)
      case CloseBlock => Ok((m, tail))
      case StrayClose => Err(BlockClosedWithoutBeingOpened)
      case Blank =>
        Scan(tail, nested, blank + 1, comment, key, Put(m, BlankKey(blank + 1), Marker(BLANK_LINE)))
      case Comment =>
        // only the top level advances the comment counter
        var c := if nested then comment else comment + 1;
        Scan(tail, nested, blank, c, key, Put(m, CommentKey(line, c), Marker(COMMENT)))
      case OpenBlock(named) =>
        // the body is read with copies of the counters, which the caller then keeps as they were
        var k := if named.Some? then named else key;
        if k.None? then Err(KeyMustNotBeNull)
        else Continue(BlockValue(Scan(tail, true, blank, comment, None, [])), nested, blank, comment, k, m, k.value)
      case Assignment(k, v) =>
        Continue(AssignedValue(tail, v), nested, blank, comment, key, m, k)
      case BareKey =>
        // accepted only when `lines.get(1)`, two lines after this one, holds "{"
        if |tail| < 2 then Err(LineIndexOutOfBounds(|tail|))
        else if Contains(tail[1], "{") then Scan(tail, nested, blank, comment, Some(line), m)
        else Err(KeyDoesNotContainValueOrBlock)
  }

  /** A block's body as read by the nested loop, as the value stored under the block's key. */
  function BlockValue(body: Result<(DataMap, seq<string>)>): (r: Result<(Value, seq<string>)>)
    ensures r.Ok? == body.Ok?
    ensures r.Ok? ==> r.value.1 == body.value.1
  {
    if body.Err? then Err(body.error) else Ok((Block(body.value.0), body.value.1))
  }

  /**
   * The loop once a value (a block or an assignment's value) has been read: it
   * is put under `k` and reading goes on with the lines after it.
   */
  function Continue(read: Result<(Value, seq<string>)>, nested: bool, blank: int, comment: int,
                    key: Option<string>, m: DataMap, k: string): (r: Result<(DataMap, seq<string>)>)
    ensures r.Ok? ==> read.Ok? && |r.value.1| <= |read.value.1|
    ensures r.Ok? && !nested ==> r.value.1 == []
    decreases if read.Ok? then |read.value.1| else 0, 2
  {
    if read.Err? then Err(read.error)
    else Scan(read.value.1, nested, blank, comment, key, Put(m, k, read.value.0))
  }

  /** What `readData` returns for a file with these lines: counters start at -1, no key pending. */
  function ReadDataSpec(lines: seq<string>): Result<DataMap> {
    match Scan(lines, false, -1, -1, None, [])
    case Ok((m, _)) => Ok(m)
    case Err(e) => Err(e)
  }
}
