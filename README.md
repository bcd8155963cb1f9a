# SimplixStorage lightning format: reader, writer and framed YAML header

This project models the comment-keeping text codec of SimplixStorage's
"lightning" configuration files, as implemented in `LightningEditor`, together
with `Yaml.framedHeader`.

- **Document** (`LightningDocument`): a file's contents are an
  insertion-ordered map from keys to values. A value is a scalar string, a list
  of strings, a nested map (a block), or a `LineType` marker (`VALUE`,
  `COMMENT`, `BLANK_LINE`). Comment lines and blank lines are stored as markers
  under synthetic keys: `"<text>{=}<n>"` for a comment and
  `"{=}emptyline<n>"` for a blank line. `put` replaces a value in place or
  appends a new key.
- **Reader** (`LightningParser`, `LightningReader`): `readData`, `read` and
  `readList` consume one shared list of lines from the front.
  - `LineQueue` models that list.
  - The three methods run the source's if-chains. Each is proved to compute
    what the functions `Scan` and `ReadListSpec` specify.
  - The specification covers every error the source throws: a stray "}", a
    block with no key, a bare key without a block, an unclosed block, an
    unclosed list, and the `lines.get(1)` index error.
- **Writer** (`LightningWriter`): `writeData` picks one of two writers by the
  config setting.
  - The comment-keeping writer prints comments and blank lines back. It stops
    with `StringIndexOutOfBoundsException` on a comment key without "{=}".
  - The comment-skipping writer prints an empty line in their place.
  - `TextSink` models the `PrintWriter`. Every writer method is proved to
    append exactly the lines that `TopLines`/`EntryLines` specify, joined by
    line breaks.
- **Properties** (`LightningRoundTrip`, `LightningReadProperties`,
  `LightningRoundTripLimits`):
  - Writing a canonical map with comments kept and reading the file back gives
    the same map.
  - Every map the reader returns has unique keys at every depth and can be
    written without an exception.
  - Repeated comment lines behave differently at the top level and inside a
    block.
  - Each malformed file shape ends in its own error.
  - Several kinds of map do not survive a write and a read; a lemma shows what
    each comes back as.
- **Header** (`YamlHeader`): `framedHeader` centres each line of at most 50
  UTF-16 code units between "# < " and " > #", drops longer lines, and puts a
  border line above and below. `StringBuilder` is modelled as a class, so the
  append/reverse padding loop is kept as written.

Behaviours of the code worth knowing:
- Top-level entries are separated by a single line break.
- The comment-skipping writer leaves an empty line where a comment or blank
  entry was.
- The comment counter does not advance inside a block, so a repeated comment
  line in one block overwrites the first (`NestedCommentKeptOnce`).
- The round trip holds only for canonical maps (see `RoundTrip` under Left out).

## Model

Source paths: `LightningEditor.java` is
`src/main/java/de/leonhard/storage/lightningstorage/editor/LightningEditor.java`;
`Yaml.java` is `src/main/java/de/leonhard/storage/Yaml.java`.

| member | source | states |
|---|---|---|
| LightningReader.ReadData | src/main/java/de/leonhard/storage/lightningstorage/editor/LightningEditor.java:32-85 | Returns the map that `Scan` reads from the file's lines, or the first error it meets. The counters start at -1 and no block key is pending. |
| LightningReader.Read | src/main/java/de/leonhard/storage/lightningstorage/editor/LightningEditor.java:87-134 | Reads a block body up to its exact "}", with the caller's counters. The comment counter never advances. Leaves the caller the lines after the "}"; fails with "Block does not close" at the end of the file. |
| LightningReader.ReadList | src/main/java/de/leonhard/storage/lightningstorage/editor/LightningEditor.java:136-150 | Collects the items of "- " lines, each `substring(1).trim()`, up to the first line ending in "]", which is dropped. Any other line, or the end of the file, gives "List not closed properly". |
| LightningReader.ReadLine | src/main/java/de/leonhard/storage/lightningstorage/editor/LightningEditor.java:40-79 | One pass of the if-chain shared by `readData` and `read`: removes the first line and leaves `Scan` of the remaining state equal to `Scan` of the old state, or finishes with `Scan`'s result. |
| LightningReader.ReadValue | src/main/java/de/leonhard/storage/lightningstorage/editor/LightningEditor.java:60-71 | An assignment's right-hand side becomes an inline list (`split(", ")` of the text between the brackets), a multi-line list read from the following lines, or the scalar verbatim, as `AssignedValue` specifies. |
| LightningReader.LineQueue.TakeFirst | src/main/java/de/leonhard/storage/lightningstorage/editor/LightningEditor.java:41-42 | Gives the first line and removes it from the shared list. |
| LightningParser.Classify | src/main/java/de/leonhard/storage/lightningstorage/editor/LightningEditor.java:95-97 | A line closes a block exactly when it is "}" inside a block; anywhere else a "}" is a stray close. |
| LightningParser.Scan | src/main/java/de/leonhard/storage/lightningstorage/editor/LightningEditor.java:40-133 | A successful read of a block leaves fewer lines than it started with. A successful top-level read consumes every line. |
| LightningParser.ReadListSpec | src/main/java/de/leonhard/storage/lightningstorage/editor/LightningEditor.java:136-150 | Every failure is "List not closed properly". A success leaves fewer lines than it was given. |
| LightningDocument.PutSpec | src/main/java/de/leonhard/storage/lightningstorage/editor/LightningEditor.java:48 | `put` of a present key replaces its entry in place; `put` of a new key appends it. |
| LightningDocument.PutKeepsKeysDistinct | src/main/java/de/leonhard/storage/lightningstorage/editor/LightningEditor.java:66 | `put` keeps keys unique, and the key then maps to the value put. |
| LightningDocument.CommentKeyText | src/main/java/de/leonhard/storage/lightningstorage/editor/LightningEditor.java:175 | The last "{=}" of a key the reader built for a comment is the one it appended, so the writer's cut gives back exactly the comment's text. |
| LightningWriter.WriteData | src/main/java/de/leonhard/storage/lightningstorage/editor/LightningEditor.java:22-30 | Gives `WriteDataSpec`: the text with comments kept, the text with comments skipped, `IllegalArgumentException` for any other setting, or the index exception for an untagged comment key together with the partial text the closed writer leaves in the file. |
| LightningWriter.InitialWriteWithComments | src/main/java/de/leonhard/storage/lightningstorage/editor/LightningEditor.java:155-171 | Succeeds exactly when every comment key holds "{=}". The text is then every top-level entry's lines, with one line break between entries. Otherwise the text written before the exception is `DocStopText`: the entries before the first untagged one, a line break unless it is the first, and what that entry printed; a prefix of the full text. |
| LightningWriter.TopLayerWriteWithComments | src/main/java/de/leonhard/storage/lightningstorage/editor/LightningEditor.java:173-185 | Appends a top-level entry's lines: the comment text, an empty line, a block opener with its body, or "key = value". Fails exactly on an untagged comment key, and then has printed `TopStopText`: nothing for a comment, the opener and the body's partial text for a block. |
| LightningWriter.WriteWithComments | src/main/java/de/leonhard/storage/lightningstorage/editor/LightningEditor.java:187-210 | Appends, after a line break each, every entry's lines two spaces deeper, then "}" at the opener's indentation. Fails exactly on an untagged comment key at any depth. It then has printed `BodyStopText`: the lines of every entry before the first untagged one, then what that entry printed, and no "}"; this is a prefix of the full text. |
| LightningWriter.WriteEntryWithComments | src/main/java/de/leonhard/storage/lightningstorage/editor/LightningEditor.java:189-206 | Appends one nested entry after a line break: a comment, an empty line, a nested block, a multi-line list, or "key = value". Fails exactly on an untagged comment key, and then has printed `EntryStopText`: the line break alone for a comment, or the break, the opener and the body's partial text for a block. |
| LightningWriter.WriteBlockWithComments | src/main/java/de/leonhard/storage/lightningstorage/editor/LightningEditor.java:196-198 | Prints a block's opener, then its body as `writeWithComments` prints it. Succeeds exactly when the body's comment keys are tagged; otherwise it has printed the opener and `BodyStopText`. |
| LightningWriter.FirstUntagged | src/main/java/de/leonhard/storage/lightningstorage/editor/LightningEditor.java:188-191 | The position of the first entry, in map order, whose comment key (at any depth) lacks "{=}": every earlier entry is tagged, and this one is not. |
| LightningWriter.InitialWriteWithOutComments | src/main/java/de/leonhard/storage/lightningstorage/editor/LightningEditor.java:215-231 | The text is every top-level entry's comment-free lines, one line break between entries; an empty map gives empty text. |
| LightningWriter.TopLayerWriteWithOutComments | src/main/java/de/leonhard/storage/lightningstorage/editor/LightningEditor.java:233-247 | A comment or blank entry prints nothing. A list is printed multi-line with its opener indented two spaces. A block prints its body; a scalar prints "key = value". |
| LightningWriter.WriteWithOutComments | src/main/java/de/leonhard/storage/lightningstorage/editor/LightningEditor.java:249-268 | Appends a line break for every entry, even a skipped one, then the entry's lines unless it is skipped, then "}" at the opener's indentation. |
| LightningWriter.WriteEntryWithOutComments | src/main/java/de/leonhard/storage/lightningstorage/editor/LightningEditor.java:251-264 | One nested entry without comments: a line break, then nothing for a comment or blank entry, else its block, list or assignment lines. |
| LightningWriter.WriteList | src/main/java/de/leonhard/storage/lightningstorage/editor/LightningEditor.java:270-275 | Appends one line per item, `indent + "  - " + item`, each ended by a line break, then `indent + "]"` with no break after it. |
| LightningWriter.ItemLinesShape | src/main/java/de/leonhard/storage/lightningstorage/editor/LightningEditor.java:272 | The i-th item line is the indentation, "  - " and the i-th item. |
| LightningWriter.SkipCommentsIsBlanked | src/main/java/de/leonhard/storage/lightningstorage/editor/LightningEditor.java:233-268 | Without top-level lists, the comment-skipping writer prints exactly what the comment-keeping writer prints for the same map with every comment or blank entry replaced by a blank-line entry. |
| LightningWriter.EntriesLinesBlanked | src/main/java/de/leonhard/storage/lightningstorage/editor/LightningEditor.java:249-268 | For nested entries, the comment-skipping lines equal the comment-keeping lines of the blanked entries, at every depth. |
| LightningWriter.SettingsAgreeWithoutComments | src/main/java/de/leonhard/storage/lightningstorage/editor/LightningEditor.java:22-30 | A map with no comment or blank entry and no top-level list is written the same under both settings. |
| LightningRoundTrip.RoundTrip | src/main/java/de/leonhard/storage/lightningstorage/editor/LightningEditor.java:32-85 | A canonical map written with comments kept never throws, the file's lines are the lines written, and `readData` of them gives the map back. |
| LightningRoundTrip.DocTextReadsBack | src/main/java/de/leonhard/storage/lightningstorage/editor/LightningEditor.java:34 | `readAllLines` of a canonical map's text gives back exactly the lines the writer printed. |
| LightningRoundTrip.ItemLinesRoundTrip | src/main/java/de/leonhard/storage/lightningstorage/editor/LightningEditor.java:136-150 | The item lines `writeList` prints for safe items, and its closing "]" line, are read back by `readList` as the same items. The lines after them are left unread. |
| LightningRoundTrip.BodyReadsBack | src/main/java/de/leonhard/storage/lightningstorage/editor/LightningEditor.java:87-134 | The lines `writeWithComments` prints for a canonical block body, with its "}", are read back by `read` as the same entries. |
| LightningRoundTrip.TopEntryReadsBack | src/main/java/de/leonhard/storage/lightningstorage/editor/LightningEditor.java:173-185 | Each canonical top-level entry, as `topLayerWriteWithComments` prints it, is read back as itself. The counters and the pending key move on as `readData` moves them. |
| LightningReadProperties.PutOverwrites | src/main/java/de/leonhard/storage/lightningstorage/editor/LightningEditor.java:103 | A second `put` under the same key replaces the first value and changes nothing else. |
| LightningReadProperties.ScanWellFormed | src/main/java/de/leonhard/storage/lightningstorage/editor/LightningEditor.java:40-133 | Reading from a well-formed map gives a well-formed map. Well-formed means unique keys at every depth, and every comment key holding "{=}". |
| LightningReadProperties.ReadDataWellFormed | src/main/java/de/leonhard/storage/lightningstorage/editor/LightningEditor.java:32-85 | Every map `readData` returns is well-formed. |
| LightningReadProperties.ReadThenWrite | src/main/java/de/leonhard/storage/lightningstorage/editor/LightningEditor.java:175 | Every map `readData` returns has unique keys. Writing it with comments kept never throws. |
| LightningReadProperties.NestedCommentRepeated | src/main/java/de/leonhard/storage/lightningstorage/editor/LightningEditor.java:102-103 | Inside a block, a comment line right after itself gets the same key. Reading it twice is the same as reading it once. |
| LightningReadProperties.NestedCommentKeptOnce | src/main/java/de/leonhard/storage/lightningstorage/editor/LightningEditor.java:102-103 | A block holding the same comment line twice is read with that comment once, under the counter's value on entry. |
| LightningReadProperties.TopCommentRepeated | src/main/java/de/leonhard/storage/lightningstorage/editor/LightningEditor.java:49-51 | At the top level the same comment line twice is kept twice, under the two different keys with ordinals 0 and 1. |
| LightningReadProperties.StrayCloseFails | src/main/java/de/leonhard/storage/lightningstorage/editor/LightningEditor.java:44-45 | A file whose first line, trimmed, holds "}" anywhere fails with "Block closed without being opened". |
| LightningReadProperties.NestedStrayCloseFails | src/main/java/de/leonhard/storage/lightningstorage/editor/LightningEditor.java:95-98 | Inside a block, a line that trims to anything holding "}" other than exactly "}" fails with "Block closed without being opened", whatever the counters, pending key and map so far. |
| LightningReadProperties.LaterPiecesDropped | src/main/java/de/leonhard/storage/lightningstorage/editor/LightningEditor.java:60-63 | A line "k = v = w" is an assignment of `v` to `k`: `split(" = ")` cuts at every " = " and the third piece is dropped. |
| LightningReadProperties.PendingKeyReused | src/main/java/de/leonhard/storage/lightningstorage/editor/LightningEditor.java:52-58 | The pending block key is never reset: after "b {" and "}", a lone "{" opens a block under `b` again, and `put` replaces the first block in place, so the file reads as one block `b` holding the second body. |
| LightningReadProperties.UnclosedBlockFails | src/main/java/de/leonhard/storage/lightningstorage/editor/LightningEditor.java:133 | A block opener followed by one assignment and then the end of the file fails with "Block does not close". |
| LightningReadProperties.ListNeverClosed | src/main/java/de/leonhard/storage/lightningstorage/editor/LightningEditor.java:136-150 | `readList` over lines none of which ends in "]" fails with "List not closed properly", whatever it collected. |
| LightningReadProperties.UnclosedListFails | src/main/java/de/leonhard/storage/lightningstorage/editor/LightningEditor.java:67-68 | "k = [" followed only by lines that do not end in "]" makes the whole file fail with "List not closed properly". |
| LightningReadProperties.BareKeyLine | src/main/java/de/leonhard/storage/lightningstorage/editor/LightningEditor.java:72-78 | A plain key alone on its line takes the bare-key branch. |
| LightningReadProperties.BareKeyAtEndFails | src/main/java/de/leonhard/storage/lightningstorage/editor/LightningEditor.java:73 | A bare key with fewer than two lines after it fails with the index error for `lines.get(1)`, carrying the remaining length. |
| LightningReadProperties.BareKeyWithoutBlockFails | src/main/java/de/leonhard/storage/lightningstorage/editor/LightningEditor.java:73-77 | A bare key whose line after next holds no "{" fails with "Key does not contain value or block". |
| LightningReadProperties.AnonymousBlockFails | src/main/java/de/leonhard/storage/lightningstorage/editor/LightningEditor.java:53-57 | A "{" alone with no key pending fails with "Key must not be null". |
| LightningRoundTripLimits.EmptyListReadsAsOneEmptyItem | src/main/java/de/leonhard/storage/lightningstorage/editor/LightningEditor.java:64-66 | An empty top-level list is written "k = []" and read back as a list holding one empty item. |
| LightningRoundTripLimits.EmptyItemInBlockUnreadable | src/main/java/de/leonhard/storage/lightningstorage/editor/LightningEditor.java:141-146 | A list holding one empty item inside a block is written with the item line "    - ". That line trims to "-", so reading the file fails. |
| LightningRoundTripLimits.TrailingBlankLineLost | src/main/java/de/leonhard/storage/lightningstorage/editor/LightningEditor.java:34 | A blank entry at the end of a map becomes a final line break, which `readAllLines` drops. The map comes back without it. |
| LightningRoundTripLimits.UntrimmedKeyTrimmed | src/main/java/de/leonhard/storage/lightningstorage/editor/LightningEditor.java:62 | A key ending in a space is written as is but read back trimmed. |
| LightningRoundTripLimits.BracketedScalarReadsAsList | src/main/java/de/leonhard/storage/lightningstorage/editor/LightningEditor.java:64-66 | A scalar written in brackets is read back as a one-item inline list. |
| YamlHeader.FramedHeader | src/main/java/de/leonhard/storage/Yaml.java:185-215 | The list handed to `setHeader` is the border, each header line of at most 50 UTF-16 units framed, in order, and the border again. |
| YamlHeader.FrameLine | src/main/java/de/leonhard/storage/Yaml.java:196-211 | A kept line becomes "# < ", its centred text, and " > #". |
| YamlHeader.Centre | src/main/java/de/leonhard/storage/Yaml.java:196-208 | The append/reverse loop puts `(50 - length) / 2` spaces on each side, plus one more on the right for an odd length. |
| YamlHeader.PaddedShape | src/main/java/de/leonhard/storage/Yaml.java:196-208 | The centred text is exactly 50 UTF-16 units long, with the line in the middle and only spaces around it. |
| YamlHeader.FramedShape | src/main/java/de/leonhard/storage/Yaml.java:210 | Every framed line is as wide as the border, with its centred text between the markers. |
| YamlHeader.FramedBmpWidth | src/main/java/de/leonhard/storage/Yaml.java:187-210 | For a line with no character above U+FFFF, Java's length is the character count, and the framed line is 58 characters like the border. |
| YamlHeader.KeptLines | src/main/java/de/leonhard/storage/Yaml.java:192-193 | The kept lines are header lines of at most 50 units, and every such line is kept. |
| YamlHeader.FramedHeaderShape | src/main/java/de/leonhard/storage/Yaml.java:185-215 | The header list has two more lines than there are kept lines, starts and ends with the border, and frames the kept lines in order. |

## Left out

- File I/O is not modelled: `Files.readAllLines` (LightningEditor.java:34), `new PrintWriter(file)` and `flush` (:156, :166, :216, :226), and the `IOException`/`FileNotFoundException` handlers (:82-83, :167-170, :227-230). The reader takes the file's lines; the writer returns the text. `readAllLines` is modelled on characters, not on decoded bytes.
- The map and list factories (`getNewDataMap`, `getNewDataList`) are not part of this model. The map is assumed to keep insertion order and to replace a present key's value in place, as a `LinkedHashMap` does.
- A list's `toString` is assumed to be `AbstractCollection`'s "[a, b]".
- `println` is taken to write "\n".
- The `int` counters `blankLine` and `commentLine` are unbounded.
- The index error message is the JDK 11+ form "Index 1 out of bounds for length n". The JDK 8 form is not modelled.
- Only the literal-separator case of `String.split` is modelled: " = " and ", " contain no regular-expression metacharacters.
- Lone UTF-16 surrogates cannot occur in a Dafny string, so header lines holding them are not covered.
- `setHeader` and the rest of `Yaml`, `FlatFile`, the dotted-key map plumbing and change polling are not part of this model.
- RoundTrip: proved only for canonical maps written with comments kept.
  - Keys, scalars and list items are limited to safe text: trimmed, non-empty, and free of `{ } = , [ ]` and line breaks. The reader actually reacts only to some positions of these characters, so the real domain is wider.
  - Top-level lists must be non-empty.
  - The file must not end in a blank entry.
  - Each comment and blank entry must carry exactly the ordinal the reader would give it at its position. Deleting comment 1 of comments 0, 1 and 2, for example, writes the file correctly, but it reads back renumbered and so unequal.
  - Comment text must be trimmed and free of "}" and line breaks, and comment keys must hold "{=}".
  - Keys must be distinct in every block.
  - No `LineType` marker may sit under an ordinary key, and a `VALUE` marker nowhere.
  - The `LightningRoundTripLimits` lemmas show maps outside this domain that come back changed or fail to read.
  - No round trip is stated for the comment-skipping setting.
