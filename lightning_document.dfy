/**
 * The in-memory form of a lightning-format file as LightningEditor builds it: an
 * insertion-ordered map from keys to values, where a value is a scalar string, a
 * list of strings, a nested map (a block), or a LineType marker standing for a
 * comment or blank line stored under a synthetic key.
 */
module LightningDocument {
  import opened JavaText

  datatype Option<T> = None | Some(value: T)

  /** LightningEditor.LineType. */
  datatype LineType = VALUE | COMMENT | BLANK_LINE

  /** The enum constant's `toString`, i.e. its name. */
  function LineTypeName(t: LineType): string {
    match t
    case VALUE => "VALUE"
    case COMMENT => "COMMENT"
    case BLANK_LINE => "BLANK_LINE"
  }

  datatype Value =
    | Scalar(text: string)
    | StrList(items: seq<string>)
    | Block(body: seq<Entry>)
    | Marker(kind: LineType)

  datatype Entry = Entry(key: string, value: Value)

  /**
   * The map returned by the data-map factory, taken to keep insertion order (as a
   * LinkedHashMap does): its entries in iteration order.
   */
  type DataMap = seq<Entry>

  /** The position of `key` in `m`, or -1. */
  function KeyIndex(m: DataMap, key: string): (i: int)
    ensures -1 <= i < |m|
    ensures i >= 0 ==> m[i].key == key
    ensures forall j :: 0 <= j < |m| && (i < 0 || j < i) ==> m[j].key != key
  {
    if m == [] then -1
    else if m[0].key == key then 0
    else
      var i := KeyIndex(m[1..], key);
      if i < 0 then -1 else i + 1
  }

  /**
   * `Map.put` on an insertion-ordered map: an existing key keeps its place and gets
   * the new value; a new key goes at the end.
   */
  function Put(m: DataMap, key: string, v: Value): DataMap {
    if m == [] then [Entry(key, v)]
    else if m[0].key == key then [Entry(key, v)] + m[1..]
    else [m[0]] + Put(m[1..], key, v)
  }

  /** What `put` does, in terms of where the key already is. */
  lemma {:induction false} PutSpec(m: DataMap, key: string, v: Value)
    ensures KeyIndex(m, key) >= 0 ==> Put(m, key, v) == m[KeyIndex(m, key) := Entry(key, v)]
    ensures KeyIndex(m, key) < 0 ==> Put(m, key, v) == m + [Entry(key, v)]
  {
    if m != [] && m[0].key != key {
      PutSpec(m[1..], key, v);
      var i := KeyIndex(m[1..], key);
      if i >= 0 {
        assert [m[0]] + m[1..][i := Entry(key, v)] == m[i + 1 := Entry(key, v)];
      } else {
        assert [m[0]] + (m[1..] + [Entry(key, v)]) == m + [Entry(key, v)];
      }
    }
  }

  /** No key occurs twice. */
  predicate DistinctKeys(m: DataMap) {
    forall i, j :: 0 <= i < j < |m| ==> m[i].key != m[j].key
  }

  /** `put` keeps keys unique and looks the value up again under its key. */
  lemma PutKeepsKeysDistinct(m: DataMap, key: string, v: Value)
    requires DistinctKeys(m)
    ensures DistinctKeys(Put(m, key, v))
    ensures KeyIndex(Put(m, key, v), key) >= 0
    ensures Put(m, key, v)[KeyIndex(Put(m, key, v), key)].value == v
  {
    PutSpec(m, key, v);
    var r := Put(m, key, v);
    var i := KeyIndex(m, key);
    if i < 0 {
      assert r[|m|].key == key;
    } else {
      assert r[i].key == key;
    }
  }

  /** The synthetic key of the blank line with ordinal `n`. */
  function BlankKey(n: int): string {
    "{=}emptyline" + IntToString(n)
  }

  /** The synthetic key of comment line `text` with ordinal `n`. */
  function CommentKey(text: string, n: int): string {
    text + "{=}" + IntToString(n)
  }

  /**
   * The writer prints a comment as its key cut at the last "{=}"; for a key the
   * parser built, that is exactly the comment's text, whatever the text holds.
   */
  lemma CommentKeyText(text: string, n: int)
    ensures LastIndexOf(CommentKey(text, n), "{=}") == |text|
  {
    var key := CommentKey(text, n);
    var digits := IntToString(n);
    assert key == text + "{=}" + digits;
    assert OccursAt(key, "{=}", |text|) by {
      assert key[|text|..|text| + 3] == "{=}";
    }
    forall j | |text| < j < |key|
      ensures key[j] != '{'
    {
      if j < |text| + 3 {
        assert key[j] == "{=}"[j - |text|];
      } else {
        assert key[j] == digits[j - |text| - 3];
      }
    }
    forall i | |text| < i
      ensures !OccursAt(key, "{=}", i)
    {
      if i < |key| {
        assert key[i] != '{';
      }
    }
    LastIndexOfSpec(key, "{=}");
  }
}
