/**
 * The handful of java.lang.String, StringBuilder, Integer and java.nio.file.Files
 * behaviours that the codec relies on, written as Dafny functions over `string`.
 *
 * A Dafny `char` is a Unicode scalar value, whereas a Java `String` is a sequence
 * of UTF-16 code units, in which a character above U+FFFF takes two. The codec only
 * searches for, and cuts at, ASCII separators, so its results are the same under
 * either view; where Java counts a length (`length()` in `Yaml.framedHeader`),
 * `Utf16Length` counts it as Java does.
 *
 * Only the literal-separator case of `String.split` is modelled: every separator the
 * codec passes (" = " and ", ") is free of regular-expression metacharacters.
 */
module JavaText {

  /** `String.trim` strips every char whose code is at most U+0020. */
  predicate IsWhite(c: char) {
    c <= ' '
  }

  /** A string `trim` leaves unchanged. */
  predicate IsTrimmed(s: string) {
    s == [] || (!IsWhite(s[0]) && !IsWhite(s[|s| - 1]))
  }

  predicate AllWhite(s: string) {
    forall i :: 0 <= i < |s| ==> IsWhite(s[i])
  }

  /** `s` without its leading white space. */
  function TrimStart(s: string): (t: string)
    ensures |t| <= |s|
    ensures t == [] || !IsWhite(t[0])
  {
    if s != [] && IsWhite(s[0]) then TrimStart(s[1..]) else s
  }

  /** `s` without its trailing white space. */
  function TrimEnd(s: string): (t: string)
    ensures |t| <= |s|
    ensures t == [] || !IsWhite(t[|t| - 1])
    ensures t != [] ==> t[0] == s[0]
  {
    if s != [] && IsWhite(s[|s| - 1]) then TrimEnd(s[..|s| - 1]) else s
  }

  /** `String.trim`. */
  function Trim(s: string): (t: string)
    ensures IsTrimmed(t)
    ensures |t| <= |s|
  {
    TrimEnd(TrimStart(s))
  }

  /** Trimming a string that is already trimmed changes nothing. */
  lemma TrimTrimmed(s: string)
    requires IsTrimmed(s)
    ensures Trim(s) == s
  {
  }

  /** The number of UTF-16 code units of a char: two above U+FFFF (a surrogate pair), one otherwise. */
  function Utf16Units(c: char): nat {
    if c as int >= 0x1_0000 then 2 else 1
  }

  /** `String.length()`: the number of UTF-16 code units. */
  function Utf16Length(s: string): (n: nat)
    ensures n >= |s|
  {
    if s == [] then 0 else Utf16Units(s[0]) + Utf16Length(s[1..])
  }

  lemma {:induction false} Utf16LengthAppend(a: string, b: string)
    ensures Utf16Length(a + b) == Utf16Length(a) + Utf16Length(b)
  {
    if a == [] {
      assert a + b == b;
    } else {
      assert (a + b)[0] == a[0] && (a + b)[1..] == a[1..] + b;
      Utf16LengthAppend(a[1..], b);
    }
  }

  /** Below U+10000 every char is one code unit, so Java's length is the Dafny length. */
  lemma {:induction false} Utf16LengthBmp(s: string)
    requires forall i :: 0 <= i < |s| ==> s[i] as int < 0x1_0000
    ensures Utf16Length(s) == |s|
  {
    if s != [] {
      Utf16LengthBmp(s[1..]);
    }
  }

  /** `n` blanks, as produced by repeated `append(" ")`. */
  function Spaces(n: nat): (r: string)
    ensures |r| == n && AllWhite(r)
    ensures forall i :: 0 <= i < n ==> r[i] == ' '
  {
    if n == 0 then "" else Spaces(n - 1) + " "
  }

  /** `String.startsWith`. */
  predicate StartsWith(s: string, prefix: string) {
    |prefix| <= |s| && s[..|prefix|] == prefix
  }

  /** `String.endsWith`. */
  predicate EndsWith(s: string, suffix: string) {
    |suffix| <= |s| && s[|s| - |suffix|..] == suffix
  }

  /** `sub` occurs in `s` starting at index `i`. */
  predicate OccursAt(s: string, sub: string, i: int) {
    0 <= i && i + |sub| <= |s| && s[i..i + |sub|] == sub
  }

  /** `String.indexOf(sub, from)`: the first occurrence at or after `from`, or -1. */
  function IndexOfFrom(s: string, sub: string, from: nat): (r: int)
    ensures r == -1 || (from <= r && r + |sub| <= |s|)
    decreases |s| - from
  {
    if from + |sub| > |s| then -1
    else if OccursAt(s, sub, from) then from
    else IndexOfFrom(s, sub, from + 1)
  }

  /** `indexOf` from `from` finds an occurrence, and none before it. */
  lemma {:induction false} IndexOfFromSpec(s: string, sub: string, from: nat)
    ensures var r := IndexOfFrom(s, sub, from);
      && (r == -1 || OccursAt(s, sub, r))
      && (forall i :: from <= i && (r == -1 || i < r) ==> !OccursAt(s, sub, i))
    decreases |s| - from
  {
    if from + |sub| <= |s| && !OccursAt(s, sub, from) {
      IndexOfFromSpec(s, sub, from + 1);
    }
  }

  /** `String.indexOf(sub)`. */
  function IndexOf(s: string, sub: string): (r: int)
    ensures r == -1 || (0 <= r && r + |sub| <= |s|)
  {
    IndexOfFrom(s, sub, 0)
  }

  /** `indexOf` gives the first occurrence, or -1 when there is none. */
  lemma IndexOfSpec(s: string, sub: string)
    ensures IndexOf(s, sub) == -1 || OccursAt(s, sub, IndexOf(s, sub))
    ensures forall i :: 0 <= i && (IndexOf(s, sub) == -1 || i < IndexOf(s, sub)) ==> !OccursAt(s, sub, i)
  {
    IndexOfFromSpec(s, sub, 0);
  }

  /** `String.contains(sub)`. */
  predicate Contains(s: string, sub: string) {
    IndexOf(s, sub) >= 0
  }

  /** `String.lastIndexOf(sub)`: the last occurrence, or -1. */
  function LastIndexOf(s: string, sub: string): (r: int)
    ensures r == -1 || (0 <= r && r + |sub| <= |s|)
  {
    LastIndexOfBelow(s, sub, |s| + 1)
  }

  /** `lastIndexOf` gives an occurrence, and none after it. */
  lemma LastIndexOfSpec(s: string, sub: string)
    ensures LastIndexOf(s, sub) == -1 || OccursAt(s, sub, LastIndexOf(s, sub))
    ensures forall i :: LastIndexOf(s, sub) < i ==> !OccursAt(s, sub, i)
  {
    LastIndexOfBelowSpec(s, sub, |s| + 1);
  }

  /** The last occurrence starting strictly below `bound`, or -1. */
  function LastIndexOfBelow(s: string, sub: string, bound: nat): (r: int)
    ensures r == -1 || (0 <= r < bound && r + |sub| <= |s|)
  {
    if bound == 0 then -1
    else if OccursAt(s, sub, bound - 1) then bound - 1
    else LastIndexOfBelow(s, sub, bound - 1)
  }

  lemma {:induction false} LastIndexOfBelowSpec(s: string, sub: string, bound: nat)
    ensures var r := LastIndexOfBelow(s, sub, bound);
      && (r == -1 || OccursAt(s, sub, r))
      && (forall i :: r < i < bound ==> !OccursAt(s, sub, i))
  {
    if bound > 0 && !OccursAt(s, sub, bound - 1) {
      LastIndexOfBelowSpec(s, sub, bound - 1);
    }
  }

  /** `String.replace(c, "")` for a one-character target: every `c` removed. */
  function RemoveChar(s: string, c: char): string {
    if s == [] then []
    else (if s[0] == c then [] else [s[0]]) + RemoveChar(s[1..], c)
  }

  /** After `replace(c, "")` no `c` is left, nothing new appears, and a string without `c` is unchanged. */
  lemma {:induction false} RemoveCharSpec(s: string, c: char)
    ensures c !in RemoveChar(s, c)
    ensures forall x :: x in RemoveChar(s, c) ==> x in s
    ensures c !in s ==> RemoveChar(s, c) == s
  {
    if s != [] {
      RemoveCharSpec(s[1..], c);
      assert s == [s[0]] + s[1..];
    }
  }

  /** The pieces glued back together with `sep` between neighbours. */
  function Join(parts: seq<string>, sep: string): string {
    if parts == [] then ""
    else if |parts| == 1 then parts[0]
    else parts[0] + sep + Join(parts[1..], sep)
  }

  /**
   * Cutting at every left-to-right, non-overlapping occurrence of `sep`, keeping
   * empty pieces: the raw pieces `String.split` computes before it drops the
   * trailing empty ones.
   */
  function SplitAll(s: string, sep: string): (parts: seq<string>)
    requires |sep| > 0
    ensures |parts| >= 1
    decreases |s|
  {
    var i := IndexOf(s, sep);
    if i < 0 then [s]
    else [s[..i]] + SplitAll(s[i + |sep|..], sep)
  }

  /**
   * The pieces joined with `sep` give `s` back; there is more than one piece
   * exactly when `s` holds `sep`, and then `s` ends in `sep` and the last piece.
   */
  lemma {:induction false} SplitAllSpec(s: string, sep: string)
    requires |sep| > 0
    ensures Join(SplitAll(s, sep), sep) == s
    ensures (|SplitAll(s, sep)| == 1) == (IndexOf(s, sep) < 0)
    ensures var parts := SplitAll(s, sep); |parts| > 1 ==> EndsWith(s, sep + parts[|parts| - 1])
    decreases |s|
  {
    var i := IndexOf(s, sep);
    if i >= 0 {
      IndexOfSpec(s, sep);
      var t := s[i + |sep|..];
      SplitAllSpec(t, sep);
      assert s == s[..i] + sep + t;
      var rest := SplitAll(t, sep);
      assert SplitAll(s, sep) == [s[..i]] + rest;
      if |rest| > 1 {
        assert EndsWith(t, sep + rest[|rest| - 1]);
      } else {
        assert rest == [t];
      }
    }
  }

  /** The longest prefix of `parts` whose last piece is not empty. */
  function DropTrailingEmpty(parts: seq<string>): (r: seq<string>)
    ensures |r| <= |parts|
  {
    if parts != [] && parts[|parts| - 1] == "" then DropTrailingEmpty(parts[..|parts| - 1]) else parts
  }

  /**
   * `String.split(sep)` for a separator without regular-expression metacharacters:
   * a string without `sep` comes back whole, otherwise the pieces between the
   * occurrences of `sep`, with trailing empty pieces dropped.
   */
  function Split(s: string, sep: string): seq<string>
    requires |sep| > 0
  {
    if IndexOf(s, sep) < 0 then [s] else DropTrailingEmpty(SplitAll(s, sep))
  }

  /**
   * A trimmed string that contains `sep`, where `sep` ends in white space, splits
   * into at least two pieces: its last piece cannot be empty.
   */
  lemma SplitTrimmed(s: string, sep: string)
    requires |sep| > 0 && IsWhite(sep[|sep| - 1])
    requires IsTrimmed(s) && Contains(s, sep)
    ensures Split(s, sep) == SplitAll(s, sep)
    ensures |Split(s, sep)| >= 2
  {
    var parts := SplitAll(s, sep);
    SplitAllSpec(s, sep);
    assert parts[|parts| - 1] != "";
  }

  /** The decimal digit for `d`. */
  function Digit(d: nat): (c: char)
    requires d < 10
    ensures '0' <= c <= '9'
  {
    "0123456789"[d]
  }

  function NatToString(n: nat): (r: string)
    ensures r != [] && forall i :: 0 <= i < |r| ==> '0' <= r[i] <= '9'
  {
    if n < 10 then [Digit(n)] else NatToString(n / 10) + [Digit(n % 10)]
  }

  /** `Integer.toString` / string concatenation of an `int`: optional minus sign, then digits. */
  function IntToString(n: int): (r: string)
    ensures r != [] && forall i :: 0 <= i < |r| ==> r[i] == '-' || '0' <= r[i] <= '9'
  {
    if n < 0 then "-" + NatToString(-n) else NatToString(n)
  }

  predicate IsLineBreak(c: char) {
    c == '\n' || c == '\r'
  }

  /** The index of the first '\n' or '\r' at or after `from`, or `|s|`. */
  function LineEnd(s: string, from: nat): (i: nat)
    requires from <= |s|
    ensures from <= i <= |s|
    ensures i < |s| ==> IsLineBreak(s[i])
    ensures forall j :: from <= j < i ==> !IsLineBreak(s[j])
    decreases |s| - from
  {
    if from == |s| || IsLineBreak(s[from]) then from else LineEnd(s, from + 1)
  }

  /**
   * `Files.readAllLines` after decoding: lines end at "\n", "\r" or "\r\n", and
   * a terminator at the very end does not start another line.
   */
  function ReadAllLines(text: string): (lines: seq<string>)
    ensures forall k :: 0 <= k < |lines| ==> forall j :: 0 <= j < |lines[k]| ==> !IsLineBreak(lines[k][j])
    decreases |text|
  {
    if text == [] then []
    else
      var i := LineEnd(text, 0);
      if i == |text| then [text]
      else if text[i] == '\r' && i + 1 < |text| && text[i + 1] == '\n' then [text[..i]] + ReadAllLines(text[i + 2..])
      else [text[..i]] + ReadAllLines(text[i + 1..])
  }

  predicate NoLineBreak(s: string) {
    forall j :: 0 <= j < |s| ==> !IsLineBreak(s[j])
  }

  /**
   * Lines joined by '\n' are read back as the same lines, provided none holds a
   * line break and the last one is not empty (an empty last line would leave
   * only a trailing terminator behind).
   */
  lemma {:induction false} ReadAllLinesJoin(ls: seq<string>)
    requires forall k :: 0 <= k < |ls| ==> NoLineBreak(ls[k])
    requires ls == [] || ls[|ls| - 1] != ""
    ensures ReadAllLines(Join(ls, "\n")) == ls
  {
    if |ls| == 1 {
      assert LineEnd(ls[0], 0) == |ls[0]|;
    } else if |ls| > 1 {
      var text := Join(ls, "\n");
      assert text == ls[0] + "\n" + Join(ls[1..], "\n");
      assert LineEnd(text, 0) == |ls[0]| by {
        assert forall j :: 0 <= j < |ls[0]| ==> text[j] == ls[0][j];
        assert text[|ls[0]|] == '\n';
      }
      assert text[..|ls[0]|] == ls[0];
      assert text[|ls[0]| + 1..] == Join(ls[1..], "\n");
      ReadAllLinesJoin(ls[1..]);
    }
  }

  /**
   * Lines joined by '\n' with one more '\n' at the end are read back as the same
   * lines: the final terminator does not start a line of its own.
   */
  lemma {:induction false} ReadAllLinesTerminated(ls: seq<string>)
    requires ls != [] && forall k :: 0 <= k < |ls| ==> NoLineBreak(ls[k])
    ensures ReadAllLines(Join(ls, "\n") + "\n") == ls
  {
    var text := Join(ls, "\n") + "\n";
    var rest := if |ls| == 1 then "" else Join(ls[1..], "\n") + "\n";
    assert text == ls[0] + "\n" + rest;
    assert LineEnd(text, 0) == |ls[0]| by {
      assert forall j :: 0 <= j < |ls[0]| ==> text[j] == ls[0][j];
      assert text[|ls[0]|] == '\n';
    }
    assert text[..|ls[0]|] == ls[0];
    assert text[|ls[0]| + 1..] == rest;
    if |ls| > 1 {
      ReadAllLinesTerminated(ls[1..]);
    }
  }

  /** White space on both sides of a trimmed, non-empty string disappears under `trim`. */
  lemma TrimAround(w1: string, s: string, w2: string)
    requires AllWhite(w1) && AllWhite(w2) && IsTrimmed(s) && s != []
    ensures Trim(w1 + s + w2) == s
  {
    var t := s + w2;
    assert t[0] == s[0];
    ConcatAssoc(w1, s, w2);
    TrimStartAfterWhite(w1, t);
    TrimEndBeforeWhite(s, w2);
    assert Trim(w1 + s + w2) == TrimEnd(TrimStart(w1 + t));
  }

  lemma {:induction false} TrimStartAfterWhite(w: string, t: string)
    requires AllWhite(w) && (t == [] || !IsWhite(t[0]))
    ensures TrimStart(w + t) == t
  {
    if w == [] {
      assert w + t == t;
    } else {
      assert (w + t)[1..] == w[1..] + t;
      TrimStartAfterWhite(w[1..], t);
    }
  }

  lemma {:induction false} TrimEndBeforeWhite(t: string, w: string)
    requires AllWhite(w) && (t == [] || !IsWhite(t[|t| - 1]))
    ensures TrimEnd(t + w) == t
  {
    if w == [] {
      assert t + w == t;
    } else {
      assert (t + w)[..|t + w| - 1] == t + w[..|w| - 1];
      TrimEndBeforeWhite(t, w[..|w| - 1]);
    }
  }

  lemma {:induction false} RemoveCharAppend(a: string, b: string, c: char)
    ensures RemoveChar(a + b, c) == RemoveChar(a, c) + RemoveChar(b, c)
  {
    if a == [] {
      assert a + b == b;
    } else {
      assert (a + b)[1..] == a[1..] + b;
      RemoveCharAppend(a[1..], b, c);
    }
  }

  /** A string without '=' holds no " = ". */
  lemma NoAssignSeparator(b: string)
    requires '=' !in b
    ensures IndexOf(b, " = ") < 0
  {
    forall i | 0 <= i
      ensures !OccursAt(b, " = ", i)
    {
      if i + 3 <= |b| {
        assert b[i + 1] != '=';
        assert b[i..i + 3][1] == b[i + 1];
      }
    }
    IndexOfSpec(b, " = ");
  }

  /** The first " = " of "a = b", where `a` holds no '=', is the one after `a`: it cuts `a` off. */
  lemma SplitAssignmentHead(a: string, b: string)
    requires '=' !in a
    ensures IndexOf(a + " = " + b, " = ") == |a|
    ensures SplitAll(a + " = " + b, " = ") == [a] + SplitAll(b, " = ")
  {
    var s := a + " = " + b;
    assert OccursAt(s, " = ", |a|) by {
      assert s[|a|..|a| + 3] == " = ";
    }
    forall i | 0 <= i < |a|
      ensures !OccursAt(s, " = ", i)
    {
      if i + 1 < |a| {
        assert s[i + 1] == a[i + 1] && a[i + 1] != '=';
      } else {
        assert s[|a|] == ' ';
      }
      assert s[i + 1] != '=';
    }
    IndexOfSpec(s, " = ");
    assert s[..|a|] == a && s[|a| + 3..] == b;
  }

  /** `split(" = ")` of "a = b", where neither side holds '=', gives back the two sides. */
  lemma SplitAssignment(a: string, b: string)
    requires '=' !in a && '=' !in b && b != []
    ensures Split(a + " = " + b, " = ") == [a, b]
  {
    SplitAssignmentHead(a, b);
    NoAssignSeparator(b);
    assert SplitAll(b, " = ") == [b];
  }

  /**
   * Joining non-empty items that hold no ',' with ", " and splitting the result
   * on ", " gives the items back.
   */
  lemma SplitJoinItems(items: seq<string>)
    requires items != []
    requires forall k :: 0 <= k < |items| ==> items[k] != [] && ',' !in items[k]
    ensures Split(Join(items, ", "), ", ") == items
  {
    SplitAllJoinItems(items);
    if |items| == 1 {
      NoItemSeparator(items[0]);
    }
  }

  lemma NoItemSeparator(b: string)
    requires ',' !in b
    ensures IndexOf(b, ", ") < 0
  {
    forall i | 0 <= i
      ensures !OccursAt(b, ", ", i)
    {
      if i + 2 <= |b| {
        assert b[i] != ',';
        assert b[i..i + 2][0] == b[i];
      }
    }
    IndexOfSpec(b, ", ");
  }

  lemma {:induction false} SplitAllJoinItems(items: seq<string>)
    requires items != []
    requires forall k :: 0 <= k < |items| ==> ',' !in items[k]
    ensures SplitAll(Join(items, ", "), ", ") == items
  {
    if |items| == 1 {
      NoItemSeparator(items[0]);
    } else {
      var a, b := items[0], Join(items[1..], ", ");
      assert Join(items, ", ") == a + ", " + b;
      FirstItemSeparator(a, b);
      SplitAllJoinItems(items[1..]);
    }
  }

  /** In "a, b" with no ',' in `a`, the first ", " follows `a`, so splitting cuts `a` off. */
  lemma FirstItemSeparator(a: string, b: string)
    requires ',' !in a
    ensures SplitAll(a + ", " + b, ", ") == [a] + SplitAll(b, ", ")
  {
    var s := a + ", " + b;
    assert OccursAt(s, ", ", |a|) by {
      assert s[|a|..|a| + 2] == ", ";
    }
    forall i | 0 <= i < |a|
      ensures !OccursAt(s, ", ", i)
    {
      assert s[i] == a[i] && a[i] != ',';
    }
    IndexOfSpec(s, ", ");
    assert IndexOf(s, ", ") == |a|;
    assert s[..|a|] == a && s[|a| + 2..] == b;
  }

  /** Moving the head of `xs` onto the end of `acc` leaves the concatenation as it was. */
  lemma AppendHead<T>(acc: seq<T>, xs: seq<T>)
    requires xs != []
    ensures (acc + [xs[0]]) + xs[1..] == acc + xs
  {
    assert [xs[0]] + xs[1..] == xs;
    ConcatAssoc(acc, [xs[0]], xs[1..]);
  }

  lemma ConcatAssoc<T>(a: seq<T>, b: seq<T>, c: seq<T>)
    ensures (a + b) + c == a + (b + c)
  {
  }

  /** Joining a line in front of non-empty lines puts one separator after it. */
  lemma JoinCons(x: string, ls: seq<string>, sep: string)
    requires ls != []
    ensures Join([x] + ls, sep) == x + sep + Join(ls, sep)
  {
    assert ([x] + ls)[0] == x && ([x] + ls)[1..] == ls;
  }
}
