/**
 * `Yaml.framedHeader`: turns header lines into a box of fixed width, each line
 * centred between "# < " and " > #" and the whole framed by a border line above
 * and below. Lines too long for the box are dropped. The finished list goes to
 * `setHeader`; here it is the method's result.
 */
module YamlHeader {
  import opened JavaText

  /** The border line above and below the header: 52 dashes between "# +" and "+ #". */
  const BORDER: string := "# +" + Repeat('-', 52) + "+ #"

  /** `n` copies of `c`. */
  function Repeat(c: char, n: nat): (r: string)
    ensures |r| == n
    ensures forall i :: 0 <= i < n ==> r[i] == c
  {
    if n == 0 then "" else Repeat(c, n - 1) + [c]
  }

  /** The width, in UTF-16 code units, the text of a framed line is padded to; longer lines are dropped. */
  const WIDTH: nat := 50

  /** `s` read backwards, as `StringBuilder.reverse` leaves it (one char per position). */
  function Reversed(s: string): (r: string)
    ensures |r| == |s|
    ensures forall i :: 0 <= i < |s| ==> r[i] == s[|s| - 1 - i]
  {
    if s == [] then [] else Reversed(s[1..]) + [s[0]]
  }

  /** Reversing a concatenation reverses and swaps its parts. */
  lemma ReversedAppend(a: string, b: string)
    ensures Reversed(a + b) == Reversed(b) + Reversed(a)
  {
    assert |Reversed(a + b)| == |Reversed(b) + Reversed(a)|;
    forall i | 0 <= i < |a + b|
      ensures Reversed(a + b)[i] == (Reversed(b) + Reversed(a))[i]
    {
      if i < |b| {
        assert (a + b)[|a + b| - 1 - i] == b[|b| - 1 - i];
      } else {
        assert (a + b)[|a + b| - 1 - i] == a[|a| - 1 - (i - |b|)];
      }
    }
  }

  lemma ReversedTwice(s: string)
    ensures Reversed(Reversed(s)) == s
  {
  }

  /**
   * One pass of the inner loop, append " ", reverse, append " ", reverse, puts
   * one space on each side of the text and leaves the text the right way round.
   */
  lemma WrapInSpaces(s: string)
    ensures Reversed(Reversed(s + " ") + " ") == " " + s + " "
  {
    ReversedAppend(Reversed(s + " "), " ");
    ReversedTwice(s + " ");
    assert Reversed(" ") == " ";
  }

  /** One more space on each side of a line already padded by `n`. */
  lemma WiderPadding(line: string, n: nat)
    ensures " " + (Spaces(n) + line + Spaces(n)) + " " == Spaces(n + 1) + line + Spaces(n + 1)
  {
    assert " " + Spaces(n) == Spaces(n + 1);
  }

  /** The spaces put on each side of `line`: the `length` of `framedHeader`'s inner loop. */
  function Margin(line: string): nat
    requires Utf16Length(line) <= WIDTH
  {
    (WIDTH - Utf16Length(line)) / 2
  }

  /** The one extra space on the right for a line of odd length. */
  function OddSpace(line: string): string {
    if Utf16Length(line) % 2 != 0 then " " else ""
  }

  /** `line` padded to `WIDTH`: centred, with the odd space, if any, on the right. */
  function Padded(line: string): string
    requires Utf16Length(line) <= WIDTH
  {
    Spaces(Margin(line)) + line + Spaces(Margin(line)) + OddSpace(line)
  }

  /** The framed form of a header line short enough to keep. */
  function Framed(line: string): string
    requires Utf16Length(line) <= WIDTH
  {
    "# < " + Padded(line) + " > #"
  }

  /** The framed lines for `header`, in order, skipping lines longer than `WIDTH`. */
  function FramedLines(header: seq<string>): seq<string> {
    if header == [] then []
    else (if Utf16Length(header[0]) > WIDTH then [] else [Framed(header[0])]) + FramedLines(header[1..])
  }

  /** The list `framedHeader` hands to `setHeader`. */
  function FramedHeaderSpec(header: seq<string>): seq<string> {
    [BORDER] + FramedLines(header) + [BORDER]
  }

  /** The header lines short enough to be kept, in order. */
  function Kept(header: seq<string>): (r: seq<string>)
    ensures |r| <= |header|
    ensures forall i :: 0 <= i < |r| ==> Utf16Length(r[i]) <= WIDTH
  {
    if header == [] then []
    else (if Utf16Length(header[0]) > WIDTH then [] else [header[0]]) + Kept(header[1..])
  }

  /** The kept lines are header lines no longer than `WIDTH`, and every such line is kept. */
  lemma {:induction false} KeptLines(header: seq<string>)
    ensures forall i :: 0 <= i < |Kept(header)| ==> Kept(header)[i] in header
    ensures forall i :: 0 <= i < |header| && Utf16Length(header[i]) <= WIDTH ==> header[i] in Kept(header)
  {
    if header != [] {
      KeptLines(header[1..]);
      assert forall i :: 1 <= i < |header| ==> header[i] == header[1..][i - 1];
    }
  }

  /** `n` blanks are `n` code units. */
  lemma SpacesUnits(n: nat)
    ensures Utf16Length(Spaces(n)) == n
  {
    Utf16LengthBmp(Spaces(n));
  }

  /**
   * Every padded text is exactly `WIDTH` code units long, with the line in the
   * middle and only spaces around it.
   */
  lemma PaddedShape(line: string)
    requires Utf16Length(line) <= WIDTH
    ensures Utf16Length(Padded(line)) == WIDTH
    ensures var n := Margin(line);
      && n + |line| <= |Padded(line)|
      && Padded(line)[n..n + |line|] == line
      && (forall i :: 0 <= i < n ==> Padded(line)[i] == ' ')
      && (forall i :: n + |line| <= i < |Padded(line)| ==> Padded(line)[i] == ' ')
  {
    var n, odd := Margin(line), OddSpace(line);
    assert 2 * n + Utf16Length(line) + |odd| == WIDTH;
    PaddedUnits(line, n, odd);
    SpacesAround(line, n, odd);
  }

  /** The text between `n` spaces on each side, and then `odd`, sits at `n` with only spaces around it. */
  lemma SpacesAround(line: string, n: nat, odd: string)
    requires forall i :: 0 <= i < |odd| ==> odd[i] == ' '
    ensures var p := Spaces(n) + line + Spaces(n) + odd;
      && n + |line| <= |p|
      && p[n..n + |line|] == line
      && (forall i :: 0 <= i < n ==> p[i] == ' ')
      && (forall i :: n + |line| <= i < |p| ==> p[i] == ' ')
  {
    var p := Spaces(n) + line + Spaces(n) + odd;
    assert p[n..n + |line|] == line;
    forall i | n + |line| <= i < |p|
      ensures p[i] == ' '
    {
      if i < n + |line| + n {
        assert p[i] == Spaces(n)[i - n - |line|];
      } else {
        assert p[i] == odd[i - n - |line| - n];
      }
    }
  }

  /** Counting the code units of the padded text piece by piece. */
  lemma PaddedUnits(line: string, n: nat, odd: string)
    requires odd == OddSpace(line)
    requires 2 * n + Utf16Length(line) + |odd| == WIDTH
    ensures Utf16Length(Spaces(n) + line + Spaces(n) + odd) == WIDTH
  {
    Utf16LengthAppend(Spaces(n) + line + Spaces(n), odd);
    Utf16LengthAppend(Spaces(n) + line, Spaces(n));
    Utf16LengthAppend(Spaces(n), line);
    SpacesUnits(n);
    assert Utf16Length(odd) == |odd|;
  }

  lemma {:induction false} RepeatUnits(c: char, n: nat)
    requires c as int < 0x1_0000
    ensures Utf16Length(Repeat(c, n)) == n
  {
    Utf16LengthBmp(Repeat(c, n));
  }

  /** The border is 58 code units, one char each. */
  lemma BorderUnits()
    ensures |BORDER| == 58 && Utf16Length(BORDER) == 58
  {
    RepeatUnits('-', 52);
    Utf16LengthAppend("# +" + Repeat('-', 52), "+ #");
    Utf16LengthAppend("# +", Repeat('-', 52));
    assert Utf16Length("# +") == |"# +"|;
    assert Utf16Length("+ #") == |"+ #"|;
  }

  /**
   * Every framed line is as wide as the border, in code units, and its padded text
   * sits between the markers.
   */
  lemma FramedShape(line: string)
    requires Utf16Length(line) <= WIDTH
    ensures Utf16Length(Framed(line)) == Utf16Length(BORDER)
    ensures |Framed(line)| >= 8
    ensures Framed(line)[..4] == "# < " && Framed(line)[|Framed(line)| - 4..] == " > #"
    ensures Framed(line)[4..|Framed(line)| - 4] == Padded(line)
  {
    var p := Padded(line);
    PaddedShape(line);
    BorderUnits();
    Utf16LengthAppend("# < " + p, " > #");
    Utf16LengthAppend("# < ", p);
    assert Utf16Length("# < ") == |"# < "|;
    assert Utf16Length(" > #") == |" > #"|;
  }

  /** For a line with no char above U+FFFF, Java's length is the char count and the framed line is 58 chars. */
  lemma FramedBmpWidth(line: string)
    requires forall i :: 0 <= i < |line| ==> line[i] as int < 0x1_0000
    requires |line| <= WIDTH
    ensures Utf16Length(line) == |line|
    ensures |Framed(line)| == |BORDER| == 58
  {
    Utf16LengthBmp(line);
    BorderUnits();
    assert |Padded(line)| == 2 * Margin(line) + |line| + |OddSpace(line)|;
  }

  /** The framed lines of two runs of header lines, one after the other: order is kept. */
  lemma {:induction false} FramedLinesAppend(a: seq<string>, b: seq<string>)
    ensures FramedLines(a + b) == FramedLines(a) + FramedLines(b)
  {
    if a == [] {
      assert a + b == b;
    } else {
      assert (a + b)[0] == a[0] && (a + b)[1..] == a[1..] + b;
      FramedLinesAppend(a[1..], b);
      ConcatAssoc(if Utf16Length(a[0]) > WIDTH then [] else [Framed(a[0])], FramedLines(a[1..]), FramedLines(b));
    }
  }

  /** Exactly the kept lines are framed, one framed line each, in order. */
  lemma {:induction false} FramedLinesAreKept(header: seq<string>)
    ensures |FramedLines(header)| == |Kept(header)|
    ensures forall i :: 0 <= i < |Kept(header)| ==> FramedLines(header)[i] == Framed(Kept(header)[i])
  {
    if header != [] {
      FramedLinesAreKept(header[1..]);
      var tail, keptTail := FramedLines(header[1..]), Kept(header[1..]);
      if Utf16Length(header[0]) > WIDTH {
        assert FramedLines(header) == [] + tail && Kept(header) == [] + keptTail;
      } else {
        assert FramedLines(header) == [Framed(header[0])] + tail;
        assert Kept(header) == [header[0]] + keptTail;
      }
    }
  }

  /**
   * The header list starts and ends with the border, holds 2 more lines than
   * there are kept header lines, and its inner lines are the kept lines framed.
   */
  lemma FramedHeaderShape(header: seq<string>)
    ensures var r := FramedHeaderSpec(header);
      && |r| == |Kept(header)| + 2
      && r[0] == BORDER && r[|r| - 1] == BORDER
      && (forall i :: 0 <= i < |Kept(header)| ==> r[i + 1] == Framed(Kept(header)[i]))
  {
    FramedLinesAreKept(header);
  }

  /** With no header lines, only the two borders. */
  lemma EmptyHeader()
    ensures FramedHeaderSpec([]) == [BORDER, BORDER]
  {
  }

  /** `StringBuilder`, reduced to the chars it holds. */
  class StringBuilder {
    var chars: string

    constructor (s: string)
      ensures chars == s
    {
      chars := s;
    }

    method Append(s: string)
      modifies this
      ensures chars == old(chars) + s
    {
      chars := chars + s;
    }

    method Reverse()
      modifies this
      ensures chars == Reversed(old(chars))
    {
      chars := Reversed(chars);
    }
  }

  /** The body of `framedHeader`'s loop for a line that is kept: centre it and frame it. */
  method FrameLine(line: string) returns (framed: string)
    requires Utf16Length(line) <= WIDTH
    ensures framed == Framed(line)
  {
    var builder := new StringBuilder("");
    var finalLine := Centre(line);
    builder.Append("# < ");
    assert builder.chars == "# < ";
    builder.Append(finalLine);
    builder.Append(" > #");
    framed := builder.chars;
  }

  /**
   * The `finalLine` builder: the line, then a space on each side per pass of the
   * append/reverse loop, then one more space on the right for an odd length.
   */
  method Centre(line: string) returns (padded: string)
    requires Utf16Length(line) <= WIDTH
    ensures padded == Padded(line)
  {
    var length := Margin(line);
    var finalLine := new StringBuilder(line);
    for i := 0 to length
      invariant finalLine.chars == Spaces(i) + line + Spaces(i)
    {
      ghost var before := finalLine.chars;
      finalLine.Append(" ");
      finalLine.Reverse();
      finalLine.Append(" ");
      finalLine.Reverse();
      WrapInSpaces(before);
      WiderPadding(line, i);
    }
    if Utf16Length(line) % 2 != 0 {
      finalLine.Append(" ");
    }
    padded := finalLine.chars;
  }

  /** `framedHeader`: the list it passes to `setHeader`. */
  method FramedHeader(header: seq<string>) returns (stringList: seq<string>)
    ensures stringList == FramedHeaderSpec(header)
  {
    stringList := [BORDER];
    for i := 0 to |header|
      invariant stringList == [BORDER] + FramedLines(header[..i])
    {
      var line := header[i];
      FramedLinesAppend(header[..i], [line]);
      assert header[..i + 1] == header[..i] + [line];
      assert [line][1..] == [];
      if Utf16Length(line) > WIDTH {
        continue;
      }
      var framed := FrameLine(line);
      stringList := stringList + [framed];
    }
    assert header[..|header|] == header;
    stringList := stringList + [BORDER];
  }
}
