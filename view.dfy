/**
 * Row formatting of view/view.go.
 *
 * `FormatRow` places a row's left text at the far left and its right text at
 * the far right of a line of `size` characters, padding with spaces, and
 * refuses when not even one space would separate the two. Go's `len` counts
 * bytes while `%-Ns` pads by characters; for ASCII text the two agree, and
 * the model counts characters.
 */
module View {
  import opened Optional

  /** Two columns of a display line; `highlight` inverts its colours when drawn. */
  datatype Row = Row(left: string, right: string, highlight: bool)

  /** The error `FormatRow` returns, carrying the values that did not fit. */
  datatype FormatError = Impossible(size: int, left: string, right: string)

  /** Go's pair of return values: the formatted line and a possibly nil error. */
  datatype Formatted = Formatted(text: string, error: Option<FormatError>)

  function Spaces(n: nat): (s: string)
    ensures |s| == n
    ensures forall i :: 0 <= i < n ==> s[i] == ' '
  {
    if n == 0 then [] else Spaces(n - 1) + " "
  }

  /** Lays out `row` in `size` characters, or reports that this is impossible. */
  function FormatRow(row: Row, size: int): (r: Formatted)
    ensures r.error.None? <==> size - |row.right| > |row.left|
    ensures r.error.Some? ==>
      r.text == [] && r.error.value == Impossible(size, row.left, row.right)
    ensures r.error.None? ==>
      |r.text| == size &&
      r.text == row.left + Spaces(size - |row.left| - |row.right|) + row.right
  {
    // the width the left column needs, padding included, to push the right column to `size`
    var leftSize := size - |row.right|;
    if leftSize <= |row.left| then
      Formatted([], Some(Impossible(size, row.left, row.right)))
    else
      // "%-<leftSize>s%s"
      Formatted(row.left + Spaces(leftSize - |row.left|) + row.right, None)
  }

  /** The number a string of decimal digits denotes, most significant digit first. */
  function Value(s: string): int {
    if s == [] then 0 else Value(s[..|s| - 1]) * 10 + (s[|s| - 1] as int - '0' as int)
  }

  /** Go's `%d`: the decimal digits of `n`, with a minus sign when negative. */
  function Decimal(n: int): (s: string)
    ensures s != []
    ensures n >= 0 ==> s[0] != '-' && Value(s) == n && (s[0] == '0' ==> s == "0")
    ensures n < 0 ==> s[0] == '-' && Value(s[1..]) == -n && |s| > 1 && s[1] != '0'
    ensures forall i :: (if n < 0 then 1 else 0) <= i < |s| ==> '0' <= s[i] <= '9'
  {
    if n < 0 then
      var d := Digits(-n);
      assert ("-" + d)[1..] == d;
      "-" + d
    else Digits(n)
  }

  /** The shortest decimal digits that denote `n`: no leading zero unless `n` is 0. */
  function Digits(n: nat): (s: string)
    ensures s != [] && Value(s) == n
    ensures s[0] == '0' ==> s == "0"
    ensures forall i :: 0 <= i < |s| ==> '0' <= s[i] <= '9'
    decreases n
  {
    var d := [('0' as int + n % 10) as char];
    if n < 10 then
      assert d[..0] == [];
      d
    else
      var h := Digits(n / 10);
      assert (h + d)[..|h + d| - 1] == h;
      h + d
  }

  /** The fixed pieces of the error text around the size and the two values. */
  const MessagePrefix := "view: formatting row to a size of "
  const WithSeparator := " with '"
  const AndSeparator := "' and '"
  const MessageEnding := "' values is impossible"

  /** The text of the error, as `fmt.Errorf` builds it. */
  function Message(e: FormatError): string {
    MessagePrefix + Decimal(e.size) + WithSeparator + e.left + AndSeparator + e.right + MessageEnding
  }

  /**
   * The error text reads back: the fixed prefix, the decimal size, the left
   * value between its fixed separators, the right value, then the fixed ending.
   */
  lemma MessageReadsBack(e: FormatError)
    ensures var m := Message(e); var d := Decimal(e.size);
      var l := |MessagePrefix| + |d| + |WithSeparator|; var r := l + |e.left| + |AndSeparator|;
      |m| == r + |e.right| + |MessageEnding| &&
      m[..|MessagePrefix|] == MessagePrefix &&
      m[|MessagePrefix|..|MessagePrefix| + |d|] == d &&
      m[|MessagePrefix| + |d|..l] == WithSeparator &&
      m[l..l + |e.left|] == e.left &&
      m[l + |e.left|..r] == AndSeparator &&
      m[r..r + |e.right|] == e.right &&
      m[r + |e.right|..] == MessageEnding
  {
    SevenParts(MessagePrefix, Decimal(e.size), WithSeparator, e.left, AndSeparator, e.right, MessageEnding);
  }

  /** Slicing within the first part of a concatenation slices that part. */
  lemma Within(x: string, y: string, i: int, j: int)
    requires 0 <= i <= j <= |x|
    ensures (x + y)[i..j] == x[i..j]
  {
  }

  /** Each of seven concatenated parts can be sliced back out. */
  lemma SevenParts(a: string, b: string, c: string, d: string, e: string, f: string, g: string)
    ensures var m := a + b + c + d + e + f + g;
      var i1 := |a|; var i2 := i1 + |b|; var i3 := i2 + |c|; var i4 := i3 + |d|;
      var i5 := i4 + |e|; var i6 := i5 + |f|;
      m[..i1] == a && m[i1..i2] == b && m[i2..i3] == c && m[i3..i4] == d &&
      m[i4..i5] == e && m[i5..i6] == f && m[i6..] == g
  {
    var a2 := a + b;
    var a3 := a2 + c;
    var a4 := a3 + d;
    var a5 := a4 + e;
    var a6 := a5 + f;
    var i1 := |a|; var i2 := i1 + |b|; var i3 := i2 + |c|; var i4 := i3 + |d|;
    var i5 := i4 + |e|; var i6 := i5 + |f|;
    assert (a6 + g)[..i1] == a by {
      Within(a6, g, 0, i1); Within(a5, f, 0, i1); Within(a4, e, 0, i1);
      Within(a3, d, 0, i1); Within(a2, c, 0, i1); Within(a, b, 0, i1);
    }
    assert (a6 + g)[i1..i2] == b by {
      Within(a6, g, i1, i2); Within(a5, f, i1, i2); Within(a4, e, i1, i2);
      Within(a3, d, i1, i2); Within(a2, c, i1, i2);
    }
    assert (a6 + g)[i2..i3] == c by {
      Within(a6, g, i2, i3); Within(a5, f, i2, i3); Within(a4, e, i2, i3); Within(a3, d, i2, i3);
    }
    assert (a6 + g)[i3..i4] == d by {
      Within(a6, g, i3, i4); Within(a5, f, i3, i4); Within(a4, e, i3, i4);
    }
    assert (a6 + g)[i4..i5] == e by {
      Within(a6, g, i4, i5); Within(a5, f, i4, i5);
    }
    assert (a6 + g)[i5..i6] == f by {
      Within(a6, g, i5, i6);
    }
    assert (a6 + g)[i6..] == g;
  }

  /**
   * A formatted row can be read back: its first characters are the left
   * text, its last ones the right text, and only spaces, at least one, lie
   * between them.
   */
  lemma FormatRowReadsBack(row: Row, size: int)
    requires FormatRow(row, size).error.None?
    ensures var t := FormatRow(row, size).text;
      t[..|row.left|] == row.left &&
      t[size - |row.right|..] == row.right &&
      |row.left| < size - |row.right| &&
      forall i :: |row.left| <= i < size - |row.right| ==> t[i] == ' '
  {
    var t := FormatRow(row, size).text;
    var pad := Spaces(size - |row.left| - |row.right|);
    assert t == row.left + pad + row.right;
    assert t[..|row.left|] == row.left;
    assert t[size - |row.right|..] == row.right;
    forall i | |row.left| <= i < size - |row.right|
      ensures t[i] == ' '
    {
      assert t[i] == pad[i - |row.left|];
    }
  }

  /** "left" and "right" in 10 characters, one space apart. */
  lemma FormatRowExample()
    ensures FormatRow(Row("left", "right", false), 10) == Formatted("left right", None)
  {
    assert Spaces(1) == " ";
  }

  /** With no left text the right text is right-aligned. */
  lemma FormatRowRightAligned()
    ensures FormatRow(Row("", "right", false), 10) == Formatted("     right", None)
  {
    assert Spaces(5) == "     ";
  }

  /** Exactly the combined width leaves no room for a separator, so formatting fails with the message. */
  lemma FormatRowTooNarrow()
    ensures FormatRow(Row("left", "right", false), 9).text == []
    ensures Message(FormatRow(Row("left", "right", false), 9).error.value) ==
      "view: formatting row to a size of " + "9" +
      " with '" + "left" + "' and '" + "right" + "' values is impossible"
  {
    var e := FormatRow(Row("left", "right", false), 9).error.value;
    assert e == Impossible(9, "left", "right");
    NineMessage();
  }

  lemma NineMessage()
    ensures Message(Impossible(9, "left", "right")) ==
      "view: formatting row to a size of " + "9" +
      " with '" + "left" + "' and '" + "right" + "' values is impossible"
  {
    assert Digits(9) == ['9'];
    assert Decimal(9) == "9";
  }
}
