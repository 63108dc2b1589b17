/** The string operations the calculators apply to role names and verdict
    texts: JavaScript's `s.replace(' ', '\n')` (which replaces the FIRST
    space only), `s.split(' ')[0]`, and the decimal rendering of a
    non-negative integer inside a template literal. */
module Text {

  /** The position of the first space in `s`, or `|s|` when there is none. */
  function IndexOfSpace(s: string): (i: nat)
    ensures i <= |s|
    ensures i < |s| ==> s[i] == ' '
    ensures forall j :: 0 <= j < i ==> s[j] != ' '
  {
    if |s| == 0 then 0
    else if s[0] == ' ' then 0
    else 1 + IndexOfSpace(s[1..])
  }

  /** `s.replace(' ', '\n')`: the first space, if any, becomes a line break. */
  function ReplaceFirstSpace(s: string): (t: string)
    ensures |t| == |s|
  {
    var i := IndexOfSpace(s);
    if i < |s| then s[..i] + "\n" + s[i + 1..] else s
  }

  /** `s.split(' ')[0]`: the text before the first space (all of `s` when it
      holds no space). */
  function FirstWord(s: string): (w: string)
    ensures ' ' !in w
  {
    s[..IndexOfSpace(s)]
  }

  /** `ReplaceFirstSpace` changes at most one character: the first space,
      which becomes a line break; every other character keeps its place. */
  lemma ReplaceFirstSpaceOnlyTouchesFirstSpace(s: string)
    ensures var t := ReplaceFirstSpace(s);
      forall j :: 0 <= j < |s| ==>
        t[j] == (if j == IndexOfSpace(s) then '\n' else s[j])
  {
    var i := IndexOfSpace(s);
    if i < |s| {
      SpliceAt(s, i, '\n');
      assert ReplaceFirstSpace(s) == s[..i] + ['\n'] + s[i + 1..];
    }
  }

  /** Overwriting position `i` changes that position only. */
  lemma SpliceAt(s: string, i: nat, c: char)
    requires i < |s|
    ensures forall j :: 0 <= j < |s| ==> (s[..i] + [c] + s[i + 1..])[j] == if j == i then c else s[j]
  {
    var t := s[..i] + [c] + s[i + 1..];
    forall j | 0 <= j < |s| ensures t[j] == if j == i then c else s[j] {
      if j < i {
        assert t[j] == s[..i][j];
      } else if j > i {
        assert t[j] == s[i + 1..][j - i - 1];
      }
    }
  }

  /** The two role labels fit together: the name is the first word, then
      (when there is a space) the space and the rest; the chart label puts a
      line break where that space was. Putting the space back recovers the
      name. */
  lemma {:induction false} LabelsRecoverName(s: string)
    ensures var w := FirstWord(s);
      |w| < |s| ==>
        && s == w + " " + s[|w| + 1..]
        && ReplaceFirstSpace(s) == w + "\n" + s[|w| + 1..]
    ensures var w := FirstWord(s);
      |w| == |s| ==> w == s && ReplaceFirstSpace(s) == s
  {
    var i := IndexOfSpace(s);
    if i < |s| {
      assert s == s[..i] + [s[i]] + s[i + 1..];
    } else {
      assert s[..i] == s;
    }
  }

  /** Conversely, a space-free word joined to any rest by a space is read
      back as that word, and the chart label breaks the line exactly there. */
  lemma {:induction false} LabelsOfJoinedName(w: string, rest: string)
    requires ' ' !in w
    ensures IndexOfSpace(w + " " + rest) == |w|
    ensures FirstWord(w + " " + rest) == w
    ensures ReplaceFirstSpace(w + " " + rest) == w + "\n" + rest
  {
    var s := w + " " + rest;
    if |w| > 0 {
      assert s[1..] == w[1..] + " " + rest;
      LabelsOfJoinedName(w[1..], rest);
    }
    assert s[..|w|] == w;
    assert s[|w| + 1..] == rest;
  }

  predicate IsDigit(c: char) { '0' <= c <= '9' }

  function DigitChar(d: nat): (c: char)
    requires d < 10
    ensures IsDigit(c)
  {
    "0123456789"[d]
  }

  function DigitValue(c: char): (d: nat)
    requires IsDigit(c)
    ensures d < 10
  {
    (c as int - '0' as int) as nat
  }

  /** The decimal text of `n`, as `${n}` renders a non-negative integer. */
  function NatToString(n: nat): (s: string)
    ensures |s| >= 1
    ensures forall i :: 0 <= i < |s| ==> IsDigit(s[i])
    ensures |s| > 1 ==> s[0] != '0'
  {
    if n < 10 then [DigitChar(n)]
    else NatToString(n / 10) + [DigitChar(n % 10)]
  }

  /** Reads a string of decimal digits back as a number. */
  function ParseDecimal(s: string): nat
    requires forall i :: 0 <= i < |s| ==> IsDigit(s[i])
  {
    if |s| == 0 then 0
    else ParseDecimal(s[..|s| - 1]) * 10 + DigitValue(s[|s| - 1])
  }

  /** Rendering a count as text loses nothing: reading it back gives the count. */
  lemma {:induction false} NatToStringRoundTrip(n: nat)
    ensures ParseDecimal(NatToString(n)) == n
  {
    var s := NatToString(n);
    if n < 10 {
      assert s[..|s| - 1] == [];
    } else {
      NatToStringRoundTrip(n / 10);
      assert s[..|s| - 1] == NatToString(n / 10);
    }
  }

  /** Distinct counts render as distinct texts. */
  lemma NatToStringInjective(m: nat, n: nat)
    requires NatToString(m) == NatToString(n)
    ensures m == n
  {
    NatToStringRoundTrip(m);
    NatToStringRoundTrip(n);
  }
}
