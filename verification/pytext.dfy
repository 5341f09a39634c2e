/**
 The few Python string operations the modelled code relies on, over
 `string` (a sequence of characters): whitespace splitting and stripping,
 padding (`center`, `rjust`, `ljust`), clamped slicing, substring
 counting, integer formatting, `readlines` and `os.path.splitext`.
 */
module PyText {

  /** `str.isspace` on the ASCII range: the space, the controls 9-13
      (tab, line feed, vertical tab, form feed, carriage return) and the
      separators 28-31. */
  predicate IsSpace(c: char)
  {
    c == ' ' || 9 <= c as int <= 13 || 28 <= c as int <= 31
  }

  predicate NoSpace(s: string)
  {
    forall i :: 0 <= i < |s| ==> !IsSpace(s[i])
  }

  predicate AllSpace(s: string)
  {
    forall i :: 0 <= i < |s| ==> IsSpace(s[i])
  }

  /** A token that `str.split()` can return: non-empty and free of whitespace. */
  predicate IsWord(s: string)
  {
    |s| > 0 && NoSpace(s)
  }

  /** A string that `str.strip()` leaves unchanged. */
  predicate IsStripped(s: string)
  {
    s == [] || (!IsSpace(s[0]) && !IsSpace(s[|s| - 1]))
  }

  /** A string that `readlines` keeps on a single line. */
  predicate NoNewline(s: string)
  {
    '\n' !in s && '\r' !in s
  }

  function Min(a: int, b: int): int
  {
    if a <= b then a else b
  }

  function Max(a: int, b: int): int
  {
    if a >= b then a else b
  }

  function Spaces(n: nat): (r: string)
    ensures |r| == n
    ensures forall i :: 0 <= i < n ==> r[i] == ' '
  {
    seq(n, _ => ' ')
  }

  lemma SpacesAreSpace(n: nat)
    ensures AllSpace(Spaces(n))
  {
  }

  // ---------------------------------------------------------------------
  // str.split()

  /** Length of the leading run of non-whitespace characters. */
  function WordLength(s: string): (n: nat)
    ensures n <= |s|
    ensures forall i :: 0 <= i < n ==> !IsSpace(s[i])
    ensures n < |s| ==> IsSpace(s[n])
    decreases |s|
  {
    if s == [] || IsSpace(s[0]) then 0 else 1 + WordLength(s[1..])
  }

  /** `s.split()`: the maximal runs of non-whitespace characters, in order. */
  function Split(s: string): (ws: seq<string>)
    ensures forall i :: 0 <= i < |ws| ==> IsWord(ws[i])
    decreases |s|
  {
    if s == [] then []
    else if IsSpace(s[0]) then Split(s[1..])
    else
      var n := WordLength(s);
      [s[..n]] + Split(s[n..])
  }

  lemma WordLengthOfWord(w: string, t: string)
    requires NoSpace(w)
    requires t == [] || IsSpace(t[0])
    ensures WordLength(w + t) == |w|
    decreases |w|
  {
    if w != [] {
      assert (w + t)[1..] == w[1..] + t;
      WordLengthOfWord(w[1..], t);
    } else {
      assert w + t == t;
    }
  }

  /** A word followed by whitespace (or nothing) is split off as one token. */
  lemma SplitWordThen(w: string, t: string)
    requires IsWord(w)
    requires t == [] || IsSpace(t[0])
    ensures Split(w + t) == [w] + Split(t)
  {
    WordLengthOfWord(w, t);
    assert (w + t)[..|w|] == w;
    assert (w + t)[|w|..] == t;
  }

  /** Leading whitespace is skipped. */
  lemma SplitSpaceThen(c: char, t: string)
    requires IsSpace(c)
    ensures Split([c] + t) == Split(t)
  {
    assert ([c] + t)[1..] == t;
  }

  /** A string of whitespace only splits into no tokens. */
  lemma {:induction false} SplitAllSpace(s: string)
    requires AllSpace(s)
    ensures Split(s) == []
    decreases |s|
  {
    if s != [] {
      SplitAllSpace(s[1..]);
    }
  }

  // ---------------------------------------------------------------------
  // sep.join(parts)

  /** `sep.join(parts)`. */
  function Join(sep: string, parts: seq<string>): string
    decreases |parts|
  {
    if |parts| == 0 then ""
    else if |parts| == 1 then parts[0]
    else parts[0] + sep + Join(sep, parts[1..])
  }

  /** `"".join(parts)`. */
  function Concat(parts: seq<string>): string
    decreases |parts|
  {
    if parts == [] then "" else parts[0] + Concat(parts[1..])
  }

  /** Every part followed by a line feed. */
  function Terminate(lines: seq<string>): (r: seq<string>)
    ensures |r| == |lines|
    ensures forall i :: 0 <= i < |lines| ==> r[i] == lines[i] + "\n"
  {
    seq(|lines|, i requires 0 <= i < |lines| => lines[i] + "\n")
  }

  /** Splitting words joined by single spaces, with a trailing line feed,
      gives the words back. */
  lemma {:induction false} SplitJoinedWords(ws: seq<string>)
    requires |ws| > 0
    requires forall i :: 0 <= i < |ws| ==> IsWord(ws[i])
    ensures Split(Join(" ", ws) + "\n") == ws
    decreases |ws|
  {
    if |ws| == 1 {
      SplitWordThen(ws[0], "\n");
      SplitAllSpace("\n");
    } else {
      var rest := Join(" ", ws[1..]) + "\n";
      assert Join(" ", ws) + "\n" == ws[0] + ([' '] + rest);
      SplitWordThen(ws[0], [' '] + rest);
      SplitSpaceThen(' ', rest);
      SplitJoinedWords(ws[1..]);
      assert ws == [ws[0]] + ws[1..];
    }
  }

  // ---------------------------------------------------------------------
  // str.strip()

  /** `s.lstrip()`. */
  function LStrip(s: string): (r: string)
    ensures |r| <= |s| && r == s[|s| - |r|..]
    ensures AllSpace(s[..|s| - |r|])
    ensures r == [] || !IsSpace(r[0])
    decreases |s|
  {
    if s != [] && IsSpace(s[0]) then
      var r := LStrip(s[1..]);
      assert s[1..][..|s| - 1 - |r|] == s[1..|s| - |r|];
      r
    else s
  }

  /** `s.rstrip()`. */
  function RStrip(s: string): (r: string)
    ensures |r| <= |s| && r == s[..|r|]
    ensures AllSpace(s[|r|..])
    ensures r == [] || !IsSpace(r[|r| - 1])
    decreases |s|
  {
    if s != [] && IsSpace(s[|s| - 1]) then
      var r := RStrip(s[..|s| - 1]);
      assert s[..|s| - 1][|r|..] == s[|r|..|s| - 1];
      assert s[|r|..] == s[|r|..|s| - 1] + [s[|s| - 1]];
      r
    else s
  }

  /** `s.strip()`. */
  function Strip(s: string): string
  {
    RStrip(LStrip(s))
  }

  lemma {:induction false} LStripPadded(a: string, w: string)
    requires AllSpace(a)
    requires w == [] || !IsSpace(w[0])
    ensures LStrip(a + w) == w
    decreases |a|
  {
    if a == [] {
      assert a + w == w;
    } else {
      assert (a + w)[1..] == a[1..] + w;
      LStripPadded(a[1..], w);
    }
  }

  lemma {:induction false} RStripPadded(w: string, b: string)
    requires AllSpace(b)
    requires w == [] || !IsSpace(w[|w| - 1])
    ensures RStrip(w + b) == w
    decreases |b|
  {
    if b == [] {
      assert w + b == w;
    } else {
      assert (w + b)[..|w + b| - 1] == w + b[..|b| - 1];
      RStripPadded(w, b[..|b| - 1]);
    }
  }

  /** Stripping a stripped string padded with whitespace on both sides
      gives it back. */
  lemma StripPadded(a: string, w: string, b: string)
    requires AllSpace(a) && AllSpace(b)
    requires IsStripped(w)
    ensures Strip(a + w + b) == w
  {
    if w == [] {
      assert a + w + b == a + b;
      assert AllSpace(a + b);
      LStripPadded(a + b, []);
      assert a + b + [] == a + b;
      assert LStrip(a + b) == [];
      assert RStrip([]) == [];
    } else {
      assert a + w + b == a + (w + b);
      LStripPadded(a, w + b);
      RStripPadded(w, b);
    }
  }

  /** A stripped string is its own strip. */
  lemma StripStripped(s: string)
    requires IsStripped(s)
    ensures Strip(s) == s
  {
    LStripPadded([], s);
    assert [] + s == s;
    RStripPadded(s, []);
    assert s + [] == s;
  }

  // ---------------------------------------------------------------------
  // Padding: str.center, str.rjust, str.ljust

  /** Number of pad characters `str.center` puts on the left: CPython gives
      the odd extra one to the left only when both the margin and the width
      are odd. */
  function CenterLeft(margin: nat, width: nat): (left: nat)
    ensures left <= margin
  {
    margin / 2 + (if margin % 2 == 1 && width % 2 == 1 then 1 else 0)
  }

  /** `s.center(width)`. */
  function Center(s: string, width: nat): (r: string)
    ensures |r| == Max(|s|, width)
  {
    if |s| >= width then s
    else
      var margin := width - |s|;
      var left := CenterLeft(margin, width);
      Spaces(left) + s + Spaces(margin - left)
  }

  /** `s.rjust(width)`. */
  function RJust(s: string, width: nat): (r: string)
    ensures |r| == Max(|s|, width)
  {
    if |s| >= width then s else Spaces(width - |s|) + s
  }

  /** `s.ljust(width)`, which is also what the format spec `{0:<width>}`
      does to a string. */
  function LJust(s: string, width: nat): (r: string)
    ensures |r| == Max(|s|, width)
  {
    if |s| >= width then s else s + Spaces(width - |s|)
  }

  /** Centring a stripped string and stripping it again gives it back. */
  lemma StripCenter(s: string, width: nat)
    requires IsStripped(s)
    ensures Strip(Center(s, width)) == s
  {
    if |s| < width {
      var margin := width - |s|;
      var left := CenterLeft(margin, width);
      var a, b := Spaces(left), Spaces(margin - left);
      SpacesAreSpace(left);
      SpacesAreSpace(margin - left);
      assert Center(s, width) == a + s + b;
      StripPadded(a, s, b);
    } else {
      assert Center(s, width) == s;
      StripStripped(s);
    }
  }

  /** Right-justifying a stripped string and stripping it again gives it back. */
  lemma StripRJust(s: string, width: nat)
    requires IsStripped(s)
    ensures Strip(RJust(s, width)) == s
  {
    if |s| < width {
      var a := Spaces(width - |s|);
      SpacesAreSpace(width - |s|);
      assert RJust(s, width) == a + s + [];
      StripPadded(a, s, []);
    } else {
      assert RJust(s, width) == s;
      StripStripped(s);
    }
  }

  // ---------------------------------------------------------------------
  // Slicing

  /** `s[i:j]` for non-negative bounds: Python clamps both to the length. */
  function Slice(s: string, i: nat, j: nat): (r: string)
    requires i <= j
    ensures |r| <= j - i
  {
    s[Min(i, |s|)..Min(j, |s|)]
  }

  /** `s[:k]`. */
  function Prefix(s: string, k: nat): string
  {
    Slice(s, 0, k)
  }

  /** `s[-k:]` for `k > 0`: the last `k` characters, or all of `s` when it
      is shorter. */
  function Tail(s: string, k: nat): (r: string)
    requires k > 0
    ensures |r| == Min(k, |s|)
  {
    if |s| >= k then s[|s| - k..] else s
  }

  // ---------------------------------------------------------------------
  // str.count

  /** `s.count(pat)`: non-overlapping occurrences, scanned left to right. */
  function Count(s: string, pat: string): nat
    requires |pat| > 0
    decreases |s|
  {
    if |s| < |pat| then 0
    else if s[..|pat|] == pat then 1 + Count(s[|pat|..], pat)
    else Count(s[1..], pat)
  }

  /** A string holding `pat` somewhere counts at least one occurrence. */
  lemma {:induction false} CountPositive(s: string, pat: string, at: nat)
    requires |pat| > 0
    requires at + |pat| <= |s| && s[at..at + |pat|] == pat
    ensures Count(s, pat) >= 1
    decreases |s|
  {
    if s[..|pat|] != pat {
      assert at > 0;
      assert s[1..][at - 1..at - 1 + |pat|] == s[at..at + |pat|];
      CountPositive(s[1..], pat, at - 1);
    }
  }

  // ---------------------------------------------------------------------
  // Integer formatting: str(n) and '{0:d}'.format(n)

  function DigitChar(d: nat): (c: char)
    requires d < 10
    ensures '0' <= c <= '9'
  {
    ('0' as int + d) as char
  }

  /** The decimal digits of `n`, without leading zeros. */
  function NatToString(n: nat): (r: string)
    ensures |r| > 0
    ensures forall i :: 0 <= i < |r| ==> '0' <= r[i] <= '9'
    decreases n
  {
    if n < 10 then [DigitChar(n)] else NatToString(n / 10) + [DigitChar(n % 10)]
  }

  /** `str(i)` for an integer. */
  function IntToString(i: int): (r: string)
    ensures |r| > 0
  {
    if i < 0 then "-" + NatToString(-i) else NatToString(i)
  }

  function Pow10(k: nat): (p: nat)
    ensures p >= 1
  {
    if k == 0 then 1 else 10 * Pow10(k - 1)
  }

  /** A number below `10^k` has at most `k` digits. */
  lemma {:induction false} NatToStringLength(n: nat, k: nat)
    requires k >= 1 && n < Pow10(k)
    ensures |NatToString(n)| <= k
    decreases k
  {
    if n >= 10 {
      assert k != 1 by {
        assert Pow10(1) == 10;
      }
      assert n / 10 < Pow10(k - 1);
      NatToStringLength(n / 10, k - 1);
    }
  }

  // ---------------------------------------------------------------------
  // Reading a text file: universal newlines, then readlines()

  /** Text-mode reading translates `\r\n` and a lone `\r` into `\n`. */
  function TranslateNewlines(s: string): (r: string)
    ensures '\r' !in r
    decreases |s|
  {
    if s == [] then []
    else if s[0] == '\r' then
      "\n" + TranslateNewlines(if |s| > 1 && s[1] == '\n' then s[2..] else s[1..])
    else [s[0]] + TranslateNewlines(s[1..])
  }

  lemma {:induction false} TranslateWithoutCarriageReturn(s: string)
    requires '\r' !in s
    ensures TranslateNewlines(s) == s
    decreases |s|
  {
    if s != [] {
      assert '\r' !in s[1..];
      TranslateWithoutCarriageReturn(s[1..]);
      assert s == [s[0]] + s[1..];
    }
  }

  /** Length of the first line of `s`, its line feed included. */
  function LineLength(s: string): (n: nat)
    requires s != []
    ensures 0 < n <= |s|
    ensures forall i :: 0 <= i < n - 1 ==> s[i] != '\n'
    ensures n < |s| ==> s[n - 1] == '\n'
    decreases |s|
  {
    if s[0] == '\n' || |s| == 1 then 1 else 1 + LineLength(s[1..])
  }

  /** `readlines()` on already translated text: every line keeps its line
      feed; a last line without one is kept when it is not empty. */
  function SplitLines(s: string): (ls: seq<string>)
    ensures forall i :: 0 <= i < |ls| ==> ls[i] != []
    decreases |s|
  {
    if s == [] then []
    else
      var n := LineLength(s);
      [s[..n]] + SplitLines(s[n..])
  }

  /** `open(path).readlines()` on a file whose content is `s`. */
  function ReadLines(s: string): seq<string>
  {
    SplitLines(TranslateNewlines(s))
  }

  /** Reading lines loses nothing: they concatenate back to the text. */
  lemma {:induction false} SplitLinesConcat(s: string)
    ensures Concat(SplitLines(s)) == s
    decreases |s|
  {
    if s != [] {
      var n := LineLength(s);
      SplitLinesConcat(s[n..]);
      assert ([s[..n]] + SplitLines(s[n..]))[1..] == SplitLines(s[n..]);
      assert s[..n] + s[n..] == s;
    }
  }

  lemma {:induction false} LineLengthOfLine(l: string, rest: string)
    requires '\n' !in l
    ensures LineLength(l + "\n" + rest) == |l| + 1
    decreases |l|
  {
    if l != [] {
      assert (l + "\n" + rest)[1..] == l[1..] + "\n" + rest;
      assert '\n' !in l[1..];
      LineLengthOfLine(l[1..], rest);
    }
  }

  lemma SplitLinesLine(l: string, rest: string)
    requires '\n' !in l
    ensures SplitLines(l + "\n" + rest) == [l + "\n"] + SplitLines(rest)
  {
    LineLengthOfLine(l, rest);
    var s := l + "\n" + rest;
    assert s[..|l| + 1] == l + "\n";
    assert s[|l| + 1..] == rest;
  }

  /** A last line with no line feed is read as one line. */
  lemma {:induction false} SplitLinesLast(l: string)
    requires l != [] && '\n' !in l
    ensures SplitLines(l) == [l]
  {
    var n := LineLength(l);
    assert forall i :: 0 <= i < |l| ==> l[i] != '\n';
    assert n == |l|;
    assert l[..n] == l;
    assert l[n..] == [];
  }

  /** Lines written each followed by a line feed are read back one by one. */
  lemma {:induction false} SplitLinesTerminated(ls: seq<string>, rest: string)
    requires forall i :: 0 <= i < |ls| ==> '\n' !in ls[i]
    ensures SplitLines(Concat(Terminate(ls)) + rest) == Terminate(ls) + SplitLines(rest)
    decreases |ls|
  {
    if ls != [] {
      var t := Terminate(ls);
      assert t[1..] == Terminate(ls[1..]);
      assert Concat(t) + rest == ls[0] + "\n" + (Concat(t[1..]) + rest);
      SplitLinesLine(ls[0], Concat(t[1..]) + rest);
      SplitLinesTerminated(ls[1..], rest);
      assert t == [ls[0] + "\n"] + t[1..];
    } else {
      assert Concat(Terminate(ls)) + rest == rest;
    }
  }

  /** `"\n".join(ls)` is every line but the last terminated, then the last. */
  lemma {:induction false} JoinLinesShape(ls: seq<string>)
    requires |ls| > 0
    ensures Join("\n", ls) == Concat(Terminate(ls[..|ls| - 1])) + ls[|ls| - 1]
    decreases |ls|
  {
    if |ls| == 1 {
      assert Terminate(ls[..0]) == [];
    } else {
      JoinLinesShape(ls[1..]);
      var t := Terminate(ls[..|ls| - 1]);
      assert t[1..] == Terminate(ls[1..][..|ls| - 2]);
      assert t[0] == ls[0] + "\n";
      assert ls[1..][|ls| - 2] == ls[|ls| - 1];
    }
  }

  /** Text written as `"\n".join(ls)` is read back as the same lines, each
      but the last with its line feed. */
  lemma ReadJoinedLines(ls: seq<string>)
    requires |ls| > 0 && ls[|ls| - 1] != []
    requires forall i :: 0 <= i < |ls| ==> NoNewline(ls[i])
    ensures ReadLines(Join("\n", ls)) == Terminate(ls[..|ls| - 1]) + [ls[|ls| - 1]]
  {
    JoinLinesShape(ls);
    var init := ls[..|ls| - 1];
    var last := ls[|ls| - 1];
    JoinHasNoCarriageReturn(ls);
    TranslateWithoutCarriageReturn(Join("\n", ls));
    SplitLinesTerminated(init, last);
    SplitLinesLast(last);
  }

  /** Text written as lines each followed by a line feed is read back as
      those lines. */
  lemma ReadTerminatedLines(ls: seq<string>)
    requires forall i :: 0 <= i < |ls| ==> NoNewline(ls[i])
    ensures ReadLines(Concat(Terminate(ls))) == Terminate(ls)
  {
    ConcatTerminatedHasNoCarriageReturn(ls);
    TranslateWithoutCarriageReturn(Concat(Terminate(ls)));
    SplitLinesTerminated(ls, "");
    assert Concat(Terminate(ls)) + "" == Concat(Terminate(ls));
    assert Terminate(ls) + [] == Terminate(ls);
  }

  lemma {:induction false} JoinHasNoCarriageReturn(ls: seq<string>)
    requires forall i :: 0 <= i < |ls| ==> NoNewline(ls[i])
    ensures '\r' !in Join("\n", ls)
    decreases |ls|
  {
    if |ls| > 1 {
      JoinHasNoCarriageReturn(ls[1..]);
    }
  }

  lemma {:induction false} ConcatTerminatedHasNoCarriageReturn(ls: seq<string>)
    requires forall i :: 0 <= i < |ls| ==> NoNewline(ls[i])
    ensures '\r' !in Concat(Terminate(ls))
    decreases |ls|
  {
    if ls != [] {
      assert Terminate(ls)[1..] == Terminate(ls[1..]);
      ConcatTerminatedHasNoCarriageReturn(ls[1..]);
    }
  }

  // ---------------------------------------------------------------------
  // os.path.splitext (POSIX)

  /** Index of the last `c` in `s`, or -1. */
  function RFind(s: string, c: char): (i: int)
    ensures -1 <= i < |s|
    ensures i >= 0 ==> s[i] == c
    ensures forall k :: i < k < |s| ==> s[k] != c
    decreases |s|
  {
    if s == [] then -1
    else if s[|s| - 1] == c then |s| - 1
    else RFind(s[..|s| - 1], c)
  }

  /** `os.path.splitext(p)`: the extension starts at the last dot of the last
      path component, unless everything before that dot in the component is
      a dot (so `.bashrc` has no extension). */
  function SplitExt(p: string): (r: (string, string))
    ensures r.0 + r.1 == p
    ensures r.1 == [] || (r.1[0] == '.' && '.' !in r.1[1..] && '/' !in r.1)
  {
    var sep := RFind(p, '/');
    var dot := RFind(p, '.');
    if dot > sep && exists k :: sep < k < dot && p[k] != '.' then
      assert forall k :: dot < k < |p| ==> p[k] != '.' && p[k] != '/';
      assert forall k :: 0 <= k < |p[dot..]| ==> p[dot..][k] == p[dot + k];
      (p[..dot], p[dot..])
    else (p, "")
  }

  /** The extension of a path, as `os.path.splitext` returns it. */
  function Extension(p: string): string
  {
    SplitExt(p).1
  }

  /** A path made of a stem and a dotted suffix has that suffix as its
      extension, provided the stem does not end in a dot or a slash. */
  lemma ExtensionOfStem(stem: string, ext: string)
    requires stem != [] && stem[|stem| - 1] != '.' && stem[|stem| - 1] != '/'
    requires ext != [] && ext[0] == '.' && '.' !in ext[1..] && '/' !in ext
    ensures SplitExt(stem + ext) == (stem, ext)
  {
    var p := stem + ext;
    var dot := RFind(p, '.');
    var sep := RFind(p, '/');
    assert p[|stem|] == '.';
    assert forall k :: |stem| < k < |p| ==> p[k] == ext[k - |stem|];
    assert forall j :: 1 <= j < |ext| ==> ext[j] == ext[1..][j - 1];
    assert dot == |stem|;
    assert sep < |stem| - 1;
    assert p[|stem| - 1] != '.';
    assert p[..dot] == stem;
    assert p[dot..] == ext;
  }
}
