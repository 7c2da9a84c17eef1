/**
 * The `str` methods of the Rust standard library that the core relies on,
 * stated on `seq<char>`: `trim`, `lines`, `split_whitespace`, `ends_with`,
 * `replace` of one character, and the `{:<w}` / `{:>w}` padding of `format!`.
 */
module RustText {
  import opened Seqs

  /** `char::is_whitespace`: the Unicode White_Space property. */
  predicate IsWhitespace(c: char)
  {
    ('\U{9}' <= c <= '\U{D}') || c == ' ' || c == '\U{85}' || c == '\U{A0}'
    || c == '\U{1680}' || ('\U{2000}' <= c <= '\U{200A}') || c == '\U{2028}' || c == '\U{2029}'
    || c == '\U{202F}' || c == '\U{205F}' || c == '\U{3000}'
  }

  /** `char::is_ascii_digit`. */
  predicate IsAsciiDigit(c: char)
  {
    '0' <= c <= '9'
  }

  predicate AllWhitespace(s: string)
  {
    forall i :: 0 <= i < |s| ==> IsWhitespace(s[i])
  }

  /** `str::trim_start`: drop the leading whitespace. */
  function TrimStart(s: string): (r: string)
    ensures |r| <= |s| && r == s[|s| - |r|..]
    ensures AllWhitespace(s[..|s| - |r|])
    ensures r != [] ==> !IsWhitespace(r[0])
  {
    if s != [] && IsWhitespace(s[0]) then
      var r := TrimStart(s[1..]);
      WhitespaceCons(s, |s[1..]| - |r|, |s| - |r|);
      r
    else s
  }

  /** `str::trim_end`: drop the trailing whitespace. */
  function TrimEnd(s: string): (r: string)
    ensures |r| <= |s| && r == s[..|r|]
    ensures AllWhitespace(s[|r|..])
    ensures r != [] ==> !IsWhitespace(r[|r| - 1])
  {
    if s != [] && IsWhitespace(s[|s| - 1]) then
      var r := TrimEnd(s[..|s| - 1]);
      WhitespaceSnoc(s, |r|);
      r
    else s
  }

  lemma WhitespaceCons(s: string, k: nat, j: nat)
    requires s != [] && IsWhitespace(s[0]) && j == k + 1 <= |s| && AllWhitespace(s[1..][..k])
    ensures AllWhitespace(s[..j])
  {
    forall i | 0 <= i < j ensures IsWhitespace(s[..j][i]) {
      if i > 0 { assert s[..j][i] == s[1..][..k][i - 1]; }
    }
  }

  lemma WhitespaceSnoc(s: string, k: nat)
    requires s != [] && IsWhitespace(s[|s| - 1]) && k <= |s| - 1 && AllWhitespace(s[..|s| - 1][k..])
    ensures AllWhitespace(s[k..])
  {
    forall i | 0 <= i < |s| - k ensures IsWhitespace(s[k..][i]) {
      if i < |s| - 1 - k { assert s[k..][i] == s[..|s| - 1][k..][i]; }
    }
  }

  /** `str::trim`: drop the whitespace at both ends. */
  function Trim(s: string): string
  {
    TrimEnd(TrimStart(s))
  }

  /** `trim` cuts `s` to a contiguous slice with only whitespace outside it. */
  lemma TrimIsSlice(s: string) returns (i: nat, j: nat)
    ensures i <= j <= |s| && Trim(s) == s[i..j]
    ensures AllWhitespace(s[..i]) && AllWhitespace(s[j..])
  {
    var t := TrimStart(s);
    i, j := SliceOfSlice(s, t, TrimEnd(t));
  }

  /** A prefix `r` of a suffix `t` of `s` is the slice of `s` between their ends. */
  lemma SliceOfSlice(s: string, t: string, r: string) returns (i: nat, j: nat)
    requires |t| <= |s| && t == s[|s| - |t|..] && |r| <= |t| && r == t[..|r|]
    requires AllWhitespace(t[|r|..])
    ensures i == |s| - |t| && j == i + |r| <= |s| && r == s[i..j] && AllWhitespace(s[j..])
  {
    i, j := |s| - |t|, |s| - |t| + |r|;
    assert s[j..] == t[|r|..];
  }

  /** What `trim` returns has no whitespace at either end. */
  lemma TrimEndsNotWhitespace(s: string)
    ensures Trim(s) != [] ==> !IsWhitespace(Trim(s)[0]) && !IsWhitespace(Trim(s)[|Trim(s)| - 1])
  {
    var t := TrimStart(s);
    var r := TrimEnd(t);
    if r != [] {
      assert r[0] == t[0];
    }
  }

  /** A string trims to nothing exactly when it is all whitespace. */
  lemma TrimEmptyIff(s: string)
    ensures Trim(s) == [] <==> AllWhitespace(s)
  {
    var t := TrimStart(s);
    if Trim(s) == [] {
      assert s == s[..|s| - |t|] + t;
      assert t == t[|TrimEnd(t)|..];
    }
  }

  /** Trimming twice changes nothing more. */
  lemma TrimIdempotent(s: string)
    ensures Trim(Trim(s)) == Trim(s)
  {
    TrimEndsNotWhitespace(s);
    var t := Trim(s);
    if t != [] {
      assert TrimStart(t) == t;
      assert TrimEnd(t) == t;
    }
  }

  /** Index of the first `'\n'` in `s`, or `|s|` when there is none. */
  function NewlineIndex(s: string): (r: nat)
    ensures r <= |s|
    ensures r < |s| ==> s[r] == '\n'
    ensures '\n' !in s[..r]
  {
    if s == [] || s[0] == '\n' then 0
    else
      var r := 1 + NewlineIndex(s[1..]);
      assert s[..r] == [s[0]] + s[1..][..r - 1];
      r
  }

  /** The line ending `\r` that `str::lines` strips from every piece. */
  function StripCr(line: string): string
  {
    if line != [] && line[|line| - 1] == '\r' then line[..|line| - 1] else line
  }

  /**
   * `str::lines`: the pieces between `'\n'`s, a final empty piece dropped,
   * and one trailing `'\r'` removed from each piece.
   */
  function Lines(s: string): (r: seq<string>)
    ensures forall l :: l in r ==> '\n' !in l
    decreases |s|
  {
    if s == [] then []
    else
      var i := NewlineIndex(s);
      [StripCr(s[..i])] + (if i < |s| then Lines(s[i + 1..]) else [])
  }

  /** Every line with its `'\n'` written back: the text `Lines` reads. */
  function Terminated(ls: seq<string>): string
  {
    if ls == [] then [] else ls[0] + "\n" + Terminated(ls[1..])
  }

  /** `lines` undoes writing each line followed by `'\n'`, empty lines included. */
  lemma {:induction false} LinesOfTerminated(ls: seq<string>)
    requires forall l :: l in ls ==> '\n' !in l && StripCr(l) == l
    ensures Lines(Terminated(ls)) == ls
  {
    if ls != [] {
      var s := Terminated(ls);
      var l := ls[0];
      assert s == l + "\n" + Terminated(ls[1..]);
      LineBreakAt(l, Terminated(ls[1..]));
      LinesOfTerminated(ls[1..]);
    }
  }

  /** A line with no `'\n'` followed by `'\n'` and the rest is read as that line, then the rest. */
  lemma LineBreakAt(l: string, rest: string)
    requires '\n' !in l
    ensures Lines(l + "\n" + rest) == [StripCr(l)] + Lines(rest)
  {
    var s := l + "\n" + rest;
    var i := NewlineIndex(s);
    NewlineAfter(l, rest);
    assert s[..i] == l;
    assert s[i + 1..] == rest;
  }

  lemma {:induction false} NewlineAfter(l: string, rest: string)
    requires '\n' !in l
    ensures NewlineIndex(l + "\n" + rest) == |l|
  {
    if l != [] {
      assert (l + "\n" + rest)[1..] == l[1..] + "\n" + rest;
      NewlineAfter(l[1..], rest);
    }
  }

  /** Length of the leading run of non-whitespace characters. */
  function WordEnd(s: string): (r: nat)
    ensures r <= |s|
    ensures forall i :: 0 <= i < r ==> !IsWhitespace(s[i])
    ensures r < |s| ==> IsWhitespace(s[r])
  {
    if s == [] || IsWhitespace(s[0]) then 0 else 1 + WordEnd(s[1..])
  }

  predicate IsWord(w: string)
  {
    w != [] && forall i :: 0 <= i < |w| ==> !IsWhitespace(w[i])
  }

  /** `str::split_whitespace`: the maximal runs of non-whitespace characters, in order. */
  function SplitWhitespace(s: string): (r: seq<string>)
    ensures forall w :: w in r ==> IsWord(w)
    decreases |s|
  {
    var t := TrimStart(s);
    if t == [] then []
    else
      var n := WordEnd(t);
      [t[..n]] + SplitWhitespace(t[n..])
  }

  function Concat(ws: seq<string>): string
  {
    if ws == [] then [] else ws[0] + Concat(ws[1..])
  }

  function NotWhitespace(c: char): bool
  {
    !IsWhitespace(c)
  }

  /** The words `split_whitespace` returns are exactly the non-whitespace characters, in order. */
  lemma {:induction false} SplitWhitespaceKeepsText(s: string)
    ensures Concat(SplitWhitespace(s)) == Filter(s, NotWhitespace)
    decreases |s|
  {
    var t := TrimStart(s);
    DropsLeadingWhitespace(s);
    if t != [] {
      var n := WordEnd(t);
      KeepsWord(t, n);
      SplitWhitespaceKeepsText(t[n..]);
      ConcatCons(t[..n], SplitWhitespace(t[n..]));
      calc {
        Concat(SplitWhitespace(s));
        Concat([t[..n]] + SplitWhitespace(t[n..]));
        t[..n] + Concat(SplitWhitespace(t[n..]));
        t[..n] + Filter(t[n..], NotWhitespace);
        Filter(t, NotWhitespace);
      }
    }
  }

  lemma ConcatCons(w: string, ws: seq<string>)
    ensures Concat([w] + ws) == w + Concat(ws)
  {
    assert ([w] + ws)[1..] == ws;
  }

  /** Leading whitespace contributes nothing to the non-whitespace characters. */
  lemma DropsLeadingWhitespace(s: string)
    ensures Filter(s, NotWhitespace) == Filter(TrimStart(s), NotWhitespace)
  {
    var t := TrimStart(s);
    var k := |s| - |t|;
    assert s == s[..k] + t;
    FilterAppend(s[..k], t, NotWhitespace);
    NoneKept(s[..k]);
  }

  /** A leading word is kept whole. */
  lemma KeepsWord(t: string, n: nat)
    requires n <= |t| && forall i :: 0 <= i < n ==> !IsWhitespace(t[i])
    ensures Filter(t, NotWhitespace) == t[..n] + Filter(t[n..], NotWhitespace)
  {
    assert t == t[..n] + t[n..];
    FilterAppend(t[..n], t[n..], NotWhitespace);
    FilterKeepsAll(t[..n], NotWhitespace);
  }

  lemma {:induction false} NoneKept(s: string)
    requires AllWhitespace(s)
    ensures Filter(s, NotWhitespace) == []
  {
    if s != [] {
      assert AllWhitespace(s[1..]);
      NoneKept(s[1..]);
    }
  }

  /** A word followed by whitespace or by nothing ends where the word does. */
  lemma {:induction false} WordEndOf(w: string, rest: string)
    requires IsWord(w)
    requires rest == [] || IsWhitespace(rest[0])
    ensures WordEnd(w + rest) == |w|
  {
    if |w| > 1 {
      assert (w + rest)[1..] == w[1..] + rest;
      WordEndOf(w[1..], rest);
    }
  }

  /** A word followed by a space is split off as the first word. */
  lemma SplitLeadingWord(w: string, rest: string)
    requires IsWord(w)
    ensures SplitWhitespace(w + " " + rest) == [w] + SplitWhitespace(rest)
  {
    SplitWordFirst(w, " " + rest);
    SplitAfterSpace(rest);
    AppendAssoc(w, " ", rest);
  }

  /** A word followed by whitespace or by nothing is the first word of the split. */
  lemma SplitWordFirst(w: string, u: string)
    requires IsWord(w) && (u == [] || IsWhitespace(u[0]))
    ensures SplitWhitespace(w + u) == [w] + SplitWhitespace(u)
  {
    var s := w + u;
    assert s[0] == w[0];
    assert TrimStart(s) == s;
    WordEndOf(w, u);
    assert s[..|w|] == w;
    assert s[|w|..] == u;
  }

  lemma SplitAfterSpace(rest: string)
    ensures SplitWhitespace(" " + rest) == SplitWhitespace(rest)
  {
    var s := " " + rest;
    assert s[0] == ' ' && s[1..] == rest;
    assert TrimStart(s) == TrimStart(rest);
    SplitSkipsWhitespace(s);
    SplitSkipsWhitespace(rest);
  }

  /** Leading whitespace does not change the split. */
  lemma SplitSkipsWhitespace(s: string)
    ensures SplitWhitespace(s) == SplitWhitespace(TrimStart(s))
  {
  }

  /** Words written with one space after each are split back into the same words. */
  lemma {:induction false} SplitWhitespaceOfSpaced(ws: seq<string>)
    requires forall w :: w in ws ==> IsWord(w)
    ensures SplitWhitespace(Spaced(ws)) == ws
  {
    if ws != [] {
      assert ws[0] in ws;
      SplitLeadingWord(ws[0], Spaced(ws[1..]));
      SplitWhitespaceOfSpaced(ws[1..]);
    }
  }

  /** The words, each followed by one space. */
  function Spaced(ws: seq<string>): string
  {
    if ws == [] then [] else ws[0] + " " + Spaced(ws[1..])
  }

  /** `s.starts_with(prefix)`. */
  predicate StartsWith(s: string, prefix: string)
  {
    |prefix| <= |s| && s[..|prefix|] == prefix
  }

  /** `s.ends_with(suffix)`. */
  predicate EndsWith(s: string, suffix: string)
  {
    |suffix| <= |s| && s[|s| - |suffix|..] == suffix
  }

  function Spaces(n: nat): (r: string)
    ensures |r| == n && forall i :: 0 <= i < n ==> r[i] == ' '
  {
    if n == 0 then [] else " " + Spaces(n - 1)
  }

  /** `format!("{:<w}", s)`: `s` left-aligned, padded with spaces to `w` characters, never cut. */
  function PadRight(s: string, w: nat): (r: string)
    ensures |r| == if |s| < w then w else |s|
    ensures r[..|s|] == s
  {
    if |s| < w then s + Spaces(w - |s|) else s
  }

  /** What `{:<w}` adds after the text is spaces. */
  lemma PadRightPadsWithSpaces(s: string, w: nat)
    ensures forall i :: |s| <= i < |PadRight(s, w)| ==> PadRight(s, w)[i] == ' '
  {
    if |s| < w {
      forall i | |s| <= i < |PadRight(s, w)| ensures PadRight(s, w)[i] == ' ' {
        assert PadRight(s, w)[i] == Spaces(w - |s|)[i - |s|];
      }
    }
  }

  /** `format!("{:>w}", s)`: `s` right-aligned, padded on the left to `w` characters, never cut. */
  function PadLeft(s: string, w: nat): (r: string)
    ensures |r| == if |s| < w then w else |s|
    ensures r[|r| - |s|..] == s
  {
    if |s| < w then Spaces(w - |s|) + s else s
  }

  /** What `{:>w}` adds before the text is spaces. */
  lemma PadLeftPadsWithSpaces(s: string, w: nat)
    ensures forall i :: 0 <= i < |PadLeft(s, w)| - |s| ==> PadLeft(s, w)[i] == ' '
  {
    if |s| < w {
      forall i | 0 <= i < |PadLeft(s, w)| - |s| ensures PadLeft(s, w)[i] == ' ' {
        assert PadLeft(s, w)[i] == Spaces(w - |s|)[i];
      }
    }
  }

  /** `s.replace(from, to)` for one-character patterns. */
  function ReplaceChar(s: string, from: char, to: char): (r: string)
    ensures |r| == |s|
    ensures forall i :: 0 <= i < |s| ==> r[i] == if s[i] == from then to else s[i]
  {
    if s == [] then []
    else [if s[0] == from then to else s[0]] + ReplaceChar(s[1..], from, to)
  }

  /** A piece found at `t[i..j]` has its own prefix there too. */
  lemma PieceHead(t: string, i: nat, j: nat, x: string, k: nat)
    requires i <= j <= |t| && j - i == |x| && t[i..j] == x && k <= |x|
    ensures t[i..i + k] == x[..k]
  {
    assert t[i..i + k] == t[i..j][..k];
  }

  /** A piece found at `t[..j]` has its own prefix there too. */
  lemma PieceStart(t: string, j: nat, x: string, k: nat)
    requires j <= |t| && j == |x| && t[..j] == x && k <= |x|
    ensures t[..k] == x[..k]
  {
    assert t[..k] == t[..j][..k];
  }

  /** A piece found at `t[i..j]` has its own suffix at the matching place. */
  lemma PieceTail(t: string, i: nat, j: nat, x: string, k: nat)
    requires i <= j <= |t| && j - i == |x| && t[i..j] == x && k <= |x|
    ensures t[j - k..j] == x[|x| - k..]
  {
    assert t[j - k..j] == t[i..j][|x| - k..];
  }

  lemma ThreePieces(a: string, b: string, c: string)
    ensures (a + b + c)[..|a|] == a && (a + b + c)[|a|..|a| + |b|] == b && (a + b + c)[|a| + |b|..] == c
  {
    assert (a + b + c)[..|a| + |b|] == a + b;
  }

  /**
   * Three left-aligned columns then free text: when each field fits its
   * width, the fields start at `0`, `wx` and `wx + wy`, and the text at
   * `wx + wy + wz`.
   */
  lemma LeftAlignedColumns(x: string, wx: nat, y: string, wy: nat, z: string, wz: nat, m: string)
    requires |x| <= wx && |y| <= wy && |z| <= wz
    ensures var t := PadRight(x, wx) + PadRight(y, wy) + PadRight(z, wz) + m;
      |t| == wx + wy + wz + |m|
      && t[..|x|] == x
      && t[wx..wx + |y|] == y
      && t[wx + wy..wx + wy + |z|] == z
      && t[wx + wy + wz..] == m
  {
    var a, b, c := PadRight(x, wx), PadRight(y, wy), PadRight(z, wz);
    var t := a + b + c + m;
    ThreePieces(a, b, c);
    var front := a + b + c;
    assert t[..wx + wy + wz] == front;
    assert t[..|x|] == a[..|x|];
    assert t[wx..wx + |y|] == b[..|y|];
    assert t[wx + wy..wx + wy + |z|] == c[..|z|];
  }
}
