/**
 * `extract_video_id`: the id captured by
 *   ^.*(?:(?:youtu\.be/|v/|vi/|u/\w/|embed/)|(?:(?:watch)?\?v(?:i)?=|\&v(?:i)?=))([^#\&\?]*).*
 *
 * The regex is anchored at the start and `.*` is greedy, so the match that
 * wins is the one whose marker (the non-capturing alternation) starts at the
 * rightmost position the `.*` can reach; `.` does not match `'\n'`, so that
 * position is at most the index of the first newline. The capture is then
 * the longest run of characters other than `#`, `&` and `?` that follows the
 * marker; the closing `.*` cannot fail. At any one position at most one
 * alternative matches, since they differ in their first or second
 * character or are followed by different characters.
 */
module VideoId {
  import opened Prelude
  import opened Errors

  /** The characters that end the captured id: `[^#\&\?]`. */
  predicate IsDelimiter(c: char)
  {
    c == '#' || c == '&' || c == '?'
  }

  /** `\w`, restricted to ASCII letters, digits and `_`. */
  predicate IsWordChar(c: char)
  {
    'a' <= c <= 'z' || 'A' <= c <= 'Z' || '0' <= c <= '9' || c == '_'
  }

  /** `lit` occurs in `s` at index `p`. */
  predicate LitAt(s: string, p: nat, lit: string)
  {
    p + |lit| <= |s| && s[p..p + |lit|] == lit
  }

  /** The length of the marker the alternation matches at `p`, if one does. */
  function MarkerAt(s: string, p: nat): (r: Option<nat>)
    ensures r.Some? ==> 2 <= r.value <= 9 && p + r.value <= |s|
  {
    if p >= |s| then None
    else match s[p]
      case 'y' => if LitAt(s, p, "youtu.be/") then Some(9) else None
      case 'v' => if LitAt(s, p, "v/") then Some(2) else if LitAt(s, p, "vi/") then Some(3) else None
      case 'u' => if p + 4 <= |s| && s[p + 1] == '/' && IsWordChar(s[p + 2]) && s[p + 3] == '/' then Some(4) else None
      case 'e' => if LitAt(s, p, "embed/") then Some(6) else None
      case 'w' => if LitAt(s, p, "watch?vi=") then Some(9) else if LitAt(s, p, "watch?v=") then Some(8) else None
      case '?' => if LitAt(s, p, "?vi=") then Some(4) else if LitAt(s, p, "?v=") then Some(3) else None
      case '&' => if LitAt(s, p, "&vi=") then Some(4) else if LitAt(s, p, "&v=") then Some(3) else None
      case _ => None
  }

  /** How far the leading `.*` can reach: the index of the first `'\n'`, or the length. */
  function LineEnd(s: string): (r: nat)
    ensures r <= |s|
    ensures r < |s| ==> s[r] == '\n'
    ensures forall i :: 0 <= i < r ==> s[i] != '\n'
  {
    if s == [] || s[0] == '\n' then 0 else 1 + LineEnd(s[1..])
  }

  /** No marker starts anywhere the leading `.*` can reach: the regex does not match. */
  ghost predicate NoMarker(url: string)
  {
    forall q :: 0 <= q <= LineEnd(url) ==> MarkerAt(url, q).None?
  }

  /** The rightmost marker position at or before `p`. */
  function LastMarker(s: string, p: nat): (r: Option<nat>)
    ensures r.Some? ==> r.value <= p && MarkerAt(s, r.value).Some?
    ensures r.Some? ==> forall q :: r.value < q <= p ==> MarkerAt(s, q).None?
    ensures r.None? ==> forall q :: 0 <= q <= p ==> MarkerAt(s, q).None?
  {
    if MarkerAt(s, p).Some? then Some(p)
    else if p == 0 then None
    else LastMarker(s, p - 1)
  }

  /** The end of the longest run of non-delimiters starting at `i`. */
  function RunEnd(s: string, i: nat): (r: nat)
    requires i <= |s|
    ensures i <= r <= |s|
    ensures forall k :: i <= k < r ==> !IsDelimiter(s[k])
    ensures r == |s| || IsDelimiter(s[r])
    decreases |s| - i
  {
    if i == |s| || IsDelimiter(s[i]) then i else RunEnd(s, i + 1)
  }

  /**
   * The regex's match, stated without a search: a marker at `p` within the
   * first line, none after it on that line, and the id `url[start..end]`
   * running from the marker's end up to the next delimiter or the end of the URL.
   */
  ghost predicate IsCapture(url: string, p: nat, start: nat, end: nat)
  {
    && p <= LineEnd(url)
    && MarkerAt(url, p).Some?
    && start == p + MarkerAt(url, p).value
    && start <= end <= |url|
    && (forall k :: start <= k < end ==> !IsDelimiter(url[k]))
    && (end == |url| || IsDelimiter(url[end]))
    && (forall q :: p < q <= LineEnd(url) ==> MarkerAt(url, q).None?)
  }

  /**
   * `extract_video_id(url)`. The second `InvalidURL` of the source (a match
   * without group 1) cannot happen: the group always takes part in a match.
   */
  function ExtractVideoId(url: string): (r: Result<string, YouDlError>)
    ensures r.Err? <==> NoMarker(url)
    ensures r.Err? ==> r.error == InvalidURL(url)
    ensures r.Ok? ==> exists p: nat, start: nat, end: nat :: IsCapture(url, p, start, end) && r.value == url[start..end]
    ensures r.Ok? ==> forall c :: c in r.value ==> !IsDelimiter(c)
  {
    match LastMarker(url, LineEnd(url))
    case None => Err(InvalidURL(url))
    case Some(p) =>
      var start := p + MarkerAt(url, p).value;
      var end := RunEnd(url, start);
      assert IsCapture(url, p, start, end);
      Ok(url[start..end])
  }

  /** There is only one way the regex can match. */
  lemma CaptureUnique(url: string, p1: nat, s1: nat, e1: nat, p2: nat, s2: nat, e2: nat)
    requires IsCapture(url, p1, s1, e1) && IsCapture(url, p2, s2, e2)
    ensures p1 == p2 && s1 == s2 && e1 == e2
  {
  }

  /** Any match of the regex is what `extract_video_id` returns. */
  lemma ExtractReturnsCapture(url: string, p: nat, start: nat, end: nat)
    requires IsCapture(url, p, start, end)
    ensures ExtractVideoId(url) == Ok(url[start..end])
  {
    var r := ExtractVideoId(url);
    assert r.Ok?;
    var p': nat, s': nat, e': nat :| IsCapture(url, p', s', e') && r.value == url[s'..e'];
    CaptureUnique(url, p, start, end, p', s', e');
  }

  /** `v=` or `vi=` at `k`: the key that every query-string marker ends with. */
  predicate QueryKeyAt(s: string, k: int)
  {
    0 <= k && k + 1 < |s| && s[k] == 'v'
    && (s[k + 1] == '=' || (k + 2 < |s| && s[k + 1] == 'i' && s[k + 2] == '='))
  }

  lemma LitAtChar(s: string, p: nat, lit: string, j: nat)
    requires LitAt(s, p, lit) && j < |lit|
    ensures s[p + j] == lit[j]
  {
    assert s[p..p + |lit|][j] == s[p + j];
  }

  lemma NotLitAt(s: string, p: nat, lit: string, j: nat)
    requires j < |lit| && p + j < |s| && s[p + j] != lit[j]
    ensures !LitAt(s, p, lit)
  {
    if LitAt(s, p, lit) {
      LitAtChar(s, p, lit, j);
    }
  }

  /** Every marker ends with `/` (the path forms) or with `v=` / `vi=` (the query forms). */
  lemma MarkerShape(s: string, q: nat)
    ensures MarkerAt(s, q).Some? ==> var n := MarkerAt(s, q).value;
      s[q + n - 1] == '/' || QueryKeyAt(s, q + n - 2) || QueryKeyAt(s, q + n - 3)
  {
    var n := if MarkerAt(s, q).Some? then MarkerAt(s, q).value else 0;
    if n == 0 {
    } else if n == 2 && s[q] == 'v' {
      LitAtChar(s, q, "v/", 1);
    } else if s[q] == 'y' {
      LitAtChar(s, q, "youtu.be/", 8);
    } else if s[q] == 'v' {
      LitAtChar(s, q, "vi/", 2);
    } else if s[q] == 'e' {
      LitAtChar(s, q, "embed/", 5);
    } else if s[q] == 'w' && n == 9 {
      LitAtChar(s, q, "watch?vi=", 6);
      LitAtChar(s, q, "watch?vi=", 7);
      LitAtChar(s, q, "watch?vi=", 8);
    } else if s[q] == 'w' {
      LitAtChar(s, q, "watch?v=", 6);
      LitAtChar(s, q, "watch?v=", 7);
    } else if (s[q] == '?' || s[q] == '&') && n == 4 {
      var lit := if s[q] == '?' then "?vi=" else "&vi=";
      LitAtChar(s, q, lit, 1);
      LitAtChar(s, q, lit, 2);
      LitAtChar(s, q, lit, 3);
    } else if s[q] == '?' || s[q] == '&' {
      var lit := if s[q] == '?' then "?v=" else "&v=";
      LitAtChar(s, q, lit, 1);
      LitAtChar(s, q, lit, 2);
    }
  }

  /**
   * No marker starts at or after `k0` when the rest of the URL has no `/`
   * and no `v=` or `vi=`.
   */
  lemma NoMarkerFrom(s: string, k0: nat)
    requires forall k :: k0 <= k < |s| ==> s[k] != '/' && !QueryKeyAt(s, k)
    ensures forall q :: k0 <= q ==> MarkerAt(s, q).None?
  {
    forall q | k0 <= q ensures MarkerAt(s, q).None? {
      MarkerShape(s, q);
    }
  }

  lemma CharAbsentFrom(s: string, k0: nat, c: char)
    requires k0 <= |s| && c !in s[k0..]
    ensures forall k :: k0 <= k < |s| ==> s[k] != c
  {
    forall k | k0 <= k < |s| ensures s[k] != c {
      assert s[k0..][k - k0] == s[k];
    }
  }

  /**
   * A URL written as text `a`, a marker `m`, an id and a rest that starts
   * with a delimiter (or is empty) yields that id when no marker starts
   * after `a` on its single line.
   */
  lemma ExtractAfterMarker(a: string, m: string, id: string, rest: string)
    requires '\n' !in a + m + id + rest
    requires MarkerAt(a + m + id + rest, |a|) == Some(|m|)
    requires forall q :: |a| < q ==> MarkerAt(a + m + id + rest, q).None?
    requires forall c :: c in id ==> !IsDelimiter(c)
    requires rest == [] || IsDelimiter(rest[0])
    ensures ExtractVideoId(a + m + id + rest) == Ok(id)
  {
    var url := a + m + id + rest;
    var start := |a| + |m|;
    var end := start + |id|;
    LineEndWithoutNewline(url);
    forall k | start <= k < end ensures !IsDelimiter(url[k]) {
      assert url[k] == id[k - start];
      assert id[k - start] in id;
    }
    assert end < |url| ==> url[end] == rest[0];
    assert IsCapture(url, |a|, start, end);
    assert url[start..end] == id;
    ExtractReturnsCapture(url, |a|, start, end);
  }

  lemma {:induction false} LineEndWithoutNewline(s: string)
    requires '\n' !in s
    ensures LineEnd(s) == |s|
  {
    if s != [] {
      assert s[0] in s;
      assert forall c :: c in s[1..] ==> c in s;
      LineEndWithoutNewline(s[1..]);
    }
  }

  lemma MarkerChars(a: string, m: string, x: string)
    ensures forall i :: 0 <= i < |m| ==> (a + m + x)[|a| + i] == m[i]
    ensures LitAt(a + m + x, |a|, m)
  {
    assert (a + m + x)[|a|..|a| + |m|] == m;
  }

  // One lemma per plain marker: it matches where it is written, and nothing starts inside it.

  lemma YoutuBeMarker(a: string, x: string)
    ensures MarkerAt(a + "youtu.be/" + x, |a|) == Some(9)
    ensures forall q :: |a| < q < |a| + 9 ==> MarkerAt(a + "youtu.be/" + x, q).None?
  {
    var s := a + "youtu.be/" + x;
    var p := |a|;
    MarkerChars(a, "youtu.be/", x);
    forall q | p < q < p + 9 ensures MarkerAt(s, q).None? {
      if q == p + 7 {
        NotLitAt(s, q, "embed/", 1);
      }
    }
  }

  lemma VSlashMarker(a: string, x: string)
    ensures MarkerAt(a + "v/" + x, |a|) == Some(2)
    ensures forall q :: |a| < q < |a| + 2 ==> MarkerAt(a + "v/" + x, q).None?
  {
    var s := a + "v/" + x;
    var p := |a|;
    MarkerChars(a, "v/", x);
  }

  lemma ViSlashMarker(a: string, x: string)
    ensures MarkerAt(a + "vi/" + x, |a|) == Some(3)
    ensures forall q :: |a| < q < |a| + 3 ==> MarkerAt(a + "vi/" + x, q).None?
  {
    var s := a + "vi/" + x;
    var p := |a|;
    MarkerChars(a, "vi/", x);
    NotLitAt(s, p, "v/", 1);
  }

  lemma EmbedMarker(a: string, x: string)
    ensures MarkerAt(a + "embed/" + x, |a|) == Some(6)
    ensures forall q :: |a| < q < |a| + 6 ==> MarkerAt(a + "embed/" + x, q).None?
  {
    var s := a + "embed/" + x;
    var p := |a|;
    MarkerChars(a, "embed/", x);
    forall q | p < q < p + 6 ensures MarkerAt(s, q).None? {
      if q == p + 3 {
        NotLitAt(s, q, "embed/", 1);
      }
    }
  }

  /** `?v=` and `&v=`: a 3-character query marker, with no marker starting inside it. */
  lemma QueryVMarker(a: string, m: string, x: string)
    requires m == "?v=" || m == "&v="
    ensures MarkerAt(a + m + x, |a|) == Some(3)
    ensures forall q :: |a| < q < |a| + 3 ==> MarkerAt(a + m + x, q).None?
  {
    var s := a + m + x;
    var p := |a|;
    MarkerChars(a, m, x);
    if m == "?v=" {
      NotLitAt(s, p, "?vi=", 2);
    } else {
      NotLitAt(s, p, "&vi=", 2);
    }
    forall q | p < q < p + 3 ensures MarkerAt(s, q).None? {
      if q == p + 1 {
        NotLitAt(s, q, "v/", 1);
        NotLitAt(s, q, "vi/", 1);
      }
    }
  }

  /** `?vi=` and `&vi=`: a 4-character query marker, with no marker starting inside it. */
  lemma QueryViMarker(a: string, m: string, x: string)
    requires m == "?vi=" || m == "&vi="
    ensures MarkerAt(a + m + x, |a|) == Some(4)
    ensures forall q :: |a| < q < |a| + 4 ==> MarkerAt(a + m + x, q).None?
  {
    var s := a + m + x;
    var p := |a|;
    MarkerChars(a, m, x);
    forall q | p < q < p + 4 ensures MarkerAt(s, q).None? {
      if q == p + 1 {
        NotLitAt(s, q, "v/", 1);
        NotLitAt(s, q, "vi/", 2);
      }
    }
  }

  lemma UserMarker(a: string, d: char, x: string)
    requires '0' <= d <= '9'
    ensures MarkerAt(a + ("u/" + [d] + "/") + x, |a|) == Some(4)
    ensures forall q :: |a| < q < |a| + 4 ==> MarkerAt(a + ("u/" + [d] + "/") + x, q).None?
  {
    MarkerChars(a, "u/" + [d] + "/", x);
  }
}
