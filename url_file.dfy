/**
 * The line filters of `read_urls_from_file`. Every revision reads the file
 * with `str::lines` and drops the lines that `trim` to nothing; the latest
 * one also drops the lines that start with `#` or `//`. Kept lines are
 * returned as written, neither trimmed nor otherwise changed.
 */
module UrlFile {
  import opened Seqs
  import opened RustText

  /** `!l.trim().is_empty()`. */
  predicate IsNotBlank(l: string)
  {
    Trim(l) != []
  }

  /** `l.starts_with("#") || l.starts_with("//")`, on the line as written. */
  predicate IsComment(l: string)
  {
    StartsWith(l, "#") || StartsWith(l, "//")
  }

  predicate IsNotComment(l: string)
  {
    !IsComment(l)
  }

  /** Both filters of the latest revision at once. */
  predicate IsUrlLine(l: string)
  {
    IsNotBlank(l) && IsNotComment(l)
  }

  /** The lines the earlier revisions keep: those with a character that is not whitespace. */
  function NonBlankLines(contents: string): (r: seq<string>)
    ensures forall l :: l in r <==> l in Lines(contents) && !AllWhitespace(l)
  {
    var r := Filter(Lines(contents), IsNotBlank);
    forall l ensures IsNotBlank(l) <==> !AllWhitespace(l) {
      TrimEmptyIff(l);
    }
    r
  }

  /** The lines the latest revision keeps: not blank, and not starting with `#` or `//`. */
  function UrlLines(contents: string): (r: seq<string>)
    ensures forall l :: l in r <==> l in NonBlankLines(contents) && !IsComment(l)
  {
    Filter(NonBlankLines(contents), IsNotComment)
  }

  /**
   * For a file written line by line, the latest revision keeps exactly the
   * written lines that are neither blank nor comments, verbatim and in order.
   */
  lemma UrlLinesOfTerminated(ls: seq<string>)
    requires forall l :: l in ls ==> '\n' !in l && StripCr(l) == l
    ensures UrlLines(Terminated(ls)) == Filter(ls, IsUrlLine)
  {
    LinesOfTerminated(ls);
    FilterFilter(ls, IsNotBlank, IsNotComment, IsUrlLine);
  }

  /** For a file written line by line, the earlier revisions keep exactly the written lines that are not blank. */
  lemma NonBlankLinesOfTerminated(ls: seq<string>)
    requires forall l :: l in ls ==> '\n' !in l && StripCr(l) == l
    ensures NonBlankLines(Terminated(ls)) == Filter(ls, IsNotBlank)
  {
    LinesOfTerminated(ls);
  }

  /** The comment filter only ever removes comments: a file without comment lines is read alike by every revision. */
  lemma CommentFreeFilesAgree(contents: string)
    requires forall l :: l in Lines(contents) ==> !IsComment(l)
    ensures UrlLines(contents) == NonBlankLines(contents)
  {
    FilterKeepsAll(NonBlankLines(contents), IsNotComment);
  }

  /** An empty file yields no urls. */
  lemma EmptyFile()
    ensures UrlLines("") == [] && NonBlankLines("") == []
  {
  }

  /** Whitespace around a url line leaves it a url line, and it is kept with that whitespace. */
  lemma PaddedUrlKept(before: string, url: string, after: string)
    requires AllWhitespace(before) && AllWhitespace(after) && IsUrlLine(url)
    ensures IsUrlLine(before + url + after)
  {
    NotBlankWithin(before, url, after);
    NotCommentWithin(before, url, after);
  }

  /** A line that starts with whitespace, or with a non-comment followed by whitespace, is no comment. */
  lemma NotCommentWithin(before: string, url: string, after: string)
    requires (before != [] && AllWhitespace(before))
             || (before == [] && url != [] && IsNotComment(url) && AllWhitespace(after))
    ensures IsNotComment(before + url + after)
  {
    var l := before + url + after;
    if before != [] {
      assert l[0] == before[0];
    } else {
      assert l[0] == url[0];
      if |url| >= 2 {
        assert url[..2][0] == url[0] && url[..2][1] == url[1] && l[1] == url[1];
      } else if |l| >= 2 {
        assert l[1] == after[0];
      }
    }
    if |l| >= 1 { assert l[..1][0] == l[0]; }
    if |l| >= 2 { assert l[..2][0] == l[0] && l[..2][1] == l[1]; }
    if |url| >= 1 { assert url[..1][0] == url[0]; }
  }

  lemma NotBlankAt(l: string, k: int)
    requires 0 <= k < |l| && !IsWhitespace(l[k])
    ensures IsNotBlank(l)
  {
    TrimEmptyIff(l);
  }

  lemma NotBlankWithin(before: string, url: string, after: string)
    requires IsNotBlank(url)
    ensures IsNotBlank(before + url + after)
  {
    var l := before + url + after;
    TrimEmptyIff(url);
    var k :| 0 <= k < |url| && !IsWhitespace(url[k]);
    assert l[|before| + k] == url[k];
    TrimEmptyIff(l);
  }

  /** The comment test is on the untrimmed line, so a comment marker after indentation is kept as a url line. */
  lemma IndentedCommentKept(indent: string, rest: string)
    requires indent != [] && AllWhitespace(indent)
    ensures IsUrlLine(indent + "#" + rest) && IsUrlLine(indent + "//" + rest)
  {
    var l1, l2 := indent + "#" + rest, indent + "//" + rest;
    assert l1[|indent|] == '#' && l2[|indent|] == '/';
    NotBlankAt(l1, |indent|);
    NotBlankAt(l2, |indent|);
    NotCommentWithin(indent, "#", rest);
    NotCommentWithin(indent, "//", rest);
  }

  /** Blank lines and lines that start with a comment marker are dropped by the latest revision. */
  lemma BlanksAndCommentsDropped(blank: string, rest: string)
    requires AllWhitespace(blank)
    ensures !IsUrlLine(blank) && !IsUrlLine("#" + rest) && !IsUrlLine("//" + rest)
  {
    TrimEmptyIff(blank);
    assert ("#" + rest)[..1] == "#" && ("//" + rest)[..2] == "//";
  }

  /** The earlier revisions drop only blank lines: a comment line is kept. */
  lemma CommentsKeptByEarlierRevisions(rest: string)
    ensures IsNotBlank("#" + rest) && IsNotBlank("//" + rest)
  {
    var l1, l2 := "#" + rest, "//" + rest;
    assert l1[0] == '#' && l2[0] == '/';
    NotBlankAt(l1, 0);
    NotBlankAt(l2, 0);
  }
}
