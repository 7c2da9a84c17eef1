/** The error taxonomy shared by every part of the program, and how each error is shown. */
module Errors {
  import opened RustText

  datatype YouDlError =
    | YoutubeDl(msg: string)
    | Application(msg: string)
    | InvalidURL(url: string)
    | Undownloadable(videoIdOrTitle: string, msg: string)
    | User(msg: string)
    | InvalidResponse(msg: string)

  /** `impl Display for YouDlError`: a prefix naming the kind, then the details. */
  function Display(e: YouDlError): string
  {
    Prefix(e) + Details(e)
  }

  function Prefix(e: YouDlError): string
  {
    match e
    case YoutubeDl(_) => "youtube-dl Error: "
    case Application(_) => "Application Error: "
    case InvalidURL(_) => "Invalid URL Error: "
    case Undownloadable(_, _) => "Undownloadable Error for `"
    case User(_) => "User Error: "
    case InvalidResponse(_) => "Invalid Response Error: "
  }

  /** The details: trimmed messages, except the URL and the undownloadable reason, which are shown as given. */
  function Details(e: YouDlError): string
  {
    match e
    case InvalidURL(url) => url
    case Undownloadable(t, msg) => t + "`: " + msg
    case _ => Trim(e.msg)
  }

  /** The variants whose message is trimmed before it is shown. */
  predicate IsTrimmedKind(e: YouDlError)
  {
    e.YoutubeDl? || e.Application? || e.User? || e.InvalidResponse?
  }

  function Kind(e: YouDlError): (k: nat)
    ensures k < 6
  {
    match e
    case YoutubeDl(_) => 0
    case Application(_) => 1
    case InvalidURL(_) => 2
    case Undownloadable(_, _) => 3
    case User(_) => 4
    case InvalidResponse(_) => 5
  }

  /** The prefixes differ in their first or ninth character, so the text tells the kind. */
  lemma DisplayDeterminesKind(e1: YouDlError, e2: YouDlError)
    requires Display(e1) == Display(e2)
    ensures Kind(e1) == Kind(e2)
  {
    KindSignature(e1);
    KindSignature(e2);
    StartsWithPrefix(e1);
    StartsWithPrefix(e2);
    SignatureInjective(Kind(e1), Kind(e2));
  }

  lemma StartsWithPrefix(e: YouDlError)
    ensures |Prefix(e)| <= |Display(e)|
    ensures forall i :: 0 <= i < |Prefix(e)| ==> Display(e)[i] == Prefix(e)[i]
  {
  }

  lemma SignatureInjective(k1: nat, k2: nat)
    requires k1 < 6 && k2 < 6 && Signature(k1) == Signature(k2)
    ensures k1 == k2
  {
  }

  /** Characters 0 and 8 of each kind's prefix. */
  function Signature(kind: nat): (char, char)
  {
    match kind
    case 0 => ('y', 'd')
    case 1 => ('A', 'i')
    case 2 => ('I', 'U')
    case 3 => ('U', 'a')
    case 4 => ('U', 'o')
    case _ => ('I', 'R')
  }

  lemma KindSignature(e: YouDlError)
    ensures |Prefix(e)| > 8
    ensures (Prefix(e)[0], Prefix(e)[8]) == Signature(Kind(e))
  {
  }

  lemma PrefixCancel(p: string, x: string, y: string)
    ensures p + x == p + y <==> x == y
  {
    if p + x == p + y {
      assert x == (p + x)[|p|..];
      assert y == (p + y)[|p|..];
    }
  }

  /**
   * For the trimmed kinds, two errors of the same kind show the same text
   * exactly when their messages agree once trimmed.
   */
  lemma TrimmedDisplayIff(e1: YouDlError, e2: YouDlError)
    requires IsTrimmedKind(e1) && Kind(e1) == Kind(e2)
    ensures Display(e1) == Display(e2) <==> Trim(e1.msg) == Trim(e2.msg)
  {
    PrefixCancel(Prefix(e1), Trim(e1.msg), Trim(e2.msg));
  }

  /** An invalid URL is shown verbatim, so different URLs show different texts. */
  lemma InvalidUrlDisplayInjective(u1: string, u2: string)
    ensures Display(InvalidURL(u1)) == Display(InvalidURL(u2)) <==> u1 == u2
  {
    PrefixCancel("Invalid URL Error: ", u1, u2);
  }

  /** Titles without a backtick are recovered from the text together with the reason. */
  lemma UndownloadableDisplayInjective(t1: string, m1: string, t2: string, m2: string)
    requires '`' !in t1 && '`' !in t2
    requires Display(Undownloadable(t1, m1)) == Display(Undownloadable(t2, m2))
    ensures t1 == t2 && m1 == m2
  {
    var p := "Undownloadable Error for `";
    var s1 := p + (t1 + "`: " + m1);
    var s2 := p + (t2 + "`: " + m2);
    assert s1 == s2;
    BacktickAfterTitle(p, t1, m1);
    BacktickAfterTitle(p, t2, m2);
    assert |t1| == |t2|;
    assert t1 == s1[|p|..|p| + |t1|];
    assert t2 == s2[|p|..|p| + |t2|];
    assert m1 == s1[|p| + |t1| + 3..];
    assert m2 == s2[|p| + |t2| + 3..];
  }

  /** After the opening backtick, the first backtick is the one that closes a backtick-free title. */
  lemma BacktickAfterTitle(p: string, t: string, m: string)
    requires '`' !in t
    ensures (p + (t + "`: " + m))[|p| + |t|] == '`'
    ensures forall k :: |p| <= k < |p| + |t| ==> (p + (t + "`: " + m))[k] != '`'
  {
    forall k | |p| <= k < |p| + |t| ensures (p + (t + "`: " + m))[k] != '`' {
      assert (p + (t + "`: " + m))[k] == t[k - |p|];
    }
  }
}
