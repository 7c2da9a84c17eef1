/**
 * `format_file_size`: a byte count given as text becomes `<value> <suffix>`,
 * where the suffix is the binary unit whose bucket `[1024^i, 1024^(i+1))`
 * holds the count. Text that is not an `i32` is echoed with ` B`.
 *
 * The two-decimal rendering `{:.2}` of the `f64` quotient is a parameter
 * `render`; the quotient itself is exact, since both operands are below
 * 2^31 and the divisor is a power of two. `i32::pow` overflowing, which
 * panics, is the result `None`.
 */
module FileSize {
  import opened Prelude
  import opened RustInt
  import opened RustText

  const Suffixes: seq<string> := ["B", "KiB", "MiB", "GiB", "TiB", "PiB"]

  /** `default_formatting`: the text as it is, a space, and the first suffix. */
  function DefaultFormatting(text: string): string
  {
    text + " " + Suffixes[0]
  }

  /** The count lies in the bucket of suffix `i`. */
  predicate InBucket(n: int, i: nat)
  {
    Pow(1024, i) <= n < Pow(1024, i + 1)
  }

  /** The loop of `format_file_size` from index `i` on. */
  function SizeTextFrom(n: int, render: real -> string, i: nat): Option<string>
    requires i <= |Suffixes|
    decreases |Suffixes| - i
  {
    if i == |Suffixes| then Some(DefaultFormatting(IntToString(n)))
    else if !InI32(Pow(1024, i)) || !InI32(Pow(1024, i + 1)) then None
    else if InBucket(n, i) then Some(render(n as real / Pow(1024, i) as real) + " " + Suffixes[i])
    else SizeTextFrom(n, render, i + 1)
  }

  /** What `format_file_size` returns, `None` where `i32::pow` overflows. */
  function FormattedFileSize(text: string, render: real -> string): (r: Option<string>)
    ensures ParseI32(text).None? ==> r == Some(text + " B")
  {
    match ParseI32(text)
    case None =>
      assert DefaultFormatting(text) == text + " B";
      Some(DefaultFormatting(text))
    case Some(n) => SizeTextFrom(n, render, 0)
  }

  /** `format_file_size`: parse, then try the buckets in ascending order. */
  method FormatFileSize(text: string, render: real -> string) returns (r: Option<string>)
    ensures r == FormattedFileSize(text, render)
  {
    var parsed := ParseI32(text);
    if parsed.None? {
      return Some(DefaultFormatting(text));
    }
    var n := parsed.value;
    for i := 0 to |Suffixes|
      invariant SizeTextFrom(n, render, 0) == SizeTextFrom(n, render, i)
    {
      var lower := Pow(1024, i);
      var higher := Pow(1024, i + 1);
      if !InI32(lower) || !InI32(higher) {
        return None;
      }
      if lower <= n < higher {
        return Some(render(n as real / lower as real) + " " + Suffixes[i]);
      }
    }
    return Some(DefaultFormatting(IntToString(n)));
  }

  lemma Powers()
    ensures Pow(1024, 0) == 1 && Pow(1024, 1) == 1024 && Pow(1024, 2) == 0x10_0000
    ensures Pow(1024, 3) == 0x4000_0000 && Pow(1024, 4) == 0x100_0000_0000
  {
  }

  lemma {:induction false} PowStrictlyIncreasing(i: nat, j: nat)
    requires i < j
    ensures Pow(1024, i) < Pow(1024, j)
    decreases j - i
  {
    if i + 1 < j {
      PowStrictlyIncreasing(i + 1, j);
    }
  }

  /** A count lies in at most one bucket, so the first hit is the only hit. */
  lemma BucketsDisjoint(n: int, i: nat, j: nat)
    requires InBucket(n, i) && InBucket(n, j)
    ensures i == j
  {
    if i < j {
      PowStrictlyIncreasing(i, j);
      if i + 1 < j { PowStrictlyIncreasing(i + 1, j); }
    } else if j < i {
      PowStrictlyIncreasing(j, i);
      if j + 1 < i { PowStrictlyIncreasing(j + 1, i); }
    }
  }

  /** A count in `[1, 2^30)` lies in one of the first three buckets. */
  lemma BucketOf(n: int) returns (i: nat)
    requires 1 <= n < 0x4000_0000
    ensures i < 3 && InBucket(n, i)
  {
    Powers();
    i := if n < 1024 then 0 else if n < 0x10_0000 then 1 else 2;
  }

  /**
   * A count in the bucket of suffix `i` is shown as the quotient by `1024^i`
   * followed by that suffix.
   */
  lemma BucketFormatting(n: int, render: real -> string, i: nat)
    requires i < 3 && InBucket(n, i)
    ensures SizeTextFrom(n, render, 0) == Some(render(n as real / Pow(1024, i) as real) + " " + Suffixes[i])
  {
    Powers();
    if i > 0 {
      assert !InBucket(n, 0) by { BucketsOther(n, 0, i); }
    }
    if i > 1 {
      assert !InBucket(n, 1) by { BucketsOther(n, 1, i); }
    }
  }

  lemma BucketsOther(n: int, j: nat, i: nat)
    requires InBucket(n, i) && j != i
    ensures !InBucket(n, j)
  {
    if InBucket(n, j) {
      BucketsDisjoint(n, i, j);
    }
  }

  /**
   * A count below 1 or from 2^30 on matches none of the first three buckets;
   * the fourth computes `i32::pow(1024, 4)`, which overflows.
   */
  lemma OutOfRangeOverflows(n: int, render: real -> string)
    requires n < 1 || n >= 0x4000_0000
    ensures SizeTextFrom(n, render, 0) == None
  {
    Powers();
    assert !InBucket(n, 0) && !InBucket(n, 1) && !InBucket(n, 2);
    assert SizeTextFrom(n, render, 3) == None;
  }

  /**
   * Every `i32` either hits a bucket or overflows, so the fallback after the
   * loop is never reached for a parsed count.
   */
  lemma ParsedCountNeverFallsBack(n: int, render: real -> string)
    ensures SizeTextFrom(n, render, 0).Some? ==> 1 <= n < 0x4000_0000
  {
    if n < 1 || n >= 0x4000_0000 {
      OutOfRangeOverflows(n, render);
    }
  }

  /** Every result that does not overflow ends with a space and one of `B`, `KiB`, `MiB`. */
  lemma FormattedEndsWithSuffix(text: string, render: real -> string)
    ensures FormattedFileSize(text, render).Some? ==>
      var t := FormattedFileSize(text, render).value;
      EndsWith(t, " B") || EndsWith(t, " KiB") || EndsWith(t, " MiB")
  {
    var r := FormattedFileSize(text, render);
    if ParseI32(text).Some? && r.Some? {
      var n := ParseI32(text).value;
      ParsedCountNeverFallsBack(n, render);
      var i := BucketOf(n);
      BucketFormatting(n, render, i);
      var q := render(n as real / Pow(1024, i) as real);
      EndsWithSpaced(q, Suffixes[i]);
      if i == 0 {
        assert " " + Suffixes[i] == " B";
      } else if i == 1 {
        assert " " + Suffixes[i] == " KiB";
      } else {
        assert " " + Suffixes[i] == " MiB";
      }
    }
  }

  lemma EndsWithSpaced(q: string, w: string)
    ensures EndsWith(q + " " + w, " " + w)
  {
    assert (q + " " + w)[|q|..] == " " + w;
  }

  /** The value `c / 100`. */
  function Hundredths(c: nat): real
  {
    c as real / 100.0
  }

  /** `c` hundredths written with two decimals, as `{:.2}` writes them. */
  function FixedTwo(c: nat): string
  {
    NatToString(c / 100) + "." + [DigitChar(c / 10 % 10), DigitChar(c % 10)]
  }

  /** `render` writes every value with an exact two-decimal expansion as `FixedTwo` does. */
  ghost predicate ExactOnHundredths(render: real -> string)
  {
    forall c: nat :: render(Hundredths(c)) == FixedTwo(c)
  }

  /** `"10485760"` is ten mebibytes exactly, shown as `10.00 MiB`. */
  lemma TenMebibytes(render: real -> string)
    requires ExactOnHundredths(render)
    ensures FormattedFileSize("10485760", render) == Some("10.00 MiB")
  {
    ParsesTenMebibytes();
    Powers();
    BucketFormatting(10485760, render, 2);
    RendersTen(render);
    assert "10.00" + " " + Suffixes[2] == "10.00 MiB";
  }

  lemma ParsesTenMebibytes()
    ensures ParseI32("10485760") == Some(10485760)
  {
    assert NatToString(10) == "10";
    assert NatToString(104) == "104";
    assert NatToString(1048) == "1048";
    assert NatToString(10485) == "10485";
    assert NatToString(104857) == "104857";
    assert NatToString(1048576) == "1048576";
    assert NatToString(10485760) == "10485760";
    ParseIntToString(10485760);
  }

  lemma RendersTen(render: real -> string)
    requires ExactOnHundredths(render)
    ensures render(10485760 as real / Pow(1024, 2) as real) == "10.00"
  {
    Powers();
    assert 10485760 as real / Pow(1024, 2) as real == Hundredths(1000);
    assert render(Hundredths(1000)) == FixedTwo(1000);
    assert NatToString(10) == "10";
  }

  /** `"1abc"` is not an `i32` and is echoed with ` B`. */
  lemma UnparsableEchoed(render: real -> string)
    ensures FormattedFileSize("1abc", render) == Some("1abc B")
  {
    assert !AllDigits("1abc") by { assert "1abc"[1] == 'a'; }
    assert "1abc" + " B" == "1abc B";
  }
}
