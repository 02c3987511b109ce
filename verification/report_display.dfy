/** The value truncation of `print_report` in `src/parquet_validator.rs`,
    on the UTF-8 bytes of the value, as Rust's `str` slicing works. */
module ReportDisplay {
  import opened Wrappers

  type byte = x: int | 0 <= x < 256

  const MaxShown: nat := 50
  const Kept: nat := 47
  const Ellipsis: seq<byte> := [46, 46, 46]

  /** A UTF-8 continuation byte, 0b10xxxxxx. */
  predicate IsContinuation(b: byte) {
    0x80 <= b < 0xC0
  }

  /** `str::is_char_boundary` on an in-range index: the start, the end, or a
      byte that starts a character. */
  predicate IsCharBoundary(v: seq<byte>, i: nat)
    requires i <= |v|
  {
    i == 0 || i == |v| || !IsContinuation(v[i])
  }

  /** The code as written: `&value[..47]` panics (here: fails) when byte 47
      is inside a character. */
  function TruncateAsWritten(v: seq<byte>): (r: Result<seq<byte>, string>)
    ensures r.Failure? <==> |v| > MaxShown && IsContinuation(v[Kept])
    ensures r.Success? && |v| > MaxShown ==> r.value == v[..Kept] + Ellipsis && |r.value| == MaxShown
    ensures |v| <= MaxShown ==> r == Success(v)
  {
    if |v| > MaxShown then
      if IsCharBoundary(v, Kept) then Success(v[..Kept] + Ellipsis)
      else Failure("byte index 47 is not a char boundary")
    else Success(v)
  }

  /** Two-byte 'é' thirty times: 60 bytes, and byte 47 is the second half of a character. */
  function AccentedSixty(): seq<byte> {
    seq(60, i => if i % 2 == 0 then 0xC3 else 0xA9)
  }

  /** The as-written slice fails on a 60-byte value of two-byte characters. */
  lemma AsWrittenPanicsOnMultibyte()
    ensures TruncateAsWritten(AccentedSixty()).Failure?
  {
    assert AccentedSixty()[Kept] == 0xA9;
  }

  /** The last character boundary at or before `i`. */
  function FloorBoundary(v: seq<byte>, i: nat): (j: nat)
    requires i <= |v|
    ensures j <= i && IsCharBoundary(v, j)
    ensures forall k :: j < k <= i ==> !IsCharBoundary(v, k)
  {
    if IsCharBoundary(v, i) then i else FloorBoundary(v, i - 1)
  }

  /** The corrected truncation: cut at the last character boundary at or
      before byte 47, then append "...". */
  function TruncateDisplay(v: seq<byte>): (r: seq<byte>)
    ensures |r| <= MaxShown
    ensures r == v <==> |v| <= MaxShown
    ensures |v| > MaxShown ==>
      var cut := |r| - |Ellipsis|;
      && 0 <= cut <= Kept && IsCharBoundary(v, cut)
      && r == v[..cut] + Ellipsis
      && forall k :: cut < k <= Kept ==> !IsCharBoundary(v, k)
  {
    if |v| <= MaxShown then v
    else v[..FloorBoundary(v, Kept)] + Ellipsis
  }

  /** Where the original slice succeeds, the corrected truncation gives the
      same bytes; in particular on every ASCII value. */
  lemma CorrectedAgreesWhereDefined(v: seq<byte>)
    requires TruncateAsWritten(v).Success?
    ensures TruncateAsWritten(v).value == TruncateDisplay(v)
  {
  }

  lemma AsciiNeverPanics(v: seq<byte>)
    requires forall i :: 0 <= i < |v| ==> v[i] < 0x80
    ensures TruncateAsWritten(v) == Success(TruncateDisplay(v))
  {
    if |v| > MaxShown {
      assert v[Kept] < 0x80;
    }
  }

  /** Truncating twice is truncating once. */
  lemma TruncateIdempotent(v: seq<byte>)
    ensures TruncateDisplay(TruncateDisplay(v)) == TruncateDisplay(v)
  {
  }

  /** On the 60-byte value the corrected cut falls at byte 46, a character start. */
  lemma CorrectedOnMultibyte()
    ensures TruncateDisplay(AccentedSixty()) == AccentedSixty()[..46] + Ellipsis
  {
    var v := AccentedSixty();
    assert v[Kept] == 0xA9 && v[46] == 0xC3;
    assert FloorBoundary(v, Kept) == 46;
  }
}
