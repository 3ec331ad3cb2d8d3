/** The checks and formatting helpers of the page: which uploaded files are
    accepted, and how a number of seconds is shown as `m:ss`. */
module Utils {
  import opened Wrappers
  import opened Decimal

  /** What the browser reports about a chosen file. Only the declared media
      type and the size in bytes are looked at; the contents never are. */
  datatype VideoFile = VideoFile(name: string, size: nat, mediaType: string)

  /** The verdict of the upload check; `error` is present exactly when the
      file is refused. */
  datatype Validation = Validation(isValid: bool, error: Option<string>)

  /** The size ceiling, 500 MiB. */
  const MaxSize: nat := 500 * 1024 * 1024

  /** The media types the check accepts. */
  const AllowedTypes: seq<string> := ["video/mp4", "video/mov", "video/avi", "video/quicktime"]

  const UnsupportedFormatError: string := "Formato não suportado. Use MP4, MOV ou AVI."
  const FileTooLargeError: string := "Arquivo muito grande. Máximo 500MB."

  /** The upload check: the media type is tested first, then the size. */
  function ValidateVideoFile(file: VideoFile): (r: Validation)
    ensures r.isValid <==> file.mediaType in AllowedTypes && file.size <= MaxSize
    ensures r.isValid <==> r.error == None
    ensures file.mediaType !in AllowedTypes ==> r.error == Some(UnsupportedFormatError)
    ensures file.mediaType in AllowedTypes && file.size > MaxSize ==> r.error == Some(FileTooLargeError)
  {
    if file.mediaType !in AllowedTypes then
      Validation(false, Some(UnsupportedFormatError))
    else if file.size > MaxSize then
      Validation(false, Some(FileTooLargeError))
    else
      Validation(true, None)
  }

  /** A file with a refused type gets the format message even when it is also
      too large: the size is never reported for it. */
  lemma TypeCheckTakesPrecedence(file: VideoFile)
    requires file.mediaType !in AllowedTypes && file.size > MaxSize
    ensures ValidateVideoFile(file) == Validation(false, Some(UnsupportedFormatError))
    ensures ValidateVideoFile(file).error != Some(FileTooLargeError)
  {
  }

  /** The ceiling is inclusive: 524288000 bytes of an accepted type pass,
      one byte more does not. */
  lemma CeilingIsInclusive(file: VideoFile)
    requires file.mediaType in AllowedTypes
    ensures file.size == 524288000 ==> ValidateVideoFile(file).isValid
    ensures file.size == 524288001 ==> ValidateVideoFile(file).error == Some(FileTooLargeError)
  {
  }

  /** The verdict depends on the declared type and the size only, never on
      the file name. */
  lemma ValidationIgnoresName(a: VideoFile, b: VideoFile)
    requires a.mediaType == b.mediaType && a.size == b.size
    ensures ValidateVideoFile(a) == ValidateVideoFile(b)
  {
  }

  /** JavaScript's `a % b` for a positive divisor: the remainder takes the
      sign of `a` (it truncates toward zero, unlike Dafny's `%`). */
  function JsRemainder(a: int, b: int): (r: int)
    requires b > 0
    ensures a >= 0 ==> 0 <= r < b
    ensures a < 0 ==> -b < r <= 0
  {
    if a >= 0 then a % b else -((-a) % b)
  }

  /** The remainder is the one of a division whose quotient truncates
      toward zero: `a` is a multiple of `b` plus `r`. With the bounds above
      this fixes `r` as JavaScript's `a % b`. */
  lemma {:induction false} JsRemainderValue(a: int, b: int)
    requires b > 0
    ensures exists q: int :: a == b * q + JsRemainder(a, b)
  {
    if a >= 0 {
      var q := a / b;
      assert a == b * q + JsRemainder(a, b);
    } else {
      var q := (-a) / b;
      assert -a == b * q + (-a) % b;
      assert a == b * (-q) + JsRemainder(a, b);
    }
  }

  /** JavaScript's `s.padStart(n, c)` for a one-character pad. */
  function PadStart(s: string, n: nat, c: char): (r: string)
    ensures |r| == if |s| >= n then |s| else n
  {
    if |s| >= n then s else seq(n - |s|, _ => c) + s
  }

  /** The padded text ends with `s` and everything before it is the pad
      character. */
  lemma {:induction false} PadStartContents(s: string, n: nat, c: char)
    ensures var r := PadStart(s, n, c);
      r[|r| - |s|..] == s && forall i :: 0 <= i < |r| - |s| ==> r[i] == c
  {
  }

  /** `formatDuration`: whole minutes (rounded down), a colon, and the
      remaining seconds padded to two characters with `0`. */
  function FormatDuration(seconds: int): (r: string)
    ensures |r| >= 4
    ensures seconds >= 0 <==> r[0] != '-'
  {
    // Math.floor(seconds / 60): Dafny's `/` by a positive divisor rounds down too
    var minutes := seconds / 60;
    var remaining := JsRemainder(seconds, 60);
    IntToString(minutes) + ":" + PadStart(IntToString(remaining), 2, '0')
  }

  /** Negative counts follow JavaScript's arithmetic: the minutes round
      down, the remainder keeps the sign of the count, and a remainder like
      `-5` is already two characters long, so it is not padded. */
  lemma NegativeSecondsText()
    ensures FormatDuration(-5) == "-1:-5"
    ensures FormatDuration(-61) == "-2:-1"
  {
    assert IntToString(-1) == "-1" && IntToString(-2) == "-2";
    assert IntToString(-5) == "-5" && PadStart("-5", 2, '0') == "-5";
  }

  /** Text of the form `m:ss`: canonical decimal minutes, a colon, and two
      digits that stand for less than 60. */
  predicate IsDurationText(t: string) {
    |t| >= 4 && t[|t| - 3] == ':' && IsCanonical(t[..|t| - 3]) &&
    AllDigits(t[|t| - 2..]) && DigitsValue(t[|t| - 2..]) < 60
  }

  /** Reads `m:ss` text back into seconds: the text is cut at the colon
      three characters from its end and the two fields are read. */
  function ParseDuration(t: string): (r: Option<int>)
    ensures r.Some? ==> r.value >= 0
  {
    if |t| >= 4 && t[|t| - 3] == ':' then ParseFields(t[..|t| - 3], t[|t| - 2..]) else None
  }

  /** The minutes field times 60 plus the seconds field, which must be two
      digits standing for less than 60. */
  function ParseFields(m: string, s: string): (r: Option<int>)
    ensures r.Some? ==> r.value >= 0
  {
    if ParseNat(m).Some? && |s| == 2 && AllDigits(s) && DigitsValue(s) < 60
    then Some(ParseNat(m).value * 60 + DigitsValue(s))
    else None
  }

  /** On a non-negative count no minus sign appears: the text is the
      minutes, a colon and the zero-padded remaining seconds. */
  lemma {:induction false} FormatDurationOfNat(seconds: nat)
    ensures FormatDuration(seconds) ==
      NatToString(seconds / 60) + ":" + PadStart(NatToString(seconds % 60), 2, '0')
  {
  }

  /** The padded text of a number below 60 is two digits spelling it. */
  lemma {:induction false} PaddedSeconds(v: nat)
    requires v < 60
    ensures var p := PadStart(NatToString(v), 2, '0');
      |p| == 2 && AllDigits(p) && DigitsValue(p) == v
  {
    var ss := NatToString(v);
    var p := PadStart(ss, 2, '0');
    NatToStringRoundTrip(v);
    if |ss| == 1 {
      assert p == ['0', ss[0]];
      assert DigitsValue(ss) == DigitValue(ss[0]) by {
        assert ss[..0] == [];
      }
      TwoDigitValue(p);
    } else {
      assert p == ss;
    }
  }

  /** `r` reads as `minutes:ss`: a colon three characters from the end,
      the minutes before it, and two digits spelling `rem` after it. */
  predicate SplitsAs(r: string, minutes: nat, rem: nat) {
    var k := |r| - 3;
    |r| >= 4 && r[k] == ':' && ParseNat(r[..k]) == Some(minutes) &&
    IsDigit(r[k + 1]) && IsDigit(r[k + 2]) &&
    DigitValue(r[k + 1]) * 10 + DigitValue(r[k + 2]) == rem
  }

  /** For a non-negative count of seconds the text is `m:ss`: the minutes
      field reads back as seconds div 60 and the last two characters are
      digits spelling seconds mod 60, from 00 to 59. */
  lemma {:induction false} FormatDurationShape(seconds: nat)
    ensures SplitsAs(FormatDuration(seconds), seconds / 60, seconds % 60)
    ensures IsDurationText(FormatDuration(seconds))
  {
    var m := NatToString(seconds / 60);
    var p := PadStart(NatToString(seconds % 60), 2, '0');
    assert FormatDuration(seconds) == m + ":" + p by {
      FormatDurationOfNat(seconds);
    }
    assert SplitsAs(m + ":" + p, seconds / 60, seconds % 60) && IsDurationText(m + ":" + p) by {
      PaddedSeconds(seconds % 60);
      NatToStringRoundTrip(seconds / 60);
      NatToStringCanonical(seconds / 60);
      JoinedShape(m, p, seconds / 60, seconds % 60);
    }
  }

  /** Canonical minutes and two digits below 60, joined by a colon, make
      `m:ss` text. */
  lemma {:induction false} JoinedShape(m: string, p: string, minutes: nat, rem: nat)
    requires IsCanonical(m) && DigitsValue(m) == minutes
    requires |p| == 2 && AllDigits(p) && DigitsValue(p) == rem && rem < 60
    ensures SplitsAs(m + ":" + p, minutes, rem) && IsDurationText(m + ":" + p)
  {
    var r := m + ":" + p;
    SplitAtColon(m, p);
    TwoDigitValue(p);
    assert r[|r| - 2..] == p;
  }

  /** Where the fields of `m:ss` text built by concatenation sit. */
  lemma {:induction false} SplitAtColon(m: string, p: string)
    requires |p| == 2
    ensures var r := m + ":" + p;
      |r| == |m| + 3 && r[..|m|] == m && r[|m|] == ':' && r[|m| + 1..] == p &&
      r[|m| + 1] == p[0] && r[|m| + 2] == p[1]
  {
  }

  lemma {:induction false} TwoDigitValue(d: string)
    requires |d| == 2 && AllDigits(d)
    ensures DigitsValue(d) == DigitValue(d[0]) * 10 + DigitValue(d[1])
  {
    var p := d[..1];
    assert p[..0] == [];
    assert DigitsValue(p) == DigitValue(d[0]);
  }

  /** Round trip: reading the formatted text back gives the original
      non-negative number of seconds. */
  lemma {:induction false} FormatDurationRoundTrip(seconds: nat)
    ensures ParseDuration(FormatDuration(seconds)) == Some(seconds)
  {
    var minutes, rem := seconds / 60, seconds % 60;
    assert minutes * 60 + rem == seconds;
    var t := NatToString(minutes) + ":" + PadStart(NatToString(rem), 2, '0');
    assert FormatDuration(seconds) == t by {
      FormatDurationOfNat(seconds);
    }
    assert ParseDuration(t) == Some(minutes * 60 + rem) by {
      FieldsRoundTrip(minutes, rem);
    }
  }

  /** Reading back the joined text of a minutes count and a seconds count
      below 60. */
  lemma {:induction false} FieldsRoundTrip(minutes: nat, rem: nat)
    requires rem < 60
    ensures ParseDuration(NatToString(minutes) + ":" + PadStart(NatToString(rem), 2, '0'))
      == Some(minutes * 60 + rem)
  {
    PaddedSeconds(rem);
    NatToStringRoundTrip(minutes);
    ParseJoined(NatToString(minutes), PadStart(NatToString(rem), 2, '0'));
  }

  /** Reading `m:ss` text built from a digit field and a two-digit field. */
  lemma {:induction false} ParseJoined(m: string, p: string)
    requires |m| >= 1 && AllDigits(m)
    requires |p| == 2 && AllDigits(p) && DigitsValue(p) < 60
    ensures ParseDuration(m + ":" + p) == Some(DigitsValue(m) * 60 + DigitsValue(p))
  {
    SplitAtColon(m, p);
    var r := m + ":" + p;
    assert r[..|r| - 3] == m;
    assert r[|r| - 2..] == p;
    assert ParseNat(m) == Some(DigitsValue(m));
  }

  /** Text with a colon three characters from the end is its two fields
      joined by that colon. */
  lemma {:induction false} JoinAtColon(t: string)
    requires |t| >= 4 && t[|t| - 3] == ':'
    ensures t == t[..|t| - 3] + ":" + t[|t| - 2..]
  {
  }

  /** The texts of non-negative counts are exactly the `m:ss` texts: a
      text equals the formatting of a non-negative `seconds` if and only if
      it is `m:ss` text that reads back as `seconds`. */
  lemma {:induction false} FormatDurationImage(seconds: nat, t: string)
    ensures FormatDuration(seconds) == t <==> IsDurationText(t) && ParseDuration(t) == Some(seconds)
  {
    if FormatDuration(seconds) == t {
      FormattedIsDurationText(seconds);
    }
    if IsDurationText(t) && ParseDuration(t) == Some(seconds) {
      DurationTextIsFormatted(t);
    }
  }

  /** Only a non-negative count formats to `m:ss` text, and that text reads
      back as the count. */
  lemma {:induction false} FormattedIsDurationText(seconds: int)
    ensures IsDurationText(FormatDuration(seconds)) ==> seconds >= 0
    ensures seconds >= 0 ==>
      IsDurationText(FormatDuration(seconds)) && ParseDuration(FormatDuration(seconds)) == Some(seconds)
  {
    var t := FormatDuration(seconds);
    if seconds >= 0 {
      FormatDurationShape(seconds);
      FormatDurationRoundTrip(seconds);
    } else {
      assert t[0] == '-';
      assert |t[..|t| - 3]| >= 1 ==> !IsDigit(t[..|t| - 3][0]);
    }
  }

  /** Every `m:ss` text is the formatting of the count it reads back as. */
  lemma {:induction false} DurationTextIsFormatted(t: string)
    requires IsDurationText(t)
    ensures ParseDuration(t).Some? && FormatDuration(ParseDuration(t).value) == t
  {
    var mText, sText := t[..|t| - 3], t[|t| - 2..];
    var m, ss := DigitsValue(mText), DigitsValue(sText);
    var seconds := m * 60 + ss;
    assert ParseDuration(t) == Some(seconds);
    assert seconds / 60 == m && seconds % 60 == ss;
    CanonicalRoundTrip(mText);
    TwoDigitText(sText);
    FormatDurationOfNat(seconds);
    JoinAtColon(t);
    calc {
      FormatDuration(seconds);
      NatToString(m) + ":" + PadStart(NatToString(ss), 2, '0');
      mText + ":" + sText;
      t;
    }
  }

  /** Any two digits are the padded text of their value. */
  lemma {:induction false} TwoDigitText(d: string)
    requires |d| == 2 && AllDigits(d)
    ensures PadStart(NatToString(DigitsValue(d)), 2, '0') == d
  {
    TwoDigitValue(d);
    if d[0] == '0' {
      assert NatToString(DigitsValue(d)) == [d[1]] by {
        DigitCharOfValue(d[1]);
      }
    } else {
      CanonicalRoundTrip(d);
    }
  }
}
