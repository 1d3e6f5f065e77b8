/** The two value validators the command line registers with clap, for the
    interpreter frequency and for the RGB colours. A validator either accepts
    the text or rejects it with a message; the messages are represented by
    which check failed, not by their wording. */
module Cli {
  import opened Decimal
  import Config

  /** Why a value was rejected. */
  datatype Rejection =
    | FrequencyParse(error: ParseError)  // "parsing interpreter frequency failed: ..."
    | FrequencyRange                     // "invalid interpreter frequency specified: ..."
    | RgbFormat                          // "invalid RGB value provided. Valid format: R,G,B"
    | RgbParse(error: ParseError)        // "parsing RGB values failed: ..."

  datatype Verdict = Accept | Reject(why: Rejection)

  /** `u16::MAX` and `u8::MAX`. */
  const U16Max: nat := 0xFFFF
  const U8Max: nat := 0xFF

  // -------------------------------------------------------------- splitting

  /** How often c occurs in s. */
  function Occurrences(s: string, c: char): nat
  {
    if |s| == 0 then 0 else (if s[0] == c then 1 else 0) + Occurrences(s[1..], c)
  }

  /** `s.split(sep).collect()`: the pieces between separators, always at least
      one, empty pieces included (so "" splits into [""]). */
  function Split(s: string, sep: char): (parts: seq<string>)
    ensures |parts| == Occurrences(s, sep) + 1
    ensures forall k :: 0 <= k < |parts| ==> sep !in parts[k]
  {
    if |s| == 0 then [""]
    else
      var rest := Split(s[1..], sep);
      if s[0] == sep then [""] + rest
      else [[s[0]] + rest[0]] + rest[1..]
  }

  /** The pieces put back together with the separator between them. */
  function Join(parts: seq<string>, sep: char): string
    requires |parts| >= 1
  {
    if |parts| == 1 then parts[0] else parts[0] + [sep] + Join(parts[1..], sep)
  }

  /** Splitting loses nothing: joining the pieces gives the string back. */
  lemma {:induction false} JoinSplit(s: string, sep: char)
    ensures Join(Split(s, sep), sep) == s
  {
    if |s| > 0 {
      var rest := Split(s[1..], sep);
      JoinSplit(s[1..], sep);
      if s[0] != sep {
        var parts := Split(s, sep);
        assert parts[1..] == rest[1..];
        if |rest| > 1 {
          assert rest[1..] == rest[1..][..];
          assert Join(rest, sep) == rest[0] + [sep] + Join(rest[1..], sep);
        }
      }
    }
  }

  /** Pieces free of the separator come back unchanged from joining and splitting. */
  lemma {:induction false} SplitJoin(parts: seq<string>, sep: char)
    requires |parts| >= 1
    requires forall k :: 0 <= k < |parts| ==> sep !in parts[k]
    ensures Split(Join(parts, sep), sep) == parts
    decreases |parts|, |parts[0]|
  {
    var head := parts[0];
    if |head| == 0 {
      if |parts| > 1 {
        SplitJoin(parts[1..], sep);
        assert Join(parts, sep) == [sep] + Join(parts[1..], sep);
      }
    } else {
      var shorter := [head[1..]] + parts[1..];
      DropFirstChar(parts, sep);
      SplitJoin(shorter, sep);
      var joined := Join(parts, sep);
      assert joined[1..] == Join(shorter, sep);
      assert head[0] != sep by {
        assert head[0] == head[..1][0];
      }
      assert [head[0]] + head[1..] == head;
    }
  }

  /** Taking the first character off the first piece takes it off the joined string,
      and keeps every piece free of the separator. */
  lemma DropFirstChar(parts: seq<string>, sep: char)
    requires |parts| >= 1 && |parts[0]| > 0
    requires forall k :: 0 <= k < |parts| ==> sep !in parts[k]
    ensures forall k :: 0 <= k < |[parts[0][1..]] + parts[1..]| ==> sep !in ([parts[0][1..]] + parts[1..])[k]
    ensures Join(parts, sep) == [parts[0][0]] + Join([parts[0][1..]] + parts[1..], sep)
  {
    var head, shorter := parts[0], [parts[0][1..]] + parts[1..];
    forall k | 0 <= k < |shorter|
      ensures sep !in shorter[k]
    {
      if k > 0 {
        assert shorter[k] == parts[k];
      } else {
        assert forall j :: 0 <= j < |head[1..]| ==> head[1..][j] == head[j + 1];
      }
    }
    if |parts| > 1 {
      assert shorter[1..] == parts[1..];
    }
  }

  // ------------------------------------------------------------- frequency

  /** `is_valid_emu_frequency`: the text must parse as a `u16` and lie in 200 ..= 1000. */
  function IsValidEmuFrequency(freq: string): (r: Verdict)
    ensures Parse(freq, U16Max).Failed? ==> r == Reject(FrequencyParse(Parse(freq, U16Max).error))
    ensures Parse(freq, U16Max).Parsed? ==>
      (r == Accept <==> 200 <= Parse(freq, U16Max).value <= 1000)
    ensures r != Accept ==> r.Reject? && (r.why.FrequencyParse? || r.why == FrequencyRange)
  {
    match Parse(freq, U16Max)
    case Parsed(f) => if f < 200 || f > 1000 then Reject(FrequencyRange) else Accept
    case Failed(e) => Reject(FrequencyParse(e))
  }

  /** The accepted frequencies, stated on the text: an optional `+` and then
      decimal digits denoting a number from 200 to 1000 (leading zeros allowed). */
  lemma FrequencyAcceptedExactly(freq: string)
    ensures IsValidEmuFrequency(freq) == Accept
        <==> |Digits(freq)| > 0 && AllDigits(Digits(freq)) && 200 <= ValueOf(Digits(freq)) <= 1000
  {
    ParseMeaning(freq, U16Max);
  }

  /** A number printed in decimal is accepted exactly when it is in range;
      too large for a `u16` is a parse error, not a range error. */
  lemma FrequencyOfNumber(f: nat)
    ensures IsValidEmuFrequency(ToDecimal(f)) == Accept <==> 200 <= f <= 1000
    ensures f > U16Max ==> IsValidEmuFrequency(ToDecimal(f)) == Reject(FrequencyParse(PosOverflow))
  {
    ValueOfToDecimal(f);
    ParseMeaning(ToDecimal(f), U16Max);
    if f > U16Max {
      ScanOverflowIsPosOverflow(ToDecimal(f), U16Max);
    }
  }

  /** A digit string whose value exceeds the maximum fails with `PosOverflow`. */
  lemma ScanOverflowIsPosOverflow(s: string, max: nat)
    requires |s| > 0 && AllDigits(s) && s[0] != '+' && ValueOf(s) > max
    ensures Parse(s, max) == Failed(PosOverflow)
  {
    assert Digits(s) == s;
    assert Parse(s, max) == Scan(0, s, max) by {
      assert s != "+" by { assert s[0] != "+"[0]; }
    }
    ScanNeverInvalid(0, s, max);
    ParseMeaning(s, max);
    assert !Parse(s, max).Parsed?;
    assert Parse(s, max).error != InvalidDigit;
    assert Parse(s, max).error != Empty;
  }

  /** Scanning digits never reports an invalid digit. */
  lemma {:induction false} ScanNeverInvalid(acc: nat, s: string, max: nat)
    requires acc <= max && AllDigits(s)
    ensures Scan(acc, s, max) != Failed(InvalidDigit) && Scan(acc, s, max) != Failed(Empty)
    decreases |s|
  {
    if |s| > 0 && 10 * acc + DigitValue(s[0]) <= max {
      ScanNeverInvalid(10 * acc + DigitValue(s[0]), s[1..], max);
    }
  }

  /** Every frequency the validator lets through is read by the configuration as
      the same number and runs 1 to 8 instructions per 60 Hz tick. */
  lemma AcceptedFrequencyPacing(freq: string)
    requires IsValidEmuFrequency(freq) == Accept
    ensures Parse(freq, Config.U32Max).Parsed?
    ensures Config.EmuFrequency(Config.Some(freq)) == Parse(freq, U16Max).value
    ensures 1 <= Config.InstructionsPerCycle(Config.EmuFrequency(Config.Some(freq))) <= 8
  {
    ParseMeaning(freq, U16Max);
    ParseMeaning(freq, Config.U32Max);
    Config.InstructionsPerCycleRange(Parse(freq, U16Max).value);
  }

  // ------------------------------------------------------------------ colour

  /** `is_valid_rgb_color` as written: three comma-separated parts are required,
      but the loop returns on its first iteration, so only the first part is
      parsed as a `u8`. */
  function IsValidRgbColor(rgb: string): (r: Verdict)
    ensures |Split(rgb, ',')| != 3 ==> r == Reject(RgbFormat)
    ensures |Split(rgb, ',')| == 3 ==>
      && (Parse(Split(rgb, ',')[0], U8Max).Parsed? ==> r == Accept)
      && (Parse(Split(rgb, ',')[0], U8Max).Failed? ==> r == Reject(RgbParse(Parse(Split(rgb, ',')[0], U8Max).error)))
  {
    var vals := Split(rgb, ',');
    if |vals| != 3 then Reject(RgbFormat)
    else
      match Parse(vals[0], U8Max)
      case Failed(e) => Reject(RgbParse(e))
      case Parsed(_) => Accept
  }

  /** The second and third parts are never looked at: "1,x,999" is accepted. */
  lemma RgbSecondAndThirdUnchecked()
    ensures IsValidRgbColor("1,x,999") == Accept
    ensures IsValidRgbColorStrict("1,x,999") == Reject(RgbParse(InvalidDigit))
  {
    SplitJoin(["1", "x", "999"], ',');
    JoinThree("1", "x", "999");
  }

  /** The parts checked one after another, the first failure deciding the answer. */
  function CheckParts(parts: seq<string>): (r: Verdict)
    ensures r == Accept <==> forall k :: 0 <= k < |parts| ==> Parse(parts[k], U8Max).Parsed?
    ensures r != Accept ==> r.Reject? && r.why.RgbParse?
  {
    if |parts| == 0 then Accept
    else match Parse(parts[0], U8Max)
      case Failed(e) => Reject(RgbParse(e))
      case Parsed(_) =>
        var rest := CheckParts(parts[1..]);
        assert forall k :: 1 <= k < |parts| ==> parts[k] == parts[1..][k - 1];
        rest
  }

  /** The validator as evidently intended: every one of the three parts must parse as a `u8`. */
  function IsValidRgbColorStrict(rgb: string): (r: Verdict)
    ensures r == Accept <==>
      |Split(rgb, ',')| == 3 && forall k :: 0 <= k < 3 ==> Parse(Split(rgb, ',')[k], U8Max).Parsed?
    ensures |Split(rgb, ',')| != 3 ==> r == Reject(RgbFormat)
  {
    var vals := Split(rgb, ',');
    if |vals| != 3 then Reject(RgbFormat) else CheckParts(vals)
  }

  /** Three pieces joined with commas. */
  lemma JoinThree(a: string, b: string, c: string)
    ensures Join([a, b, c], ',') == a + "," + b + "," + c
  {
    assert Join([c], ',') == c;
    assert [b, c][1..] == [c];
    assert Join([b, c], ',') == b + [','] + c;
    assert [a, b, c][1..] == [b, c];
    assert Join([a, b, c], ',') == a + [','] + (b + [','] + c);
    assert "," == [','];
  }

  /** Three comma-free pieces that each parse as a `u8`, joined with commas, are accepted. */
  lemma StrictAcceptsJoined(parts: seq<string>)
    requires |parts| == 3
    requires forall k :: 0 <= k < 3 ==> ',' !in parts[k] && Parse(parts[k], U8Max).Parsed?
    ensures IsValidRgbColorStrict(Join(parts, ',')) == Accept
  {
    SplitJoin(parts, ',');
  }

  /** The same for three pieces written out with their commas. */
  lemma StrictAcceptsThree(a: string, b: string, c: string)
    requires ',' !in a && ',' !in b && ',' !in c
    requires Parse(a, U8Max).Parsed? && Parse(b, U8Max).Parsed? && Parse(c, U8Max).Parsed?
    ensures IsValidRgbColorStrict(a + "," + b + "," + c) == Accept
  {
    JoinThree(a, b, c);
    StrictAcceptsJoined([a, b, c]);
  }

  /** The strict validator accepts "R,G,B" for bytes R, G, B written in decimal. */
  lemma StrictAcceptsColours(r: nat, g: nat, b: nat)
    requires r <= U8Max && g <= U8Max && b <= U8Max
    ensures IsValidRgbColorStrict(ToDecimal(r) + "," + ToDecimal(g) + "," + ToDecimal(b)) == Accept
  {
    NoCommaInDecimal(ToDecimal(r));
    NoCommaInDecimal(ToDecimal(g));
    NoCommaInDecimal(ToDecimal(b));
    ParseToDecimal(r, U8Max);
    ParseToDecimal(g, U8Max);
    ParseToDecimal(b, U8Max);
    StrictAcceptsThree(ToDecimal(r), ToDecimal(g), ToDecimal(b));
  }

  /** The strict validator accepts nothing the original one rejects. */
  lemma StrictIsStricter(rgb: string)
    ensures IsValidRgbColorStrict(rgb) == Accept ==> IsValidRgbColor(rgb) == Accept
  {
  }

  lemma NoCommaInDecimal(s: string)
    requires AllDigits(s)
    ensures ',' !in s
  {
  }
}
