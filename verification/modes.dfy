/**
 * The command-line mode values and their text forms (src/cli/modes.rs):
 * `GpsMode`'s `FromStr` and `Display`, and the `Receiver` arm of
 * `RunMode`'s `Display`.
 */
module Modes {
  import opened Wrappers

  type U16 = x: int | 0 <= x < 0x1_0000

  /** Where the GPS data comes from; `device` is the device path, as text. */
  datatype GpsMode = Host(device: string) | Phone(device: string)

  // ---------------------------------------------------------------------
  // str::split on one character

  /**
   * Rust's `s.split(sep)` collected into a vector: the pieces between
   * successive occurrences of `sep`, empty pieces included. There is always
   * at least one piece.
   */
  function Split(s: string, sep: char): (parts: seq<string>)
    ensures |parts| >= 1
  {
    if |s| == 0 then [""]
    else
      var rest := Split(s[1..], sep);
      if s[0] == sep then [""] + rest
      else [[s[0]] + rest[0]] + rest[1..]
  }

  /** The pieces put back together, `sep` between each two. */
  function Join(parts: seq<string>, sep: char): string
    requires |parts| >= 1
  {
    if |parts| == 1 then parts[0] else parts[0] + [sep] + Join(parts[1..], sep)
  }

  /** The number of occurrences of `c` in `s`. */
  function Count(s: string, c: char): nat {
    if |s| == 0 then 0 else (if s[0] == c then 1 else 0) + Count(s[1..], c)
  }

  /** Splitting loses nothing: joining the pieces gives back the text. */
  lemma {:induction false} JoinSplit(s: string, sep: char)
    ensures Join(Split(s, sep), sep) == s
  {
    if |s| > 0 {
      var rest := Split(s[1..], sep);
      JoinSplit(s[1..], sep);
      if s[0] == sep {
        assert Split(s, sep) == [""] + rest;
        assert ([""] + rest)[1..] == rest;
      } else {
        var parts := [[s[0]] + rest[0]] + rest[1..];
        assert Split(s, sep) == parts;
        if |rest| > 1 {
          assert parts[1..] == rest[1..];
          assert Join(rest, sep) == rest[0] + [sep] + Join(rest[1..], sep);
        }
        assert s == [s[0]] + s[1..];
      }
    }
  }

  /** No piece contains the separator, and there is one piece more than separators. */
  lemma {:induction false} SplitPieces(s: string, sep: char)
    ensures |Split(s, sep)| == Count(s, sep) + 1
    ensures forall i :: 0 <= i < |Split(s, sep)| ==> sep !in Split(s, sep)[i]
  {
    if |s| > 0 {
      SplitPieces(s[1..], sep);
      var rest := Split(s[1..], sep);
      if s[0] != sep {
        var parts := [[s[0]] + rest[0]] + rest[1..];
        assert Split(s, sep) == parts;
        forall i | 0 <= i < |parts| ensures sep !in parts[i] {
          if i > 0 { assert parts[i] == rest[i]; }
        }
      }
    }
  }

  /** Text without the separator is one piece. */
  lemma {:induction false} SplitWithoutSeparator(s: string, sep: char)
    requires sep !in s
    ensures Split(s, sep) == [s]
  {
    if |s| > 0 {
      SplitWithoutSeparator(s[1..], sep);
      assert s == [s[0]] + s[1..];
    }
  }

  /** A separator-free word followed by the separator splits off as the first piece. */
  lemma {:induction false} SplitAfterWord(w: string, sep: char, rest: string)
    requires sep !in w
    ensures Split(w + [sep] + rest, sep) == [w] + Split(rest, sep)
  {
    if |w| == 0 {
      assert w + [sep] + rest == [sep] + rest;
      assert ([sep] + rest)[1..] == rest;
    } else {
      SplitAfterWord(w[1..], sep, rest);
      assert (w + [sep] + rest)[1..] == w[1..] + [sep] + rest;
      assert [w[0]] + w[1..] == w;
    }
  }

  // ---------------------------------------------------------------------
  // GpsMode

  /** The error text `from_str` returns for input `s`. */
  function InvalidGpsMode(s: string): string {
    "invalid GPS mode: " + s
  }

  /** `FromStr for GpsMode`: exactly two space-separated words, the first `Host` or `Phone`. */
  function FromStr(s: string): (r: Result<GpsMode, string>)
    ensures r.Err? ==> r.error == InvalidGpsMode(s)
  {
    var parts := Split(s, ' ');
    if |parts| != 2 then Err(InvalidGpsMode(s))
    else if parts[0] == "Host" then Ok(Host(parts[1]))
    else if parts[0] == "Phone" then Ok(Phone(parts[1]))
    else Err(InvalidGpsMode(s))
  }

  /** The word `Display` prints before the device. */
  function Keyword(m: GpsMode): string {
    match m
    case Host(_) => "Host"
    case Phone(_) => "Phone"
  }

  /** `Display for GpsMode`: the keyword, one space, the device path. */
  function Display(m: GpsMode): (s: string)
    ensures s == Keyword(m) + " " + m.device
  {
    match m
    case Host(d) => "Host " + d
    case Phone(d) => "Phone " + d
  }

  /** Printing then parsing gives the mode back when its device has no space. */
  lemma DisplayThenParse(m: GpsMode)
    requires ' ' !in m.device
    ensures FromStr(Display(m)) == Ok(m)
  {
    SplitAfterWord(Keyword(m), ' ', m.device);
    SplitWithoutSeparator(m.device, ' ');
    assert Keyword(m) + " " + m.device == Keyword(m) + [' '] + m.device;
  }

  /** A parse succeeds exactly on the printed form of a mode whose device has no space. */
  lemma ParseCharacterisation(s: string, m: GpsMode)
    ensures FromStr(s) == Ok(m) <==> s == Display(m) && ' ' !in m.device
  {
    if FromStr(s) == Ok(m) {
      var parts := Split(s, ' ');
      JoinSplit(s, ' ');
      SplitPieces(s, ' ');
      assert parts[1..] == [parts[1]];
      assert Join(parts, ' ') == parts[0] + [' '] + parts[1];
      assert ' ' !in parts[1];
    }
    if s == Display(m) && ' ' !in m.device {
      DisplayThenParse(m);
    }
  }

  /** A device path with a space never survives the round trip: it splits into three or more pieces. */
  lemma DeviceWithSpaceRejected(m: GpsMode)
    requires ' ' in m.device
    ensures FromStr(Display(m)) == Err(InvalidGpsMode(Display(m)))
  {
    var s := Display(m);
    if FromStr(s).Ok? {
      ParseCharacterisation(s, FromStr(s).value);
      DisplayInjective(FromStr(s).value, m);
    }
  }

  /** Different modes print differently. */
  lemma DisplayInjective(m1: GpsMode, m2: GpsMode)
    ensures Display(m1) == Display(m2) ==> m1 == m2
  {
    assert Display(m1)[0] == Keyword(m1)[0] && Display(m2)[0] == Keyword(m2)[0];
    if Display(m1) == Display(m2) && Keyword(m1) == Keyword(m2) {
      var k := |Keyword(m1)| + 1;
      assert Display(m1)[k..] == m1.device;
      assert Display(m2)[k..] == m2.device;
    }
  }

  /** Two words whose first is neither `Host` nor `Phone` (case matters) are rejected. */
  lemma UnknownKeywordRejected(w: string, d: string)
    requires ' ' !in w && ' ' !in d && w != "Host" && w != "Phone"
    ensures FromStr(w + " " + d) == Err(InvalidGpsMode(w + " " + d))
  {
    assert w + " " + d == w + [' '] + d;
    SplitAfterWord(w, ' ', d);
    SplitWithoutSeparator(d, ' ');
  }

  /** Parsing then printing gives the text back. */
  lemma ParseThenDisplay(s: string)
    requires FromStr(s).Ok?
    ensures Display(FromStr(s).value) == s
  {
    ParseCharacterisation(s, FromStr(s).value);
  }

  // ---------------------------------------------------------------------
  // RunMode::Receiver

  /** The character for a decimal digit. */
  function DigitChar(d: nat): (c: char)
    requires d < 10
    ensures '0' <= c <= '9'
  {
    "0123456789"[d]
  }

  /** The decimal text of `n`, as `{}` prints an unsigned integer. */
  function DecimalString(n: nat): (s: string)
    ensures |s| >= 1
  {
    if n < 10 then [DigitChar(n)] else DecimalString(n / 10) + [DigitChar(n % 10)]
  }

  /** Reads decimal digits back as a number: the reference definition for `DecimalString`. */
  function DecimalValue(s: string): nat
    requires forall i :: 0 <= i < |s| ==> '0' <= s[i] <= '9'
  {
    if |s| == 0 then 0 else 10 * DecimalValue(s[..|s| - 1]) + (s[|s| - 1] as int - '0' as int)
  }

  /** The printed number is digits only, with no leading zero, and reads back as the number. */
  lemma {:induction false} DecimalStringRoundTrip(n: nat)
    ensures forall i :: 0 <= i < |DecimalString(n)| ==> '0' <= DecimalString(n)[i] <= '9'
    ensures |DecimalString(n)| > 1 ==> DecimalString(n)[0] != '0'
    ensures DecimalValue(DecimalString(n)) == n
  {
    if n >= 10 {
      DecimalStringRoundTrip(n / 10);
      var s := DecimalString(n);
      assert s[..|s| - 1] == DecimalString(n / 10);
    }
  }

  /** The `Receiver` arm of `Display for RunMode`: `Receiver (<port>)`. */
  function DisplayReceiver(port: U16): (s: string)
    ensures |s| >= 12 && s[..10] == "Receiver (" && s[|s| - 1] == ')'
    ensures forall i :: 10 <= i < |s| - 1 ==> '0' <= s[i] <= '9'
    ensures DecimalValue(s[10..|s| - 1]) == port
    ensures |s| > 12 ==> s[10] != '0'
  {
    DecimalStringRoundTrip(port);
    var s := "Receiver (" + DecimalString(port) + ")";
    assert s[10..|s| - 1] == DecimalString(port);
    assert s[10] == DecimalString(port)[0];
    s
  }
}
